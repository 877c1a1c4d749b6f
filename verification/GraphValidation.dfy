/** Exactly which checkpoints validation accepts (zhongshu-core/src/agent/execution_graph.rs:689-876). */
module GraphValidation {
  import opened Wrappers
  import opened Text
  import opened GraphPaths
  import opened ExecutionGraph
  import opened GraphLaws
  import opened GraphRecovery

  /** The nodes are those of the records, each recorded once, and pending. */
  ghost predicate Laid(records: seq<Entry<Node>>, nodes: map<string, Node>) {
    && (forall i, j :: 0 <= i < j < |records| ==> records[i].id != records[j].id)
    && (forall e :: e in records ==> e.id in nodes && nodes[e.id] == Node(e.value.kind, Pending))
    && forall id :: id in nodes ==> exists e :: e in records && e.id == id
  }

  lemma LaidSnoc(before: seq<Entry<Node>>, nodes: map<string, Node>, last: Entry<Node>)
    requires Laid(before, nodes) && last.id !in nodes
    ensures Laid(before + [last], nodes[last.id := Node(last.value.kind, Pending)])
  {
    var records, more := before + [last], nodes[last.id := Node(last.value.kind, Pending)];
    assert forall e :: e in records <==> e in before || e == last;
    forall i, j | 0 <= i < j < |records| ensures records[i].id != records[j].id {
      if j == |before| { assert before[i] in before; }
    }
    forall id | id in more ensures exists e :: e in records && e.id == id {
      if id == last.id {
        assert last in records;
      } else {
        var e :| e in before && e.id == id;
        assert e in records;
      }
    }
  }

  lemma NothingLaid()
    ensures Laid([], map[])
  {
  }

  lemma TopologyLast(records: seq<Entry<Node>>)
    requires records != [] && Topology(records).Ok?
    ensures
      var t, last := Topology(records[..|records| - 1]), records[|records| - 1];
      t.Ok? && AddNode(t.value, last.id, Node(last.value.kind, Pending)) == Ok(Topology(records).value)
  {
    hide AddNode;
  }

  lemma AddNodeInserts(t: Graph, id: string, node: Node)
    requires AddNode(t, id, node).Ok?
    ensures id !in t.nodes && AddNode(t, id, node).value == t.(nodes := t.nodes[id := node])
  {
    hide IsBlank;
  }

  lemma {:induction false} TopologyMeans(records: seq<Entry<Node>>)
    requires Topology(records).Ok?
    ensures
      var t := Topology(records).value;
      Shape(t) && t.edges == [] && Laid(records, t.nodes)
  {
    hide Shape; hide AddNode; hide Laid;
    if records == [] {
      EmptyIsSound();
      NothingLaid();
    } else {
      var before, last := records[..|records| - 1], records[|records| - 1];
      var t, node := Topology(before), Node(last.value.kind, Pending);
      TopologyLast(records);
      hide Topology;
      TopologyMeans(before);
      AddNodeShape(t.value, last.id, node);
      AddNodeInserts(t.value, last.id, node);
      LaidSnoc(before, t.value.nodes, last);
      assert records == before + [last];
    }
  }

  lemma WithEdgesLast(t: Graph, edges: seq<Edge>)
    requires edges != [] && WithEdges(t, edges).Ok?
    ensures
      var h := WithEdges(t, edges[..|edges| - 1]);
      h.Ok? && AddEdge(h.value, edges[|edges| - 1]) == Ok(WithEdges(t, edges).value)
  {
    hide AddEdge;
  }

  lemma AddEdgeAppends(t: Graph, e: Edge)
    requires AddEdge(t, e).Ok?
    ensures AddEdge(t, e).value == t.(edges := t.edges + [e])
  {
    hide Reaches; hide Linked;
  }

  lemma {:induction false} WithEdgesMeans(t: Graph, edges: seq<Edge>)
    requires Shape(t) && t.edges == [] && WithEdges(t, edges).Ok?
    ensures WithEdges(t, edges).value == t.(edges := edges) && Shape(t.(edges := edges))
    decreases |edges|
  {
    hide Shape; hide AddEdge;
    if edges == [] {
      assert t.(edges := edges) == t;
    } else {
      var before, e := edges[..|edges| - 1], edges[|edges| - 1];
      WithEdgesLast(t, edges);
      hide WithEdges;
      WithEdgesMeans(t, before);
      AddEdgeShape(t.(edges := before), e);
      AddEdgeAppends(t.(edges := before), e);
      assert edges == before + [e];
    }
  }

  lemma {:induction false} ReplayMeans(ids: set<string>, ts: seq<Transition>)
    requires Replay(ids, ts).Some?
    ensures
      var states := Replay(ids, ts).value;
      && states.Keys == ids
      && (forall id :: id in ids ==> states[id] == StateAfter(ts, id))
      && forall i: nat | i < |ts| ::
           ts[i].sequence == i + 1 && ts[i].node in ids && ValidMove(ts[i].from, ts[i].to)
           && ts[i].from == StateAfter(ts[..i], ts[i].node)
  {
    if ts != [] {
      var before := ts[..|ts| - 1];
      ReplayMeans(ids, before);
      hide ValidMove;
      forall i: nat | i < |ts| ensures
        ts[i].sequence == i + 1 && ts[i].node in ids && ValidMove(ts[i].from, ts[i].to)
        && ts[i].from == StateAfter(ts[..i], ts[i].node)
      {
        if i < |before| {
          assert before[i] == ts[i] && before[..i] == ts[..i];
        } else {
          assert ts[..i] == before;
        }
      }
    }
  }

  lemma {:induction false} MapOfDistinct<V>(entries: seq<Entry<V>>)
    requires forall i, j :: 0 <= i < j < |entries| ==> entries[i].id != entries[j].id
    ensures Lists(entries, MapOf(entries))
  {
    if entries != [] {
      var before, last := entries[..|entries| - 1], entries[|entries| - 1];
      MapOfDistinct(before);
      assert forall e :: e in entries ==> e in before || e == last;
      forall i | 0 <= i < |before| ensures before[i].id != last.id {
        assert before[i] == entries[i];
      }
      forall e | e in before ensures e in entries {}
      assert last in entries;
    }
  }

  lemma NodesMean(s: Snapshot)
    requires Validated(s).Ok?
    ensures Lists(s.nodes, Validated(s).value.nodes) && Shape(Validated(s).value)
  {
    var g, t := Validated(s).value, Topology(s.nodes).value;
    TopologyMeans(s.nodes);
    WithEdgesMeans(t, s.edges);
    MapOfDistinct(s.nodes);
    hide Topology; hide WithEdges; hide Replay; hide ReconciliationsMatch; hide ArtifactsMatch; hide StatesMatch;
    hide Shape; hide MapOf;
    forall id ensures id in t.nodes <==> id in g.nodes {
      if id in t.nodes {
        var e :| e in s.nodes && e.id == id;
      }
      if id in g.nodes { assert Entry(id, g.nodes[id]) in s.nodes; }
    }
    forall id | id in t.nodes ensures g.nodes[id].kind == t.nodes[id].kind {
      var e :| e in s.nodes && e.id == id;
    }
    ShapeByKinds(t.(edges := s.edges), g);
  }

  lemma TopologyKeys(s: Snapshot)
    requires Validated(s).Ok?
    ensures Topology(s.nodes).value.nodes.Keys == Validated(s).value.nodes.Keys
  {
    var g, t := Validated(s).value, Topology(s.nodes).value;
    TopologyMeans(s.nodes);
    NodesMean(s);
    hide Topology; hide Validated; hide Shape;
    forall id ensures id in t.nodes <==> id in g.nodes {
      if id in t.nodes { var e :| e in s.nodes && e.id == id; }
      if id in g.nodes { assert Entry(id, g.nodes[id]) in s.nodes; }
    }
  }

  /** What the checks of an accepted snapshot say about its states. */
  lemma ChecksOf(s: Snapshot)
    requires Validated(s).Ok?
    ensures
      var g := Validated(s).value;
      var states := Replay(g.nodes.Keys, s.transitions);
      && states.Some? && StatesMatch(s.nodes, states.value) && ArtifactsMatch(s.artifacts, states.value)
      && ReconciliationsMatch(g.transitions, g.reconciliations)
      && g.transitions == s.transitions && g.nextSequence == |s.transitions| + 1
      && g.artifacts == MapOf(s.artifacts)
  {
    TopologyKeys(s);
    hide Topology; hide WithEdges; hide Replay; hide ReconciliationsMatch; hide ArtifactsMatch; hide StatesMatch;
    hide MapOf;
  }

  lemma StatesMean(s: Snapshot, g: Graph, states: map<string, NodeState>)
    requires Lists(s.nodes, g.nodes) && StatesMatch(s.nodes, states)
    ensures forall id :: id in g.nodes ==> id in states && states[id] == g.nodes[id].state
  {
    forall id | id in g.nodes ensures id in states && states[id] == g.nodes[id].state {
      assert Entry(id, g.nodes[id]) in s.nodes;
      var i :| 0 <= i < |s.nodes| && s.nodes[i] == Entry(id, g.nodes[id]);
    }
  }

  /** A replay that passes is an exact history. */
  lemma ReplayIsHistory(g: Graph)
    requires Replay(g.nodes.Keys, g.transitions).Some? && g.nextSequence == |g.transitions| + 1
    requires
      var states := Replay(g.nodes.Keys, g.transitions).value;
      forall id :: id in g.nodes ==> id in states && states[id] == g.nodes[id].state
    ensures History(g)
  {
    ReplayMeans(g.nodes.Keys, g.transitions);
    hide Replay; hide ValidMove; hide StateAfter;
    forall i: nat | i < |g.transitions| ensures GoodTransition(g, i) {}
    hide GoodTransition;
  }

  lemma HistoryMeans(s: Snapshot)
    requires Validated(s).Ok?
    ensures History(Validated(s).value)
  {
    var g := Validated(s).value;
    NodesMean(s);
    ChecksOf(s);
    hide Validated; hide Replay; hide ReconciliationsMatch; hide ArtifactsMatch; hide Shape; hide MapOf; hide Lists;
    hide StatesMatch; hide History;
    StatesMean(s, g, Replay(g.nodes.Keys, s.transitions).value);
    ReplayIsHistory(g);
  }

  lemma ProducedMeans(s: Snapshot)
    requires Validated(s).Ok?
    ensures Lists(s.artifacts, Validated(s).value.artifacts) && Produced(Validated(s).value)
  {
    var g := Validated(s).value;
    HistoryMeans(s);
    ChecksOf(s);
    ReplayMeans(g.nodes.Keys, s.transitions);
    MapOfDistinct(s.artifacts);
    hide Validated; hide Replay; hide ReconciliationsMatch; hide StatesMatch;
    hide MapOf; hide ValidMove; hide StateAfter; hide GoodTransition;
    forall a | a in g.artifacts
      ensures g.artifacts[a] in g.nodes && g.nodes[g.artifacts[a]].state.Succeeded?
    {
      assert Entry(a, g.artifacts[a]) in s.artifacts;
      var i :| 0 <= i < |s.artifacts| && s.artifacts[i] == Entry(a, g.artifacts[a]);
    }
  }

  lemma AcceptedIsWellFormed(s: Snapshot)
    requires Validated(s).Ok?
    ensures WellFormed(Validated(s).value) && IsSnapshotOf(s, Validated(s).value)
  {
    NodesMean(s);
    HistoryMeans(s);
    ProducedMeans(s);
    ChecksOf(s);
    HistoryCounts(Validated(s).value);
    ReconciliationsMatchIff(s.transitions, s.reconciliations);
    hide Topology; hide WithEdges; hide Replay; hide StatesMatch; hide ReconciliationsMatch; hide ArtifactsMatch;
    hide MapOf; hide Shape; hide History; hide Produced; hide Reconciled; hide Lists;
  }

  /** A checkpoint is accepted, and restores a graph, exactly when it lists that graph and the graph is
      well formed. */
  lemma AcceptedIff(s: Snapshot, g: Graph)
    ensures Validated(s) == Ok(g) <==> WellFormed(g) && IsSnapshotOf(s, g)
  {
    if Validated(s) == Ok(g) { AcceptedIsWellFormed(s); }
    if WellFormed(g) && IsSnapshotOf(s, g) { WellFormedRoundTrip(g, s); }
  }
}
