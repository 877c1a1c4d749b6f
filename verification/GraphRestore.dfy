/** Restoring a graph from a checkpoint, step by step
    (zhongshu-core/src/agent/execution_graph.rs:661-876). */
module GraphRestore {
  import opened Wrappers
  import opened Text
  import opened GraphPaths
  import opened ExecutionGraph
  import opened GraphLaws
  import opened GraphCalls
  import opened GraphRunner
  import opened GraphRecovery
  import opened EffectIntents
  import opened Names

  // -- A list fails where one of its prefixes fails -------------------

  lemma {:induction false} TopologyStaysRefused(records: seq<Entry<Node>>, n: nat)
    requires n <= |records| && Topology(records[..n]).Err?
    ensures Topology(records) == Topology(records[..n])
    decreases |records|
  {
    hide AddNode;
    if n < |records| {
      assert records[..|records| - 1][..n] == records[..n];
      TopologyStaysRefused(records[..|records| - 1], n);
    } else {
      assert records[..n] == records;
    }
  }

  lemma {:induction false} EdgesStayRefused(t: Graph, edges: seq<Edge>, n: nat)
    requires n <= |edges| && WithEdges(t, edges[..n]).Err?
    ensures WithEdges(t, edges) == WithEdges(t, edges[..n])
    decreases |edges|
  {
    hide AddEdge;
    if n < |edges| {
      assert edges[..|edges| - 1][..n] == edges[..n];
      EdgesStayRefused(t, edges[..|edges| - 1], n);
    } else {
      assert edges[..n] == edges;
    }
  }

  lemma {:induction false} ReplayStaysRefused(ids: set<string>, ts: seq<Transition>, n: nat)
    requires n <= |ts| && Replay(ids, ts[..n]).None?
    ensures Replay(ids, ts).None?
    decreases |ts|
  {
    hide ValidMove;
    if n < |ts| {
      assert ts[..|ts| - 1][..n] == ts[..n];
      ReplayStaysRefused(ids, ts[..|ts| - 1], n);
    } else {
      assert ts[..n] == ts;
    }
  }

  lemma {:induction false} ArtifactsStayRefused(listed: seq<Entry<string>>, states: map<string, NodeState>, n: nat)
    requires n <= |listed| && BadArtifact(listed[..n], states).Some?
    ensures BadArtifact(listed, states) == BadArtifact(listed[..n], states)
    decreases |listed|
  {
    hide ArtifactsMatch;
    if n < |listed| {
      assert listed[..|listed| - 1][..n] == listed[..n];
      ArtifactsStayRefused(listed[..|listed| - 1], states, n);
    } else {
      assert listed[..n] == listed;
    }
  }

  lemma {:induction false} IntentsStayRefused(listed: seq<Intent>, ids: set<string>, n: nat)
    requires n <= |listed| && BadListed(listed[..n], ids).Some?
    ensures BadListed(listed, ids) == BadListed(listed[..n], ids)
    decreases |listed|
  {
    hide GoodIntent; hide DistinctIntents; hide IsBlank; hide ValidExpectation;
    if n < |listed| {
      assert listed[..|listed| - 1][..n] == listed[..n];
      IntentsStayRefused(listed[..|listed| - 1], ids, n);
    } else {
      assert listed[..n] == listed;
    }
  }

  // -- The checks in their order --------------------------------------

  method AddRecords(topology: Runner, records: seq<Entry<Node>>) returns (error: Option<Error>)
    requires topology.View() == EMPTY
    modifies topology`nodes
    ensures error.Some? ==> Topology(records) == Err(error.value)
    ensures error.None? ==> Topology(records) == Ok(topology.View())
  {
    hide AddNode;
    for i := 0 to |records|
      invariant Topology(records[..i]) == Ok(topology.View())
    {
      var record := records[i];
      assert records[..i + 1][..i] == records[..i] && records[..i + 1][i] == record;
      error := topology.AddNewNode(record.id, Node(record.value.kind, Pending));
      if error.Some? {
        TopologyStaysRefused(records, i + 1);
        return error;
      }
    }
    assert records[..|records|] == records;
    return None;
  }

  method AddEdges(topology: Runner, edges: seq<Edge>) returns (error: Option<Error>)
    modifies topology`edges
    ensures error.Some? ==> WithEdges(old(topology.View()), edges) == Err(error.value)
    ensures error.None? ==> WithEdges(old(topology.View()), edges) == Ok(topology.View())
  {
    ghost var t := topology.View();
    hide AddEdge;
    for i := 0 to |edges|
      invariant WithEdges(t, edges[..i]) == Ok(topology.View())
    {
      assert edges[..i + 1][..i] == edges[..i] && edges[..i + 1][i] == edges[i];
      error := topology.AddNewEdge(edges[i]);
      if error.Some? {
        EdgesStayRefused(t, edges, i + 1);
        return error;
      }
    }
    assert edges[..|edges|] == edges;
    return None;
  }

  method ReplayTransitions(ids: set<string>, ts: seq<Transition>) returns (replayed: Option<map<string, NodeState>>)
    ensures replayed == Replay(ids, ts)
  {
    hide ValidMove;
    var states := map id | id in ids :: Pending;
    var expected := 1;
    for i := 0 to |ts|
      invariant expected == i + 1 && Replay(ids, ts[..i]) == Some(states)
    {
      var t := ts[i];
      assert ts[..i + 1][..i] == ts[..i] && ts[..i + 1][i] == t;
      if t.sequence != expected || t.node !in states || states[t.node] != t.from || !ValidMove(t.from, t.to) {
        ReplayStaysRefused(ids, ts, i + 1);
        return None;
      }
      expected := expected + 1;
      states := states[t.node := t.to];
    }
    assert ts[..|ts|] == ts;
    return Some(states);
  }

  method CheckStates(records: seq<Entry<Node>>, states: map<string, NodeState>) returns (ok: bool)
    ensures ok <==> StatesMatch(records, states)
  {
    for i := 0 to |records|
      invariant forall k :: 0 <= k < i ==> records[k].id in states && states[records[k].id] == records[k].value.state
    {
      if records[i].id !in states || states[records[i].id] != records[i].value.state { return false; }
    }
    return true;
  }

  /** The first transition of that number. */
  method FindTransition(ts: seq<Transition>, sequence: nat) returns (found: Option<Transition>)
    ensures found.None? ==> forall i :: 0 <= i < |ts| ==> ts[i].sequence != sequence
    ensures found.Some? ==> exists i :: 0 <= i < |ts| && ts[i] == found.value && ts[i].sequence == sequence
                                        && forall j :: 0 <= j < i ==> ts[j].sequence != sequence
  {
    for i := 0 to |ts|
      invariant forall j :: 0 <= j < i ==> ts[j].sequence != sequence
    {
      if ts[i].sequence == sequence { return Some(ts[i]); }
    }
    return None;
  }

  method CheckOne(ts: seq<Transition>, r: Reconciliation) returns (ok: bool)
    ensures ok <==> BackedBy(ts, r)
  {
    TrimIsEmptyIff(r.reason);
    var usable := EvidenceIsUsable(r.evidence);
    hide IsBlank; hide Trim; hide HasEvidence; hide DecidedState;
    if Trim(r.reason) == [] || !usable { return false; }
    var found := FindTransition(ts, r.sequence);
    if found.None? { return false; }
    var t := found.value;
    ok := t.node == r.node && t.from.RecoveryRequired? && t.to == DecidedState(r.decision);
  }

  method CheckReconciliations(ts: seq<Transition>, rs: seq<Reconciliation>) returns (ok: bool)
    ensures ok <==> ReconciliationsMatch(ts, rs)
  {
    hide BackedBy;
    var sequences: set<nat> := {};
    for i := 0 to |rs|
      invariant forall k :: 0 <= k < i ==> BackedBy(ts, rs[k])
      invariant forall j, k :: 0 <= j < k < i ==> rs[j].sequence != rs[k].sequence
      invariant forall x :: x in sequences <==> exists k :: 0 <= k < i && rs[k].sequence == x
    {
      var backed := CheckOne(ts, rs[i]);
      if !backed || rs[i].sequence in sequences { return false; }
      sequences := sequences + {rs[i].sequence};
    }
    for k := 0 to |ts|
      invariant forall j :: 0 <= j < k && ts[j].from.RecoveryRequired? ==> ts[j].sequence in sequences
    {
      if ts[k].from.RecoveryRequired? && ts[k].sequence !in sequences { return false; }
    }
    return true;
  }

  method CollectArtifacts(listed: seq<Entry<string>>, states: map<string, NodeState>)
    returns (artifacts: Result<map<string, string>, Error>)
    ensures artifacts.Err? ==> BadArtifact(listed, states) == Some(artifacts.error)
    ensures artifacts.Ok? ==> BadArtifact(listed, states).None? && artifacts.value == MapOf(listed)
  {
    hide BadArtifact;
    NoBadArtifact(states);
    var known: map<string, string> := map[];
    for i := 0 to |listed|
      invariant known == MapOf(listed[..i]) && BadArtifact(listed[..i], states).None?
    {
      var entry := listed[i];
      assert listed[..i + 1][..i] == listed[..i] && listed[..i + 1][i] == entry;
      var error := CheckArtifact(listed[..i], known, states, entry);
      assert listed[..i] + [entry] == listed[..i + 1];
      if error.Some? {
        ArtifactsStayRefused(listed, states, i + 1);
        return Err(error.value);
      }
      known := known[entry.id := entry.value];
    }
    assert listed[..|listed|] == listed;
    return Ok(known);
  }

  lemma NoBadArtifact(states: map<string, NodeState>)
    ensures BadArtifact([], states).None?
  {
  }

  lemma {:induction false} KnownArtifacts(entries: seq<Entry<string>>, id: string)
    ensures id in MapOf(entries) <==> exists k :: 0 <= k < |entries| && entries[k].id == id
  {
    if entries != [] {
      var before := entries[..|entries| - 1];
      KnownArtifacts(before, id);
      assert forall k :: 0 <= k < |before| ==> before[k] == entries[k];
    }
  }

  /** What is wrong with one more artifact, after the known ones. */
  method CheckArtifact(ghost before: seq<Entry<string>>, known: map<string, string>, states: map<string, NodeState>,
                       entry: Entry<string>) returns (error: Option<Error>)
    requires BadArtifact(before, states).None? && known == MapOf(before)
    ensures error == BadArtifact(before + [entry], states)
  {
    ghost var all := before + [entry];
    assert all[..|all| - 1] == before && all[|all| - 1] == entry;
    KnownArtifacts(before, entry.id);
    hide ArtifactsMatch; hide MapOf;
    if entry.value !in states || !states[entry.value].Succeeded? { return Some(InvalidSnapshot); }
    return if entry.id in known then Some(DuplicateArtifact) else None;
  }

  method CollectIntents(listed: seq<Intent>, ids: set<string>) returns (intents: Result<map<string, Intent>, Error>)
    ensures intents.Err? ==> BadListed(listed, ids) == Some(intents.error)
    ensures intents.Ok? ==> BadListed(listed, ids).None? && intents.value == WithIntents(map[], listed)
  {
    hide BadListed;
    NoBadListed(ids);
    var known: map<string, Intent> := map[];
    for i := 0 to |listed|
      invariant known == WithIntents(map[], listed[..i]) && BadListed(listed[..i], ids).None?
    {
      var intent := listed[i];
      assert listed[..i + 1][..i] == listed[..i] && listed[..i + 1][i] == intent;
      var error := CheckListed(listed[..i], known, ids, intent);
      assert listed[..i] + [intent] == listed[..i + 1];
      if error.Some? {
        IntentsStayRefused(listed, ids, i + 1);
        return Err(error.value);
      }
      known := known[intent.id := intent];
    }
    assert listed[..|listed|] == listed;
    return Ok(known);
  }

  lemma NoBadListed(ids: set<string>)
    ensures BadListed([], ids).None?
  {
  }

  lemma {:induction false} KnownIntents(listed: seq<Intent>, id: string)
    ensures id in WithIntents(map[], listed) <==> exists k :: 0 <= k < |listed| && listed[k].id == id
  {
    if listed != [] {
      var before := listed[..|listed| - 1];
      KnownIntents(before, id);
      assert forall k :: 0 <= k < |before| ==> before[k] == listed[k];
    }
  }

  /** What is wrong with one more intent, after the known ones. */
  method CheckListed(ghost before: seq<Intent>, known: map<string, Intent>, ids: set<string>, intent: Intent)
    returns (error: Option<Error>)
    requires BadListed(before, ids).None? && known == WithIntents(map[], before)
    ensures error == BadListed(before + [intent], ids)
  {
    ghost var all := before + [intent];
    assert all[..|all| - 1] == before && all[|all| - 1] == intent;
    TrimIsEmptyIff(intent.id);
    KnownIntents(before, intent.id);
    hide IsBlank; hide Trim; hide ValidExpectation; hide GoodIntent; hide DistinctIntents; hide WithIntents;
    if Trim(intent.id) == [] { return Some(EmptyEffectIntentId); }
    if intent.node !in ids { return Some(InvalidSnapshot); }
    var valid := ExpectationIsValid(intent.expectation);
    if !valid { return Some(InvalidSnapshot); }
    return if intent.id in known then Some(DuplicateEffectIntent) else None;
  }

  method CollectNodes(records: seq<Entry<Node>>) returns (nodes: map<string, Node>)
    ensures nodes == MapOf(records)
  {
    nodes := map[];
    for i := 0 to |records|
      invariant nodes == MapOf(records[..i])
    {
      assert records[..i + 1][..i] == records[..i] && records[..i + 1][i] == records[i];
      nodes := nodes[records[i].id := records[i].value];
    }
    assert records[..|records|] == records;
  }

  /** The checks of the graph in turn, on a runner that holds the topology alone. */
  method ValidateGraph(topology: Runner, s: Snapshot) returns (restored: Result<Graph, Error>)
    requires topology.View() == EMPTY
    modifies topology`nodes, topology`edges
    ensures restored == Validated(s)
  {
    hide Topology; hide WithEdges; hide Replay; hide ReconciliationsMatch; hide MapOf; hide StatesMatch;
    hide BadArtifact;
    var error := AddRecords(topology, s.nodes);
    if error.Some? { return Err(error.value); }
    error := AddEdges(topology, s.edges);
    if error.Some? { return Err(error.value); }
    var states := ReplayTransitions(topology.nodes.Keys, s.transitions);
    if states.None? { return Err(InvalidSnapshot); }
    var ok := CheckStates(s.nodes, states.value);
    if !ok { return Err(InvalidSnapshot); }
    ok := CheckReconciliations(s.transitions, s.reconciliations);
    if !ok { return Err(InvalidSnapshot); }
    var artifacts := CollectArtifacts(s.artifacts, states.value);
    if artifacts.Err? { return Err(artifacts.error); }
    var nodes := CollectNodes(s.nodes);
    return Ok(Graph(nodes, s.edges, artifacts.value, s.transitions, s.reconciliations, |s.transitions| + 1));
  }

  /** All the checks in turn, and then the task they were made for. */
  method ValidateSnapshot(s: TaskSnapshot) returns (restored: Result<Runner, Error>)
    ensures restored.Err? ==> Accepted(s) == Err(restored.error)
    ensures restored.Ok? ==> fresh(restored.value) && Accepted(s) == Ok(restored.value.AsTask())
  {
    hide IsBlank; hide Validated; hide BadListed; hide WithIntents;
    var topology := Runner.Create(s.id);
    if topology.Err? { return topology; }
    var g := ValidateGraph(topology.value, s.graph);
    if g.Err? { return Err(g.error); }
    var intents := CollectIntents(s.intents, g.value.nodes.Keys);
    if intents.Err? { return Err(intents.error); }
    var runner := new Runner.Of(Task(s.id, g.value, intents.value));
    return Ok(runner);
  }

  // -- Recovery from any checkpoint -----------------------------------

  const CHECKPOINT_VERSION := 1

  /** What recovery reports besides the task. */
  datatype Report = Report(inDoubt: seq<string>, skipped: seq<string>, ready: seq<string>)

  /** A checkpoint of the known version that passes validation is taken back into service, in whatever order
      its nodes were started; every other one is refused, with the error of the first check that fails. */
  method RecoverFromCheckpoint(version: nat, s: TaskSnapshot) returns (runner: Result<Runner, Error>, report: Report)
    ensures version != CHECKPOINT_VERSION ==> runner == Err(UnsupportedCheckpointVersion)
    ensures version == CHECKPOINT_VERSION && Accepted(s).Err? ==> runner == Err(Accepted(s).error)
    ensures version == CHECKPOINT_VERSION && Accepted(s).Ok? ==>
      && runner.Ok? && fresh(runner.value)
      && var t, u := Accepted(s).value, runner.value.AsTask();
      && u == DoCall(t, OnGraph(Recover(report.inDoubt, report.skipped)))
      && Legal(t.graph, Recover(report.inDoubt, report.skipped))
      && WellFormed(u.graph) && GoodIntents(u) && (Inv(t.graph) ==> Inv(u.graph))
      && RecoveredFrom(t.graph, u.graph) && Settled(u.graph) && RunningNodes(u.graph) == {}
      && Enumerates(report.inDoubt, RunningNodes(t.graph)) && Enumerates(report.ready, ReadyNodes(u.graph))
      && forall id :: id in report.skipped <==>
           id in t.graph.nodes && t.graph.nodes[id].state.Pending?
           && id in u.graph.nodes && u.graph.nodes[id].state.Skipped?
  {
    report := Report([], [], []);
    if version != CHECKPOINT_VERSION { return Err(UnsupportedCheckpointVersion), report; }
    var restored := ValidateSnapshot(s);
    if restored.Err? { return restored, report; }
    ghost var t := restored.value.AsTask();
    AcceptedTaskIsGood(s);
    hide *;
    var inDoubt, skipped, ready := RecoverNodes(restored.value);
    report := Report(inDoubt, skipped, ready);
    RecoverIsCall(t, Recover(inDoubt, skipped));
    CallKeepsIntents(t, OnGraph(Recover(inDoubt, skipped)));
    return restored, report;
  }

  lemma AcceptedTaskIsGood(s: TaskSnapshot)
    requires Accepted(s).Ok?
    ensures WellFormed(Accepted(s).value.graph) && GoodIntents(Accepted(s).value)
  {
    TaskAcceptedIff(s, Accepted(s).value);
    hide *;
  }

  lemma RecoverIsCall(t: Task, c: Call)
    ensures DoCall(t, OnGraph(c)) == t.(graph := DoAll(t.graph, OpsOf(c)))
  {
    hide DoAll; hide OpsOf;
  }
}
