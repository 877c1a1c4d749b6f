/** Checkpoints of the execution graph: validation, restoration and recovery
    (zhongshu-core/src/agent/execution_graph.rs:642-876, 1034-1055). */
module GraphRecovery {
  import opened Wrappers
  import opened Text
  import opened GraphPaths
  import opened ExecutionGraph
  import opened GraphLaws
  import opened GraphCalls
  import opened GraphRunner
  import opened Names

  /** What a checkpoint lists of a map. */
  datatype Entry<V> = Entry(id: string, value: V)

  /** `artifacts` lists artifact identifiers with their producers. */
  datatype Snapshot = Snapshot(nodes: seq<Entry<Node>>, edges: seq<Edge>, artifacts: seq<Entry<string>>,
                               transitions: seq<Transition>, reconciliations: seq<Reconciliation>)

  // -- Validation -----------------------------------------------------

  /** The nodes added one by one, each as pending. */
  function Topology(records: seq<Entry<Node>>): Result<Graph, Error> {
    if records == [] then Ok(EMPTY)
    else
      var g := Topology(records[..|records| - 1]);
      var last := records[|records| - 1];
      if g.Err? then g else AddNode(g.value, last.id, Node(last.value.kind, Pending))
  }

  ghost function WithEdges(g: Graph, edges: seq<Edge>): Result<Graph, Error>
    decreases |edges|
  {
    if edges == [] then Ok(g)
    else
      var h := WithEdges(g, edges[..|edges| - 1]);
      if h.Err? then h else AddEdge(h.value, edges[|edges| - 1])
  }

  /** The states of the nodes after replaying the transitions, each checked against the one before. */
  function Replay(ids: set<string>, ts: seq<Transition>): Option<map<string, NodeState>> {
    if ts == [] then Some(map id | id in ids :: Pending)
    else
      var states := Replay(ids, ts[..|ts| - 1]);
      var t := ts[|ts| - 1];
      if states.None? || t.sequence != |ts| || t.node !in states.value
         || states.value[t.node] != t.from || !ValidMove(t.from, t.to) then None
      else Some(states.value[t.node := t.to])
  }

  predicate StatesMatch(records: seq<Entry<Node>>, states: map<string, NodeState>) {
    forall i :: 0 <= i < |records| ==> records[i].id in states && states[records[i].id] == records[i].value.state
  }

  /** The reconciliation has evidence and names its own transition out of the unknown outcome. */
  predicate BackedBy(ts: seq<Transition>, r: Reconciliation) {
    && !IsBlank(r.reason) && HasEvidence(r.evidence)
    && exists i :: 0 <= i < |ts| && ts[i].sequence == r.sequence && ts[i].node == r.node
         && ts[i].from.RecoveryRequired? && ts[i].to == DecidedState(r.decision)
         && forall j :: 0 <= j < i ==> ts[j].sequence != r.sequence
  }

  predicate ReconciliationsMatch(ts: seq<Transition>, rs: seq<Reconciliation>) {
    && (forall i :: 0 <= i < |rs| ==> BackedBy(ts, rs[i]))
    && DistinctSequences(rs)
    && forall k :: 0 <= k < |ts| && ts[k].from.RecoveryRequired? ==>
         exists i :: 0 <= i < |rs| && rs[i].sequence == ts[k].sequence
  }

  predicate ArtifactsMatch(artifacts: seq<Entry<string>>, states: map<string, NodeState>) {
    && (forall i :: 0 <= i < |artifacts| ==> artifacts[i].value in states && states[artifacts[i].value].Succeeded?)
    && forall i, j :: 0 <= i < j < |artifacts| ==> artifacts[i].id != artifacts[j].id
  }

  function MapOf<V>(entries: seq<Entry<V>>): map<string, V> {
    if entries == [] then map[]
    else MapOf(entries[..|entries| - 1])[entries[|entries| - 1].id := entries[|entries| - 1].value]
  }

  /** What is wrong with the first artifact that does not pass. */
  function BadArtifact(artifacts: seq<Entry<string>>, states: map<string, NodeState>): (e: Option<Error>)
    ensures e.None? <==> ArtifactsMatch(artifacts, states)
  {
    if artifacts == [] then None
    else
      var before, last := artifacts[..|artifacts| - 1], artifacts[|artifacts| - 1];
      var e := BadArtifact(before, states);
      if e.Some? then e
      else if last.value !in states || !states[last.value].Succeeded? then Some(InvalidSnapshot)
      else if exists i :: 0 <= i < |before| && before[i].id == last.id then Some(DuplicateArtifact)
      else None
  }

  /** The graph a snapshot stands for, if it passes every check; otherwise what is wrong first. */
  ghost function Validated(s: Snapshot): Result<Graph, Error> {
    var nodes := Topology(s.nodes);
    if nodes.Err? then nodes
    else if WithEdges(nodes.value, s.edges).Err? then WithEdges(nodes.value, s.edges)
    else
      var states := Replay(nodes.value.nodes.Keys, s.transitions);
      if states.None? || !StatesMatch(s.nodes, states.value)
         || !ReconciliationsMatch(s.transitions, s.reconciliations) then Err(InvalidSnapshot)
      else
        match BadArtifact(s.artifacts, states.value)
        case Some(e) => Err(e)
        case None => Ok(Graph(MapOf(s.nodes), s.edges, MapOf(s.artifacts), s.transitions, s.reconciliations,
                              |s.transitions| + 1))
  }

  // -- Taking a checkpoint --------------------------------------------

  /** The entries list the map, each key once, in any order. */
  predicate Lists<V(==)>(entries: seq<Entry<V>>, m: map<string, V>) {
    && (forall e :: e in entries ==> e.id in m && m[e.id] == e.value)
    && (forall i, j :: 0 <= i < j < |entries| ==> entries[i].id != entries[j].id)
    && forall id :: id in m ==> Entry(id, m[id]) in entries
  }

  predicate IsSnapshotOf(s: Snapshot, g: Graph) {
    && Lists(s.nodes, g.nodes) && Lists(s.artifacts, g.artifacts)
    && s.edges == g.edges && s.transitions == g.transitions && s.reconciliations == g.reconciliations
  }

  // -- The checks pass on what a run produced -------------------------

  /** The topology of records that are all of the graph's own nodes. */
  lemma {:induction false} TopologyPasses(g: Graph, records: seq<Entry<Node>>)
    requires Shape(g) && forall e :: e in records ==> e.id in g.nodes && g.nodes[e.id] == e.value
    requires forall i, j :: 0 <= i < j < |records| ==> records[i].id != records[j].id
    ensures
      var t := Topology(records);
      && t.Ok? && t.value == EMPTY.(nodes := t.value.nodes)
      && (forall id :: id in t.value.nodes ==>
            id in g.nodes && Entry(id, g.nodes[id]) in records && t.value.nodes[id] == Node(g.nodes[id].kind, Pending))
      && forall e :: e in records ==> e.id in t.value.nodes
  {
    hide IsBlank; hide Acyclic;
    if records != [] {
      var before, last := records[..|records| - 1], records[|records| - 1];
      TopologyPasses(g, before);
      var t := Topology(before).value;
      assert last in records;
      assert forall i :: 0 <= i < |before| ==> before[i].id != last.id;
      NoSecondApply(g, t, last);
      assert forall e :: e in records ==> e in before || e == last;
    }
  }

  lemma NoSecondApply(g: Graph, t: Graph, last: Entry<Node>)
    requires Shape(g) && last.id in g.nodes && g.nodes[last.id] == last.value && last.id !in t.nodes
    requires forall id :: id in t.nodes ==> id in g.nodes && t.nodes[id].kind == g.nodes[id].kind
    ensures AddNode(t, last.id, Node(last.value.kind, Pending)).Ok?
  {
    hide IsBlank; hide Acyclic;
  }

  /** Each edge was once accepted, and is accepted again. */
  lemma EdgePasses(g: Graph, t: Graph, n: nat)
    requires Shape(g) && n < |g.edges| && t.edges == g.edges[..n]
    requires t.nodes.Keys == g.nodes.Keys
    requires g.edges[n].to in t.nodes ==> t.nodes[g.edges[n].to].state.Pending?
    ensures AddEdge(t, g.edges[n]) == Ok(t.(edges := g.edges[..n + 1]))
  {
    hide IsBlank; hide Acyclic; hide Reaches;
    var before, e := g.edges[..n], g.edges[n];
    assert g.edges[..n + 1] == before + [e];
    AcyclicPrefix(g.edges, n);
    AcyclicPrefix(g.edges, n + 1);
    StaysAcyclicIff(before, e);
    forall i | 0 <= i < |before| ensures before[i].from != e.from || before[i].to != e.to {
      assert before[i] == g.edges[i];
    }
  }

  lemma {:induction false} EdgesPass(g: Graph, t: Graph, n: nat)
    requires Shape(g) && n <= |g.edges|
    requires t.edges == [] && t.nodes.Keys == g.nodes.Keys && forall id :: id in t.nodes ==> t.nodes[id].state.Pending?
    ensures WithEdges(t, g.edges[..n]) == Ok(t.(edges := g.edges[..n]))
  {
    if n == 0 {
      assert t == t.(edges := g.edges[..0]);
    } else {
      hide Shape; hide AddEdge;
      EdgesPass(g, t, n - 1);
      assert g.edges[..n][..n - 1] == g.edges[..n - 1] && g.edges[..n][n - 1] == g.edges[n - 1];
      EdgePasses(g, t.(edges := g.edges[..n - 1]), n - 1);
    }
  }

  lemma {:induction false} ReplayPasses(g: Graph, n: nat)
    requires History(g) && n <= |g.transitions|
    ensures
      var states := Replay(g.nodes.Keys, g.transitions[..n]);
      && states.Some? && states.value.Keys == g.nodes.Keys
      && forall id :: id in g.nodes ==> states.value[id] == StateAfter(g.transitions[..n], id)
  {
    if n > 0 {
      ReplayPasses(g, n - 1);
      assert GoodTransition(g, n - 1);
      var ts := g.transitions[..n];
      assert ts[..n - 1] == g.transitions[..n - 1] && ts[n - 1] == g.transitions[n - 1];
      hide ValidMove; hide GoodTransition;
    }
  }

  /** Transitions are numbered from one. */
  predicate Counts(ts: seq<Transition>) { forall k :: 0 <= k < |ts| ==> ts[k].sequence == k + 1 }

  lemma HistoryCounts(g: Graph)
    requires History(g)
    ensures Counts(g.transitions)
  {
    hide StateAfter; hide ValidMove; hide Numbered;
    forall k | 0 <= k < |g.transitions| ensures g.transitions[k].sequence == k + 1 { assert GoodTransition(g, k); }
  }

  /** In a numbered history the two ways of naming a transition agree. */
  lemma BackedByIff(ts: seq<Transition>, r: Reconciliation)
    requires Counts(ts)
    ensures BackedBy(ts, r) <==> GoodReconciliation(ts, r)
  {
    hide IsBlank; hide HasEvidence; hide DecidedState;
    if GoodReconciliation(ts, r) {
      assert ts[r.sequence - 1].sequence == r.sequence;
      assert forall j :: 0 <= j < r.sequence - 1 ==> ts[j].sequence != r.sequence;
    }
  }

  lemma ReconciliationsMatchIff(ts: seq<Transition>, rs: seq<Reconciliation>)
    requires Counts(ts)
    ensures ReconciliationsMatch(ts, rs) <==> Backed(ts, rs)
  {
    forall i | 0 <= i < |rs| ensures BackedBy(ts, rs[i]) <==> GoodReconciliation(ts, rs[i]) {
      BackedByIff(ts, rs[i]);
    }
    hide BackedBy; hide GoodReconciliation; hide DistinctSequences;
  }

  lemma {:induction false} MapOfWithin<V>(entries: seq<Entry<V>>, m: map<string, V>)
    requires forall e :: e in entries ==> e.id in m && m[e.id] == e.value
    ensures forall id :: id in MapOf(entries) ==> id in m && MapOf(entries)[id] == m[id]
    ensures forall e :: e in entries ==> e.id in MapOf(entries)
  {
    if entries != [] {
      var before, last := entries[..|entries| - 1], entries[|entries| - 1];
      assert last in entries;
      MapOfWithin(before, m);
      assert forall e :: e in entries ==> e in before || e == last;
    }
  }

  lemma ListedComesBack<V>(entries: seq<Entry<V>>, m: map<string, V>)
    requires Lists(entries, m)
    ensures MapOf(entries) == m
  {
    MapOfWithin(entries, m);
    forall id | id in m ensures id in MapOf(entries) { assert Entry(id, m[id]) in entries; }
  }

  /** The topology of a full listing has the graph's own nodes, all pending. */
  lemma TopologyIsWhole(g: Graph, s: Snapshot)
    requires Shape(g) && Lists(s.nodes, g.nodes)
    ensures
      var t := Topology(s.nodes);
      && t.Ok? && t.value.edges == [] && t.value.nodes.Keys == g.nodes.Keys
      && forall id :: id in t.value.nodes ==> t.value.nodes[id].state.Pending?
  {
    TopologyPasses(g, s.nodes);
    hide Shape; hide Topology;
    var t := Topology(s.nodes).value;
    forall id ensures id in t.nodes <==> id in g.nodes {
      if id in g.nodes { assert Entry(id, g.nodes[id]) in s.nodes; }
    }
  }

  lemma StatesPass(g: Graph, s: Snapshot, states: map<string, NodeState>)
    requires IsSnapshotOf(s, g) && states.Keys == g.nodes.Keys && Produced(g)
    requires forall id :: id in g.nodes ==> states[id] == g.nodes[id].state
    ensures StatesMatch(s.nodes, states) && ArtifactsMatch(s.artifacts, states)
  {
    forall i | 0 <= i < |s.nodes|
      ensures s.nodes[i].id in states && states[s.nodes[i].id] == s.nodes[i].value.state
    {
      assert s.nodes[i] in s.nodes;
    }
    forall i | 0 <= i < |s.artifacts|
      ensures s.artifacts[i].value in states && states[s.artifacts[i].value].Succeeded?
    {
      assert s.artifacts[i] in s.artifacts;
    }
  }

  lemma ChecksPass(s: Snapshot, t: Graph, states: map<string, NodeState>)
    requires Topology(s.nodes) == Ok(t) && WithEdges(t, s.edges).Ok?
    requires Replay(t.nodes.Keys, s.transitions) == Some(states)
    requires StatesMatch(s.nodes, states) && ArtifactsMatch(s.artifacts, states)
    requires ReconciliationsMatch(s.transitions, s.reconciliations)
    ensures Validated(s) == Ok(Graph(MapOf(s.nodes), s.edges, MapOf(s.artifacts), s.transitions, s.reconciliations,
                                       |s.transitions| + 1))
  {
    hide Topology; hide WithEdges; hide Replay; hide ReconciliationsMatch; hide MapOf; hide StatesMatch;
    hide ArtifactsMatch; hide BadArtifact;
  }

  /** The replay of a whole history ends in the states of the nodes. */
  lemma WholeReplayPasses(g: Graph)
    requires History(g)
    ensures
      var states := Replay(g.nodes.Keys, g.transitions);
      && states.Some? && states.value.Keys == g.nodes.Keys
      && forall id :: id in g.nodes ==> states.value[id] == g.nodes[id].state
  {
    assert g.transitions[..|g.transitions|] == g.transitions;
    ReplayPasses(g, |g.transitions|);
    hide Replay; hide StateAfter; hide GoodTransition; hide Numbered;
  }

  lemma AllEdgesPass(g: Graph, t: Graph)
    requires Shape(g)
    requires t.edges == [] && t.nodes.Keys == g.nodes.Keys && forall id :: id in t.nodes ==> t.nodes[id].state.Pending?
    ensures WithEdges(t, g.edges).Ok?
  {
    assert g.edges[..|g.edges|] == g.edges;
    hide Shape; hide WithEdges;
    EdgesPass(g, t, |g.edges|);
  }

  /** Every graph with the right shape, history, artifacts and reconciliations passes validation and comes
      back as it was. */
  lemma WellFormedRoundTrip(g: Graph, s: Snapshot)
    requires WellFormed(g) && IsSnapshotOf(s, g)
    ensures Validated(s) == Ok(g)
  {
    hide Topology; hide WithEdges; hide Replay; hide ReconciliationsMatch; hide MapOf; hide Lists; hide Validated;
    hide Shape; hide Backed; hide StatesMatch; hide ArtifactsMatch; hide Produced;
    assert g.nextSequence == |g.transitions| + 1;
    TopologyIsWhole(g, s);
    WholeReplayPasses(g);
    HistoryCounts(g);
    hide History;
    var t := Topology(s.nodes).value;
    AllEdgesPass(g, t);
    StatesPass(g, s, Replay(g.nodes.Keys, g.transitions).value);
    ReconciliationsMatchIff(g.transitions, g.reconciliations);
    ListedComesBack(s.nodes, g.nodes);
    ListedComesBack(s.artifacts, g.artifacts);
    ChecksPass(s, t, Replay(g.nodes.Keys, g.transitions).value);
  }

  // -- What runs guarantee --------------------------------------------

  /** In every graph that any run can make, a node that was started has had all that it requires succeed,
      and all that it comes after finish. */
  lemma DependenciesComeFirst(ops: seq<Op>, i: nat)
    requires i < |DoAll(EMPTY, ops).edges|
    ensures
      var g := DoAll(EMPTY, ops);
      var e := g.edges[i];
      && e.from in g.nodes && e.to in g.nodes
      && (Started(g.nodes[e.to].state) ==>
            if e.kind.Finally? then IsTerminal(g.nodes[e.from].state) else g.nodes[e.from].state.Succeeded?)
  {
    EmptyIsSound();
    RunKeepsSound(EMPTY, ops);
    hide DoAll;
    var g := DoAll(EMPTY, ops);
    if Started(g.nodes[g.edges[i].to].state) { assert Satisfied(g, g.edges[i]); }
  }

  /** In every graph that any run can make, a skipped node has a broken dependency exactly when it was
      skipped by a move; otherwise it was added as skipped and has no dependency at all. */
  lemma SkippedForAReason(ops: seq<Op>, id: string)
    requires id in DoAll(EMPTY, ops).nodes && DoAll(EMPTY, ops).nodes[id].state.Skipped?
    ensures
      var g := DoAll(EMPTY, ops);
      && ((exists e :: e in g.edges && e.to == id && Broken(g, e)) <==> Moved(g, id))
      && (!Moved(g, id) ==> forall e :: e in g.edges ==> e.to != id)
  {
    EmptyIsSound();
    RunKeepsSound(EMPTY, ops);
    hide DoAll;
    var g := DoAll(EMPTY, ops);
    if Moved(g, id) {
      var i :| 0 <= i < |g.edges| && g.edges[i].to == id && Broken(g, g.edges[i]);
      assert g.edges[i] in g.edges;
    } else {
      forall e | e in g.edges ensures e.to != id {
        var i :| 0 <= i < |g.edges| && g.edges[i] == e;
      }
    }
  }

  lemma StepKeepsOutcome(g: Graph, op: Op, id: string)
    requires id in g.nodes
    requires var s := g.nodes[id].state; s.Succeeded? || s.Failed? || s.Skipped? || s.Cancelled?
    ensures id in Do(g, op).nodes && Do(g, op).nodes[id] == g.nodes[id]
  {
    hide Insert; hide Reaches; hide Linked; hide IsBlank; hide CheckArtifacts; hide HasEvidence;
  }

  /** An outcome once reached never changes. */
  lemma {:induction false} OutcomesAreFinal(g: Graph, ops: seq<Op>, id: string)
    requires id in g.nodes
    requires var s := g.nodes[id].state; s.Succeeded? || s.Failed? || s.Skipped? || s.Cancelled?
    ensures id in DoAll(g, ops).nodes && DoAll(g, ops).nodes[id] == g.nodes[id]
    decreases |ops|
  {
    hide Do;
    if ops != [] {
      StepKeepsOutcome(g, ops[0], id);
      OutcomesAreFinal(Do(g, ops[0]), ops[1..], id);
    }
  }

  // -- Recovery -------------------------------------------------------

  /** What recovery makes of a node's state. */
  predicate RecoversTo(before: NodeState, after: NodeState) {
    match before
    case Running => after.RecoveryRequired?
    case Pending => after.Pending? || after.Skipped?
    case _ => after == before
  }

  predicate RecoveredFrom(g: Graph, h: Graph) {
    && KeptBesides(g, h) && h.nodes.Keys == g.nodes.Keys
    && forall id :: id in g.nodes ==>
         h.nodes[id].kind == g.nodes[id].kind && RecoversTo(g.nodes[id].state, h.nodes[id].state)
  }

  /** Of the running nodes `todo` are still running and the others are in doubt; nothing else has changed. */
  predicate Halfway(g: Graph, h: Graph, todo: set<string>) {
    && KeptBesides(g, h) && h.nodes.Keys == g.nodes.Keys && todo == RunningNodes(h)
    && forall id :: id in g.nodes ==>
         && h.nodes[id].kind == g.nodes[id].kind
         && if g.nodes[id].state.Running? && id !in todo then h.nodes[id].state.RecoveryRequired?
            else h.nodes[id].state == g.nodes[id].state
  }

  lemma OneInterrupt(g: Graph, h: Graph, todo: set<string>, id: string)
    requires Halfway(g, h, todo) && FirstOf(todo, id)
    ensures id in h.nodes && Do(h, OpInterrupt(id)) == Move(h, id, RecoveryRequired)
    ensures Halfway(g, Move(h, id, RecoveryRequired), todo - {id})
    ensures Takes(h, OpInterrupt(id)) && RunningNodes(Move(h, id, RecoveryRequired)) == todo - {id}
  {
    assert Halfway(g, Move(h, id, RecoveryRequired), todo - {id});
  }

  /** Which nodes recovery has skipped, and that together with the interrupts it has recovered the graph. */
  lemma SkipsRecover(g: Graph, m: Graph, h: Graph, skipped: seq<string>)
    requires Halfway(g, m, {}) && SkippedAre(m, h, skipped)
    ensures RecoveredFrom(g, h) && RunningNodes(h) == {}
    ensures forall id :: id in skipped <==>
                           id in g.nodes && g.nodes[id].state.Pending? && h.nodes[id].state.Skipped?
  {
    forall id | id in g.nodes ensures !m.nodes[id].state.Running? { assert id !in RunningNodes(m); }
    assert KeptBesides(g, h);
    hide KeptBesides;
  }

  /** The first of the names that are left. */
  lemma NextRunning(g: Graph, names: seq<string>)
    requires names != [] && Enumerates(names, RunningNodes(g))
    ensures FirstOf(RunningNodes(g), names[0]) && Enumerates(names[1..], RunningNodes(g) - {names[0]})
  {
    SortedIsDistinct(names);
    hide Less; hide RunningNodes;
    assert names[0] in names;
    forall x | x in names && x != names[0] ensures Less(names[0], x) && x in names[1..] {
      var i :| 0 <= i < |names| && names[i] == x;
      assert names[1..][i - 1] == x;
    }
    assert forall i :: 0 <= i < |names[1..]| ==> names[1..][i] == names[i + 1];
  }

  /** The first `i` of the names have been interrupted in turn, and the others are still running. */
  ghost predicate InterruptedUpTo(g: Graph, h: Graph, names: seq<string>, i: nat)
    requires i <= |names|
  {
    && h == DoAll(g, Interrupts(names[..i])) && InTurn(g, Interrupts(names[..i]))
    && Halfway(g, h, RunningNodes(h)) && Enumerates(names[i..], RunningNodes(h))
  }

  lemma InterruptNext(g: Graph, h: Graph, names: seq<string>, i: nat)
    requires i < |names| && InterruptedUpTo(g, h, names, i)
    ensures names[i] in h.nodes && InterruptedUpTo(g, Move(h, names[i], RecoveryRequired), names, i + 1)
  {
    hide DoAll; hide Do; hide Halfway; hide RunningNodes; hide Move; hide InTurn; hide Enumerates; hide FirstOf;
    hide Takes; hide Interrupts;
    var id := names[i];
    assert names[i..][0] == id && names[i..][1..] == names[i + 1..];
    NextRunning(h, names[i..]);
    OneInterrupt(g, h, RunningNodes(h), id);
    InterruptsSnoc(names[..i], id);
    assert names[..i] + [id] == names[..i + 1];
    InTurnSnoc(g, Interrupts(names[..i]), OpInterrupt(id));
    DoAllSnoc(g, Interrupts(names[..i]), OpInterrupt(id));
  }

  lemma NoneInterrupted(g: Graph, names: seq<string>)
    requires Enumerates(names, RunningNodes(g))
    ensures InterruptedUpTo(g, g, names, 0)
  {
    assert Halfway(g, g, RunningNodes(g));
    hide Halfway; hide Enumerates; hide RunningNodes;
    assert names[..0] == [] && names[0..] == names;
  }

  lemma AllInterrupted(g: Graph, h: Graph, names: seq<string>)
    requires InterruptedUpTo(g, h, names, |names|)
    ensures h == DoAll(g, Interrupts(names)) && InTurn(g, Interrupts(names)) && Halfway(g, h, {})
  {
    hide Halfway; hide DoAll; hide InTurn; hide RunningNodes; hide Interrupts;
    assert names[..|names|] == names && names[|names|..] == [];
    assert RunningNodes(h) == {};
  }

  /** Lists the running nodes, and then interrupts them one by one. */
  method InterruptRunning(runner: Runner) returns (inDoubt: seq<string>)
    modifies runner`nodes, runner`transitions, runner`nextSequence
    ensures runner.View() == DoAll(old(runner.View()), Interrupts(inDoubt))
    ensures InTurn(old(runner.View()), Interrupts(inDoubt))
    ensures Enumerates(inDoubt, RunningNodes(old(runner.View())))
    ensures Halfway(old(runner.View()), runner.View(), {})
  {
    ghost var g := runner.View();
    inDoubt := InNameOrder(RunningNodes(runner.View()));
    NoneInterrupted(g, inDoubt);
    hide InterruptedUpTo; hide Enumerates; hide RunningNodes; hide Halfway; hide DoAll; hide InTurn;
    for i := 0 to |inDoubt|
      invariant InterruptedUpTo(g, runner.View(), inDoubt, i)
    {
      InterruptNext(g, runner.View(), inDoubt, i);
      runner.SetState(inDoubt[i], RecoveryRequired);
    }
    AllInterrupted(g, runner.View(), inDoubt);
  }

  lemma SameKeys(g: Graph, h: Graph)
    requires RecoveredFrom(g, h)
    ensures h.nodes.Keys == g.nodes.Keys
  {
  }

  /** The nodes of any graph brought back into service: those that were running are in doubt, pending ones
      that can no longer be reached are skipped, nothing is executed and no other state changes. On a graph
      whose checkpoint is accepted this is the recovery that runs make. */
  method RecoverNodes(runner: Runner) returns (inDoubt: seq<string>, skipped: seq<string>, ready: seq<string>)
    modifies runner`nodes, runner`transitions, runner`nextSequence
    ensures runner.View() == DoAll(old(runner.View()), OpsOf(Recover(inDoubt, skipped)))
    ensures WellFormed(old(runner.View())) ==>
      WellFormed(runner.View()) && Legal(old(runner.View()), Recover(inDoubt, skipped))
    ensures Inv(old(runner.View())) ==> Inv(runner.View())
    ensures Enumerates(inDoubt, RunningNodes(old(runner.View()))) && RunningNodes(runner.View()) == {}
    ensures RecoveredFrom(old(runner.View()), runner.View())
    ensures
      var g, h := old(runner.View()), runner.View();
      forall id :: id in skipped <==>
        id in g.nodes && g.nodes[id].state.Pending? && id in h.nodes && h.nodes[id].state.Skipped?
    ensures Settled(runner.View()) && Enumerates(ready, ReadyNodes(runner.View()))
  {
    ghost var g := runner.View();
    hide DoAll; hide Inv; hide WellFormed; hide Settled; hide ReadyNodes; hide RecoveredFrom; hide RunningNodes;
    hide Halfway; hide SkippedAre; hide Appends; hide InTurn; hide Enumerates;
    inDoubt := InterruptRunning(runner);
    ghost var interrupted := runner.View();
    NobodyRuns(g, interrupted);
    skipped := runner.SettleUnreachable();
    SkipsRecover(g, interrupted, runner.View(), skipped);
    SameKeys(g, runner.View());
    DoAllConcat(g, Interrupts(inDoubt), Skips(skipped));
    InTurnConcat(g, Interrupts(inDoubt), Skips(skipped));
    InterruptsAppend(g, inDoubt);
    SkipsAppend(interrupted, skipped);
    ExistingNodesKeep(g, OpsOf(Recover(inDoubt, skipped)));
    ready := InNameOrder(ReadyNodes(runner.View()));
  }

  lemma NobodyRuns(g: Graph, h: Graph)
    requires Halfway(g, h, {})
    ensures RunningNodes(h) == {}
  {
  }
}
