/** Tasks: the graph together with the effects its nodes are expected to have, and their checkpoints
    (zhongshu-core/src/agent/execution_graph.rs:304-318, 372-416, 642-876). */
module EffectIntents {
  import opened Wrappers
  import opened Text
  import opened GraphPaths
  import opened ExecutionGraph
  import opened GraphLaws
  import opened GraphCalls
  import opened GraphRecovery
  import opened GraphValidation
  import opened GraphReach

  // -- Runs of a task -------------------------------------------------

  datatype TaskCall = OnGraph(call: Call) | Intend(node: string, intents: seq<Intent>)

  /** A call that reports an error leaves the task as it was. */
  ghost function DoCall(t: Task, c: TaskCall): Task {
    match c
    case OnGraph(call) => t.(graph := DoAll(t.graph, OpsOf(call)))
    case Intend(node, intents) =>
      var r := RecordIntents(t, node, intents);
      if r.Ok? then r.value else t
  }

  ghost function DoCalls(t: Task, calls: seq<TaskCall>): Task
    decreases |calls|
  {
    if calls == [] then t else DoCalls(DoCall(t, calls[0]), calls[1..])
  }

  function GraphCallsOf(calls: seq<TaskCall>): seq<Call> {
    if calls == [] then []
    else (if calls[0].OnGraph? then [calls[0].call] else []) + GraphCallsOf(calls[1..])
  }

  /** The graph goes its own way. */
  lemma {:induction false} GraphOfRun(t: Task, calls: seq<TaskCall>)
    ensures DoCalls(t, calls).graph == DoAll(t.graph, AllOps(GraphCallsOf(calls)))
    ensures DoCalls(t, calls).id == t.id
    decreases |calls|
  {
    hide OpsOf; hide BadIntent; hide WithIntents;
    if calls == [] {
      NothingDone(t.graph);
    } else {
      var rest := GraphCallsOf(calls[1..]);
      GraphOfRun(DoCall(t, calls[0]), calls[1..]);
      hide DoAll;
      if calls[0].OnGraph? {
        var c := calls[0].call;
        OneCall(c);
        AllOpsConcat([c], rest);
        DoAllConcat(t.graph, OpsOf(c), AllOps(rest));
      } else {
        assert [] + rest == rest;
      }
    }
  }

  // -- What runs keep of the intents ----------------------------------

  predicate DistinctIntents(listed: seq<Intent>) {
    forall i, j :: 0 <= i < j < |listed| ==> listed[i].id != listed[j].id
  }

  predicate GoodIntent(ids: set<string>, i: Intent) {
    !IsBlank(i.id) && i.node in ids && ValidExpectation(i.expectation)
  }

  /** Every intent is kept under its own name, and belongs to a node. */
  predicate GoodIntents(t: Task) {
    forall id :: id in t.intents ==> t.intents[id].id == id && GoodIntent(t.graph.nodes.Keys, t.intents[id])
  }

  lemma {:induction false} NothingWrongIff(known: map<string, Intent>, node: string, intents: seq<Intent>)
    ensures
      BadIntent(known, node, intents).None? <==>
        DistinctIntents(intents)
        && forall i :: 0 <= i < |intents| ==>
             !IsBlank(intents[i].id) && intents[i].id !in known && intents[i].node == node
             && ValidExpectation(intents[i].expectation)
  {
    hide IsBlank; hide ValidExpectation;
    if intents != [] {
      var before := intents[..|intents| - 1];
      NothingWrongIff(known, node, before);
      assert forall i :: 0 <= i < |before| ==> before[i] == intents[i];
    }
  }

  lemma {:induction false} ListedAreAdded(known: map<string, Intent>, intents: seq<Intent>)
    requires DistinctIntents(intents)
    ensures
      var after := WithIntents(known, intents);
      && (forall i :: i in intents ==> i.id in after && after[i.id] == i)
      && (forall id :: id in known && (forall i :: i in intents ==> i.id != id) ==>
            id in after && after[id] == known[id])
      && forall id :: id in after ==>
           (after[id].id == id && after[id] in intents) || (id in known && after[id] == known[id])
  {
    if intents != [] {
      var before, last := intents[..|intents| - 1], intents[|intents| - 1];
      ListedAreAdded(known, before);
      assert forall i :: i in intents <==> i in before || i == last;
      forall i | i in before ensures i.id != last.id {}
    }
  }

  /** Intents are put on record for a pending node exactly when they are new, distinct, valid and its own; then
      they join those already there, and otherwise nothing is recorded. */
  lemma RecordedIff(t: Task, node: string, intents: seq<Intent>)
    ensures
      RecordIntents(t, node, intents).Ok? <==>
        && node in t.graph.nodes && t.graph.nodes[node].state.Pending? && DistinctIntents(intents)
        && forall i :: 0 <= i < |intents| ==>
             !IsBlank(intents[i].id) && intents[i].id !in t.intents && intents[i].node == node
             && ValidExpectation(intents[i].expectation)
    ensures
      RecordIntents(t, node, intents).Ok? ==>
        var u := RecordIntents(t, node, intents).value;
        && u.graph == t.graph && u.id == t.id
        && (forall i :: i in intents ==> i.id in u.intents && u.intents[i.id] == i)
        && (forall id :: id in t.intents ==> id in u.intents && u.intents[id] == t.intents[id])
        && forall id :: id in u.intents && id !in t.intents ==> u.intents[id].id == id && u.intents[id] in intents
    ensures
      RecordIntents(t, node, intents).Err? ==> DoCall(t, Intend(node, intents)) == t
  {
    NothingWrongIff(t.intents, node, intents);
    if BadIntent(t.intents, node, intents).None? { ListedAreAdded(t.intents, intents); }
    hide BadIntent; hide WithIntents; hide IsBlank; hide ValidExpectation;
  }

  /** A valid expectation names everything it is about, and the conversation by a positive number. */
  lemma ExpectationIsValidIff(e: Expectation)
    ensures
      ValidExpectation(e)
      <==> if e.WorkspaceFile? then HasText(e.path) && HasText(e.beforeHash) && HasText(e.afterHash)
           else HasText(e.agent) && HasText(e.file) && HasText(e.operation) && e.conversation >= 1
  {
    hide IsWhitespace;
  }

  lemma NodesStay(g: Graph, op: Op)
    ensures g.nodes.Keys <= Do(g, op).nodes.Keys
    ensures
      forall id :: id in g.nodes && !g.nodes[id].state.Pending? ==> !Do(g, op).nodes[id].state.Pending?
  {
    hide Insert; hide Reaches; hide Linked; hide IsBlank; hide CheckArtifacts; hide HasEvidence; hide Ready;
    hide Unreachable;
  }

  lemma {:induction false} AllNodesStay(g: Graph, ops: seq<Op>)
    ensures g.nodes.Keys <= DoAll(g, ops).nodes.Keys
    ensures
      forall id :: id in g.nodes && !g.nodes[id].state.Pending? ==> !DoAll(g, ops).nodes[id].state.Pending?
    decreases |ops|
  {
    hide Do;
    if ops != [] {
      NodesStay(g, ops[0]);
      AllNodesStay(Do(g, ops[0]), ops[1..]);
    }
  }

  lemma CallKeepsIntents(t: Task, c: TaskCall)
    requires GoodIntents(t)
    ensures GoodIntents(DoCall(t, c))
  {
    hide IsBlank; hide ValidExpectation; hide DoAll; hide BadIntent; hide WithIntents; hide OpsOf;
    match c
    case OnGraph(call) => AllNodesStay(t.graph, OpsOf(call));
    case Intend(node, intents) =>
      if RecordIntents(t, node, intents).Ok? { RecordedIff(t, node, intents); }
  }

  /** In every run the intents are named, valid, and belong to nodes that exist. */
  lemma {:induction false} RunKeepsIntents(t: Task, calls: seq<TaskCall>)
    requires GoodIntents(t)
    ensures GoodIntents(DoCalls(t, calls))
    decreases |calls|
  {
    hide GoodIntents; hide DoCall;
    if calls != [] {
      CallKeepsIntents(t, calls[0]);
      RunKeepsIntents(DoCall(t, calls[0]), calls[1..]);
    }
  }

  /** What is expected of `node` is the same in both. */
  ghost predicate SameIntents(t: Task, u: Task, node: string) {
    forall id :: (id in t.intents && t.intents[id].node == node) || (id in u.intents && u.intents[id].node == node) ==>
      id in t.intents && id in u.intents && t.intents[id] == u.intents[id]
  }

  lemma CallKeepsExpectations(t: Task, c: TaskCall, node: string)
    requires node in t.graph.nodes && !t.graph.nodes[node].state.Pending?
    ensures
      var u := DoCall(t, c);
      SameIntents(t, u, node) && node in u.graph.nodes && !u.graph.nodes[node].state.Pending?
  {
    hide DoAll; hide BadIntent; hide WithIntents; hide OpsOf; hide IsBlank; hide ValidExpectation;
    match c
    case OnGraph(call) => AllNodesStay(t.graph, OpsOf(call));
    case Intend(n, intents) =>
      if RecordIntents(t, n, intents).Ok? { RecordedIff(t, n, intents); }
  }

  /** What a node is expected to do is on record before it starts: from then on no run adds to it, changes it
      or takes from it. */
  lemma {:induction false} IntentsPrecedeStart(t: Task, calls: seq<TaskCall>, node: string)
    requires node in t.graph.nodes && !t.graph.nodes[node].state.Pending?
    ensures SameIntents(t, DoCalls(t, calls), node)
    decreases |calls|
  {
    hide DoCall;
    if calls != [] {
      CallKeepsExpectations(t, calls[0], node);
      IntentsPrecedeStart(DoCall(t, calls[0]), calls[1..], node);
    }
  }

  // -- Checkpoints of a task ------------------------------------------

  datatype TaskSnapshot = TaskSnapshot(id: string, graph: Snapshot, intents: seq<Intent>)

  /** What is wrong with the first listed intent that does not pass. */
  function BadListed(listed: seq<Intent>, ids: set<string>): (e: Option<Error>)
    ensures e.None? <==> DistinctIntents(listed) && forall i :: 0 <= i < |listed| ==> GoodIntent(ids, listed[i])
  {
    if listed == [] then None
    else
      var before, last := listed[..|listed| - 1], listed[|listed| - 1];
      var e := BadListed(before, ids);
      if e.Some? then e
      else if IsBlank(last.id) then Some(EmptyEffectIntentId)
      else if last.node !in ids || !ValidExpectation(last.expectation) then Some(InvalidSnapshot)
      else if exists i :: 0 <= i < |before| && before[i].id == last.id then Some(DuplicateEffectIntent)
      else None
  }

  /** The task a checkpoint stands for, or what is wrong with it first. */
  ghost function Accepted(s: TaskSnapshot): Result<Task, Error> {
    if IsBlank(s.id) then Err(EmptyTaskId)
    else
      var g := Validated(s.graph);
      if g.Err? then Err(g.error)
      else
        match BadListed(s.intents, g.value.nodes.Keys)
        case Some(e) => Err(e)
        case None => Ok(Task(s.id, g.value, WithIntents(map[], s.intents)))
  }

  predicate ListsIntents(listed: seq<Intent>, m: map<string, Intent>) {
    && (forall i :: i in listed ==> i.id in m && m[i.id] == i)
    && DistinctIntents(listed)
    && forall id :: id in m ==> m[id] in listed && m[id].id == id
  }

  predicate IsTaskSnapshotOf(s: TaskSnapshot, t: Task) {
    s.id == t.id && IsSnapshotOf(s.graph, t.graph) && ListsIntents(s.intents, t.intents)
  }

  lemma {:induction false} ListedAre(listed: seq<Intent>)
    requires DistinctIntents(listed)
    ensures ListsIntents(listed, WithIntents(map[], listed))
  {
    if listed != [] {
      var before, last := listed[..|listed| - 1], listed[|listed| - 1];
      ListedAre(before);
      assert forall i :: i in listed ==> i in before || i == last;
      forall i | 0 <= i < |before| ensures before[i].id != last.id { assert before[i] == listed[i]; }
      forall i | i in before ensures i in listed {}
      assert last in listed;
    }
  }

  lemma ListedIntentsComeBack(listed: seq<Intent>, m: map<string, Intent>)
    requires ListsIntents(listed, m)
    ensures WithIntents(map[], listed) == m
  {
    ListedAre(listed);
    hide DistinctIntents; hide WithIntents;
  }

  lemma ListedAreGood(listed: seq<Intent>, t: Task)
    requires ListsIntents(listed, t.intents)
    ensures GoodIntents(t) <==> forall i :: 0 <= i < |listed| ==> GoodIntent(t.graph.nodes.Keys, listed[i])
  {
    hide GoodIntent;
    if GoodIntents(t) {
      forall i | 0 <= i < |listed| ensures GoodIntent(t.graph.nodes.Keys, listed[i]) { assert listed[i] in listed; }
    }
    if forall i :: 0 <= i < |listed| ==> GoodIntent(t.graph.nodes.Keys, listed[i]) {
      forall id | id in t.intents ensures GoodIntent(t.graph.nodes.Keys, t.intents[id]) {
        var i :| 0 <= i < |listed| && listed[i] == t.intents[id];
      }
    }
  }

  /** A checkpoint is accepted, and restores a task, exactly when it lists that task, the task is named, its
      graph is well formed and its intents are good. */
  lemma TaskAcceptedIff(s: TaskSnapshot, t: Task)
    ensures
      Accepted(s) == Ok(t) <==> !IsBlank(t.id) && WellFormed(t.graph) && GoodIntents(t) && IsTaskSnapshotOf(s, t)
  {
    hide IsBlank; hide WellFormed; hide IsSnapshotOf; hide ListsIntents; hide DistinctIntents; hide GoodIntent;
    hide Validated; hide WithIntents; hide BadListed; hide GoodIntents;
    AcceptedIff(s.graph, t.graph);
    if Accepted(s) == Ok(t) {
      ListedAre(s.intents);
      ListedAreGood(s.intents, t);
    }
    if ListsIntents(s.intents, t.intents) {
      ListedAreDistinct(s.intents, t.intents);
      ListedIntentsComeBack(s.intents, t.intents);
      ListedAreGood(s.intents, t);
    }
  }

  lemma ListedAreDistinct(listed: seq<Intent>, m: map<string, Intent>)
    requires ListsIntents(listed, m)
    ensures DistinctIntents(listed)
  {
  }

  /** The checkpoint of the task that a run made restores that task if the run added its nodes as pending, and
      is refused otherwise. */
  lemma TaskRoundTrip(id: string, calls: seq<TaskCall>, s: TaskSnapshot)
    requires !IsBlank(id) && IsTaskSnapshotOf(s, DoCalls(Task(id, EMPTY, map[]), calls))
    ensures
      Accepted(s)
      == if AddsPending(EMPTY, AllOps(GraphCallsOf(calls))) then Ok(DoCalls(Task(id, EMPTY, map[]), calls))
         else Err(InvalidSnapshot)
  {
    var t, ops := DoCalls(Task(id, EMPTY, map[]), calls), AllOps(GraphCallsOf(calls));
    assert GoodIntents(Task(id, EMPTY, map[]));
    hide IsBlank; hide IsSnapshotOf; hide ListsIntents; hide GoodIntents; hide Validated; hide DoCalls; hide DoAll;
    hide AddsPending; hide BadListed; hide Shape; hide History; hide Produced; hide Reconciled; hide Gates;
    hide MovesInOrder; hide ReconciliationsInOrder; hide AllOps; hide GraphCallsOf;
    GraphOfRun(Task(id, EMPTY, map[]), calls);
    RunKeepsIntents(Task(id, EMPTY, map[]), calls);
    CheckpointRoundTrip(ops, s.graph);
    RunKeepsInvIff(ops);
    TaskAcceptedIff(s, t);
  }

  // -- Exactly the tasks that runs make -------------------------------

  /** Some run of calls makes the task from a new one, adding its nodes as pending. */
  ghost predicate TaskReachable(t: Task) {
    && !IsBlank(t.id)
    && exists calls ::
         && LegalRun(EMPTY, GraphCallsOf(calls)) && AddsPending(EMPTY, AllOps(GraphCallsOf(calls)))
         && DoCalls(Task(t.id, EMPTY, map[]), calls) == t
  }

  function OnGraphs(calls: seq<Call>): seq<TaskCall> {
    if calls == [] then [] else [OnGraph(calls[0])] + OnGraphs(calls[1..])
  }

  lemma {:induction false} OnlyGraphs(t: Task, calls: seq<Call>)
    ensures GraphCallsOf(OnGraphs(calls)) == calls
    ensures DoCalls(t, OnGraphs(calls)) == t.(graph := DoAll(t.graph, AllOps(calls)))
    decreases |calls|
  {
    hide OpsOf;
    if calls == [] {
      NothingDone(t.graph);
      assert t.(graph := t.graph) == t;
    } else {
      var next := DoCall(t, OnGraph(calls[0]));
      assert OnGraphs(calls)[1..] == OnGraphs(calls[1..]);
      OnlyGraphs(next, calls[1..]);
      DoAllConcat(t.graph, OpsOf(calls[0]), AllOps(calls[1..]));
      hide DoAll;
    }
  }

  lemma {:induction false} DoCallsConcat(t: Task, a: seq<TaskCall>, b: seq<TaskCall>)
    ensures DoCalls(t, a + b) == DoCalls(DoCalls(t, a), b)
    ensures GraphCallsOf(a + b) == GraphCallsOf(a) + GraphCallsOf(b)
    decreases |a|
  {
    hide DoCall;
    if a == [] {
      assert a + b == b;
    } else {
      assert (a + b)[1..] == a[1..] + b;
      DoCallsConcat(DoCall(t, a[0]), a[1..], b);
    }
  }

  /** While their nodes are pending, any good intents can be put on record. */
  lemma {:induction false} IntentsCanBeAdded(t: Task, g: Graph, ids: set<string>) returns (calls: seq<TaskCall>)
    requires GoodIntents(t) && ids <= t.intents.Keys && g.nodes.Keys == t.graph.nodes.Keys
    requires forall id :: id in g.nodes ==> g.nodes[id].state.Pending?
    ensures GraphCallsOf(calls) == []
    ensures DoCalls(Task(t.id, g, map[]), calls) == Task(t.id, g, map id | id in ids :: t.intents[id])
  {
    hide DoCall;
    if ids == {} {
      calls := [];
    } else {
      var id :| id in ids;
      var before := IntentsCanBeAdded(t, g, ids - {id});
      hide GoodIntents;
      var c := Intend(t.intents[id].node, [t.intents[id]]);
      OneIntent(t, g, ids, id);
      calls := before + [c];
      DoCallsConcat(Task(t.id, g, map[]), before, [c]);
      assert [c][1..] == [];
    }
  }

  lemma OneIntent(t: Task, g: Graph, ids: set<string>, id: string)
    requires GoodIntents(t) && id in ids && ids <= t.intents.Keys && g.nodes.Keys == t.graph.nodes.Keys
    requires forall id :: id in g.nodes ==> g.nodes[id].state.Pending?
    ensures
      DoCall(Task(t.id, g, map x | x in ids - {id} :: t.intents[x]), Intend(t.intents[id].node, [t.intents[id]]))
      == Task(t.id, g, map x | x in ids :: t.intents[x])
  {
    hide IsBlank; hide ValidExpectation;
    var u := Task(t.id, g, map x | x in ids - {id} :: t.intents[x]);
    var i := t.intents[id];
    assert i.id == id && i.node in g.nodes && id !in u.intents;
    assert [i][..0] == [] && BadIntent(u.intents, i.node, []).None?;
    assert BadIntent(u.intents, i.node, [i]).None?;
    assert WithIntents(u.intents, [i]) == u.intents[id := i];
  }

  /** A task is made by some run of calls that adds its nodes as pending exactly when it is named, its graph is
      one that such runs make, and its intents are good. */
  lemma TaskReachableIff(t: Task)
    ensures TaskReachable(t) <==> !IsBlank(t.id) && WellFormed(t.graph) && InOrder(t.graph) && GoodIntents(t)
  {
    hide IsBlank; hide GoodIntents; hide WellFormed; hide InOrder; hide LegalRun; hide AddsPending; hide DoAll;
    hide AllOps; hide GraphCallsOf; hide DoCalls;
    if TaskReachable(t) {
      var calls :| LegalRun(EMPTY, GraphCallsOf(calls)) && AddsPending(EMPTY, AllOps(GraphCallsOf(calls)))
                   && DoCalls(Task(t.id, EMPTY, map[]), calls) == t;
      GraphOfRun(Task(t.id, EMPTY, map[]), calls);
      NoIntentsAreGood(t.id);
      RunKeepsIntents(Task(t.id, EMPTY, map[]), calls);
      assert Makes(GraphCallsOf(calls), t.graph);
      MadeIsInOrder(GraphCallsOf(calls), t.graph);
      MadeIsWellFormed(GraphCallsOf(calls), t.graph);
    }
    if !IsBlank(t.id) && WellFormed(t.graph) && InOrder(t.graph) && GoodIntents(t) { TaskCanBeMade(t); }
  }

  lemma NoIntentsAreGood(id: string)
    ensures GoodIntents(Task(id, EMPTY, map[]))
  {
  }

  lemma TaskCanBeMade(t: Task)
    requires !IsBlank(t.id) && WellFormed(t.graph) && InOrder(t.graph) && GoodIntents(t)
    ensures TaskReachable(t)
  {
    hide IsBlank; hide GoodIntents; hide WellFormed; hide InOrder; hide LegalRun; hide AddsPending; hide DoAll;
    hide AllOps; hide GraphCallsOf; hide DoCalls;
    var first, all := CanBeMade(t.graph);
    var rest := all[|first|..];
    assert all == first + rest;
    var g := EMPTY.(nodes := Fresh(t.graph, t.graph.nodes.Keys));
    var t0, t1 := Task(t.id, EMPTY, map[]), Task(t.id, g, map[]);
    var intents := IntentsCanBeAdded(t, g, t.intents.Keys);
    var t2 := Task(t.id, g, t.intents);
    assert (map id | id in t.intents.Keys :: t.intents[id]) == t.intents;
    OnlyGraphs(t0, first);
    OnlyGraphs(t2, rest);
    AllOpsConcat(first, rest);
    DoAllConcat(EMPTY, AllOps(first), AllOps(rest));
    DoCallsConcat(t0, OnGraphs(first), intents + OnGraphs(rest));
    DoCallsConcat(t1, intents, OnGraphs(rest));
    var calls := OnGraphs(first) + (intents + OnGraphs(rest));
    assert first + ([] + rest) == all;
    assert DoCalls(t0, calls) == t && GraphCallsOf(calls) == all;
  }

  /** An accepted checkpoint is that of a task which runs can make exactly when the moves of its graph respect
      the dependencies, come in whole blocks that go by name, and have their reconciliations in order. */
  lemma AcceptedTaskIsReachableIff(s: TaskSnapshot, t: Task)
    requires Accepted(s) == Ok(t)
    ensures TaskReachable(t) <==> InOrder(t.graph)
  {
    hide Accepted; hide TaskReachable; hide InOrder; hide WellFormed; hide GoodIntents; hide IsTaskSnapshotOf;
    hide IsBlank;
    TaskAcceptedIff(s, t);
    TaskReachableIff(t);
  }
}
