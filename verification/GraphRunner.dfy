/** The execution graph as it is updated step by step: the methods of
    zhongshu-core/src/agent/execution_graph.rs:328-640, 878-940. */
module GraphRunner {
  import opened Wrappers
  import opened Text
  import opened GraphPaths
  import opened ExecutionGraph
  import opened GraphLaws
  import opened GraphCalls
  import opened GraphOutcomes
  import opened Names
  import Sets

  /** What a run over the ready nodes reports. */
  datatype ScheduleReport =
    ScheduleReport(executed: seq<string>, skipped: seq<string>, deferred: seq<string>, stalled: bool)

  function PendingNodes(g: Graph): set<string> { set id | id in g.nodes && g.nodes[id].state.Pending? }

  function ReadyNodes(g: Graph): set<string> { set id | id in g.nodes && Ready(g, id) }

  /** A move of another node never takes readiness away. */
  lemma ReadyStays(g: Graph, id: string, other: string, to: NodeState)
    requires Ready(g, id) && other in g.nodes && other != id && ValidMove(g.nodes[other].state, to)
    ensures Ready(Move(g, other, to), id)
  {
    forall i | 0 <= i < |g.edges| && g.edges[i].to == id ensures Satisfied(Move(g, other, to), g.edges[i]) {
      DependenciesLast(g, other, to, g.edges[i]);
      assert Satisfied(g, g.edges[i]);
    }
  }

  lemma PendingShrinks(g: Graph, id: string, to: NodeState)
    requires id in g.nodes && g.nodes[id].state.Pending? && !to.Pending?
    ensures PendingNodes(Move(g, id, to)) == PendingNodes(g) - {id}
    ensures |PendingNodes(Move(g, id, to))| < |PendingNodes(g)|
  {
    assert id in PendingNodes(g);
    assert PendingNodes(Move(g, id, to)) == PendingNodes(g) - {id};
  }

  /** Edges, artifacts and reconciliations stay, and the history is only added to. */
  predicate KeptBesides(g: Graph, h: Graph) {
    h.edges == g.edges && h.artifacts == g.artifacts && h.reconciliations == g.reconciliations
    && g.transitions <= h.transitions
  }

  /** Exactly the pending nodes listed, each once, have been skipped, and nothing else has changed. */
  predicate SkippedAre(g: Graph, h: Graph, skipped: seq<string>) {
    && KeptBesides(g, h) && h.nodes.Keys == g.nodes.Keys
    && h.transitions == g.transitions + SkipTrace(g.nextSequence, skipped)
    && h.nextSequence == g.nextSequence + |skipped|
    && Distinct(skipped)
    && (forall id :: id in skipped ==> id in g.nodes && g.nodes[id].state.Pending?)
    && forall id :: id in g.nodes ==>
         h.nodes[id] == if id in skipped then g.nodes[id].(state := Skipped) else g.nodes[id]
  }

  lemma OneMoreSkipped(g: Graph, h: Graph, skipped: seq<string>, id: string)
    requires SkippedAre(g, h, skipped) && Unreachable(h, id)
    ensures id in h.nodes && SkippedAre(g, Move(h, id, Skipped), skipped + [id])
  {
    hide KeptBesides; hide Broken;
    var next, longer := Move(h, id, Skipped), skipped + [id];
    assert id in g.nodes && id !in skipped && h.nodes[id] == g.nodes[id];
    MoveKeepsBesides(g, h, id);
    hide Unreachable;
    assert longer[..|longer| - 1] == skipped;
    assert forall x :: x in longer <==> x in skipped || x == id;
  }

  lemma MoveKeepsBesides(g: Graph, h: Graph, id: string)
    requires KeptBesides(g, h) && id in h.nodes
    ensures KeptBesides(g, Move(h, id, Skipped))
  {
  }

  lemma SettledIs(g: Graph)
    requires UnreachableNodes(g) == {}
    ensures Settled(g)
  {
    hide Unreachable;
    forall id | id in g.nodes ensures !Unreachable(g, id) { assert id !in UnreachableNodes(g); }
  }

  lemma NothingSkipped(g: Graph)
    ensures SkippedAre(g, g, [])
  {
  }

  method EvidenceIsUsable(evidence: seq<string>) returns (usable: bool)
    ensures usable <==> HasEvidence(evidence)
  {
    hide IsBlank; hide Trim;
    if evidence == [] { return false; }
    for i := 0 to |evidence|
      invariant forall k :: 0 <= k < i ==> !IsBlank(evidence[k])
    {
      TrimIsEmptyIff(evidence[i]);
      if Trim(evidence[i]) == [] {
        assert evidence[i] in evidence;
        return false;
      }
    }
    return true;
  }

  method ExpectationIsValid(e: Expectation) returns (valid: bool)
    ensures valid <==> ValidExpectation(e)
  {
    match e
    case WorkspaceFile(path, before, after, _) =>
      TrimIsEmptyIff(path);
      TrimIsEmptyIff(before);
      TrimIsEmptyIff(after);
      return Trim(path) != [] && Trim(before) != [] && Trim(after) != [];
    case FileClaim(agent, file, operation, conversation, _) =>
      TrimIsEmptyIff(agent);
      TrimIsEmptyIff(file);
      TrimIsEmptyIff(operation);
      return Trim(agent) != [] && Trim(file) != [] && Trim(operation) != [] && conversation > 0;
  }

  lemma NothingBad(known: map<string, Intent>, node: string)
    ensures BadIntent(known, node, []).None?
  {
  }

  /** What is wrong with a part of the list is wrong with the whole. */
  lemma {:induction false} BadIntentStays(known: map<string, Intent>, node: string, intents: seq<Intent>, n: nat)
    requires n <= |intents| && BadIntent(known, node, intents[..n]).Some?
    ensures BadIntent(known, node, intents) == BadIntent(known, node, intents[..n])
    decreases |intents|
  {
    hide IsBlank; hide ValidExpectation;
    if n < |intents| {
      assert intents[..|intents| - 1][..n] == intents[..n];
      BadIntentStays(known, node, intents[..|intents| - 1], n);
    } else {
      assert intents[..n] == intents;
    }
  }

  class Runner {
    var nodes: map<string, Node>
    var edges: seq<Edge>
    var artifacts: map<string, string>
    var transitions: seq<Transition>
    var reconciliations: seq<Reconciliation>
    var nextSequence: nat
    const taskId: string
    var intents: map<string, Intent>

    constructor (taskId: string)
      ensures AsTask() == Task(taskId, EMPTY, map[])
    {
      nodes, edges, artifacts, transitions, reconciliations, nextSequence := map[], [], map[], [], [], 1;
      this.taskId, intents := taskId, map[];
    }

    function View(): Graph
      reads this
    {
      Graph(nodes, edges, artifacts, transitions, reconciliations, nextSequence)
    }

    function AsTask(): Task
      reads this
    {
      Task(taskId, View(), intents)
    }

    /** Takes over a task as it is. */
    constructor Of(t: Task)
      ensures AsTask() == t
    {
      nodes, edges, artifacts := t.graph.nodes, t.graph.edges, t.graph.artifacts;
      transitions, reconciliations := t.graph.transitions, t.graph.reconciliations;
      nextSequence, taskId, intents := t.graph.nextSequence, t.id, t.intents;
    }

    static method Create(taskId: string) returns (runner: Result<Runner, Error>)
      ensures runner.Err? ==> NewTask(taskId) == Err(runner.error)
      ensures runner.Ok? ==> fresh(runner.value) && NewTask(taskId) == Ok(runner.value.AsTask())
    {
      TrimIsEmptyIff(taskId);
      if Trim(taskId) == [] { return Err(EmptyTaskId); }
      var created := new Runner(taskId);
      return Ok(created);
    }

    method AddNewNode(id: string, node: Node) returns (error: Option<Error>)
      modifies this`nodes
      ensures error.None? <==> AddNode(old(View()), id, node).Ok?
      ensures error.Some? ==> AddNode(old(View()), id, node) == Err(error.value)
      ensures View() == Do(old(View()), OpAddNode(id, node))
    {
      TrimIsEmptyIff(id);
      if Trim(id) == [] { return Some(EmptyNodeId); }
      if id in nodes { return Some(DuplicateNode); }
      if node.kind.Apply? && exists x :: x in nodes && nodes[x].kind.Apply? { return Some(MultipleApplyNodes); }
      nodes := nodes[id := node];
      return None;
    }

    /** Refuses exactly the edges that would close a cycle, besides missing ends, started targets and
        duplicates. */
    method AddNewEdge(e: Edge) returns (error: Option<Error>)
      modifies this`edges
      ensures error.None? <==> AddEdge(old(View()), e).Ok?
      ensures error.Some? ==> AddEdge(old(View()), e) == Err(error.value)
      ensures View() == Do(old(View()), OpAddEdge(e))
    {
      hide Reaches;
      if e.from !in nodes || e.to !in nodes { return Some(MissingNode); }
      if nodes[e.to].state != Pending { return Some(TargetAlreadyStarted); }
      for i := 0 to |edges|
        invariant edges == old(edges) && forall k :: 0 <= k < i ==> edges[k].from != e.from || edges[k].to != e.to
      {
        if edges[i].from == e.from && edges[i].to == e.to { return Some(DuplicateEdge); }
      }
      var back := HasPath(edges, e.to, e.from);
      if e.from == e.to || back { return Some(Cycle); }
      edges := edges + [e];
      return None;
    }

    /** Puts on record what a pending node is expected to do, all of it or nothing. */
    method RecordEffectIntents(node: string, added: seq<Intent>) returns (error: Option<Error>)
      modifies this`intents
      ensures error.Some? ==> RecordIntents(old(AsTask()), node, added) == Err(error.value) && AsTask() == old(AsTask())
      ensures error.None? ==> RecordIntents(old(AsTask()), node, added) == Ok(AsTask())
    {
      if node !in nodes { return Some(MissingNode); }
      if nodes[node].state != Pending { return Some(EffectIntentNodeAlreadyStarted); }
      hide BadIntent; hide WithIntents;
      error := CheckIntents(node, added);
      if error.None? { InsertIntents(added); }
    }

    method CheckIntents(node: string, added: seq<Intent>) returns (error: Option<Error>)
      ensures error == BadIntent(intents, node, added)
    {
      hide BadIntent;
      NothingBad(intents, node);
      var ids: set<string> := {};
      for i := 0 to |added|
        invariant BadIntent(intents, node, added[..i]).None?
        invariant forall x :: x in ids <==> exists k :: 0 <= k < i && added[k].id == x
      {
        error := CheckIntent(node, added[..i], ids, added[i]);
        assert added[..i] + [added[i]] == added[..i + 1];
        if error.Some? {
          BadIntentStays(intents, node, added, i + 1);
          return error;
        }
        ids := ids + {added[i].id};
      }
      assert added[..|added|] == added;
      return None;
    }

    method InsertIntents(added: seq<Intent>)
      modifies this`intents
      ensures intents == WithIntents(old(intents), added)
    {
      for i := 0 to |added|
        invariant intents == WithIntents(old(intents), added[..i])
      {
        assert added[..i + 1][..i] == added[..i] && added[..i + 1][i] == added[i];
        intents := intents[added[i].id := added[i]];
      }
      assert added[..|added|] == added;
    }

    /** What is wrong with one more intent, after those of the given identifiers. */
    method CheckIntent(node: string, ghost before: seq<Intent>, ids: set<string>, intent: Intent)
      returns (error: Option<Error>)
      requires BadIntent(intents, node, before).None?
      requires forall x :: x in ids <==> exists k :: 0 <= k < |before| && before[k].id == x
      ensures error == BadIntent(intents, node, before + [intent])
    {
      ghost var all := before + [intent];
      assert all[..|all| - 1] == before && all[|all| - 1] == intent;
      TrimIsEmptyIff(intent.id);
      hide IsBlank; hide Trim; hide ValidExpectation;
      if Trim(intent.id) == [] { return Some(EmptyEffectIntentId); }
      if intent.node != node { return Some(InvalidSnapshot); }
      if intent.id in ids || intent.id in intents { return Some(DuplicateEffectIntent); }
      var valid := ExpectationIsValid(intent.expectation);
      return if valid then None else Some(InvalidSnapshot);
    }

    method SetState(id: string, to: NodeState)
      requires id in nodes
      modifies this`nodes, this`transitions, this`nextSequence
      ensures View() == Move(old(View()), id, to)
    {
      transitions := transitions + [Transition(nextSequence, id, nodes[id].state, to)];
      nodes := nodes[id := nodes[id].(state := to)];
      nextSequence := nextSequence + 1;
    }

    method Start(id: string) returns (error: Option<Error>)
      modifies this`nodes, this`transitions, this`nextSequence
      ensures error.None? <==> StartNode(old(View()), id).Ok?
      ensures error.Some? ==> StartNode(old(View()), id) == Err(error.value)
      ensures View() == Do(old(View()), OpStart(id))
    {
      if id !in ReadyNodes(View()) { return Some(NodeNotReady); }
      SetState(id, Running);
      return None;
    }

    method CheckNew(id: string, added: seq<Artifact>) returns (error: Option<Error>)
      ensures error == CheckArtifacts(View(), id, added)
    {
      for i := 0 to |added|
        invariant CheckArtifacts(View(), id, added) == CheckArtifacts(View(), id, added[i..])
      {
        assert added[i..][1..] == added[i + 1..];
        if added[i].producer != id { return Some(ArtifactProducerMismatch); }
        if added[i].id in artifacts { return Some(DuplicateArtifact); }
      }
      return None;
    }

    method Complete(id: string, added: seq<Artifact>) returns (error: Option<Error>)
      modifies this`nodes, this`transitions, this`nextSequence, this`artifacts
      ensures error.None? <==> CompleteNode(old(View()), id, added).Ok?
      ensures error.Some? ==> CompleteNode(old(View()), id, added) == Err(error.value)
      ensures View() == Do(old(View()), OpComplete(id, added))
    {
      var bad := CheckNew(id, added);
      if bad.Some? { return bad; }
      if id !in nodes { return Some(MissingNode); }
      if !NormalMove(nodes[id].state, Succeeded) { return Some(InvalidTransition); }
      SetState(id, Succeeded);
      ghost var moved := View();
      for i := 0 to |added|
        invariant View() == moved.(artifacts := artifacts)
        invariant Insert(artifacts, added[i..]) == Insert(old(artifacts), added)
      {
        assert added[i..][1..] == added[i + 1..];
        artifacts := artifacts[added[i].id := added[i].producer];
      }
      return None;
    }

    method Fail(id: string) returns (error: Option<Error>)
      modifies this`nodes, this`transitions, this`nextSequence
      ensures error.None? <==> FailNode(old(View()), id).Ok?
      ensures error.Some? ==> FailNode(old(View()), id) == Err(error.value)
      ensures View() == Do(old(View()), OpFail(id))
    {
      if id !in nodes { return Some(MissingNode); }
      if !NormalMove(nodes[id].state, Failed) { return Some(InvalidTransition); }
      SetState(id, Failed);
      return None;
    }

    method Cancel(id: string) returns (error: Option<Error>)
      modifies this`nodes, this`transitions, this`nextSequence
      ensures error.None? <==> CancelNode(old(View()), id).Ok?
      ensures error.Some? ==> CancelNode(old(View()), id) == Err(error.value)
      ensures View() == Do(old(View()), OpCancel(id))
    {
      if id !in nodes { return Some(MissingNode); }
      if nodes[id].state != Pending && nodes[id].state != Running { return Some(InvalidTransition); }
      SetState(id, Cancelled);
      return None;
    }

    /** Skips nodes, the first unreachable one by name each time, until none is unreachable. */
    method SettleUnreachable() returns (skipped: seq<string>)
      modifies this`nodes, this`transitions, this`nextSequence
      ensures View() == DoAll(old(View()), Skips(skipped)) && Settled(View())
      ensures InTurn(old(View()), Skips(skipped))
      ensures SkippedAre(old(View()), View(), skipped)
      ensures PendingNodes(View()) <= PendingNodes(old(View()))
    {
      ghost var g := View();
      skipped := [];
      hide DoAll; hide Do; hide Move; hide Unreachable; hide PendingNodes; hide SkippedAre; hide InTurn; hide Less;
      NothingDone(g);
      NothingInTurn(g);
      NothingSkipped(g);
      while UnreachableNodes(View()) != {}
        invariant View() == DoAll(g, Skips(skipped)) && InTurn(g, Skips(skipped))
        invariant SkippedAre(g, View(), skipped)
        invariant PendingNodes(View()) <= PendingNodes(g)
        decreases |PendingNodes(View())|
      {
        var id := First(UnreachableNodes(View()));
        InTurnSnoc(g, Skips(skipped), OpSkip(id));
        OneMoreSkipped(g, View(), skipped, id);
        SkipsSnoc(skipped, id);
        DoAllSnoc(g, Skips(skipped), OpSkip(id));
        SkipIs(View(), id);
        SetState(id, Skipped);
        skipped := skipped + [id];
      }
      SettledIs(View());
    }

    method Reconcile(id: string, decision: Decision, reason: string, evidence: seq<string>, added: seq<Artifact>)
      returns (error: Option<Error>)
      modifies this`nodes, this`transitions, this`nextSequence, this`artifacts, this`reconciliations
      ensures error.None? <==> ReconcileNode(old(View()), id, decision, reason, evidence, added).Ok?
      ensures error.Some? ==> ReconcileNode(old(View()), id, decision, reason, evidence, added) == Err(error.value)
      ensures View() == Do(old(View()), OpReconcile(id, decision, reason, evidence, added))
    {
      TrimIsEmptyIff(reason);
      if Trim(reason) == [] { return Some(EmptyReconciliationReason); }
      var backed := EvidenceIsUsable(evidence);
      hide IsBlank; hide Trim;
      if !backed { return Some(MissingReconciliationEvidence); }
      if id !in nodes { return Some(MissingNode); }
      if nodes[id].state != RecoveryRequired { return Some(NodeNotRecoveryRequired); }
      if decision == ConfirmedFailed && added != [] { return Some(FailedReconciliationHasArtifacts); }
      if decision == ConfirmedSucceeded {
        var bad := CheckNew(id, added);
        if bad.Some? { return bad; }
      }
      var sequence := nextSequence;
      SetState(id, DecidedState(decision));
      ghost var moved := View();
      for i := 0 to |added|
        invariant View() == moved.(artifacts := artifacts)
        invariant Insert(artifacts, added[i..]) == Insert(old(artifacts), added)
      {
        assert added[i..][1..] == added[i + 1..];
        artifacts := artifacts[added[i].id := added[i].producer];
      }
      reconciliations := reconciliations + [Reconciliation(id, decision, reason, evidence, sequence)];
      return None;
    }

    /** Starts a set of ready nodes, all or none. */
    method StartReadyBatch(ids: seq<string>) returns (error: Option<Error>)
      modifies this`nodes, this`transitions, this`nextSequence
      ensures error.None? <==> CanStart(old(View()), ids)
      ensures View() == if error.None? then DoAll(old(View()), Starts(ids)) else old(View())
    {
      ghost var g := View();
      hide DoAll; hide Ready; hide Move; hide Do;
      var ready := ReadyNodes(View());
      var selected: set<string> := {};
      for i := 0 to |ids|
        invariant View() == g && CanStart(g, ids[..i])
        invariant forall x :: x in selected <==> x in ids[..i]
      {
        CanStartSnoc(g, ids, i);
        if ids[i] !in nodes { return Some(MissingNode); }
        if ids[i] in selected { return Some(DuplicateBatchNode); }
        selected := selected + {ids[i]};
        if ids[i] !in ready { return Some(NodeNotReady); }
      }
      assert ids[..|ids|] == ids;
      NothingDone(g);
      assert Starts(ids[..0]) == [];
      for i := 0 to |ids|
        invariant View() == DoAll(g, Starts(ids[..i]))
        invariant forall k :: i <= k < |ids| ==> Ready(View(), ids[k])
      {
        StartIs(View(), ids[i]);
        assert Starts(ids[..i + 1]) == Starts(ids[..i]) + [OpStart(ids[i])];
        DoAllSnoc(g, Starts(ids[..i]), OpStart(ids[i]));
        forall k | i < k < |ids| ensures Ready(Move(View(), ids[i], Running), ids[k]) {
          ReadyStays(View(), ids[k], ids[i], Running);
        }
        SetState(ids[i], Running);
      }
      assert ids[..|ids|] == ids;
      error := None;
    }

    /** What one answer of the handler does to a ready node. */
    method Execute(id: string, outcome: NodeOutcome)
      returns (error: Option<Error>, progressed: bool, ghost calls: seq<Call>)
      requires Ready(View(), id)
      modifies this`nodes, this`transitions, this`nextSequence, this`artifacts
      ensures Runs(old(View()), calls, View())
      ensures error.Some? <==> !AllDeliverable(old(artifacts), id, Listed(outcome))
      ensures error.Some? ==> IsFirstBad(old(artifacts), id, Listed(outcome), error.value)
      ensures progressed <==> !outcome.Deferred? && error.None?
      ensures if progressed then Does(old(View()), View(), id, outcome) else View() == old(View())
      ensures forall x :: x != id && Ready(old(View()), x) ==> Ready(View(), x)
    {
      ghost var g := View();
      hide Runs; hide Ready; hide Move; hide Do; hide CheckArtifacts; hide Insert; hide Does; hide IsFirstBad;
      RunsNothing(g);
      CheckMeans(g, id, Listed(outcome));
      match outcome
      case Deferred => return None, false, [];
      case NodeSucceeded(added) =>
        var bad := CheckNew(id, added);
        if bad.Some? { return bad, false, []; }
        StartAndFinish(g, id, outcome);
        SetState(id, Running);
        var completed := Complete(id, added);
        calls := [Plain(OpStart(id)), Plain(OpComplete(id, added))];
        return None, true, calls;
      case NodeFailed =>
        StartAndFinish(g, id, outcome);
        SetState(id, Running);
        var failed := Fail(id);
        calls := [Plain(OpStart(id)), Plain(OpFail(id))];
        return None, true, calls;
      case NodeCancelled =>
        CancelIs(g, id);
        var cancelled := Cancel(id);
        calls := [Plain(OpCancel(id))];
        return None, true, calls;
    }

    /** The handler is asked for one ready node, in a pass that began at `g`. */
    method Ask(handler: (string, nat) -> NodeOutcome, id: string, asked: nat, executed: seq<string>, ghost g: Graph,
               ghost calls: seq<Call>, ghost answers: map<string, NodeOutcome>)
      returns (error: Option<Error>, progressed: bool, ghost more: seq<Call>)
      requires Ready(View(), id) && Runs(g, calls, View()) && Executed(handler, g, View(), executed, answers)
      modifies this`nodes, this`transitions, this`nextSequence, this`artifacts
      ensures Runs(g, calls + more, View())
      ensures
        if progressed then Executed(handler, g, View(), executed + [id], answers + map[id := handler(id, asked)])
        else View() == old(View())
      ensures error.Some? ==> IsRefused(handler, View(), error.value)
      ensures progressed <==> !handler(id, asked).Deferred? && error.None?
      ensures forall x :: x != id && Ready(old(View()), x) ==> Ready(View(), x)
    {
      ghost var before := View();
      hide Runs; hide Executed; hide Ready; hide IsFirstBad; hide IsRefused; hide Does; hide AllDeliverable;
      hide Listed;
      error, progressed, more := Execute(id, handler(id, asked));
      RunsConcat(g, calls, before, more, View());
      if progressed { OneMoreExecuted(handler, g, before, View(), executed, answers, id, asked); }
      if error.Some? { RefusedNow(handler, View(), id, asked, error.value); }
    }

    /** One pass over the nodes that were ready when it began, by name. */
    method RunPass(handler: (string, nat) -> NodeOutcome, asked: nat)
      returns (error: Option<Error>, executed: seq<string>, deferred: seq<string>, made: nat, ghost calls: seq<Call>,
               ghost answers: map<string, NodeOutcome>)
      modifies this`nodes, this`transitions, this`nextSequence, this`artifacts
      ensures Runs(old(View()), calls, View())
      ensures Executed(handler, old(View()), View(), executed, answers)
      ensures error.Some? ==> IsRefused(handler, View(), error.value)
      ensures error.None? && executed == [] ==> View() == old(View()) && Enumerates(deferred, ReadyNodes(View()))
      ensures error.None? && (forall id, k :: !handler(id, k).Deferred?) ==> deferred == []
    {
      ghost var g := View();
      var ready := InNameOrder(ReadyNodes(View()));
      AllReady(g, ready);
      executed, deferred, made, calls, answers := [], [], asked, [], map[];
      hide *;
      RunsNothing(g);
      NothingExecuted(handler, g);
      for i := 0 to |ready|
        invariant Runs(g, calls, View()) && Executed(handler, g, View(), executed, answers)
        invariant forall k :: i <= k < |ready| ==> Ready(View(), ready[k])
        invariant executed == [] ==> View() == g && deferred == ready[..i]
        invariant (forall id, k :: !handler(id, k).Deferred?) ==> deferred == []
      {
        var progressed;
        ghost var more;
        error, progressed, more := Ask(handler, ready[i], made, executed, g, calls, answers);
        if error.Some? { return error, executed, deferred, made + 1, calls + more, answers; }
        if progressed {
          executed, answers := executed + [ready[i]], answers + map[ready[i] := handler(ready[i], made)];
        } else {
          deferred := deferred + [ready[i]];
        }
        made, calls := made + 1, calls + more;
      }
      assert ready[..|ready|] == ready;
      error := None;
    }

    /** The settlement before a pass, in a run that began at `g`. */
    method SettleNext(handler: (string, nat) -> NodeOutcome, executed: seq<string>, skipped: seq<string>,
                      ghost g: Graph, ghost calls: seq<Call>, ghost answers: map<string, NodeOutcome>)
      returns (more: seq<string>)
      requires Runs(g, calls, View()) && Reported(handler, g, View(), executed, answers, skipped)
      modifies this`nodes, this`transitions, this`nextSequence
      ensures Runs(g, calls + [Settle(more)], View()) && Settled(View())
      ensures Reported(handler, g, View(), executed, answers, skipped + more)
      ensures |PendingNodes(View())| <= |PendingNodes(old(View()))|
    {
      hide *;
      ghost var before := View();
      more := SettleUnreachable();
      ghost var settled := View();
      Sets.SubsetSize(PendingNodes(settled), PendingNodes(before));
      SettleRuns(before, more);
      RunsConcat(g, calls, before, [Settle(more)], settled);
      SkipsReported(handler, g, before, settled, executed, answers, skipped, more);
    }

    /** The pass after a settlement, in a run that began at `g`. */
    method PassNext(handler: (string, nat) -> NodeOutcome, asked: nat, before: seq<string>, skipped: seq<string>,
                    ghost g: Graph, ghost calls: seq<Call>, ghost answers: map<string, NodeOutcome>)
      returns (error: Option<Error>, executed: seq<string>, deferred: seq<string>, made: nat, ghost more: seq<Call>,
               ghost given: map<string, NodeOutcome>)
      requires Runs(g, calls, View()) && Reported(handler, g, View(), before, answers, skipped)
      modifies this`nodes, this`transitions, this`nextSequence, this`artifacts
      ensures Runs(g, calls + more, View())
      ensures Reported(handler, g, View(), before + executed, answers + given, skipped)
      ensures executed != [] ==> |PendingNodes(View())| < |PendingNodes(old(View()))|
      ensures error.Some? ==> IsRefused(handler, View(), error.value)
      ensures error.None? && executed == [] ==> View() == old(View()) && Enumerates(deferred, ReadyNodes(View()))
      ensures error.None? && (forall id, k :: !handler(id, k).Deferred?) ==> deferred == []
    {
      hide *;
      ghost var settled := View();
      error, executed, deferred, made, more, given := RunPass(handler, asked);
      RunsConcat(g, calls, settled, more, View());
      PassReported(handler, g, settled, View(), before, answers, skipped, executed, given);
      if executed != [] { ExecutionShrinks(handler, settled, View(), executed, given); }
    }

    /** Passes over the ready nodes until none is left or a whole pass defers. */
    method RunPasses(handler: (string, nat) -> NodeOutcome)
      returns (error: Option<Error>, report: ScheduleReport, ghost calls: seq<Call>,
               ghost answers: map<string, NodeOutcome>)
      modifies this`nodes, this`transitions, this`nextSequence, this`artifacts
      ensures Runs(old(View()), calls, View())
      ensures Reported(handler, old(View()), View(), report.executed, answers, report.skipped)
      ensures error.Some? ==> IsRefused(handler, View(), error.value)
      ensures error.None? ==> Settled(View()) && (report.stalled <==> ReadyNodes(View()) != {})
      ensures error.None? ==> Enumerates(report.deferred, ReadyNodes(View()))
      ensures error.None? && (forall id, k :: !handler(id, k).Deferred?) ==> !report.stalled
    {
      ghost var g := View();
      var asked := 0;
      report := ScheduleReport([], [], [], false);
      calls, answers := [], map[];
      hide *;
      RunsNothing(g);
      NothingExecuted(handler, g);
      while true
        invariant Runs(g, calls, View()) && Reported(handler, g, View(), report.executed, answers, report.skipped)
        invariant report.deferred == [] && !report.stalled
        decreases |PendingNodes(View())|
      {
        var skipped := SettleNext(handler, report.executed, report.skipped, g, calls, answers);
        calls := calls + [Settle(skipped)];
        report := report.(skipped := report.skipped + skipped);
        if ReadyNodes(View()) == {} { return None, report, calls, answers; }
        ghost var passed, given;
        var executed, deferred;
        error, executed, deferred, asked, passed, given :=
          PassNext(handler, asked, report.executed, report.skipped, g, calls, answers);
        calls, answers := calls + passed, answers + given;
        report := report.(executed := report.executed + executed);
        if error.Some? { return error, report, calls, answers; }
        if executed == [] { return None, report.(deferred := deferred, stalled := true), calls, answers; }
      }
    }

    /** Runs the ready nodes of any graph. The report names exactly the nodes that were executed, skipped and, at a
        stall, deferred. The answers are those given for the executed nodes, and what they list is all that is
        added to the artifacts. A handler that never defers leaves no pending node behind in a graph of the right
        shape, unless nodes were still running or awaiting recovery. */
    method RunReady(handler: (string, nat) -> NodeOutcome)
      returns (error: Option<Error>, report: ScheduleReport, ghost calls: seq<Call>,
               ghost answers: map<string, NodeOutcome>)
      modifies this`nodes, this`transitions, this`nextSequence, this`artifacts
      ensures Runs(old(View()), calls, View())
      ensures WellFormed(old(View())) ==> WellFormed(View())
      ensures Inv(old(View())) ==> Inv(View())
      ensures Reported(handler, old(View()), View(), report.executed, answers, report.skipped)
      ensures error.Some? ==> IsRefused(handler, View(), error.value)
      ensures error.None? ==> Settled(View()) && (report.stalled <==> ReadyNodes(View()) != {})
      ensures error.None? ==> Enumerates(report.deferred, ReadyNodes(View()))
      ensures error.None? && (forall id, k :: !handler(id, k).Deferred?) ==> !report.stalled
      ensures
        error.None? && !report.stalled && NothingInDoubt(View()) && WellFormed(old(View())) ==>
          PendingNodes(View()) == {}
    {
      hide *;
      ghost var g := View();
      error, report, calls, answers := RunPasses(handler);
      RunsKeep(g, calls, View());
      if error.None? && !report.stalled && WellFormed(View()) { WellFormedProgress(View()); }
    }
  }

  // -- What a run reports ---------------------------------------------

  predicate Distinct(list: seq<string>) { forall i, j :: 0 <= i < j < |list| ==> list[i] != list[j] }

  /** One pending node has come to its end, no other node has changed. */
  predicate Finishes(g: Graph, h: Graph, id: string, to: NodeState) {
    id in g.nodes && g.nodes[id].state.Pending? && h.nodes == g.nodes[id := g.nodes[id].(state := to)]
  }

  /** What the answer does to the graph: the node comes to its end by the moves that belong to the answer, and
      the artifacts are delivered. */
  ghost predicate Does(g: Graph, h: Graph, id: string, o: NodeOutcome) {
    && Finishes(g, h, id, EndState(o)) && Delivered(g.artifacts, Listed(o), h.artifacts)
    && h.transitions == g.transitions + Trace(g.nextSequence, id, Changes(o))
    && h.edges == g.edges && h.reconciliations == g.reconciliations
  }

  /** The handler answered so for that node, at one call or another. */
  ghost predicate Gave(handler: (string, nat) -> NodeOutcome, id: string, o: NodeOutcome) {
    exists k: nat :: handler(id, k) == o
  }

  /** Some answer listed an artifact that could not be delivered, and this is what was wrong with the first. */
  ghost predicate IsRefused(handler: (string, nat) -> NodeOutcome, g: Graph, e: Error) {
    exists id, k: nat :: IsFirstBad(g.artifacts, id, Listed(handler(id, k)), e)
  }

  lemma RefusedNow(handler: (string, nat) -> NodeOutcome, g: Graph, id: string, k: nat, e: Error)
    requires IsFirstBad(g.artifacts, id, Listed(handler(id, k)), e)
    ensures IsRefused(handler, g, e)
  {
  }

  /** Exactly the listed pending nodes, each once, have come to the end that the handler's answer gave them. */
  ghost predicate Executed(handler: (string, nat) -> NodeOutcome, g: Graph, h: Graph, executed: seq<string>,
                           answers: map<string, NodeOutcome>)
  {
    Reported(handler, g, h, executed, answers, [])
  }

  /** The two lists name pending nodes, each once. */
  ghost predicate Listing(g: Graph, executed: seq<string>, skipped: seq<string>) {
    && Distinct(executed) && Distinct(skipped)
    && (forall id :: id in executed ==> id !in skipped)
    && forall id :: id in executed || id in skipped ==> id in g.nodes && g.nodes[id].state.Pending?
  }

  /** Apart from the executed nodes, the skipped ones are the only ones that have changed. */
  predicate OthersStay(g: Graph, h: Graph, executed: seq<string>, skipped: seq<string>) {
    && h.nodes.Keys == g.nodes.Keys
    && forall id :: id in g.nodes ==>
         && h.nodes[id].kind == g.nodes[id].kind
         && (id !in executed ==> h.nodes[id].state == if id in skipped then Skipped else g.nodes[id].state)
  }

  /** The handler gave this answer for the node, which has come to its end by it. */
  ghost predicate EndedBy(handler: (string, nat) -> NodeOutcome, h: Graph, id: string, o: NodeOutcome) {
    !o.Deferred? && Gave(handler, id, o) && id in h.nodes && h.nodes[id].state == EndState(o)
  }

  /** Exactly the listed pending nodes, each once, have come to the end that the handler's answer gave them or
      have been skipped, and no other node has changed. */
  ghost predicate Ended(handler: (string, nat) -> NodeOutcome, g: Graph, h: Graph, executed: seq<string>,
                        answers: map<string, NodeOutcome>, skipped: seq<string>)
  {
    && (forall id :: id in executed <==> id in answers)
    && Listing(g, executed, skipped) && OthersStay(g, h, executed, skipped)
    && forall id :: id in answers ==> EndedBy(handler, h, id, answers[id])
  }

  /** The moves that belong to a node's answer, or to its skip. */
  function Expected(answers: map<string, NodeOutcome>, skipped: seq<string>, id: string): seq<Change> {
    if id in answers then Changes(answers[id]) else if id in skipped then [Change(Pending, Skipped)] else []
  }

  /** The history has grown by exactly those. */
  ghost predicate Traced(g: Graph, h: Graph, answers: map<string, NodeOutcome>, skipped: seq<string>) {
    && g.transitions <= h.transitions
    && forall id :: MovesOf(h.transitions[|g.transitions|..], id) == Expected(answers, skipped, id)
  }

  ghost predicate Reported(handler: (string, nat) -> NodeOutcome, g: Graph, h: Graph, executed: seq<string>,
                           answers: map<string, NodeOutcome>, skipped: seq<string>)
  {
    && Ended(handler, g, h, executed, answers, skipped) && Traced(g, h, answers, skipped)
    && AllDelivered(g.artifacts, answers, h.artifacts)
    && h.edges == g.edges && h.reconciliations == g.reconciliations
  }

  lemma AllReady(g: Graph, ready: seq<string>)
    requires Enumerates(ready, ReadyNodes(g))
    ensures forall k :: 0 <= k < |ready| ==> Ready(g, ready[k])
    ensures forall i, j :: 0 <= i < j < |ready| ==> ready[i] != ready[j]
  {
    SortedIsDistinct(ready);
    hide Sorted; hide Ready;
    forall k | 0 <= k < |ready| ensures Ready(g, ready[k]) { assert ready[k] in ready; }
  }

  lemma SettleRuns(g: Graph, skips: seq<string>)
    requires InTurn(g, Skips(skips)) && Settled(DoAll(g, Skips(skips)))
    ensures Runs(g, [Settle(skips)], DoAll(g, Skips(skips)))
  {
    hide Runs; hide Settled; hide Appends; hide DoAll; hide InTurn;
    SkipsAppend(g, skips);
    RunsOne(g, Settle(skips));
  }

  lemma NothingExecuted(handler: (string, nat) -> NodeOutcome, g: Graph)
    ensures Executed(handler, g, g, [], map[])
  {
    assert g.transitions[|g.transitions|..] == [];
    NothingAnswered(g.artifacts);
  }

  lemma DistinctBoth(a: seq<string>, b: seq<string>)
    requires Distinct(a) && Distinct(b) && forall id :: id in a ==> id !in b
    ensures Distinct(a + b) && forall id :: id in a + b <==> id in a || id in b
  {
    var both := a + b;
    forall i, j | 0 <= i < j < |both| ensures both[i] != both[j] {
      if i < |a| <= j { assert both[i] in a && both[j] in b; }
    }
  }

  lemma AnswerIsTraced(g: Graph, h: Graph, id: string, o: NodeOutcome)
    requires h.transitions == g.transitions + Trace(g.nextSequence, id, Changes(o))
    ensures Traced(g, h, map[id := o], [])
  {
    var trace := Trace(g.nextSequence, id, Changes(o));
    assert h.transitions[|g.transitions|..] == trace;
    forall x ensures MovesOf(trace, x) == Expected(map[id := o], [], x) {
      TraceMoves(g.nextSequence, id, Changes(o), x);
    }
    hide Trace; hide MovesOf; hide Expected;
  }

  lemma AnswerEnds(handler: (string, nat) -> NodeOutcome, g: Graph, h: Graph, id: string, k: nat)
    requires !handler(id, k).Deferred? && Finishes(g, h, id, EndState(handler(id, k)))
    ensures Ended(handler, g, h, [id], map[id := handler(id, k)], [])
  {
    hide EndState;
    assert Gave(handler, id, handler(id, k));
    hide Gave;
  }

  lemma AnswerIsReported(handler: (string, nat) -> NodeOutcome, g: Graph, h: Graph, id: string, k: nat)
    requires !handler(id, k).Deferred? && Does(g, h, id, handler(id, k))
    ensures Executed(handler, g, h, [id], map[id := handler(id, k)])
  {
    hide EndState; hide Delivered; hide Trace; hide Changes; hide Listed; hide Finishes; hide Ended; hide Traced;
    hide AllDelivered;
    AnswerEnds(handler, g, h, id, k);
    AnswerIsTraced(g, h, id, handler(id, k));
    OneAnswered(g.artifacts, id, handler(id, k), h.artifacts);
  }

  lemma OneMoreExecuted(handler: (string, nat) -> NodeOutcome, g: Graph, m: Graph, h: Graph, executed: seq<string>,
                        answers: map<string, NodeOutcome>, id: string, k: nat)
    requires Executed(handler, g, m, executed, answers)
    requires !handler(id, k).Deferred? && Does(m, h, id, handler(id, k))
    ensures Executed(handler, g, h, executed + [id], answers + map[id := handler(id, k)])
  {
    AnswerIsReported(handler, m, h, id, k);
    hide Reported; hide Does;
    PassReported(handler, g, m, h, executed, answers, [], [id], map[id := handler(id, k)]);
  }

  lemma EndedIsNotPending(handler: (string, nat) -> NodeOutcome, h: Graph, id: string, o: NodeOutcome)
    requires EndedBy(handler, h, id, o)
    ensures id in h.nodes && !h.nodes[id].state.Pending?
  {
  }

  /** Nothing that the first stretch ended is touched by the second. */
  lemma EndsApart(handler: (string, nat) -> NodeOutcome, g: Graph, m: Graph, h: Graph, executed: seq<string>,
                  answers: map<string, NodeOutcome>, skipped: seq<string>, more: seq<string>,
                  moreAnswers: map<string, NodeOutcome>, moreSkipped: seq<string>)
    requires Ended(handler, g, m, executed, answers, skipped)
    requires Ended(handler, m, h, more, moreAnswers, moreSkipped)
    ensures forall id :: id in more || id in moreSkipped ==> id !in executed && id !in skipped
    ensures forall id :: id in moreAnswers || id in moreSkipped ==> id !in answers && id !in skipped
  {
    hide EndedBy; hide Distinct;
    forall id | id in answers ensures id in m.nodes && !m.nodes[id].state.Pending? {
      EndedIsNotPending(handler, m, id, answers[id]);
    }
  }

  lemma ListingsJoin(g: Graph, m: Graph, executed: seq<string>, skipped: seq<string>, more: seq<string>,
                     moreSkipped: seq<string>)
    requires Listing(g, executed, skipped) && Listing(m, more, moreSkipped) && OthersStay(g, m, executed, skipped)
    requires forall id :: id in more || id in moreSkipped ==> id !in executed && id !in skipped
    ensures Listing(g, executed + more, skipped + moreSkipped)
  {
    DistinctBoth(executed, more);
    DistinctBoth(skipped, moreSkipped);
    hide Distinct;
  }

  lemma OthersJoin(g: Graph, m: Graph, h: Graph, executed: seq<string>, skipped: seq<string>, more: seq<string>,
                   moreSkipped: seq<string>)
    requires OthersStay(g, m, executed, skipped) && OthersStay(m, h, more, moreSkipped)
    requires forall id :: id in more || id in moreSkipped ==> id !in executed && id !in skipped
    ensures OthersStay(g, h, executed + more, skipped + moreSkipped)
  {
    assert forall id :: id in executed + more <==> id in executed || id in more;
    assert forall id :: id in skipped + moreSkipped <==> id in skipped || id in moreSkipped;
  }

  lemma EndLasts(handler: (string, nat) -> NodeOutcome, m: Graph, h: Graph, id: string, o: NodeOutcome,
                 more: seq<string>, moreSkipped: seq<string>)
    requires EndedBy(handler, m, id, o) && OthersStay(m, h, more, moreSkipped) && id !in more && id !in moreSkipped
    ensures EndedBy(handler, h, id, o)
  {
    hide Gave; hide EndState;
  }

  lemma EndsJoin(handler: (string, nat) -> NodeOutcome, g: Graph, m: Graph, h: Graph, executed: seq<string>,
                 answers: map<string, NodeOutcome>, skipped: seq<string>, more: seq<string>,
                 moreAnswers: map<string, NodeOutcome>, moreSkipped: seq<string>)
    requires Ended(handler, g, m, executed, answers, skipped)
    requires Ended(handler, m, h, more, moreAnswers, moreSkipped)
    ensures Ended(handler, g, h, executed + more, answers + moreAnswers, skipped + moreSkipped)
  {
    EndsApart(handler, g, m, h, executed, answers, skipped, more, moreAnswers, moreSkipped);
    ListingsJoin(g, m, executed, skipped, more, moreSkipped);
    OthersJoin(g, m, h, executed, skipped, more, moreSkipped);
    hide Listing; hide OthersStay; hide EndedBy;
    var both := answers + moreAnswers;
    forall id | id in both ensures EndedBy(handler, h, id, both[id]) {
      if id in answers { EndLasts(handler, m, h, id, answers[id], more, moreSkipped); }
    }
    assert forall id :: id in executed + more <==> id in executed || id in more;
  }

  lemma TracesJoin(g: Graph, m: Graph, h: Graph, answers: map<string, NodeOutcome>, skipped: seq<string>,
                   moreAnswers: map<string, NodeOutcome>, moreSkipped: seq<string>)
    requires Traced(g, m, answers, skipped) && Traced(m, h, moreAnswers, moreSkipped)
    requires forall id :: id in moreAnswers || id in moreSkipped ==> id !in answers && id !in skipped
    ensures Traced(g, h, answers + moreAnswers, skipped + moreSkipped)
  {
    var first, last := m.transitions[|g.transitions|..], h.transitions[|m.transitions|..];
    assert h.transitions[|g.transitions|..] == first + last;
    forall id ensures MovesOf(first + last, id) == Expected(answers + moreAnswers, skipped + moreSkipped, id) {
      MovesOfConcat(first, last, id);
      ExpectedJoin(answers, skipped, moreAnswers, moreSkipped, id);
    }
    hide MovesOf; hide Expected;
  }

  lemma ExpectedJoin(answers: map<string, NodeOutcome>, skipped: seq<string>, moreAnswers: map<string, NodeOutcome>,
                     moreSkipped: seq<string>, id: string)
    requires id in moreAnswers || id in moreSkipped ==> id !in answers && id !in skipped
    ensures
      Expected(answers + moreAnswers, skipped + moreSkipped, id)
      == Expected(answers, skipped, id) + Expected(moreAnswers, moreSkipped, id)
  {
    hide Changes;
  }

  /** Two stretches of a run reported one after the other. */
  lemma ReportsJoin(handler: (string, nat) -> NodeOutcome, g: Graph, m: Graph, h: Graph, executed: seq<string>,
                    answers: map<string, NodeOutcome>, skipped: seq<string>, more: seq<string>,
                    moreAnswers: map<string, NodeOutcome>, moreSkipped: seq<string>)
    requires Reported(handler, g, m, executed, answers, skipped)
    requires Reported(handler, m, h, more, moreAnswers, moreSkipped)
    ensures Reported(handler, g, h, executed + more, answers + moreAnswers, skipped + moreSkipped)
  {
    EndsApart(handler, g, m, h, executed, answers, skipped, more, moreAnswers, moreSkipped);
    EndsJoin(handler, g, m, h, executed, answers, skipped, more, moreAnswers, moreSkipped);
    hide Ended;
    TracesJoin(g, m, h, answers, skipped, moreAnswers, moreSkipped);
    hide Traced;
    AllDeliveredThen(g.artifacts, answers, m.artifacts, moreAnswers, h.artifacts);
    hide AllDelivered;
  }

  lemma PassReported(handler: (string, nat) -> NodeOutcome, g: Graph, m: Graph, h: Graph, executed: seq<string>,
                     answers: map<string, NodeOutcome>, skipped: seq<string>, more: seq<string>,
                     given: map<string, NodeOutcome>)
    requires Reported(handler, g, m, executed, answers, skipped) && Executed(handler, m, h, more, given)
    ensures Reported(handler, g, h, executed + more, answers + given, skipped)
  {
    hide Reported;
    ReportsJoin(handler, g, m, h, executed, answers, skipped, more, given, []);
    assert skipped + [] == skipped;
  }

  lemma SkipsAreReported(handler: (string, nat) -> NodeOutcome, g: Graph, h: Graph, skipped: seq<string>)
    requires SkippedAre(g, h, skipped)
    ensures Reported(handler, g, h, [], map[], skipped)
  {
    SkipsEnd(handler, g, h, skipped);
    SkipsAreTraced(g, h, skipped);
    NothingAnswered(g.artifacts);
    hide SkipTrace; hide AllDelivered; hide Traced; hide Distinct; hide Ended;
  }

  lemma SkipsEnd(handler: (string, nat) -> NodeOutcome, g: Graph, h: Graph, skipped: seq<string>)
    requires SkippedAre(g, h, skipped)
    ensures Ended(handler, g, h, [], map[], skipped)
  {
    hide SkipTrace; hide KeptBesides; hide EndedBy;
  }

  lemma SkipsAreTraced(g: Graph, h: Graph, skipped: seq<string>)
    requires Distinct(skipped) && h.transitions == g.transitions + SkipTrace(g.nextSequence, skipped)
    ensures Traced(g, h, map[], skipped)
  {
    var trace := SkipTrace(g.nextSequence, skipped);
    assert h.transitions[|g.transitions|..] == trace;
    forall id ensures MovesOf(trace, id) == Expected(map[], skipped, id) {
      SkipTraceMoves(g.nextSequence, skipped, id);
    }
    hide SkipTrace; hide MovesOf; hide Expected;
  }

  lemma NoMore<K, V>(m: map<K, V>)
    ensures m + map[] == m
  {
  }

  lemma SkipsReported(handler: (string, nat) -> NodeOutcome, g: Graph, m: Graph, h: Graph, executed: seq<string>,
                      answers: map<string, NodeOutcome>, skipped: seq<string>, more: seq<string>)
    requires Reported(handler, g, m, executed, answers, skipped) && SkippedAre(m, h, more)
    ensures Reported(handler, g, h, executed, answers, skipped + more)
  {
    SkipsAreReported(handler, m, h, more);
    hide Reported; hide SkippedAre;
    ReportsJoin(handler, g, m, h, executed, answers, skipped, [], map[], more);
    assert executed + [] == executed;
    NoMore(answers);
  }

  lemma ExecutionShrinks(handler: (string, nat) -> NodeOutcome, g: Graph, h: Graph, executed: seq<string>,
                         answers: map<string, NodeOutcome>)
    requires Executed(handler, g, h, executed, answers) && executed != []
    ensures |PendingNodes(h)| < |PendingNodes(g)|
  {
    hide EndedBy; hide Distinct; hide Traced; hide AllDelivered;
    forall id | id in answers ensures id in h.nodes && !h.nodes[id].state.Pending? {
      EndedIsNotPending(handler, h, id, answers[id]);
    }
    forall x | x in PendingNodes(h) ensures x in PendingNodes(g) {}
    assert executed[0] in executed;
    Sets.SmallerBy(PendingNodes(h), PendingNodes(g), executed[0]);
  }

  // -- Progress -------------------------------------------------------

  /** No node is running or awaiting recovery. */
  predicate NothingInDoubt(g: Graph) {
    forall id :: id in g.nodes ==> !g.nodes[id].state.Running? && !g.nodes[id].state.RecoveryRequired?
  }

  function RankOf(rank: map<string, nat>, id: string): nat { if id in rank then rank[id] else 0 }

  /** A dependency that keeps a pending node from being ready is itself pending. */
  lemma BlockerIsPending(g: Graph, id: string, e: Edge)
    requires Settled(g) && NothingInDoubt(g) && id in g.nodes && g.nodes[id].state.Pending?
    requires e in g.edges && e.to == id && e.from in g.nodes && !Satisfied(g, e)
    ensures g.nodes[e.from].state.Pending?
  {
    var i :| 0 <= i < |g.edges| && g.edges[i] == e;
    assert !Broken(g, e) by { assert !Unreachable(g, id); }
  }

  /** Going back from blocker to blocker ends, as there is no cycle. */
  lemma {:induction false} FindReady(g: Graph, rank: map<string, nat>, id: string)
    requires Settled(g) && NothingInDoubt(g) && Ranks(g.edges, rank)
    requires forall i :: 0 <= i < |g.edges| ==> g.edges[i].from in g.nodes
    requires id in g.nodes && g.nodes[id].state.Pending?
    ensures ReadyNodes(g) != {}
    decreases RankOf(rank, id)
  {
    if Ready(g, id) {
      assert id in ReadyNodes(g);
    } else {
      var i :| 0 <= i < |g.edges| && g.edges[i].to == id && !Satisfied(g, g.edges[i]);
      var e := g.edges[i];
      BlockerIsPending(g, id, e);
      hide Settled; hide NothingInDoubt; hide Satisfied;
      FindReady(g, rank, e.from);
    }
  }

  /** A settled graph with pending nodes, none running and none in doubt, has a ready node. */
  lemma Progress(g: Graph)
    requires Shape(g) && Settled(g)
    ensures NothingInDoubt(g) && PendingNodes(g) != {} ==> ReadyNodes(g) != {}
  {
    hide IsBlank;
    if NothingInDoubt(g) && PendingNodes(g) != {} {
      var id :| id in PendingNodes(g);
      var rank :| Ranks(g.edges, rank);
      FindReady(g, rank, id);
    }
  }

  lemma WellFormedProgress(g: Graph)
    requires WellFormed(g) && Settled(g)
    ensures NothingInDoubt(g) && PendingNodes(g) != {} ==> ReadyNodes(g) != {}
  {
    Progress(g);
  }

  predicate CanStart(g: Graph, ids: seq<string>) {
    && (forall i :: 0 <= i < |ids| ==> Ready(g, ids[i]))
    && forall i, j :: 0 <= i < j < |ids| ==> ids[i] != ids[j]
  }

  lemma CanStartSnoc(g: Graph, ids: seq<string>, i: nat)
    requires i < |ids|
    ensures CanStart(g, ids[..i + 1]) <==> CanStart(g, ids[..i]) && Ready(g, ids[i]) && ids[i] !in ids[..i]
    ensures CanStart(g, ids) ==> CanStart(g, ids[..i + 1])
    ensures Ready(g, ids[i]) ==> ids[i] in g.nodes
  {
    assert Ready(g, ids[i]) ==> ids[i] in g.nodes;
    hide Ready;
    var longer := ids[..i + 1];
    assert forall k :: 0 <= k < i ==> longer[k] == ids[..i][k];
    assert longer[i] == ids[i];
    if CanStart(g, longer) {
      forall k | 0 <= k < i ensures ids[..i][k] != ids[i] { assert longer[k] != longer[i]; }
    }
  }

  function Starts(ids: seq<string>): seq<Op> { seq(|ids|, i requires 0 <= i < |ids| => OpStart(ids[i])) }

  lemma StartIs(g: Graph, id: string)
    requires Ready(g, id)
    ensures id in g.nodes && g.nodes[id].state.Pending? && Do(g, OpStart(id)) == Move(g, id, Running)
  {
  }

  function FinishOp(id: string, o: NodeOutcome): Op {
    if o.NodeSucceeded? then OpComplete(id, o.artifacts) else OpFail(id)
  }

  lemma FinishIs(r: Graph, id: string, o: NodeOutcome)
    requires id in r.nodes && r.nodes[id].state.Running? && (o.NodeSucceeded? || o.NodeFailed?)
    requires AllDeliverable(r.artifacts, id, Listed(o))
    ensures o.NodeSucceeded? ==> CompleteNode(r, id, o.artifacts).Ok?
    ensures o.NodeFailed? ==> FailNode(r, id).Ok?
    ensures
      var h, moved := Do(r, FinishOp(id, o)), Move(r, id, EndState(o));
      h == moved.(artifacts := h.artifacts) && Delivered(r.artifacts, Listed(o), h.artifacts)
  {
    if o.NodeSucceeded? { CompletionDelivers(r, id, o.artifacts); } else { NothingDelivered(r.artifacts); }
    hide Insert; hide CheckArtifacts; hide Delivered; hide AllDeliverable;
  }

  lemma ReadyByNodes(g: Graph, h: Graph, id: string)
    requires Ready(g, id) && g.nodes == h.nodes && g.edges == h.edges
    ensures Ready(h, id)
  {
    forall i | 0 <= i < |h.edges| && h.edges[i].to == id ensures Satisfied(h, h.edges[i]) {
      assert Satisfied(g, g.edges[i]);
    }
  }

  lemma TwoTraced(n: nat, id: string, first: Change, last: Change)
    ensures
      Trace(n, id, [first, last])
      == [Transition(n, id, first.from, first.to)] + [Transition(n + 1, id, last.from, last.to)]
  {
    assert [first, last][1..] == [last] && [last][1..] == [];
    assert Trace(n + 1, id, [last]) == [Transition(n + 1, id, last.from, last.to)] + Trace(n + 2, id, []);
  }

  lemma DoesByMoves(g: Graph, id: string, h: Graph, o: NodeOutcome)
    requires Ready(g, id) && (o.NodeSucceeded? || o.NodeFailed?)
    requires h == Move(Move(g, id, Running), id, EndState(o)).(artifacts := h.artifacts)
    requires Delivered(g.artifacts, Listed(o), h.artifacts)
    ensures Does(g, h, id, o)
  {
    hide Delivered;
    var n, first, last := g.nextSequence, Change(Pending, Running), Change(Running, EndState(o));
    assert Changes(o) == [first, last];
    TwoTraced(n, id, first, last);
  }

  /** A ready node started and finished; what was ready stays ready. */
  lemma StartAndFinish(g: Graph, id: string, o: NodeOutcome)
    requires Ready(g, id) && (o.NodeSucceeded? || o.NodeFailed?) && AllDeliverable(g.artifacts, id, Listed(o))
    ensures id in g.nodes
    ensures
      var r := Move(g, id, Running);
      var h := Do(r, FinishOp(id, o));
      && Runs(g, [Plain(OpStart(id)), Plain(FinishOp(id, o))], h)
      && (o.NodeSucceeded? ==> CompleteNode(r, id, o.artifacts).Ok?) && (o.NodeFailed? ==> FailNode(r, id).Ok?)
      && Does(g, h, id, o)
      && forall x :: x != id && Ready(g, x) ==> Ready(h, x)
  {
    StartIs(g, id);
    var r := Move(g, id, Running);
    FinishIs(r, id, o);
    var h := Do(r, FinishOp(id, o));
    DoesByMoves(g, id, h, o);
    var moved := Move(r, id, EndState(o));
    forall x | x != id && Ready(g, x) ensures Ready(h, x) {
      ReadyStays(g, x, id, Running);
      ReadyStays(r, x, id, EndState(o));
      ReadyByNodes(moved, h, x);
    }
    hide Ready; hide Do; hide Move; hide CompleteNode; hide Runs; hide Does; hide Delivered; hide AllDeliverable;
    RunsPlain(g, OpStart(id));
    RunsPlain(r, FinishOp(id, o));
    RunsConcat(g, [Plain(OpStart(id))], r, [Plain(FinishOp(id, o))], h);
  }

  lemma CancelIs(g: Graph, id: string)
    requires Ready(g, id)
    ensures
      var h := Do(g, OpCancel(id));
      && CancelNode(g, id).Ok? && Runs(g, [Plain(OpCancel(id))], h) && Does(g, h, id, NodeCancelled)
      && forall x :: x != id && Ready(g, x) ==> Ready(h, x)
  {
    StartIs(g, id);
    var h := Move(g, id, Cancelled);
    assert Do(g, OpCancel(id)) == h;
    forall x | x != id && Ready(g, x) ensures Ready(h, x) { ReadyStays(g, x, id, Cancelled); }
    NothingDelivered(g.artifacts);
    hide Ready; hide Do; hide Runs; hide Delivered;
    RunsPlain(g, OpCancel(id));
    assert Changes(NodeCancelled)[1..] == [];
    assert Trace(g.nextSequence, id, Changes(NodeCancelled)) == [Transition(g.nextSequence, id, Pending, Cancelled)];
    assert Does(g, h, id, NodeCancelled);
  }

  lemma SkipIs(g: Graph, id: string)
    requires Unreachable(g, id)
    ensures id in g.nodes && Do(g, OpSkip(id)) == Move(g, id, Skipped)
    ensures PendingNodes(Move(g, id, Skipped)) <= PendingNodes(g)
    ensures |PendingNodes(Move(g, id, Skipped))| < |PendingNodes(g)|
  {
    PendingShrinks(g, id, Skipped);
    hide PendingNodes; hide Move;
  }
}
