/** The operations of the execution graph as a table: for every operation exactly when it takes effect, said on the
    states of the nodes, and exactly which effect that is (zhongshu-core/src/agent/execution_graph.rs:320-632). */
module GraphRules {
  import opened Wrappers
  import opened Text
  import opened GraphPaths
  import opened ExecutionGraph
  import opened GraphOutcomes

  predicate IsIn(g: Graph, id: string, states: set<NodeState>) { id in g.nodes && g.nodes[id].state in states }

  /** What the edge's source must be in for the target to start. */
  function Opening(kind: EdgeKind): set<NodeState> {
    if kind == Finally then {Succeeded, Failed, Skipped, Cancelled, RecoveryRequired} else {Succeeded}
  }

  /** The name of the node that an operation moves, and the state that it moves it to. */
  function Target(op: Op): Option<(string, NodeState)> {
    match op
    case OpStart(id) => Some((id, Running))
    case OpComplete(id, _) => Some((id, Succeeded))
    case OpFail(id) => Some((id, Failed))
    case OpCancel(id) => Some((id, Cancelled))
    case OpReconcile(id, decision, _, _, _) => Some((id, if decision == ConfirmedFailed then Failed else Succeeded))
    case OpSkip(id) => Some((id, Skipped))
    case OpInterrupt(id) => Some((id, RecoveryRequired))
    case OpAddNode(_, _) => None
    case OpAddEdge(_) => None
  }

  /** When the operation takes effect. */
  ghost predicate Can(g: Graph, op: Op) {
    match op
    case OpAddNode(id, node) =>
      && HasText(id) && id !in g.nodes
      && (node.kind == Apply ==> forall a :: a in g.nodes ==> g.nodes[a].kind == Other)
    case OpAddEdge(e) =>
      && IsIn(g, e.to, {Pending}) && e.from in g.nodes && e.from != e.to
      && (forall f :: f in g.edges && f.from == e.from ==> f.to != e.to) && !Reaches(g.edges, e.to, e.from)
    case OpStart(id) =>
      IsIn(g, id, {Pending}) && forall e :: e in g.edges && e.to == id ==> IsIn(g, e.from, Opening(e.kind))
    case OpComplete(id, artifacts) => IsIn(g, id, {Running}) && AllDeliverable(g.artifacts, id, artifacts)
    case OpFail(id) => IsIn(g, id, {Running})
    case OpCancel(id) => IsIn(g, id, {Pending, Running})
    case OpReconcile(id, decision, reason, evidence, artifacts) =>
      && IsIn(g, id, {RecoveryRequired})
      && HasText(reason) && evidence != [] && (forall e :: e in evidence ==> HasText(e))
      && (if decision == ConfirmedFailed then artifacts == [] else AllDeliverable(g.artifacts, id, artifacts))
    case OpSkip(id) =>
      && IsIn(g, id, {Pending})
      && exists e :: e in g.edges && e.to == id && e.kind != Finally && IsIn(g, e.from, {Failed, Skipped, Cancelled})
    case OpInterrupt(id) => IsIn(g, id, {Running})
  }

  function ArtifactsOf(op: Op): seq<Artifact> {
    match op
    case OpComplete(_, artifacts) => artifacts
    case OpReconcile(_, _, _, _, artifacts) => artifacts
    case _ => []
  }

  function ReconciliationsOf(op: Op, sequence: nat): seq<Reconciliation> {
    if op.OpReconcile? then [Reconciliation(op.id, op.decision, op.reason, op.evidence, sequence)] else []
  }

  /** The effect: a new node or edge as it was given, or one node moved and the move appended to the history, with
      the artifacts that come with it and a record of the reconciliation. */
  ghost predicate Effect(g: Graph, op: Op, h: Graph) {
    match Target(op)
    case None =>
      if op.OpAddNode? then h == g.(nodes := g.nodes[op.id := op.node])
      else op.OpAddEdge? && h == g.(edges := g.edges + [op.edge])
    case Some((id, to)) =>
      && id in g.nodes
      && h.nodes == g.nodes[id := Node(g.nodes[id].kind, to)]
      && h.transitions == g.transitions + [Transition(g.nextSequence, id, g.nodes[id].state, to)]
      && h.nextSequence == g.nextSequence + 1 && h.edges == g.edges
      && h.reconciliations == g.reconciliations + ReconciliationsOf(op, g.nextSequence)
      && Delivered(g.artifacts, ArtifactsOf(op), h.artifacts)
  }

  // -- Every operation keeps to the table -----------------------------

  lemma SatisfiedMeans(g: Graph, e: Edge)
    ensures Satisfied(g, e) <==> IsIn(g, e.from, Opening(e.kind))
    ensures Broken(g, e) <==> e.kind != Finally && IsIn(g, e.from, {Failed, Skipped, Cancelled})
  {
  }

  lemma PendingMeans(g: Graph, id: string)
    ensures IsIn(g, id, {Pending}) <==> id in g.nodes && g.nodes[id].state.Pending?
  {
  }

  lemma ReadyMeans(g: Graph, id: string)
    ensures Ready(g, id) <==> Can(g, OpStart(id))
    ensures Unreachable(g, id) <==> Can(g, OpSkip(id))
  {
    hide Satisfied; hide Broken; hide Opening; hide IsIn;
    PendingMeans(g, id);
    forall e
      ensures Satisfied(g, e) <==> IsIn(g, e.from, Opening(e.kind))
      ensures Broken(g, e) <==> e.kind != Finally && IsIn(g, e.from, {Failed, Skipped, Cancelled})
    {
      SatisfiedMeans(g, e);
    }
  }

  lemma MoveIsEffect(g: Graph, op: Op, id: string, to: NodeState)
    requires Target(op) == Some((id, to)) && ArtifactsOf(op) == [] && !op.OpReconcile? && id in g.nodes
    ensures Effect(g, op, Move(g, id, to))
  {
    hide Delivered;
    NothingDelivered(g.artifacts);
    assert g.reconciliations + [] == g.reconciliations;
  }

  lemma AddingKeepsTable(g: Graph, op: Op)
    requires op.OpAddNode? || op.OpAddEdge?
    ensures if Can(g, op) then Effect(g, op, Do(g, op)) else Do(g, op) == g
  {
    hide Reaches; hide IsWhitespace;
  }

  lemma StartKeepsTable(g: Graph, id: string)
    ensures if Can(g, OpStart(id)) then Effect(g, OpStart(id), Do(g, OpStart(id))) else Do(g, OpStart(id)) == g
  {
    ReadyMeans(g, id);
    if Ready(g, id) { MoveIsEffect(g, OpStart(id), id, Running); }
    hide Effect; hide Can;
  }

  lemma SkipKeepsTable(g: Graph, id: string)
    ensures if Can(g, OpSkip(id)) then Effect(g, OpSkip(id), Do(g, OpSkip(id))) else Do(g, OpSkip(id)) == g
  {
    ReadyMeans(g, id);
    if Unreachable(g, id) { MoveIsEffect(g, OpSkip(id), id, Skipped); }
    hide Effect; hide Can;
  }

  lemma PlainMoveKeepsTable(g: Graph, op: Op)
    requires op.OpFail? || op.OpCancel? || op.OpInterrupt?
    ensures if Can(g, op) then Effect(g, op, Do(g, op)) else Do(g, op) == g
  {
    if op.id in g.nodes { MoveIsEffect(g, op, op.id, Target(op).value.1); }
    hide Effect;
  }

  lemma CompleteKeepsTable(g: Graph, op: Op)
    requires op.OpComplete?
    ensures if Can(g, op) then Effect(g, op, Do(g, op)) else Do(g, op) == g
  {
    CheckMeans(g, op.id, op.artifacts);
    if AllDeliverable(g.artifacts, op.id, op.artifacts) { InsertDelivers(g.artifacts, op.id, op.artifacts); }
    hide Delivered; hide AllDeliverable; hide CheckArtifacts; hide Insert; hide IsFirstBad;
    assert g.reconciliations + [] == g.reconciliations;
  }

  lemma ReconcileKeepsTable(g: Graph, op: Op)
    requires op.OpReconcile?
    ensures if Can(g, op) then Effect(g, op, Do(g, op)) else Do(g, op) == g
  {
    CheckMeans(g, op.id, op.artifacts);
    if AllDeliverable(g.artifacts, op.id, op.artifacts) { InsertDelivers(g.artifacts, op.id, op.artifacts); }
    assert op.artifacts == [] ==> AllDeliverable(g.artifacts, op.id, op.artifacts);
    hide Delivered; hide AllDeliverable; hide CheckArtifacts; hide Insert; hide IsFirstBad; hide IsBlank;
  }

  /** For every graph and every operation: it takes effect exactly when the table says so, with exactly that effect,
      and otherwise the graph stays as it is. */
  lemma OperationsKeepTable(g: Graph, op: Op)
    ensures if Can(g, op) then Effect(g, op, Do(g, op)) else Do(g, op) == g
  {
    hide Can; hide Effect; hide Do;
    match op
    case OpStart(id) => StartKeepsTable(g, id);
    case OpSkip(id) => SkipKeepsTable(g, id);
    case OpComplete(_, _) => CompleteKeepsTable(g, op);
    case OpReconcile(_, _, _, _, _) => ReconcileKeepsTable(g, op);
    case OpAddNode(_, _) => AddingKeepsTable(g, op);
    case OpAddEdge(_) => AddingKeepsTable(g, op);
    case OpFail(_) => PlainMoveKeepsTable(g, op);
    case OpCancel(_) => PlainMoveKeepsTable(g, op);
    case OpInterrupt(_) => PlainMoveKeepsTable(g, op);
  }

  // -- Every refusal gives the first reason ---------------------------

  /** What a caller is told; skips and interruptions are never refused. */
  ghost function Answer(g: Graph, op: Op): Result<Graph, Error> {
    match op
    case OpAddNode(id, node) => AddNode(g, id, node)
    case OpAddEdge(e) => AddEdge(g, e)
    case OpStart(id) => StartNode(g, id)
    case OpComplete(id, artifacts) => CompleteNode(g, id, artifacts)
    case OpFail(id) => FailNode(g, id)
    case OpCancel(id) => CancelNode(g, id)
    case OpReconcile(id, decision, reason, evidence, artifacts) =>
      ReconcileNode(g, id, decision, reason, evidence, artifacts)
    case OpSkip(id) => Ok(SkipNode(g, id))
    case OpInterrupt(id) => Ok(InterruptNode(g, id))
  }

  /** The checks that an operation fails, and the errors they give, in the order in which they are made. */
  ghost function Complaints(g: Graph, op: Op): seq<(bool, Error)> {
    match op
    case OpAddNode(id, node) =>
      [(IsBlank(id), EmptyNodeId), (id in g.nodes, DuplicateNode),
       (node.kind == Apply && exists a :: a in g.nodes && g.nodes[a].kind == Apply, MultipleApplyNodes)]
    case OpAddEdge(e) =>
      [(e.from !in g.nodes, MissingNode), (e.to !in g.nodes, MissingNode),
       (!IsIn(g, e.to, {Pending}), TargetAlreadyStarted),
       (exists f :: f in g.edges && f.from == e.from && f.to == e.to, DuplicateEdge),
       (e.from == e.to || Reaches(g.edges, e.to, e.from), Cycle)]
    case OpStart(id) => [(!Can(g, op), NodeNotReady)]
    case OpComplete(id, artifacts) =>
      Refused(g, id, artifacts) + [(id !in g.nodes, MissingNode), (!IsIn(g, id, {Running}), InvalidTransition)]
    case OpFail(id) => [(id !in g.nodes, MissingNode), (!IsIn(g, id, {Running}), InvalidTransition)]
    case OpCancel(id) => [(id !in g.nodes, MissingNode), (!IsIn(g, id, {Pending, Running}), InvalidTransition)]
    case OpReconcile(id, decision, reason, evidence, artifacts) =>
      [(IsBlank(reason), EmptyReconciliationReason),
       (evidence == [] || exists e :: e in evidence && IsBlank(e), MissingReconciliationEvidence),
       (id !in g.nodes, MissingNode), (!IsIn(g, id, {RecoveryRequired}), NodeNotRecoveryRequired),
       (decision == ConfirmedFailed && artifacts != [], FailedReconciliationHasArtifacts)]
      + Refused(g, id, artifacts)
    case _ => []
  }

  /** The artifacts are checked one after the other: first the producer, then the name. */
  function Refused(g: Graph, id: string, artifacts: seq<Artifact>): seq<(bool, Error)> {
    if artifacts == [] then []
    else
      [(artifacts[0].producer != id, ArtifactProducerMismatch), (artifacts[0].id in g.artifacts, DuplicateArtifact)]
      + Refused(g, id, artifacts[1..])
  }

  /** The error of the first check that fails, if one does. */
  function FirstComplaint(complaints: seq<(bool, Error)>): Option<Error> {
    if complaints == [] then None
    else if complaints[0].0 then Some(complaints[0].1)
    else FirstComplaint(complaints[1..])
  }

  lemma {:induction false} FirstOfConcat(a: seq<(bool, Error)>, b: seq<(bool, Error)>)
    ensures FirstComplaint(a + b) == if FirstComplaint(a).Some? then FirstComplaint(a) else FirstComplaint(b)
  {
    if a == [] {
      assert a + b == b;
    } else {
      assert (a + b)[1..] == a[1..] + b;
      FirstOfConcat(a[1..], b);
    }
  }

  lemma FirstOfCons(c: (bool, Error), rest: seq<(bool, Error)>)
    ensures FirstComplaint([c] + rest) == if c.0 then Some(c.1) else FirstComplaint(rest)
  {
    assert ([c] + rest)[1..] == rest;
  }

  lemma {:induction false} ArtifactsAreRefused(g: Graph, id: string, artifacts: seq<Artifact>)
    ensures FirstComplaint(Refused(g, id, artifacts)) == CheckArtifacts(g, id, artifacts)
  {
    if artifacts != [] {
      var a, rest := artifacts[0], Refused(g, id, artifacts[1..]);
      var mine := [(a.producer != id, ArtifactProducerMismatch), (a.id in g.artifacts, DuplicateArtifact)];
      ArtifactsAreRefused(g, id, artifacts[1..]);
      assert mine + rest == [mine[0]] + ([mine[1]] + rest);
      FirstOfCons(mine[0], [mine[1]] + rest);
      FirstOfCons(mine[1], rest);
    }
  }

  lemma FirstOfTwo(a: (bool, Error), b: (bool, Error))
    ensures FirstComplaint([a, b]) == if a.0 then Some(a.1) else if b.0 then Some(b.1) else None
  {
    assert [a, b] == [a] + [b] && [b] == [b] + [];
    FirstOfCons(a, [b]);
    FirstOfCons(b, []);
  }

  lemma FirstOfThree(a: (bool, Error), b: (bool, Error), c: (bool, Error))
    ensures FirstComplaint([a, b, c]) == if a.0 then Some(a.1) else FirstComplaint([b, c])
  {
    assert [a, b, c][1..] == [b, c];
  }

  lemma FirstOfFive(a: (bool, Error), b: (bool, Error), c: (bool, Error), d: (bool, Error), e: (bool, Error))
    ensures
      FirstComplaint([a, b, c, d, e]) == if a.0 then Some(a.1) else if b.0 then Some(b.1) else FirstComplaint([c, d, e])
  {
    assert [a, b, c, d, e][1..] == [b, c, d, e] && [b, c, d, e][1..] == [c, d, e];
  }

  /** What a caller is told is the first thing that is wrong, and there is an answer when nothing is. */
  predicate Tells(r: Result<Graph, Error>, complaint: Option<Error>) {
    if complaint.Some? then r == Err(complaint.value) else r.Ok?
  }

  lemma AddingTellsTheFirst(g: Graph, op: Op)
    requires op.OpAddNode? || op.OpAddEdge?
    ensures Tells(Answer(g, op), FirstComplaint(Complaints(g, op)))
  {
    var c := Complaints(g, op);
    if op.OpAddNode? {
      FirstOfThree(c[0], c[1], c[2]);
      FirstOfTwo(c[1], c[2]);
    } else {
      FirstOfFive(c[0], c[1], c[2], c[3], c[4]);
      FirstOfThree(c[2], c[3], c[4]);
      FirstOfTwo(c[3], c[4]);
    }
    hide Reaches; hide IsBlank; hide FirstComplaint;
  }

  lemma MovingTellsTheFirst(g: Graph, op: Op)
    requires op.OpStart? || op.OpFail? || op.OpCancel?
    ensures Tells(Answer(g, op), FirstComplaint(Complaints(g, op)))
  {
    var c := Complaints(g, op);
    if op.OpStart? {
      ReadyMeans(g, op.id);
      FirstOfCons(c[0], []);
      assert [c[0]] + [] == c;
    } else {
      FirstOfTwo(c[0], c[1]);
    }
    hide Can; hide FirstComplaint;
  }

  lemma CompletingTellsTheFirst(g: Graph, op: Op)
    requires op.OpComplete?
    ensures Tells(Answer(g, op), FirstComplaint(Complaints(g, op)))
  {
    var a, b := (op.id !in g.nodes, MissingNode), (!IsIn(g, op.id, {Running}), InvalidTransition);
    FirstOfConcat(Refused(g, op.id, op.artifacts), [a, b]);
    ArtifactsAreRefused(g, op.id, op.artifacts);
    FirstOfTwo(a, b);
    hide FirstComplaint; hide Refused; hide CheckArtifacts; hide Insert;
  }

  lemma ReconcilingTellsTheFirst(g: Graph, op: Op)
    requires op.OpReconcile?
    ensures Tells(Answer(g, op), FirstComplaint(Complaints(g, op)))
  {
    var c := Complaints(g, op)[..5];
    assert Complaints(g, op) == c + Refused(g, op.id, op.artifacts) && c == [c[0], c[1], c[2], c[3], c[4]];
    FirstOfConcat(c, Refused(g, op.id, op.artifacts));
    ArtifactsAreRefused(g, op.id, op.artifacts);
    FirstOfFive(c[0], c[1], c[2], c[3], c[4]);
    FirstOfThree(c[2], c[3], c[4]);
    FirstOfTwo(c[3], c[4]);
    hide FirstComplaint; hide Refused; hide CheckArtifacts; hide Insert; hide IsBlank;
  }

  /** Every operation makes its checks in this order, and is refused with the error of the first that fails. */
  lemma RefusalsAreInOrder(g: Graph, op: Op)
    ensures Tells(Answer(g, op), FirstComplaint(Complaints(g, op)))
  {
    hide Answer; hide Complaints; hide Tells; hide FirstComplaint;
    match op
    case OpAddNode(_, _) => AddingTellsTheFirst(g, op);
    case OpAddEdge(_) => AddingTellsTheFirst(g, op);
    case OpStart(_) => MovingTellsTheFirst(g, op);
    case OpFail(_) => MovingTellsTheFirst(g, op);
    case OpCancel(_) => MovingTellsTheFirst(g, op);
    case OpComplete(_, _) => CompletingTellsTheFirst(g, op);
    case OpReconcile(_, _, _, _, _) => ReconcilingTellsTheFirst(g, op);
    case OpSkip(_) => NothingToTell(g, op);
    case OpInterrupt(_) => NothingToTell(g, op);
  }

  lemma NothingToTell(g: Graph, op: Op)
    requires op.OpSkip? || op.OpInterrupt?
    ensures Tells(Answer(g, op), FirstComplaint(Complaints(g, op)))
  {
  }
}
