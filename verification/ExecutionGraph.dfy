/** The append-only execution graph of zhongshu-core/src/agent/execution_graph.rs:295-640, 878-1008. */
module ExecutionGraph {
  import opened Wrappers
  import opened Text
  import opened GraphPaths

  datatype NodeState = Pending | Running | Succeeded | Failed | Skipped | Cancelled | RecoveryRequired

  predicate IsTerminal(s: NodeState) { !s.Pending? && !s.Running? }

  /** The apply gate is the one kind that matters to the graph. */
  datatype Kind = Apply | Other

  datatype Node = Node(kind: Kind, state: NodeState)

  datatype Transition = Transition(sequence: nat, node: string, from: NodeState, to: NodeState)

  datatype Decision = ConfirmedSucceeded | ConfirmedFailed

  datatype Reconciliation =
    Reconciliation(node: string, decision: Decision, reason: string, evidence: seq<string>, sequence: nat)

  datatype Artifact = Artifact(id: string, producer: string)

  /** `artifacts` maps identifiers to producers. */
  datatype Graph = Graph(nodes: map<string, Node>, edges: seq<Edge>, artifacts: map<string, string>,
                         transitions: seq<Transition>, reconciliations: seq<Reconciliation>, nextSequence: nat)

  datatype Error =
    | EmptyNodeId | DuplicateNode | MultipleApplyNodes | MissingNode | TargetAlreadyStarted | DuplicateEdge | Cycle
    | NodeNotReady | DuplicateBatchNode | InvalidTransition | ArtifactProducerMismatch | DuplicateArtifact
    | EmptyReconciliationReason | MissingReconciliationEvidence | NodeNotRecoveryRequired
    | FailedReconciliationHasArtifacts | InvalidSnapshot | EmptyTaskId | EmptyEffectIntentId | DuplicateEffectIntent
    | EffectIntentNodeAlreadyStarted | UnsupportedCheckpointVersion

  const EMPTY := Graph(map[], [], map[], [], [], 1)

  // -- Building the graph ---------------------------------------------

  predicate HasApply(g: Graph) { exists id :: id in g.nodes && g.nodes[id].kind.Apply? }

  /** The caller's node is stored in whatever state it carries. */
  function AddNode(g: Graph, id: string, node: Node): Result<Graph, Error> {
    if IsBlank(id) then Err(EmptyNodeId)
    else if id in g.nodes then Err(DuplicateNode)
    else if node.kind.Apply? && HasApply(g) then Err(MultipleApplyNodes)
    else Ok(g.(nodes := g.nodes[id := node]))
  }

  ghost function AddEdge(g: Graph, e: Edge): Result<Graph, Error> {
    if e.from !in g.nodes || e.to !in g.nodes then Err(MissingNode)
    else if g.nodes[e.to].state != Pending then Err(TargetAlreadyStarted)
    else if Linked(g.edges, e.from, e.to) then Err(DuplicateEdge)
    else if e.from == e.to || Reaches(g.edges, e.to, e.from) then Err(Cycle)
    else Ok(g.(edges := g.edges + [e]))
  }

  // -- Moving nodes ---------------------------------------------------

  /** A source in this state lets the target start. */
  predicate SatisfiedBy(e: Edge, s: NodeState) { if e.kind.Finally? then IsTerminal(s) else s.Succeeded? }

  predicate Satisfied(g: Graph, e: Edge) { e.from in g.nodes && SatisfiedBy(e, g.nodes[e.from].state) }

  predicate Ready(g: Graph, id: string) {
    id in g.nodes && g.nodes[id].state.Pending?
    && forall i :: 0 <= i < |g.edges| && g.edges[i].to == id ==> Satisfied(g, g.edges[i])
  }

  /** With a source in this state the dependency can no longer be met. */
  predicate BrokenBy(e: Edge, s: NodeState) { !e.kind.Finally? && (s.Failed? || s.Skipped? || s.Cancelled?) }

  predicate Broken(g: Graph, e: Edge) { e.from in g.nodes && BrokenBy(e, g.nodes[e.from].state) }

  predicate Unreachable(g: Graph, id: string) {
    id in g.nodes && g.nodes[id].state.Pending?
    && exists i :: 0 <= i < |g.edges| && g.edges[i].to == id && Broken(g, g.edges[i])
  }

  /** Sets the state of a node that exists, and appends to the history. */
  function Move(g: Graph, id: string, to: NodeState): Graph
    requires id in g.nodes
  {
    g.(nodes := g.nodes[id := g.nodes[id].(state := to)],
       transitions := g.transitions + [Transition(g.nextSequence, id, g.nodes[id].state, to)],
       nextSequence := g.nextSequence + 1)
  }

  predicate NormalMove(from: NodeState, to: NodeState) {
    (from.Pending? && to.Running?) || (from.Running? && (to.Succeeded? || to.Failed?))
  }

  function MoveNormally(g: Graph, id: string, to: NodeState): Result<Graph, Error> {
    if id !in g.nodes then Err(MissingNode)
    else if !NormalMove(g.nodes[id].state, to) then Err(InvalidTransition)
    else Ok(Move(g, id, to))
  }

  function StartNode(g: Graph, id: string): Result<Graph, Error> {
    if !Ready(g, id) then Err(NodeNotReady) else MoveNormally(g, id, Running)
  }

  function CheckArtifacts(g: Graph, id: string, artifacts: seq<Artifact>): Option<Error> {
    if artifacts == [] then None
    else if artifacts[0].producer != id then Some(ArtifactProducerMismatch)
    else if artifacts[0].id in g.artifacts then Some(DuplicateArtifact)
    else CheckArtifacts(g, id, artifacts[1..])
  }

  function Insert(known: map<string, string>, artifacts: seq<Artifact>): map<string, string>
    decreases |artifacts|
  {
    if artifacts == [] then known else Insert(known[artifacts[0].id := artifacts[0].producer], artifacts[1..])
  }

  function CompleteNode(g: Graph, id: string, artifacts: seq<Artifact>): Result<Graph, Error> {
    var bad := CheckArtifacts(g, id, artifacts);
    if bad.Some? then Err(bad.value)
    else
      var moved := MoveNormally(g, id, Succeeded);
      if moved.Err? then moved else Ok(moved.value.(artifacts := Insert(g.artifacts, artifacts)))
  }

  function FailNode(g: Graph, id: string): Result<Graph, Error> { MoveNormally(g, id, Failed) }

  function CancelNode(g: Graph, id: string): Result<Graph, Error> {
    if id !in g.nodes then Err(MissingNode)
    else if !g.nodes[id].state.Pending? && !g.nodes[id].state.Running? then Err(InvalidTransition)
    else Ok(Move(g, id, Cancelled))
  }

  function DecidedState(d: Decision): NodeState { if d.ConfirmedSucceeded? then Succeeded else Failed }

  predicate HasEvidence(evidence: seq<string>) { evidence != [] && forall e :: e in evidence ==> !IsBlank(e) }

  function ReconcileNode(g: Graph, id: string, decision: Decision, reason: string, evidence: seq<string>,
                         artifacts: seq<Artifact>): Result<Graph, Error>
  {
    if IsBlank(reason) then Err(EmptyReconciliationReason)
    else if !HasEvidence(evidence) then Err(MissingReconciliationEvidence)
    else if id !in g.nodes then Err(MissingNode)
    else if !g.nodes[id].state.RecoveryRequired? then Err(NodeNotRecoveryRequired)
    else if decision.ConfirmedFailed? && artifacts != [] then Err(FailedReconciliationHasArtifacts)
    else
      var bad := CheckArtifacts(g, id, artifacts);
      if bad.Some? then Err(bad.value)
      else
        var moved := Move(g, id, DecidedState(decision));
        Ok(moved.(artifacts := Insert(g.artifacts, artifacts),
                  reconciliations := g.reconciliations
                    + [Reconciliation(id, decision, reason, evidence, g.nextSequence)]))
  }

  /** The single skip that `settle_unreachable` repeats. */
  function SkipNode(g: Graph, id: string): Graph { if Unreachable(g, id) then Move(g, id, Skipped) else g }

  /** What recovery does to a node that was running when the process ended. */
  function InterruptNode(g: Graph, id: string): Graph {
    if id in g.nodes && g.nodes[id].state.Running? then Move(g, id, RecoveryRequired) else g
  }

  // -- Effect intents -------------------------------------------------

  datatype Expectation =
    | WorkspaceFile(path: string, beforeHash: string, afterHash: string, existedBefore: bool)
    | FileClaim(agent: string, file: string, operation: string, conversation: int, expectedActive: bool)

  predicate ValidExpectation(e: Expectation) {
    match e
    case WorkspaceFile(path, before, after, _) => !IsBlank(path) && !IsBlank(before) && !IsBlank(after)
    case FileClaim(agent, file, operation, conversation, _) =>
      !IsBlank(agent) && !IsBlank(file) && !IsBlank(operation) && conversation > 0
  }

  datatype Intent = Intent(id: string, node: string, expectation: Expectation)

  /** A task: its graph, and the effects that its nodes are expected to have. */
  datatype Task = Task(id: string, graph: Graph, intents: map<string, Intent>)

  function NewTask(id: string): Result<Task, Error> {
    if IsBlank(id) then Err(EmptyTaskId) else Ok(Task(id, EMPTY, map[]))
  }

  /** What is wrong with the first intent for `node` that cannot be added to the known ones. */
  function BadIntent(known: map<string, Intent>, node: string, intents: seq<Intent>): Option<Error> {
    if intents == [] then None
    else
      var before, last := intents[..|intents| - 1], intents[|intents| - 1];
      var e := BadIntent(known, node, before);
      if e.Some? then e
      else if IsBlank(last.id) then Some(EmptyEffectIntentId)
      else if last.node != node then Some(InvalidSnapshot)
      else if last.id in known || exists i :: 0 <= i < |before| && before[i].id == last.id
      then Some(DuplicateEffectIntent)
      else if !ValidExpectation(last.expectation) then Some(InvalidSnapshot)
      else None
  }

  function WithIntents(known: map<string, Intent>, intents: seq<Intent>): map<string, Intent> {
    if intents == [] then known
    else WithIntents(known, intents[..|intents| - 1])[intents[|intents| - 1].id := intents[|intents| - 1]]
  }

  /** Only for a node that has not started. */
  function RecordIntents(t: Task, node: string, intents: seq<Intent>): Result<Task, Error> {
    if node !in t.graph.nodes then Err(MissingNode)
    else if t.graph.nodes[node].state != Pending then Err(EffectIntentNodeAlreadyStarted)
    else
      var bad := BadIntent(t.intents, node, intents);
      if bad.Some? then Err(bad.value) else Ok(t.(intents := WithIntents(t.intents, intents)))
  }

  // -- Runs -----------------------------------------------------------

  datatype Op =
    | OpAddNode(id: string, node: Node) | OpAddEdge(edge: Edge) | OpStart(id: string)
    | OpComplete(id: string, artifacts: seq<Artifact>) | OpFail(id: string) | OpCancel(id: string)
    | OpReconcile(id: string, decision: Decision, reason: string, evidence: seq<string>, artifacts: seq<Artifact>)
    | OpSkip(id: string) | OpInterrupt(id: string)

  function OrElse(r: Result<Graph, Error>, g: Graph): Graph { if r.Ok? then r.value else g }

  /** An operation that reports an error leaves the graph as it was. */
  ghost function Do(g: Graph, op: Op): Graph {
    match op
    case OpAddNode(id, node) => OrElse(AddNode(g, id, node), g)
    case OpAddEdge(e) => OrElse(AddEdge(g, e), g)
    case OpStart(id) => OrElse(StartNode(g, id), g)
    case OpComplete(id, artifacts) => OrElse(CompleteNode(g, id, artifacts), g)
    case OpFail(id) => OrElse(FailNode(g, id), g)
    case OpCancel(id) => OrElse(CancelNode(g, id), g)
    case OpReconcile(id, decision, reason, evidence, artifacts) =>
      OrElse(ReconcileNode(g, id, decision, reason, evidence, artifacts), g)
    case OpSkip(id) => SkipNode(g, id)
    case OpInterrupt(id) => InterruptNode(g, id)
  }

  ghost function DoAll(g: Graph, ops: seq<Op>): Graph
    decreases |ops|
  {
    if ops == [] then g else DoAll(Do(g, ops[0]), ops[1..])
  }
}
