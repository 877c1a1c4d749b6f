/** What every run of the execution graph keeps (zhongshu-core/src/agent/execution_graph.rs:320-640, 878-1055). */
module GraphLaws {
  import opened Text
  import opened GraphPaths
  import opened ExecutionGraph

  // -- The invariants -------------------------------------------------

  /** Edges join existing nodes, no pair twice, and there is no cycle; node names are not blank and at
      most one node is the apply gate. */
  ghost predicate Shape(g: Graph) {
    && (forall i :: 0 <= i < |g.edges| ==>
          g.edges[i].from in g.nodes && g.edges[i].to in g.nodes && g.edges[i].from != g.edges[i].to)
    && (forall i, j :: 0 <= i < j < |g.edges| ==> g.edges[i].from != g.edges[j].from || g.edges[i].to != g.edges[j].to)
    && Acyclic(g.edges)
    && (forall id :: id in g.nodes ==> !IsBlank(id))
    && forall a, b :: a in g.nodes && b in g.nodes && g.nodes[a].kind.Apply? && g.nodes[b].kind.Apply? ==> a == b
  }

  predicate ValidMove(from: NodeState, to: NodeState) {
    || (from.Pending? && (to.Running? || to.Cancelled? || to.Skipped?))
    || (from.Running? && (to.Succeeded? || to.Failed? || to.Cancelled? || to.RecoveryRequired?))
    || (from.RecoveryRequired? && (to.Succeeded? || to.Failed?))
  }

  /** The state that the history gives to a node that was added as pending. */
  function StateAfter(ts: seq<Transition>, id: string): NodeState {
    if ts == [] then Pending
    else if ts[|ts| - 1].node == id then ts[|ts| - 1].to
    else StateAfter(ts[..|ts| - 1], id)
  }

  predicate GoodTransition(g: Graph, i: nat)
    requires i < |g.transitions|
  {
    var t := g.transitions[i];
    && t.sequence == i + 1 && t.node in g.nodes && ValidMove(t.from, t.to)
    && t.from == StateAfter(g.transitions[..i], t.node)
  }

  /** The next number is the next one, and all moves are of known nodes. */
  predicate Numbered(g: Graph) {
    g.nextSequence == |g.transitions| + 1 && forall i :: 0 <= i < |g.transitions| ==> g.transitions[i].node in g.nodes
  }

  /** The history is numbered, each move starts where the last one of that node ended, and the states are
      where the history leaves them. */
  predicate History(g: Graph) {
    && Numbered(g)
    && (forall i: nat | i < |g.transitions| :: GoodTransition(g, i))
    && forall id :: id in g.nodes ==> g.nodes[id].state == StateAfter(g.transitions, id)
  }

  /** The node was started and not cancelled. */
  predicate Started(s: NodeState) { s.Running? || s.Succeeded? || s.Failed? || s.RecoveryRequired? }

  /** Some move of the node is on record. */
  predicate Moved(g: Graph, id: string) { exists i :: 0 <= i < |g.transitions| && g.transitions[i].node == id }

  predicate HasBroken(g: Graph, id: string) {
    exists i :: 0 <= i < |g.edges| && g.edges[i].to == id && Broken(g, g.edges[i])
  }

  /** Every node that was started has its dependencies satisfied, every node that was skipped by a move has
      one that is broken, and dependencies lead into nodes that are pending or have moved. */
  predicate Gates(g: Graph) {
    && (forall i :: 0 <= i < |g.edges| && g.edges[i].to in g.nodes && Started(g.nodes[g.edges[i].to].state) ==>
          Satisfied(g, g.edges[i]))
    && (forall id :: id in g.nodes && g.nodes[id].state.Skipped? && Moved(g, id) ==> HasBroken(g, id))
    && forall i :: 0 <= i < |g.edges| && g.edges[i].to in g.nodes ==>
         g.nodes[g.edges[i].to].state.Pending? || Moved(g, g.edges[i].to)
  }

  /** Artifacts come from nodes that succeeded. */
  predicate Produced(g: Graph) {
    forall a :: a in g.artifacts ==> g.artifacts[a] in g.nodes && g.nodes[g.artifacts[a]].state.Succeeded?
  }

  /** The reconciliation carries evidence and names its own move out of the unknown outcome. */
  predicate GoodReconciliation(ts: seq<Transition>, r: Reconciliation) {
    && !IsBlank(r.reason) && HasEvidence(r.evidence)
    && 0 < r.sequence <= |ts|
    && ts[r.sequence - 1].node == r.node
    && ts[r.sequence - 1].from.RecoveryRequired?
    && ts[r.sequence - 1].to == DecidedState(r.decision)
  }

  predicate AllGood(ts: seq<Transition>, rs: seq<Reconciliation>) {
    forall i :: 0 <= i < |rs| ==> GoodReconciliation(ts, rs[i])
  }

  predicate DistinctSequences(rs: seq<Reconciliation>) {
    forall i, j :: 0 <= i < j < |rs| ==> rs[i].sequence != rs[j].sequence
  }

  /** Each move out of an unknown outcome has its reconciliation. */
  predicate Covered(ts: seq<Transition>, rs: seq<Reconciliation>) {
    forall k :: 0 <= k < |ts| && ts[k].from.RecoveryRequired? ==>
      exists i :: 0 <= i < |rs| && rs[i].sequence == k + 1
  }

  predicate Backed(ts: seq<Transition>, rs: seq<Reconciliation>) {
    AllGood(ts, rs) && DistinctSequences(rs) && Covered(ts, rs)
  }

  /** Every way out of an unknown outcome is backed by exactly one reconciliation with evidence. */
  predicate Reconciled(g: Graph) { Backed(g.transitions, g.reconciliations) }

  /** What the checks of a checkpoint cover. */
  ghost predicate WellFormed(g: Graph) { Shape(g) && History(g) && Produced(g) && Reconciled(g) }

  /** At the move of number `k` a started node had all its dependencies satisfied, and a skipped one had
      one that was broken, in the states that the earlier moves give. */
  predicate InOrderAt(edges: seq<Edge>, ts: seq<Transition>, k: nat)
    requires k < |ts|
  {
    && (ts[k].to.Running? ==>
          forall i :: 0 <= i < |edges| && edges[i].to == ts[k].node ==>
            SatisfiedBy(edges[i], StateAfter(ts[..k], edges[i].from)))
    && (ts[k].to.Skipped? ==>
          exists i :: 0 <= i < |edges| && edges[i].to == ts[k].node
            && BrokenBy(edges[i], StateAfter(ts[..k], edges[i].from)))
  }

  predicate MovesInOrder(g: Graph) {
    forall k: nat | k < |g.transitions| :: InOrderAt(g.edges, g.transitions, k)
  }

  predicate ReconciliationsInOrder(rs: seq<Reconciliation>) {
    forall i, j :: 0 <= i < j < |rs| ==> rs[i].sequence < rs[j].sequence
  }

  /** What a run that adds its nodes as pending keeps. */
  ghost predicate Inv(g: Graph) {
    WellFormed(g) && Gates(g) && MovesInOrder(g) && ReconciliationsInOrder(g.reconciliations)
  }

  // -- What an operation can do ---------------------------------------

  /** What a move must respect. */
  ghost predicate Allowed(g: Graph, id: string, to: NodeState) {
    && id in g.nodes && ValidMove(g.nodes[id].state, to)
    && (to.Running? ==> Ready(g, id)) && (to.Skipped? ==> Unreachable(g, id))
  }

  predicate NewArtifacts(before: map<string, string>, after: map<string, string>, id: string, to: NodeState) {
    forall a :: a in after ==> (a in before && after[a] == before[a]) || (to.Succeeded? && after[a] == id)
  }

  predicate NewReconciliations(g: Graph, after: seq<Reconciliation>, id: string, to: NodeState)
    requires id in g.nodes
  {
    if g.nodes[id].state.RecoveryRequired? then
      && after != [] && after[..|after| - 1] == g.reconciliations
      && var r := after[|after| - 1];
         r.node == id && r.sequence == g.nextSequence && DecidedState(r.decision) == to
         && !IsBlank(r.reason) && HasEvidence(r.evidence)
    else after == g.reconciliations
  }

  /** One allowed move, with the artifacts and the reconciliation that go with it. */
  ghost predicate Advances(g: Graph, h: Graph, id: string, to: NodeState) {
    && Allowed(g, id, to)
    && h == Move(g, id, to).(artifacts := h.artifacts, reconciliations := h.reconciliations)
    && NewArtifacts(g.artifacts, h.artifacts, id, to)
    && NewReconciliations(g, h.reconciliations, id, to)
  }

  lemma {:induction false} InsertedAre(known: map<string, string>, artifacts: seq<Artifact>, id: string)
    requires forall i :: 0 <= i < |artifacts| ==> artifacts[i].producer == id
    ensures NewArtifacts(known, Insert(known, artifacts), id, Succeeded)
    decreases |artifacts|
  {
    if artifacts != [] {
      InsertedAre(known[artifacts[0].id := artifacts[0].producer], artifacts[1..], id);
    }
  }

  lemma {:induction false} CheckedAre(g: Graph, id: string, artifacts: seq<Artifact>)
    requires CheckArtifacts(g, id, artifacts).None?
    ensures forall i :: 0 <= i < |artifacts| ==> artifacts[i].producer == id && artifacts[i].id !in g.artifacts
    decreases |artifacts|
  {
    if artifacts != [] { CheckedAre(g, id, artifacts[1..]); }
  }

  lemma CompletionAdvances(g: Graph, id: string, artifacts: seq<Artifact>)
    requires CompleteNode(g, id, artifacts).Ok?
    ensures Advances(g, CompleteNode(g, id, artifacts).value, id, Succeeded)
  {
    CheckedAre(g, id, artifacts);
    InsertedAre(g.artifacts, artifacts, id);
    hide Insert; hide CheckArtifacts; hide NewArtifacts;
  }

  lemma ReconciliationAdvances(g: Graph, id: string, decision: Decision, reason: string, evidence: seq<string>,
                               artifacts: seq<Artifact>)
    requires ReconcileNode(g, id, decision, reason, evidence, artifacts).Ok?
    ensures
      Advances(g, ReconcileNode(g, id, decision, reason, evidence, artifacts).value, id, DecidedState(decision))
  {
    CheckedAre(g, id, artifacts);
    InsertedAre(g.artifacts, artifacts, id);
    hide IsBlank; hide HasEvidence; hide CheckArtifacts;
  }

  /** An operation that adds neither a node nor an edge changes nothing or is one allowed move. */
  lemma OtherOpsAdvance(g: Graph, op: Op) returns (id: string, to: NodeState)
    requires !op.OpAddNode? && !op.OpAddEdge?
    ensures Do(g, op) == g || Advances(g, Do(g, op), id, to)
  {
    id, to := "", Pending;
    hide CompleteNode; hide ReconcileNode; hide Ready; hide Broken; hide IsBlank; hide HasEvidence;
    match op
    case OpStart(x) => id, to := x, Running;
    case OpComplete(x, artifacts) =>
      id, to := x, Succeeded;
      if CompleteNode(g, x, artifacts).Ok? { CompletionAdvances(g, x, artifacts); }
    case OpFail(x) => id, to := x, Failed;
    case OpCancel(x) => id, to := x, Cancelled;
    case OpReconcile(x, decision, reason, evidence, artifacts) =>
      id, to := x, DecidedState(decision);
      if ReconcileNode(g, x, decision, reason, evidence, artifacts).Ok? {
        ReconciliationAdvances(g, x, decision, reason, evidence, artifacts);
      }
    case OpSkip(x) => id, to := x, Skipped;
    case OpInterrupt(x) => id, to := x, RecoveryRequired;
  }

  // -- Shape, artifacts and reconciliations: kept by every run --------

  lemma AddNodeShape(g: Graph, id: string, node: Node)
    requires Shape(g) && AddNode(g, id, node).Ok?
    ensures Shape(AddNode(g, id, node).value)
  {
    hide IsBlank; hide Acyclic;
  }

  lemma AddEdgeShape(g: Graph, e: Edge)
    requires Shape(g) && AddEdge(g, e).Ok?
    ensures Shape(AddEdge(g, e).value)
  {
    hide IsBlank; hide Acyclic; hide Reaches;
    StaysAcyclicIff(g.edges, e);
    forall i | 0 <= i < |g.edges| ensures g.edges[i].from != e.from || g.edges[i].to != e.to {
      if g.edges[i].from == e.from { assert Linked(g.edges, e.from, g.edges[i].to); }
    }
  }

  /** Shape depends on the kinds of the nodes, not on their states. */
  lemma ShapeByKinds(g: Graph, h: Graph)
    requires Shape(g) && h.edges == g.edges && h.nodes.Keys == g.nodes.Keys
    requires forall id :: id in g.nodes ==> h.nodes[id].kind == g.nodes[id].kind
    ensures Shape(h)
  {
    hide IsBlank; hide Acyclic;
  }

  lemma StaysGood(ts: seq<Transition>, more: seq<Transition>, r: Reconciliation)
    requires GoodReconciliation(ts, r) && ts <= more
    ensures GoodReconciliation(more, r) && r.sequence <= |ts|
  {
    hide IsBlank; hide HasEvidence; hide DecidedState;
  }

  lemma AllStayGood(ts: seq<Transition>, more: seq<Transition>, rs: seq<Reconciliation>)
    requires AllGood(ts, rs) && ts <= more
    ensures AllGood(more, rs) && forall i :: 0 <= i < |rs| ==> rs[i].sequence <= |ts|
  {
    forall i | 0 <= i < |rs| ensures GoodReconciliation(more, rs[i]) && rs[i].sequence <= |ts| {
      StaysGood(ts, more, rs[i]);
    }
  }

  /** A move out of another state needs no reconciliation. */
  lemma CoveredPlain(ts: seq<Transition>, rs: seq<Reconciliation>, t: Transition)
    requires Covered(ts, rs) && !t.from.RecoveryRequired?
    ensures Covered(ts + [t], rs)
  {
    var longer := ts + [t];
    forall k | 0 <= k < |longer| && longer[k].from.RecoveryRequired?
      ensures exists i :: 0 <= i < |rs| && rs[i].sequence == k + 1
    {
      assert k < |ts| && ts[k] == longer[k];
    }
  }

  lemma CoveredStep(ts: seq<Transition>, rs: seq<Reconciliation>, t: Transition, r: Reconciliation)
    requires Covered(ts, rs) && r.sequence == |ts| + 1
    ensures Covered(ts + [t], rs + [r])
  {
    var longer, more := ts + [t], rs + [r];
    forall k | 0 <= k < |longer| && longer[k].from.RecoveryRequired?
      ensures exists i :: 0 <= i < |more| && more[i].sequence == k + 1
    {
      if k < |ts| {
        assert ts[k].from.RecoveryRequired?;
        var i :| 0 <= i < |rs| && rs[i].sequence == k + 1;
        assert more[i].sequence == k + 1;
      } else {
        assert more[|rs|].sequence == k + 1;
      }
    }
  }

  lemma NewReconciliationIsGood(ts: seq<Transition>, t: Transition, r: Reconciliation)
    requires r.node == t.node && r.sequence == |ts| + 1 && t.from.RecoveryRequired? && t.to == DecidedState(r.decision)
    requires !IsBlank(r.reason) && HasEvidence(r.evidence)
    ensures GoodReconciliation(ts + [t], r)
  {
    hide IsBlank; hide HasEvidence; hide DecidedState;
  }

  lemma BackedPlain(ts: seq<Transition>, rs: seq<Reconciliation>, t: Transition)
    requires Backed(ts, rs) && !t.from.RecoveryRequired?
    ensures Backed(ts + [t], rs)
  {
    hide AllGood; hide Covered; hide DistinctSequences;
    AllStayGood(ts, ts + [t], rs);
    CoveredPlain(ts, rs, t);
  }

  lemma AllGoodSnoc(ts: seq<Transition>, rs: seq<Reconciliation>, r: Reconciliation)
    requires AllGood(ts, rs) && GoodReconciliation(ts, r)
    ensures AllGood(ts, rs + [r])
  {
    hide GoodReconciliation;
  }

  lemma SequencesGrow(rs: seq<Reconciliation>, r: Reconciliation)
    requires forall i :: 0 <= i < |rs| ==> rs[i].sequence < r.sequence
    ensures DistinctSequences(rs) ==> DistinctSequences(rs + [r])
    ensures ReconciliationsInOrder(rs) ==> ReconciliationsInOrder(rs + [r])
  {
  }

  lemma BackedMore(ts: seq<Transition>, rs: seq<Reconciliation>, t: Transition, r: Reconciliation)
    requires Backed(ts, rs)
    requires r.node == t.node && r.sequence == |ts| + 1 && t.from.RecoveryRequired? && t.to == DecidedState(r.decision)
    requires !IsBlank(r.reason) && HasEvidence(r.evidence)
    ensures Backed(ts + [t], rs + [r])
    ensures ReconciliationsInOrder(rs) ==> ReconciliationsInOrder(rs + [r])
  {
    hide AllGood; hide Covered; hide DistinctSequences; hide ReconciliationsInOrder; hide IsBlank; hide HasEvidence;
    AllStayGood(ts, ts + [t], rs);
    NewReconciliationIsGood(ts, t, r);
    AllGoodSnoc(ts + [t], rs, r);
    SequencesGrow(rs, r);
    CoveredStep(ts, rs, t, r);
  }

  lemma AdvanceReconciled(g: Graph, h: Graph, id: string, to: NodeState)
    requires Reconciled(g) && Numbered(g) && Advances(g, h, id, to)
    ensures Reconciled(h)
    ensures ReconciliationsInOrder(g.reconciliations) ==> ReconciliationsInOrder(h.reconciliations)
  {
    hide AllGood; hide Covered; hide DistinctSequences; hide ReconciliationsInOrder; hide IsBlank; hide HasEvidence;
    hide Ready; hide Unreachable; hide NewArtifacts; hide DecidedState; hide ValidMove;
    var ts, rs := g.transitions, g.reconciliations;
    var t := Transition(g.nextSequence, id, g.nodes[id].state, to);
    assert h.transitions == ts + [t];
    if t.from.RecoveryRequired? {
      var r := h.reconciliations[|h.reconciliations| - 1];
      assert h.reconciliations == rs + [r];
      BackedMore(ts, rs, t, r);
    } else {
      BackedPlain(ts, rs, t);
    }
  }

  lemma AdvanceProduced(g: Graph, h: Graph, id: string, to: NodeState)
    requires Produced(g) && Advances(g, h, id, to)
    ensures Produced(h)
  {
    hide Ready; hide Unreachable; hide NewReconciliations;
  }

  lemma AdvanceShape(g: Graph, h: Graph, id: string, to: NodeState)
    requires Shape(g) && Advances(g, h, id, to)
    ensures Shape(h)
  {
    hide Ready; hide Unreachable; hide NewReconciliations; hide NewArtifacts; hide ValidMove;
    ShapeByKinds(g, h);
  }

  /** Kept by every operation, whatever state a node is added in. */
  ghost predicate Sound(g: Graph) { Shape(g) && Numbered(g) && Produced(g) && Reconciled(g) && Gates(g) }

  // -- Gates ----------------------------------------------------------

  /** Satisfied dependencies stay satisfied and broken ones stay broken: both rest on final states. */
  lemma DependenciesLast(g: Graph, id: string, to: NodeState, e: Edge)
    requires id in g.nodes && ValidMove(g.nodes[id].state, to)
    ensures Satisfied(g, e) ==> Satisfied(Move(g, id, to), e)
    ensures Broken(g, e) ==> Broken(Move(g, id, to), e)
  {
  }

  lemma MovedIs(g: Graph, id: string, to: NodeState, x: string)
    requires id in g.nodes
    ensures Moved(Move(g, id, to), x) <==> Moved(g, x) || x == id
  {
    var h, n := Move(g, id, to), |g.transitions|;
    assert h.transitions[n].node == id;
    if i :| 0 <= i < n && g.transitions[i].node == x { assert h.transitions[i].node == x; }
  }

  lemma BrokenStays(g: Graph, id: string, to: NodeState, x: string)
    requires id in g.nodes && ValidMove(g.nodes[id].state, to) && HasBroken(g, x)
    ensures HasBroken(Move(g, id, to), x)
  {
    var i :| 0 <= i < |g.edges| && g.edges[i].to == x && Broken(g, g.edges[i]);
    DependenciesLast(g, id, to, g.edges[i]);
    assert Broken(Move(g, id, to), Move(g, id, to).edges[i]);
  }

  lemma MoveGates(g: Graph, id: string, to: NodeState)
    requires Gates(g) && Allowed(g, id, to)
    ensures Gates(Move(g, id, to))
  {
    var h := Move(g, id, to);
    forall i | 0 <= i < |h.edges| && h.edges[i].to in h.nodes && Started(h.nodes[h.edges[i].to].state)
      ensures Satisfied(h, h.edges[i])
    {
      DependenciesLast(g, id, to, g.edges[i]);
      if h.edges[i].to == id && to.Running? { assert Satisfied(g, g.edges[i]); }
      assert Satisfied(g, g.edges[i]);
    }
    assert to.Skipped? ==> HasBroken(g, id);
    hide Ready; hide Unreachable; hide Started; hide Satisfied; hide HasBroken; hide Moved;
    forall x | x in h.nodes && h.nodes[x].state.Skipped? && Moved(h, x) ensures HasBroken(h, x) {
      MovedIs(g, id, to, x);
      BrokenStays(g, id, to, x);
    }
    forall i | 0 <= i < |h.edges| && h.edges[i].to in h.nodes
      ensures h.nodes[h.edges[i].to].state.Pending? || Moved(h, h.edges[i].to)
    {
      MovedIs(g, id, to, h.edges[i].to);
    }
  }

  /** Adding nodes of any state, or edges into pending nodes, keeps the gates. */
  lemma GatesFrame(g: Graph, h: Graph)
    requires Gates(g) && g.edges <= h.edges && h.transitions == g.transitions
    requires forall id :: id in g.nodes ==> id in h.nodes && h.nodes[id] == g.nodes[id]
    requires forall id :: id in h.nodes && id !in g.nodes ==> !Moved(g, id)
    requires forall i :: 0 <= i < |g.edges| ==> g.edges[i].to in g.nodes
    requires
      forall i :: |g.edges| <= i < |h.edges| && h.edges[i].to in h.nodes ==> h.nodes[h.edges[i].to].state.Pending?
    ensures Gates(h)
  {
    forall id ensures Moved(h, id) == Moved(g, id) {}
    hide Moved;
    forall i | 0 <= i < |h.edges| && h.edges[i].to in h.nodes && Started(h.nodes[h.edges[i].to].state)
      ensures Satisfied(h, h.edges[i])
    {
      assert i < |g.edges| && h.edges[i] == g.edges[i];
      assert Satisfied(g, g.edges[i]);
    }
    forall x | x in h.nodes && h.nodes[x].state.Skipped? && Moved(h, x) ensures HasBroken(h, x) {
      assert HasBroken(g, x);
      var i :| 0 <= i < |g.edges| && g.edges[i].to == x && Broken(g, g.edges[i]);
      assert h.edges[i] == g.edges[i];
    }
    forall i | 0 <= i < |h.edges| && h.edges[i].to in h.nodes
      ensures h.nodes[h.edges[i].to].state.Pending? || Moved(h, h.edges[i].to)
    {
      if i < |g.edges| { assert h.edges[i] == g.edges[i]; }
    }
  }

  lemma SameGates(g: Graph, h: Graph)
    requires Gates(g) && h.nodes == g.nodes && h.edges == g.edges && h.transitions == g.transitions
    requires forall i :: 0 <= i < |g.edges| ==> g.edges[i].to in g.nodes
    ensures Gates(h)
  {
    GatesFrame(g, h);
  }

  lemma AdvanceGates(g: Graph, h: Graph, id: string, to: NodeState)
    requires Shape(g) && Gates(g) && Advances(g, h, id, to)
    ensures Gates(h)
  {
    MoveGates(g, id, to);
    AdvanceShape(g, h, id, to);
    SameGates(Move(g, id, to), h);
  }

  lemma AddNodeGates(g: Graph, id: string, node: Node)
    requires Shape(g) && Numbered(g) && Gates(g) && AddNode(g, id, node).Ok?
    ensures Gates(AddNode(g, id, node).value)
  {
    hide IsBlank; hide Acyclic; hide Gates;
    GatesFrame(g, AddNode(g, id, node).value);
  }

  lemma AddEdgeGates(g: Graph, e: Edge)
    requires Shape(g) && Gates(g) && AddEdge(g, e).Ok?
    ensures Gates(AddEdge(g, e).value)
  {
    hide IsBlank; hide Acyclic; hide Gates; hide Reaches; hide Linked;
    GatesFrame(g, AddEdge(g, e).value);
  }

  // -- Every run ------------------------------------------------------

  lemma StepKeepsSound(g: Graph, op: Op)
    requires Sound(g)
    ensures Sound(Do(g, op))
    ensures ReconciliationsInOrder(g.reconciliations) ==> ReconciliationsInOrder(Do(g, op).reconciliations)
  {
    hide Shape; hide Gates; hide Reconciled; hide Produced;
    if op.OpAddNode? {
      if AddNode(g, op.id, op.node).Ok? {
        AddNodeShape(g, op.id, op.node);
        AddNodeGates(g, op.id, op.node);
        FrameSound(g, AddNode(g, op.id, op.node).value);
      }
    } else if op.OpAddEdge? {
      hide Reaches; hide Linked;
      if AddEdge(g, op.edge).Ok? {
        AddEdgeShape(g, op.edge);
        AddEdgeGates(g, op.edge);
        FrameSound(g, AddEdge(g, op.edge).value);
      }
    } else {
      var id, to := OtherOpsAdvance(g, op);
      var h := Do(g, op);
      hide Do;
      if h != g {
        AdvanceShape(g, h, id, to);
        AdvanceProduced(g, h, id, to);
        AdvanceReconciled(g, h, id, to);
        AdvanceGates(g, h, id, to);
        hide Allowed; hide NewArtifacts; hide NewReconciliations;
      }
    }
  }

  /** Artifacts, history and reconciliations untouched, nodes only added. */
  lemma FrameSound(g: Graph, h: Graph)
    requires Numbered(g) && Produced(g) && Reconciled(g)
    requires h.transitions == g.transitions && h.reconciliations == g.reconciliations && h.artifacts == g.artifacts
    requires h.nextSequence == g.nextSequence
    requires forall id :: id in g.nodes ==> id in h.nodes && h.nodes[id] == g.nodes[id]
    ensures Numbered(h) && Produced(h) && Reconciled(h)
  {
    hide AllGood; hide Covered; hide DistinctSequences;
  }

  /** Whatever the states in which nodes are added, every run keeps shape, numbering, artifacts,
      reconciliations and gates. */
  lemma {:induction false} RunKeepsSound(g: Graph, ops: seq<Op>)
    requires Sound(g)
    ensures Sound(DoAll(g, ops))
    ensures ReconciliationsInOrder(g.reconciliations) ==> ReconciliationsInOrder(DoAll(g, ops).reconciliations)
    decreases |ops|
  {
    hide Sound; hide Do; hide ReconciliationsInOrder;
    if ops != [] {
      StepKeepsSound(g, ops[0]);
      RunKeepsSound(Do(g, ops[0]), ops[1..]);
    }
  }

  lemma EmptyIsSound()
    ensures Sound(EMPTY) && History(EMPTY) && ReconciliationsInOrder(EMPTY.reconciliations) && MovesInOrder(EMPTY)
  {
    assert Ranks([], map[]);
  }

  // -- History: kept exactly when nodes are added as pending ----------

  /** Every node that the run adds, it adds as pending. */
  ghost predicate AddsPending(g: Graph, ops: seq<Op>)
    decreases |ops|
  {
    ops == []
    || ((ops[0].OpAddNode? && AddNode(g, ops[0].id, ops[0].node).Ok? ==> ops[0].node.state.Pending?)
        && AddsPending(Do(g, ops[0]), ops[1..]))
  }

  lemma {:induction false} Untouched(ts: seq<Transition>, id: string)
    requires forall i :: 0 <= i < |ts| ==> ts[i].node != id
    ensures StateAfter(ts, id) == Pending
  {
    if ts != [] { Untouched(ts[..|ts| - 1], id); }
  }

  /** A node can be added to a graph with an exact history, keeping it exact, only as pending. */
  lemma AddNodeHistoryIff(g: Graph, id: string, node: Node)
    requires History(g) && AddNode(g, id, node).Ok?
    ensures History(AddNode(g, id, node).value) <==> node.state.Pending?
  {
    hide IsBlank;
    var h := AddNode(g, id, node).value;
    forall i: nat | i < |g.transitions| ensures GoodTransition(h, i) && g.transitions[i].node != id {
      assert GoodTransition(g, i);
    }
    Untouched(g.transitions, id);
    hide StateAfter; hide GoodTransition;
    assert h.nodes[id] == node;
  }

  lemma HistoryFrame(g: Graph, h: Graph)
    requires History(g) && h.nodes == g.nodes && h.transitions == g.transitions && h.nextSequence == g.nextSequence
    ensures History(h)
  {
    forall i: nat | i < |h.transitions| ensures GoodTransition(h, i) { assert GoodTransition(g, i); }
    hide GoodTransition; hide StateAfter;
  }

  lemma MoveHistory(g: Graph, id: string, to: NodeState)
    requires History(g) && id in g.nodes && ValidMove(g.nodes[id].state, to)
    ensures History(Move(g, id, to))
  {
    hide ValidMove;
    var h := Move(g, id, to);
    var n := |g.transitions|;
    assert h.transitions[..n] == g.transitions;
    forall i: nat | i < |h.transitions| ensures GoodTransition(h, i) {
      if i < n {
        assert GoodTransition(g, i);
        assert h.transitions[..i] == g.transitions[..i];
      }
    }
    hide GoodTransition;
  }

  lemma StepHistory(g: Graph, op: Op)
    requires History(g)
    ensures
      History(Do(g, op))
      <==> (op.OpAddNode? && AddNode(g, op.id, op.node).Ok? ==> op.node.state.Pending?)
  {
    hide History;
    if op.OpAddNode? {
      if AddNode(g, op.id, op.node).Ok? { AddNodeHistoryIff(g, op.id, op.node); }
    } else if op.OpAddEdge? {
      hide Reaches; hide Linked;
      HistoryFrame(g, Do(g, op));
    } else {
      var id, to := OtherOpsAdvance(g, op);
      var h := Do(g, op);
      hide Do;
      if h != g {
        MoveHistory(g, id, to);
        HistoryFrame(Move(g, id, to), h);
      }
    }
  }

  /** The node's state, or one of its moves, does not follow from its moves before. */
  predicate Unexplained(g: Graph, id: string) {
    id in g.nodes
    && (g.nodes[id].state != StateAfter(g.transitions, id)
        || exists k :: 0 <= k < |g.transitions| && g.transitions[k].node == id
             && g.transitions[k].from != StateAfter(g.transitions[..k], id))
  }

  lemma UnexplainedBreaksHistory(g: Graph, id: string)
    requires Unexplained(g, id)
    ensures !History(g)
  {
    if k: nat :| k < |g.transitions| && g.transitions[k].node == id
                 && g.transitions[k].from != StateAfter(g.transitions[..k], id) {
      assert !GoodTransition(g, k);
    }
  }

  lemma UnexplainedStays(g: Graph, op: Op, id: string)
    requires Unexplained(g, id)
    ensures Unexplained(Do(g, op), id)
  {
    var h := Do(g, op);
    if op.OpAddNode? || op.OpAddEdge? {
      hide Reaches; hide Linked; hide IsBlank; hide StateAfter;
      assert h.transitions == g.transitions && id in h.nodes && h.nodes[id] == g.nodes[id];
    } else {
      var x, to := OtherOpsAdvance(g, op);
      hide Do;
      if h != g { UnexplainedMove(g, h, x, to, id); }
    }
  }

  lemma UnexplainedMove(g: Graph, h: Graph, x: string, to: NodeState, id: string)
    requires Unexplained(g, id) && Advances(g, h, x, to)
    ensures Unexplained(h, id)
  {
    hide Allowed; hide NewArtifacts; hide NewReconciliations;
    assert x in g.nodes by { InNodes(g, x, to); }
    var ts, n := g.transitions, |g.transitions|;
    assert h.transitions[..n] == ts;
    if k: nat :| k < n && ts[k].node == id && ts[k].from != StateAfter(ts[..k], id) {
      assert h.transitions[k] == ts[k] && h.transitions[..k] == ts[..k];
    } else if x == id {
      assert h.transitions[n].node == id && h.transitions[n].from != StateAfter(h.transitions[..n], id);
    }
  }

  lemma InNodes(g: Graph, x: string, to: NodeState)
    requires Allowed(g, x, to)
    ensures x in g.nodes
  {
  }

  lemma {:induction false} UnexplainedForGood(g: Graph, ops: seq<Op>, id: string)
    requires Unexplained(g, id)
    ensures !History(DoAll(g, ops))
    decreases |ops|
  {
    hide Unexplained; hide Do; hide History;
    if ops == [] {
      UnexplainedBreaksHistory(g, id);
    } else {
      UnexplainedStays(g, ops[0], id);
      UnexplainedForGood(Do(g, ops[0]), ops[1..], id);
    }
  }

  lemma AddedUnexplained(g: Graph, id: string, node: Node)
    requires Numbered(g) && AddNode(g, id, node).Ok? && !node.state.Pending?
    ensures Unexplained(AddNode(g, id, node).value, id)
  {
    Untouched(g.transitions, id);
    hide StateAfter; hide IsBlank;
  }

  /** From a graph with an exact history, a run ends in one exactly when it adds its nodes as pending. */
  lemma {:induction false} HistoryIff(g: Graph, ops: seq<Op>)
    requires History(g)
    ensures History(DoAll(g, ops)) <==> AddsPending(g, ops)
    decreases |ops|
  {
    if ops != [] {
      var op := ops[0];
      StepHistory(g, op);
      if op.OpAddNode? && AddNode(g, op.id, op.node).Ok? && !op.node.state.Pending? {
        AddedUnexplained(g, op.id, op.node);
        UnexplainedForGood(AddNode(g, op.id, op.node).value, ops[1..], op.id);
      } else {
        hide Do; hide History;
        HistoryIff(Do(g, op), ops[1..]);
      }
    }
  }

  // -- The order of moves ---------------------------------------------

  lemma {:induction false} MentionedIsNotPending(ts: seq<Transition>, id: string, k: nat)
    requires k < |ts| && ts[k].node == id && forall i :: 0 <= i < |ts| ==> !ts[i].to.Pending?
    ensures !StateAfter(ts, id).Pending?
  {
    var last := |ts| - 1;
    if ts[last].node != id { MentionedIsNotPending(ts[..last], id, k); }
  }

  /** A pending node has not moved. */
  lemma PendingIsUntouched(g: Graph, id: string, k: nat)
    requires History(g) && id in g.nodes && g.nodes[id].state.Pending? && k < |g.transitions|
    ensures g.transitions[k].node != id
  {
    forall i: nat | i < |g.transitions| ensures !g.transitions[i].to.Pending? { assert GoodTransition(g, i); }
    if g.transitions[k].node == id { MentionedIsNotPending(g.transitions, id, k); }
  }

  lemma AddEdgeInOrder(g: Graph, e: Edge)
    requires History(g) && MovesInOrder(g) && AddEdge(g, e).Ok?
    ensures MovesInOrder(AddEdge(g, e).value)
  {
    hide Reaches; hide Linked; hide StateAfter; hide History;
    var h := AddEdge(g, e).value;
    forall k: nat | k < |h.transitions| ensures InOrderAt(h.edges, h.transitions, k) {
      PendingIsUntouched(g, e.to, k);
      assert InOrderAt(g.edges, g.transitions, k);
      if g.transitions[k].to.Skipped? {
        var i :| 0 <= i < |g.edges| && g.edges[i].to == g.transitions[k].node
                 && BrokenBy(g.edges[i], StateAfter(g.transitions[..k], g.edges[i].from));
        assert h.edges[i] == g.edges[i];
      }
    }
  }

  /** The new move respects the order, as the states are those of the history. */
  lemma NewMoveInOrder(g: Graph, id: string, to: NodeState)
    requires History(g) && Allowed(g, id, to)
    ensures InOrderAt(g.edges, g.transitions + [Transition(g.nextSequence, id, g.nodes[id].state, to)], |g.transitions|)
  {
    hide ValidMove; hide GoodTransition; hide StateAfter;
    var ts := g.transitions;
    assert (ts + [Transition(g.nextSequence, id, g.nodes[id].state, to)])[..|ts|] == ts;
    if to.Running? {
      forall i | 0 <= i < |g.edges| && g.edges[i].to == id
        ensures SatisfiedBy(g.edges[i], StateAfter(ts, g.edges[i].from))
      {
        assert Satisfied(g, g.edges[i]);
      }
    }
    if to.Skipped? {
      var i :| 0 <= i < |g.edges| && g.edges[i].to == id && Broken(g, g.edges[i]);
      assert BrokenBy(g.edges[i], StateAfter(ts, g.edges[i].from));
    }
  }

  lemma AdvanceInOrder(g: Graph, h: Graph, id: string, to: NodeState)
    requires History(g) && MovesInOrder(g) && Advances(g, h, id, to)
    ensures MovesInOrder(h)
  {
    hide Allowed; hide NewArtifacts; hide NewReconciliations; hide History;
    InNodes(g, id, to);
    NewMoveInOrder(g, id, to);
    var ts, n := g.transitions, |g.transitions|;
    forall k: nat | k < |h.transitions| ensures InOrderAt(h.edges, h.transitions, k) {
      if k < n {
        assert InOrderAt(g.edges, ts, k);
        assert h.transitions[k] == ts[k] && h.transitions[..k] == ts[..k];
        hide StateAfter;
      }
    }
  }

  lemma StepKeepsInv(g: Graph, op: Op)
    requires Inv(g) && (op.OpAddNode? && AddNode(g, op.id, op.node).Ok? ==> op.node.state.Pending?)
    ensures Inv(Do(g, op))
  {
    hide Shape; hide Gates; hide Reconciled; hide Produced; hide History; hide MovesInOrder;
    hide ReconciliationsInOrder;
    HistoryNumbers(g);
    StepKeepsSound(g, op);
    StepHistory(g, op);
    if op.OpAddNode? {
      SameMovesInOrder(g, Do(g, op));
    } else if op.OpAddEdge? {
      hide Reaches; hide Linked;
      if AddEdge(g, op.edge).Ok? { AddEdgeInOrder(g, op.edge); }
    } else {
      var id, to := OtherOpsAdvance(g, op);
      hide Do; hide Advances;
      if Do(g, op) != g { AdvanceInOrder(g, Do(g, op), id, to); }
    }
  }

  lemma HistoryNumbers(g: Graph)
    requires History(g)
    ensures Numbered(g)
  {
  }

  lemma SameMovesInOrder(g: Graph, h: Graph)
    requires MovesInOrder(g) && h.transitions == g.transitions && h.edges == g.edges
    ensures MovesInOrder(h)
  {
    hide InOrderAt;
  }

  /** The invariants hold in every graph made by a run that adds its nodes as pending. */
  lemma {:induction false} RunKeepsInv(g: Graph, ops: seq<Op>)
    requires Inv(g) && AddsPending(g, ops)
    ensures Inv(DoAll(g, ops))
    decreases |ops|
  {
    hide Inv; hide Do;
    if ops != [] {
      StepKeepsInv(g, ops[0]);
      RunKeepsInv(Do(g, ops[0]), ops[1..]);
    }
  }

  lemma EmptyInv()
    ensures Inv(EMPTY)
  {
    EmptyIsSound();
  }

  /** From the empty graph a run keeps the invariants exactly when it adds its nodes as pending. */
  lemma RunKeepsInvIff(ops: seq<Op>)
    ensures Inv(DoAll(EMPTY, ops)) <==> AddsPending(EMPTY, ops)
  {
    EmptyInv();
    if AddsPending(EMPTY, ops) { RunKeepsInv(EMPTY, ops); }
    HistoryIff(EMPTY, ops);
    hide DoAll; hide Shape; hide Gates; hide Reconciled; hide Produced; hide MovesInOrder; hide AddsPending;
  }

  /** Operations on nodes that are there already. */
  predicate NoAdds(ops: seq<Op>) { forall i :: 0 <= i < |ops| ==> !ops[i].OpAddNode? }

  lemma {:induction false} NoAddsAddsPending(g: Graph, ops: seq<Op>)
    requires NoAdds(ops)
    ensures AddsPending(g, ops)
    decreases |ops|
  {
    hide Do;
    if ops != [] { NoAddsAddsPending(Do(g, ops[0]), ops[1..]); }
  }

  /** Runs on existing nodes keep well-formedness and, where they hold, the gates and the order. */
  lemma ExistingNodesKeep(g: Graph, ops: seq<Op>)
    requires NoAdds(ops)
    ensures WellFormed(g) ==> WellFormed(DoAll(g, ops))
    ensures Inv(g) ==> Inv(DoAll(g, ops))
  {
    NoAddsAddsPending(g, ops);
    hide NoAdds;
    if WellFormed(g) { RunKeepsWellFormed(g, ops); }
    if Inv(g) { RunKeepsInv(g, ops); }
    hide Inv; hide WellFormed;
  }

  lemma StepKeepsWellFormed(g: Graph, op: Op)
    requires WellFormed(g) && (op.OpAddNode? && AddNode(g, op.id, op.node).Ok? ==> op.node.state.Pending?)
    ensures WellFormed(Do(g, op))
  {
    hide Shape; hide Reconciled; hide Produced; hide History;
    HistoryNumbers(g);
    StepHistory(g, op);
    if op.OpAddNode? {
      if AddNode(g, op.id, op.node).Ok? {
        AddNodeShape(g, op.id, op.node);
        FrameSound(g, AddNode(g, op.id, op.node).value);
      }
    } else if op.OpAddEdge? {
      hide Reaches; hide Linked;
      if AddEdge(g, op.edge).Ok? {
        AddEdgeShape(g, op.edge);
        FrameSound(g, AddEdge(g, op.edge).value);
      }
    } else {
      var id, to := OtherOpsAdvance(g, op);
      var h := Do(g, op);
      hide Do;
      if h != g {
        AdvanceShape(g, h, id, to);
        AdvanceProduced(g, h, id, to);
        AdvanceReconciled(g, h, id, to);
        hide Advances;
      }
    }
  }

  lemma {:induction false} RunKeepsWellFormed(g: Graph, ops: seq<Op>)
    requires WellFormed(g) && AddsPending(g, ops)
    ensures WellFormed(DoAll(g, ops))
    decreases |ops|
  {
    hide WellFormed; hide Do;
    if ops != [] {
      StepKeepsWellFormed(g, ops[0]);
      RunKeepsWellFormed(Do(g, ops[0]), ops[1..]);
    }
  }
}
