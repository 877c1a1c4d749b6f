/** Exactly which graphs, and which accepted checkpoints, a run can make
    (zhongshu-core/src/agent/execution_graph.rs:320-876). */
module GraphReach {
  import opened Wrappers
  import opened Text
  import opened GraphPaths
  import opened ExecutionGraph
  import opened GraphLaws
  import opened GraphCalls
  import opened GraphOutcomes
  import opened GraphRecovery
  import opened GraphValidation
  import opened Names

  // -- The graph as it was after `n` moves, with `m` edges ------------

  function Fresh(g: Graph, ids: set<string>): map<string, Node>
    requires ids <= g.nodes.Keys
  {
    map id | id in ids :: Node(g.nodes[id].kind, Pending)
  }

  function NodesAt(g: Graph, n: nat): map<string, Node>
    requires n <= |g.transitions|
  {
    map id | id in g.nodes :: Node(g.nodes[id].kind, StateAfter(g.transitions[..n], id))
  }

  /** The artifacts of the nodes that had succeeded by then. */
  function ArtifactsAt(g: Graph, n: nat): map<string, string>
    requires n <= |g.transitions|
  {
    map a | a in g.artifacts && StateAfter(g.transitions[..n], g.artifacts[a]).Succeeded? :: g.artifacts[a]
  }

  /** How many leading reconciliations had been made by then. */
  function Cut(rs: seq<Reconciliation>, n: nat): (m: nat)
    ensures m <= |rs|
  {
    if rs == [] || rs[|rs| - 1].sequence <= n then |rs| else Cut(rs[..|rs| - 1], n)
  }

  /** After `n` moves, with the first `m` edges. */
  function At(g: Graph, n: nat, m: nat): Graph
    requires n <= |g.transitions| && m <= |g.edges|
  {
    Graph(NodesAt(g, n), g.edges[..m], ArtifactsAt(g, n), g.transitions[..n],
          g.reconciliations[..Cut(g.reconciliations, n)], n + 1)
  }

  /** What separates the graphs that a run can make from the accepted ones. */
  ghost predicate InOrder(g: Graph) {
    MovesInOrder(g) && ReconciliationsInOrder(g.reconciliations) && Whole(g) && ByName(g)
  }

  // -- Making it ------------------------------------------------------

  /** The calls make the graph from the empty one, adding every node as pending. */
  ghost predicate Makes(calls: seq<Call>, g: Graph) {
    LegalRun(EMPTY, calls) && AddsPending(EMPTY, AllOps(calls)) && DoAll(EMPTY, AllOps(calls)) == g
  }

  lemma NothingMakesEmpty()
    ensures Makes([], EMPTY)
  {
  }

  lemma OneMoreCall(calls: seq<Call>, g: Graph, c: Call)
    requires Makes(calls, g) && Legal(g, c) && AddsPending(g, OpsOf(c))
    ensures Makes(calls + [c], DoAll(g, OpsOf(c)))
  {
    hide LegalRun; hide AddsPending; hide DoAll; hide AllOps; hide Legal; hide OpsOf;
    LegalRunConcat(EMPTY, calls, [c]);
    LegalOne(g, c);
    AllOpsConcat(calls, [c]);
    OneCall(c);
    AddsPendingConcat(EMPTY, AllOps(calls), OpsOf(c));
    DoAllConcat(EMPTY, AllOps(calls), OpsOf(c));
  }

  lemma OneMorePlain(calls: seq<Call>, g: Graph, op: Op)
    requires Makes(calls, g) && !op.OpSkip? && !op.OpInterrupt? && (op.OpAddNode? ==> op.node.state.Pending?)
    ensures Makes(calls + [Plain(op)], Do(g, op))
  {
    AddsOne(g, op);
    OneDone(g, op);
    hide Do; hide DoAll; hide Makes; hide AddsPending;
    OneMoreCall(calls, g, Plain(op));
  }

  lemma AddsOne(g: Graph, op: Op)
    ensures AddsPending(g, [op]) <==> (op.OpAddNode? && AddNode(g, op.id, op.node).Ok? ==> op.node.state.Pending?)
  {
    hide Do; hide AddNode;
    assert [op][1..] == [];
  }

  lemma MadeIsWellFormed(calls: seq<Call>, g: Graph)
    requires Makes(calls, g)
    ensures WellFormed(g)
  {
    EmptyInv();
    hide WellFormed; hide Gates; hide MovesInOrder; hide ReconciliationsInOrder; hide DoAll; hide AddsPending;
    RunKeepsWellFormed(EMPTY, AllOps(calls));
  }

  // -- Building nodes and edges ---------------------------------------

  lemma NodePasses(g: Graph, ids: set<string>, id: string)
    requires Shape(g) && ids <= g.nodes.Keys && id in ids
    ensures
      Do(EMPTY.(nodes := Fresh(g, ids - {id})), OpAddNode(id, Node(g.nodes[id].kind, Pending)))
      == EMPTY.(nodes := Fresh(g, ids))
  {
    hide IsBlank; hide Acyclic;
    var t := EMPTY.(nodes := Fresh(g, ids - {id}));
    var added := AddNode(t, id, Node(g.nodes[id].kind, Pending));
    assert added.Ok?;
    assert added.value.nodes == Fresh(g, ids);
  }

  lemma {:induction false} NodesCanBeAdded(g: Graph, ids: set<string>) returns (calls: seq<Call>)
    requires Shape(g) && ids <= g.nodes.Keys
    ensures Makes(calls, EMPTY.(nodes := Fresh(g, ids)))
  {
    hide Shape; hide Do; hide Makes;
    if ids == {} {
      calls := [];
      NothingMakesEmpty();
      assert Fresh(g, {}) == map[];
    } else {
      var id :| id in ids;
      var before := NodesCanBeAdded(g, ids - {id});
      NodePasses(g, ids, id);
      var op := OpAddNode(id, Node(g.nodes[id].kind, Pending));
      OneMorePlain(before, EMPTY.(nodes := Fresh(g, ids - {id})), op);
      calls := before + [Plain(op)];
    }
  }

  lemma EdgeCanBeAdded(g: Graph, n: nat, m: nat)
    requires Shape(g) && n <= |g.transitions| && m < |g.edges|
    requires StateAfter(g.transitions[..n], g.edges[m].to).Pending?
    ensures Do(At(g, n, m), OpAddEdge(g.edges[m])) == At(g, n, m + 1)
  {
    hide StateAfter; hide Shape; hide AddEdge; hide ArtifactsAt; hide Cut;
    EdgePasses(g, At(g, n, m), m);
  }

  /** Edges into nodes that have not moved can be added at any time. */
  lemma {:induction false} EdgesCanBeAdded(g: Graph, n: nat, k: nat, m: nat, calls: seq<Call>)
    returns (more: seq<Call>)
    requires Shape(g) && n <= |g.transitions| && k <= m <= |g.edges| && Makes(calls, At(g, n, k))
    requires forall i :: k <= i < m ==> StateAfter(g.transitions[..n], g.edges[i].to).Pending?
    ensures Makes(more, At(g, n, m))
    ensures calls <= more
    decreases m - k
  {
    hide Shape; hide Do; hide Makes; hide At; hide StateAfter;
    if k == m {
      more := calls;
    } else {
      EdgeCanBeAdded(g, n, k);
      OneMorePlain(calls, At(g, n, k), OpAddEdge(g.edges[k]));
      more := EdgesCanBeAdded(g, n, k + 1, m, calls + [Plain(OpAddEdge(g.edges[k]))]);
    }
  }

  // -- Both ends ------------------------------------------------------

  lemma {:induction false} CutIs(rs: seq<Reconciliation>, n: nat, m: nat)
    requires m <= |rs|
    requires forall i :: 0 <= i < m ==> rs[i].sequence <= n
    requires forall i :: m <= i < |rs| ==> rs[i].sequence > n
    ensures Cut(rs, n) == m
  {
    if rs != [] && rs[|rs| - 1].sequence > n { CutIs(rs[..|rs| - 1], n, m); }
  }

  lemma SequencesWithin(ts: seq<Transition>, rs: seq<Reconciliation>)
    requires AllGood(ts, rs)
    ensures forall i :: 0 <= i < |rs| ==> 0 < rs[i].sequence <= |ts|
  {
    hide IsBlank; hide HasEvidence; hide DecidedState;
    forall i | 0 <= i < |rs| ensures 0 < rs[i].sequence <= |ts| { assert GoodReconciliation(ts, rs[i]); }
  }

  lemma NothingYet(g: Graph)
    ensures NodesAt(g, 0) == Fresh(g, g.nodes.Keys) && ArtifactsAt(g, 0) == map[]
  {
    assert g.transitions[..0] == [];
  }

  lemma StartsFresh(g: Graph)
    requires Reconciled(g)
    ensures At(g, 0, 0) == EMPTY.(nodes := Fresh(g, g.nodes.Keys))
  {
    NothingYet(g);
    hide NodesAt; hide ArtifactsAt; hide Fresh; hide AllGood; hide DistinctSequences; hide Covered; hide Cut;
    SequencesWithin(g.transitions, g.reconciliations);
    CutIs(g.reconciliations, 0, 0);
  }

  lemma NodesEnd(g: Graph)
    requires History(g)
    ensures NodesAt(g, |g.transitions|) == g.nodes
  {
    assert g.transitions[..|g.transitions|] == g.transitions;
    hide StateAfter; hide GoodTransition; hide Numbered;
  }

  lemma ArtifactsEnd(g: Graph)
    requires History(g) && Produced(g)
    ensures ArtifactsAt(g, |g.transitions|) == g.artifacts
  {
    assert g.transitions[..|g.transitions|] == g.transitions;
    hide StateAfter; hide GoodTransition; hide Numbered;
  }

  lemma EndsWhole(g: Graph)
    requires WellFormed(g)
    ensures At(g, |g.transitions|, |g.edges|) == g
  {
    hide Shape; hide AllGood; hide StateAfter; hide NodesAt; hide ArtifactsAt;
    var n := |g.transitions|;
    assert g.transitions[..n] == g.transitions && g.edges[..|g.edges|] == g.edges;
    assert g.nextSequence == n + 1;
    NodesEnd(g);
    ArtifactsEnd(g);
    hide History; hide Produced;
    SequencesWithin(g.transitions, g.reconciliations);
    CutIs(g.reconciliations, n, |g.reconciliations|);
  }

  // -- One move after the other ---------------------------------------

  lemma StateNext(ts: seq<Transition>, n: nat, id: string)
    requires n < |ts|
    ensures StateAfter(ts[..n + 1], id) == if id == ts[n].node then ts[n].to else StateAfter(ts[..n], id)
  {
    assert ts[..n + 1][..n] == ts[..n] && ts[..n + 1][n] == ts[n];
  }

  /** Nodes and history of the next graph are those of the move. */
  lemma MoveIs(g: Graph, n: nat, m: nat)
    requires History(g) && n < |g.transitions| && m <= |g.edges|
    ensures
      var t := g.transitions[n];
      && t.node in NodesAt(g, n) && NodesAt(g, n)[t.node].state == t.from && ValidMove(t.from, t.to)
      && Move(At(g, n, m), t.node, t.to)
         == At(g, n + 1, m).(artifacts := ArtifactsAt(g, n), reconciliations := At(g, n, m).reconciliations)
  {
    assert GoodTransition(g, n);
    var t := g.transitions[n];
    forall id
      ensures StateAfter(g.transitions[..n + 1], id)
              == if id == t.node then t.to else StateAfter(g.transitions[..n], id)
    {
      StateNext(g.transitions, n, id);
    }
    hide StateAfter; hide ValidMove; hide Cut; hide ArtifactsAt;
    assert NodesAt(g, n + 1) == NodesAt(g, n)[t.node := NodesAt(g, n)[t.node].(state := t.to)];
    assert g.transitions[..n + 1] == g.transitions[..n] + [t];
  }

  lemma {:induction false} CutSplits(rs: seq<Reconciliation>, n: nat)
    requires ReconciliationsInOrder(rs)
    ensures forall i :: 0 <= i < Cut(rs, n) ==> rs[i].sequence <= n
    ensures forall i :: Cut(rs, n) <= i < |rs| ==> rs[i].sequence > n
  {
    if rs != [] && rs[|rs| - 1].sequence > n { CutSplits(rs[..|rs| - 1], n); }
  }

  lemma SameCut(rs: seq<Reconciliation>, n: nat)
    requires ReconciliationsInOrder(rs) && forall i :: 0 <= i < |rs| ==> rs[i].sequence != n + 1
    ensures Cut(rs, n + 1) == Cut(rs, n)
  {
    CutSplits(rs, n);
    CutIs(rs, n + 1, Cut(rs, n));
  }

  lemma NextCut(rs: seq<Reconciliation>, n: nat, i: nat)
    requires ReconciliationsInOrder(rs) && i < |rs| && rs[i].sequence == n + 1
    ensures Cut(rs, n) == i && Cut(rs, n + 1) == i + 1
  {
    CutIs(rs, n, i);
    CutIs(rs, n + 1, i + 1);
  }

  /** Only a move out of an unknown outcome comes with a reconciliation. */
  lemma PlainCut(g: Graph, n: nat)
    requires Reconciled(g) && ReconciliationsInOrder(g.reconciliations)
    requires n < |g.transitions| && !g.transitions[n].from.RecoveryRequired?
    ensures Cut(g.reconciliations, n + 1) == Cut(g.reconciliations, n)
  {
    forall i | 0 <= i < |g.reconciliations| ensures g.reconciliations[i].sequence != n + 1 {
      assert GoodReconciliation(g.transitions, g.reconciliations[i]);
    }
    SameCut(g.reconciliations, n);
  }

  /** Only a success comes with artifacts. */
  lemma SameArtifacts(g: Graph, n: nat)
    requires History(g) && n < |g.transitions| && !g.transitions[n].to.Succeeded?
    ensures ArtifactsAt(g, n + 1) == ArtifactsAt(g, n)
  {
    assert GoodTransition(g, n);
    forall id
      ensures StateAfter(g.transitions[..n + 1], id).Succeeded? == StateAfter(g.transitions[..n], id).Succeeded?
    {
      StateNext(g.transitions, n, id);
    }
    hide StateAfter;
  }

  function ArtifactsOf(g: Graph, id: string): set<string> { set a | a in g.artifacts && g.artifacts[a] == id }

  /** The list names exactly these artifacts, all of one producer. */
  predicate NamesAll(list: seq<Artifact>, ids: set<string>, id: string) {
    && (forall i :: 0 <= i < |list| ==> list[i].producer == id && list[i].id in ids)
    && forall a :: a in ids ==> HasId(list, a)
  }

  lemma {:induction false} CanBeNamed(ids: set<string>, id: string) returns (list: seq<Artifact>)
    ensures NamesAll(list, ids, id)
  {
    if ids == {} {
      list := [];
    } else {
      var a :| a in ids;
      var rest := CanBeNamed(ids - {a}, id);
      list := [Artifact(a, id)] + rest;
      assert HasId([Artifact(a, id)], a) by { assert [Artifact(a, id)][0].id == a; }
      forall b | b in ids ensures HasId(list, b) { HasIdConcat([Artifact(a, id)], rest, b); }
    }
  }

  lemma {:induction false} NewOnesPass(t: Graph, id: string, list: seq<Artifact>)
    requires forall i :: 0 <= i < |list| ==> list[i].producer == id && list[i].id !in t.artifacts
    ensures CheckArtifacts(t, id, list).None?
    decreases |list|
  {
    if list != [] { NewOnesPass(t, id, list[1..]); }
  }

  lemma SucceedsNow(g: Graph, n: nat, id: string)
    requires History(g) && n < |g.transitions| && g.transitions[n].to.Succeeded?
    ensures StateAfter(g.transitions[..n + 1], id).Succeeded?
            <==> id == g.transitions[n].node || StateAfter(g.transitions[..n], id).Succeeded?
    ensures !StateAfter(g.transitions[..n], g.transitions[n].node).Succeeded?
  {
    assert GoodTransition(g, n);
    StateNext(g.transitions, n, id);
    hide StateAfter;
  }

  /** A success brings the artifacts of its node. */
  lemma {:induction false} NextArtifacts(g: Graph, n: nat, list: seq<Artifact>)
    requires History(g) && n < |g.transitions| && g.transitions[n].to.Succeeded?
    requires NamesAll(list, ArtifactsOf(g, g.transitions[n].node), g.transitions[n].node)
    ensures
      forall i :: 0 <= i < |list| ==> list[i].producer == g.transitions[n].node && list[i].id !in ArtifactsAt(g, n)
    ensures Insert(ArtifactsAt(g, n), list) == ArtifactsAt(g, n + 1)
  {
    hide StateAfter; hide History; hide Insert;
    var t := g.transitions[n];
    SucceedsNow(g, n, t.node);
    var now := Insert(ArtifactsAt(g, n), list);
    forall a ensures a in now <==> a in ArtifactsAt(g, n + 1) {
      InsertAdds(ArtifactsAt(g, n), list, t.node, a);
      if a in g.artifacts { SucceedsNow(g, n, g.artifacts[a]); }
    }
    forall a | a in now ensures now[a] == g.artifacts[a] { InsertAdds(ArtifactsAt(g, n), list, t.node, a); }
  }

  lemma AtHas(g: Graph, n: nat, m: nat)
    requires n <= |g.transitions| && m <= |g.edges|
    ensures At(g, n, m).nodes == NodesAt(g, n) && At(g, n, m).edges == g.edges[..m]
    ensures At(g, n, m).artifacts == ArtifactsAt(g, n) && At(g, n, m).nextSequence == n + 1
    ensures At(g, n, m).reconciliations == g.reconciliations[..Cut(g.reconciliations, n)]
  {
  }

  lemma StateAt(g: Graph, n: nat, m: nat, e: Edge)
    requires n <= |g.transitions| && m <= |g.edges| && e.from in g.nodes
    ensures Satisfied(At(g, n, m), e) == SatisfiedBy(e, StateAfter(g.transitions[..n], e.from))
    ensures Broken(At(g, n, m), e) == BrokenBy(e, StateAfter(g.transitions[..n], e.from))
  {
    hide StateAfter; hide Cut; hide ArtifactsAt;
  }

  lemma EdgesStartInNodes(g: Graph)
    requires Shape(g)
    ensures forall i :: 0 <= i < |g.edges| ==> g.edges[i].from in g.nodes
  {
    hide Acyclic; hide IsBlank;
  }

  /** The first edges include all that lead into this node. */
  predicate HoldsInto(g: Graph, m: nat, id: string) {
    m <= |g.edges| && forall i :: m <= i < |g.edges| ==> g.edges[i].to != id
  }

  lemma StartsWhenReady(g: Graph, n: nat, m: nat)
    requires Shape(g) && n < |g.transitions| && m <= |g.edges| && InOrderAt(g.edges, g.transitions, n)
    requires g.transitions[n].to.Running?
    ensures
      forall i :: 0 <= i < m && g.edges[i].to == g.transitions[n].node ==> Satisfied(At(g, n, m), At(g, n, m).edges[i])
  {
    EdgesStartInNodes(g);
    AtHas(g, n, m);
    var t, h := g.transitions[n], At(g, n, m);
    hide Shape; hide StateAfter; hide NodesAt; hide At; hide Satisfied; hide SatisfiedBy;
    forall i | 0 <= i < m && g.edges[i].to == t.node ensures Satisfied(h, h.edges[i]) { StateAt(g, n, m, g.edges[i]); }
  }

  lemma SkipsWhenBroken(g: Graph, n: nat, m: nat)
    requires Shape(g) && n < |g.transitions| && InOrderAt(g.edges, g.transitions, n)
    requires HoldsInto(g, m, g.transitions[n].node) && g.transitions[n].to.Skipped?
    ensures
      var h := At(g, n, m);
      exists i :: 0 <= i < |h.edges| && h.edges[i].to == g.transitions[n].node && Broken(h, h.edges[i])
  {
    EdgesStartInNodes(g);
    AtHas(g, n, m);
    var t, h := g.transitions[n], At(g, n, m);
    hide Shape; hide StateAfter; hide NodesAt; hide At; hide Broken; hide BrokenBy;
    var i :| 0 <= i < |g.edges| && g.edges[i].to == t.node
             && BrokenBy(g.edges[i], StateAfter(g.transitions[..n], g.edges[i].from));
    StateAt(g, n, m, g.edges[i]);
    assert Broken(h, h.edges[i]);
  }

  /** In the graph before it, every move is allowed. */
  lemma MoveIsAllowed(g: Graph, n: nat, m: nat)
    requires Shape(g) && History(g) && n < |g.transitions| && InOrderAt(g.edges, g.transitions, n)
    requires HoldsInto(g, m, g.transitions[n].node)
    ensures Allowed(At(g, n, m), g.transitions[n].node, g.transitions[n].to)
  {
    MoveIs(g, n, m);
    AtHas(g, n, m);
    MoveKinds(g, n);
    if g.transitions[n].to.Running? { StartsWhenReady(g, n, m); }
    if g.transitions[n].to.Skipped? { SkipsWhenBroken(g, n, m); }
    hide Shape; hide History; hide StateAfter; hide NodesAt; hide ArtifactsAt; hide Cut; hide At; hide Move;
    hide Satisfied; hide Broken; hide ValidMove; hide InOrderAt;
  }

  lemma MoveKinds(g: Graph, n: nat)
    requires History(g) && n < |g.transitions|
    ensures
      var t := g.transitions[n];
      && !t.to.Pending? && (t.to.Running? || t.to.Skipped? ==> t.from.Pending?)
      && (t.to.Succeeded? && !t.from.RecoveryRequired? ==> t.from.Running?)
      && (t.from.RecoveryRequired? ==> t.to.Succeeded? || t.to.Failed?)
  {
    assert GoodTransition(g, n);
    hide StateAfter;
  }

  /** An allowed move that brings neither artifacts nor a reconciliation is an operation. */
  function PlainOp(id: string, to: NodeState): Op {
    match to
    case Running => OpStart(id)
    case Failed => OpFail(id)
    case Cancelled => OpCancel(id)
    case Skipped => OpSkip(id)
    case _ => OpInterrupt(id)
  }

  lemma PlainOpMoves(h: Graph, id: string, to: NodeState)
    requires Allowed(h, id, to) && !h.nodes[id].state.RecoveryRequired? && !to.Succeeded?
    ensures Do(h, PlainOp(id, to)) == Move(h, id, to)
  {
    hide Ready; hide Unreachable; hide Move;
  }

  lemma {:induction false} CompleteOp(h: Graph, id: string, list: seq<Artifact>)
    requires id in h.nodes && h.nodes[id].state.Running?
    requires forall i :: 0 <= i < |list| ==> list[i].producer == id && list[i].id !in h.artifacts
    ensures Do(h, OpComplete(id, list)) == Move(h, id, Succeeded).(artifacts := Insert(h.artifacts, list))
  {
    NewOnesPass(h, id, list);
    hide Insert; hide CheckArtifacts;
  }

  lemma {:induction false} ReconcileOp(h: Graph, r: Reconciliation, list: seq<Artifact>)
    requires r.node in h.nodes && h.nodes[r.node].state.RecoveryRequired? && r.sequence == h.nextSequence
    requires !IsBlank(r.reason) && HasEvidence(r.evidence)
    requires forall i :: 0 <= i < |list| ==> list[i].producer == r.node && list[i].id !in h.artifacts
    requires r.decision.ConfirmedFailed? ==> list == []
    ensures Do(h, OpReconcile(r.node, r.decision, r.reason, r.evidence, list))
            == Move(h, r.node, DecidedState(r.decision)).(artifacts := Insert(h.artifacts, list),
                                                          reconciliations := h.reconciliations + [r])
  {
    NewOnesPass(h, r.node, list);
    hide Insert; hide CheckArtifacts; hide IsBlank; hide HasEvidence;
  }

  /** Moves that bring neither artifacts nor a reconciliation. */
  lemma PlainMove(g: Graph, n: nat, m: nat)
    requires WellFormed(g) && InOrder(g) && n < |g.transitions| && HoldsInto(g, m, g.transitions[n].node)
    requires !g.transitions[n].from.RecoveryRequired? && !g.transitions[n].to.Succeeded?
    ensures Do(At(g, n, m), PlainOp(g.transitions[n].node, g.transitions[n].to)) == At(g, n + 1, m)
  {
    hide Shape; hide History; hide Produced; hide Reconciled; hide InOrderAt; hide ReconciliationsInOrder; hide Whole;
    hide ByName;
    hide At; hide Move; hide ValidMove; hide Do; hide NodesAt; hide ArtifactsAt; hide PlainOp;
    MoveIs(g, n, m);
    MoveIsAllowed(g, n, m);
    PlainCut(g, n);
    SameArtifacts(g, n);
    AtHas(g, n, m);
    AtHas(g, n + 1, m);
    PlainOpMoves(At(g, n, m), g.transitions[n].node, g.transitions[n].to);
  }

  lemma SuccessMove(g: Graph, n: nat, m: nat) returns (op: Op)
    requires WellFormed(g) && InOrder(g) && n < |g.transitions| && m <= |g.edges|
    requires !g.transitions[n].from.RecoveryRequired? && g.transitions[n].to.Succeeded?
    ensures op.OpComplete? && Do(At(g, n, m), op) == At(g, n + 1, m)
  {
    hide Shape; hide History; hide Produced; hide Reconciled; hide MovesInOrder; hide ReconciliationsInOrder;
    hide Whole; hide ByName; hide At; hide Move; hide Do; hide NodesAt; hide ArtifactsAt; hide ArtifactsOf;
    hide NamesAll; hide Insert;
    var t := g.transitions[n];
    var list := CanBeNamed(ArtifactsOf(g, t.node), t.node);
    MoveIs(g, n, m);
    PlainCut(g, n);
    NextArtifacts(g, n, list);
    AtHas(g, n, m);
    AtHas(g, n + 1, m);
    MoveKinds(g, n);
    CompleteOp(At(g, n, m), t.node, list);
    op := OpComplete(t.node, list);
  }

  lemma ItsIndex(ts: seq<Transition>, rs: seq<Reconciliation>, n: nat) returns (i: nat)
    requires Backed(ts, rs) && n < |ts| && ts[n].from.RecoveryRequired?
    ensures i < |rs| && rs[i].sequence == n + 1 && GoodReconciliation(ts, rs[i])
  {
    hide GoodReconciliation; hide DistinctSequences;
    i :| 0 <= i < |rs| && rs[i].sequence == n + 1;
  }

  /** The reconciliation of a move is the next one in the list. */
  lemma ItsReconciliation(g: Graph, n: nat) returns (r: Reconciliation)
    requires Reconciled(g) && ReconciliationsInOrder(g.reconciliations)
    requires n < |g.transitions| && g.transitions[n].from.RecoveryRequired?
    ensures g.reconciliations[..Cut(g.reconciliations, n + 1)] == g.reconciliations[..Cut(g.reconciliations, n)] + [r]
    ensures r.node == g.transitions[n].node && DecidedState(r.decision) == g.transitions[n].to && r.sequence == n + 1
    ensures !IsBlank(r.reason) && HasEvidence(r.evidence)
  {
    hide IsBlank; hide HasEvidence; hide DecidedState; hide Cut; hide ReconciliationsInOrder; hide Backed;
    var rs := g.reconciliations;
    var i := ItsIndex(g.transitions, rs, n);
    r := rs[i];
    NextCut(rs, n, i);
    assert rs[..i + 1] == rs[..i] + [r];
  }

  /** The artifacts that a way out of an unknown outcome brings. */
  lemma ItsArtifacts(g: Graph, n: nat) returns (list: seq<Artifact>)
    requires History(g) && n < |g.transitions|
    ensures
      forall i :: 0 <= i < |list| ==> list[i].producer == g.transitions[n].node && list[i].id !in ArtifactsAt(g, n)
    ensures Insert(ArtifactsAt(g, n), list) == ArtifactsAt(g, n + 1)
    ensures !g.transitions[n].to.Succeeded? ==> list == []
  {
    hide History; hide ArtifactsAt; hide ArtifactsOf; hide NamesAll;
    var t := g.transitions[n];
    if t.to.Succeeded? {
      list := CanBeNamed(ArtifactsOf(g, t.node), t.node);
      NextArtifacts(g, n, list);
    } else {
      list := [];
      SameArtifacts(g, n);
    }
  }

  lemma ReconciledMove(g: Graph, n: nat, m: nat) returns (op: Op)
    requires WellFormed(g) && InOrder(g) && n < |g.transitions| && g.transitions[n].from.RecoveryRequired?
    requires m <= |g.edges|
    ensures op.OpReconcile? && Do(At(g, n, m), op) == At(g, n + 1, m)
  {
    hide Shape; hide History; hide Produced; hide Reconciled; hide MovesInOrder; hide ReconciliationsInOrder;
    hide Whole; hide ByName; hide At; hide Move; hide Do; hide NodesAt; hide ArtifactsAt; hide Insert; hide IsBlank;
    hide HasEvidence;
    hide ValidMove;
    var r := ItsReconciliation(g, n);
    var list := ItsArtifacts(g, n);
    MoveIs(g, n, m);
    AtHas(g, n, m);
    AtHas(g, n + 1, m);
    MoveKinds(g, n);
    ReconcileOp(At(g, n, m), r, list);
    op := OpReconcile(r.node, r.decision, r.reason, r.evidence, list);
  }

  // -- One call after the other ---------------------------------------

  lemma {:induction false} NeededMeans(edges: seq<Edge>, ts: seq<Transition>)
    ensures forall i :: Needed(edges, ts) <= i < |edges| ==> !Touched(ts, edges[i].to)
    ensures Needed(edges, ts) > 0 ==> Touched(ts, edges[Needed(edges, ts) - 1].to)
  {
    hide Touched;
    if edges != [] && !Touched(ts, edges[|edges| - 1].to) { NeededMeans(edges[..|edges| - 1], ts); }
  }

  lemma TouchedLater(ts: seq<Transition>, n: nat, k: nat, id: string)
    requires n <= k <= |ts| && Touched(ts[..n], id)
    ensures Touched(ts[..k], id)
  {
    var i :| 0 <= i < n && ts[..n][i].node == id;
    assert ts[..k][i] == ts[..n][i];
  }

  lemma NeededGrows(edges: seq<Edge>, ts: seq<Transition>, n: nat, k: nat)
    requires n <= k <= |ts|
    ensures Needed(edges, ts[..n]) <= Needed(edges, ts[..k])
  {
    NeededMeans(edges, ts[..n]);
    NeededMeans(edges, ts[..k]);
    hide Touched; hide Needed;
    var m := Needed(edges, ts[..n]);
    if m > 0 { TouchedLater(ts, n, k, edges[m - 1].to); }
  }

  /** Edges that were not needed so far lead into nodes that have not moved. */
  lemma LaterEdgesArePending(g: Graph, n: nat, i: nat)
    requires n <= |g.transitions| && Needed(g.edges, g.transitions[..n]) <= i < |g.edges|
    ensures StateAfter(g.transitions[..n], g.edges[i].to).Pending?
  {
    NeededMeans(g.edges, g.transitions[..n]);
    Untouched(g.transitions[..n], g.edges[i].to);
  }

  /** The edges needed by the end of a block are all there for each of its moves. */
  lemma NeededHolds(g: Graph, n: nat, k: nat)
    requires k < n <= |g.transitions|
    ensures HoldsInto(g, Needed(g.edges, g.transitions[..n]), g.transitions[k].node)
  {
    NeededMeans(g.edges, g.transitions[..n]);
    assert g.transitions[..n][k] == g.transitions[k];
  }

  lemma EdgesForBlock(g: Graph, a: nat, m: nat, calls: seq<Call>) returns (more: seq<Call>)
    requires Shape(g) && a <= |g.transitions| && Needed(g.edges, g.transitions[..a]) <= m <= |g.edges|
    requires Makes(calls, At(g, a, Needed(g.edges, g.transitions[..a])))
    ensures Makes(more, At(g, a, m))
    ensures calls <= more
  {
    hide Shape; hide Makes; hide At; hide Needed; hide StateAfter;
    var k := Needed(g.edges, g.transitions[..a]);
    forall i | k <= i < m ensures StateAfter(g.transitions[..a], g.edges[i].to).Pending? {
      LaterEdgesArePending(g, a, i);
    }
    more := EdgesCanBeAdded(g, a, k, m, calls);
  }

  /** A move that is neither a skip nor an interruption is a call of its own. */
  lemma PlainCall(g: Graph, n: nat, m: nat, calls: seq<Call>) returns (more: seq<Call>)
    requires WellFormed(g) && InOrder(g) && n < |g.transitions| && HoldsInto(g, m, g.transitions[n].node)
    requires m <= |g.edges| && !g.transitions[n].to.Skipped? && !g.transitions[n].to.RecoveryRequired?
    requires Makes(calls, At(g, n, m))
    ensures Makes(more, At(g, n + 1, m))
    ensures calls <= more
  {
    hide *;
    WellFormedParts(g);
    MoveKinds(g, n);
    var t := g.transitions[n];
    var op := PlainOp(t.node, t.to);
    if t.from.RecoveryRequired? {
      op := ReconciledMove(g, n, m);
    } else if t.to.Succeeded? {
      op := SuccessMove(g, n, m);
    } else {
      PlainMove(g, n, m);
      PlainOpIsPlain(t.node, t.to);
    }
    OneMorePlain(calls, At(g, n, m), op);
    more := calls + [Plain(op)];
  }

  lemma WellFormedParts(g: Graph)
    requires WellFormed(g)
    ensures Shape(g) && History(g) && Produced(g) && Reconciled(g)
  {
  }

  lemma PlainOpIsPlain(id: string, to: NodeState)
    requires to.Running? || to.Failed? || to.Cancelled?
    ensures
      var op := PlainOp(id, to);
      !op.OpAddNode? && !op.OpSkip? && !op.OpInterrupt?
  {
  }

  /** The nodes that the moves from `a` to `b` move. */
  function MovedNodes(ts: seq<Transition>, a: nat, b: nat): seq<string>
    requires a <= b <= |ts|
    decreases b - a
  {
    if a == b then [] else MovedNodes(ts, a, b - 1) + [ts[b - 1].node]
  }

  lemma MovedOneMore(ts: seq<Transition>, a: nat, b: nat)
    requires a <= b < |ts|
    ensures MovedNodes(ts, a, b + 1) == MovedNodes(ts, a, b) + [ts[b].node]
  {
  }

  lemma BlockOps(id: string)
    ensures PlainOp(id, Skipped) == OpSkip(id) && PlainOp(id, RecoveryRequired) == OpInterrupt(id)
  {
  }

  /** Of the nodes that move `n` could take it takes the first. */
  ghost predicate TakesAt(g: Graph, n: nat, m: nat)
    requires n < |g.transitions| && m <= |g.edges|
  {
    var t := g.transitions[n];
    if t.to.Skipped? then Takes(At(g, n, m), OpSkip(t.node)) else Takes(At(g, n, m), OpInterrupt(t.node))
  }

  lemma UnreachableAt(g: Graph, n: nat, m: nat, id: string)
    requires Shape(g) && n <= |g.transitions| && m <= |g.edges| && id in UnreachableNodes(At(g, n, m))
    ensures
      exists i :: 0 <= i < m && g.edges[i].to == id && StateAfter(g.transitions[..n], id).Pending?
                  && BrokenBy(g.edges[i], StateAfter(g.transitions[..n], g.edges[i].from))
  {
    EdgesStartInNodes(g);
    AtHas(g, n, m);
    hide Shape; hide StateAfter; hide At; hide Broken; hide BrokenBy;
    var h := At(g, n, m);
    var i :| 0 <= i < |h.edges| && h.edges[i].to == id && Broken(h, h.edges[i]);
    StateAt(g, n, m, g.edges[i]);
  }

  lemma NotBefore(g: Graph, n: nat, m: nat, id: string, x: string)
    requires Shape(g) && n <= |g.transitions| && m <= |g.edges| && x in UnreachableNodes(At(g, n, m))
    requires FirstBroken(g.edges[..m], g.transitions[..n], id)
    ensures !Less(x, id)
  {
    UnreachableAt(g, n, m, x);
    hide Shape; hide StateAfter; hide At; hide BrokenBy; hide Less;
    var i :| 0 <= i < m && g.edges[i].to == x && StateAfter(g.transitions[..n], x).Pending?
             && BrokenBy(g.edges[i], StateAfter(g.transitions[..n], g.edges[i].from));
    assert g.edges[..m][i] == g.edges[i];
  }

  lemma SkipTakes(g: Graph, n: nat, m: nat)
    requires Shape(g) && History(g) && n < |g.transitions| && InOrderAt(g.edges, g.transitions, n)
    requires m <= |g.edges| && HoldsInto(g, m, g.transitions[n].node) && g.transitions[n].to.Skipped?
    requires FirstBroken(g.edges[..m], g.transitions[..n], g.transitions[n].node)
    ensures TakesAt(g, n, m)
  {
    MoveIsAllowed(g, n, m);
    hide Shape; hide History; hide StateAfter; hide At; hide Unreachable; hide InOrderAt; hide FirstBroken; hide Less;
    var h, id := At(g, n, m), g.transitions[n].node;
    forall x | x in UnreachableNodes(h) ensures x == id || Less(id, x) {
      NotBefore(g, n, m, id, x);
      LessIsTotal(x, id);
    }
  }

  lemma InterruptTakes(g: Graph, n: nat, m: nat)
    requires History(g) && n < |g.transitions| && m <= |g.edges| && g.transitions[n].to.RecoveryRequired?
    requires FirstRunning(g.transitions[..n], g.transitions[n].node)
    ensures TakesAt(g, n, m)
  {
    MoveIs(g, n, m);
    AtHas(g, n, m);
    hide History; hide StateAfter; hide At; hide Less;
    var h, id := At(g, n, m), g.transitions[n].node;
    forall x | x in RunningNodes(h) ensures x == id || Less(id, x) { LessIsTotal(x, id); }
  }

  lemma SkipsMoveOn(g: Graph, a: nat, b: nat, m: nat)
    requires WellFormed(g) && InOrder(g) && a <= b < |g.transitions| && HoldsInto(g, m, g.transitions[b].node)
    requires m <= |g.edges| && g.transitions[b].to.Skipped? && TakesAt(g, b, m)
    requires DoAll(At(g, a, m), Skips(MovedNodes(g.transitions, a, b))) == At(g, b, m)
    requires InTurn(At(g, a, m), Skips(MovedNodes(g.transitions, a, b)))
    ensures DoAll(At(g, a, m), Skips(MovedNodes(g.transitions, a, b + 1))) == At(g, b + 1, m)
    ensures InTurn(At(g, a, m), Skips(MovedNodes(g.transitions, a, b + 1)))
  {
    SkipTaken(g, b, m);
    hide *;
    var t, moved := g.transitions[b], MovedNodes(g.transitions, a, b);
    WellFormedParts(g);
    MoveKinds(g, b);
    MovedOneMore(g.transitions, a, b);
    SkipsSnoc(moved, t.node);
    DoAllSnoc(At(g, a, m), Skips(moved), OpSkip(t.node));
    InTurnSnoc(At(g, a, m), Skips(moved), OpSkip(t.node));
    PlainMove(g, b, m);
    BlockOps(t.node);
  }

  lemma SkipTaken(g: Graph, n: nat, m: nat)
    requires n < |g.transitions| && m <= |g.edges| && TakesAt(g, n, m) && g.transitions[n].to.Skipped?
    ensures Takes(At(g, n, m), OpSkip(g.transitions[n].node))
  {
  }

  lemma InterruptTaken(g: Graph, n: nat, m: nat)
    requires n < |g.transitions| && m <= |g.edges| && TakesAt(g, n, m) && g.transitions[n].to.RecoveryRequired?
    ensures Takes(At(g, n, m), OpInterrupt(g.transitions[n].node))
  {
  }

  lemma {:induction false} SkipsMove(g: Graph, a: nat, b: nat, m: nat)
    requires WellFormed(g) && InOrder(g) && a <= b <= |g.transitions|
    requires m <= |g.edges| && forall k :: a <= k < b ==> HoldsInto(g, m, g.transitions[k].node) && TakesAt(g, k, m)
    requires forall k :: a <= k < b ==> g.transitions[k].to.Skipped?
    ensures DoAll(At(g, a, m), Skips(MovedNodes(g.transitions, a, b))) == At(g, b, m)
    ensures InTurn(At(g, a, m), Skips(MovedNodes(g.transitions, a, b)))
    decreases b - a
  {
    hide WellFormed; hide InOrder; hide At; hide HoldsInto; hide DoAll; hide TakesAt;
    if a == b {
      NothingDone(At(g, a, m));
      NothingInTurn(At(g, a, m));
    } else {
      hide MovedNodes; hide Skips; hide InTurn;
      SkipsMove(g, a, b - 1, m);
      SkipsMoveOn(g, a, b - 1, m);
    }
  }

  lemma InterruptsMoveOn(g: Graph, a: nat, b: nat, m: nat)
    requires WellFormed(g) && InOrder(g) && a <= b < |g.transitions| && HoldsInto(g, m, g.transitions[b].node)
    requires m <= |g.edges| && g.transitions[b].to.RecoveryRequired? && TakesAt(g, b, m)
    requires DoAll(At(g, a, m), Interrupts(MovedNodes(g.transitions, a, b))) == At(g, b, m)
    requires InTurn(At(g, a, m), Interrupts(MovedNodes(g.transitions, a, b)))
    ensures DoAll(At(g, a, m), Interrupts(MovedNodes(g.transitions, a, b + 1))) == At(g, b + 1, m)
    ensures InTurn(At(g, a, m), Interrupts(MovedNodes(g.transitions, a, b + 1)))
  {
    InterruptTaken(g, b, m);
    hide *;
    var t, moved := g.transitions[b], MovedNodes(g.transitions, a, b);
    WellFormedParts(g);
    MoveKinds(g, b);
    MovedOneMore(g.transitions, a, b);
    InterruptsSnoc(moved, t.node);
    DoAllSnoc(At(g, a, m), Interrupts(moved), OpInterrupt(t.node));
    InTurnSnoc(At(g, a, m), Interrupts(moved), OpInterrupt(t.node));
    PlainMove(g, b, m);
    BlockOps(t.node);
  }

  lemma {:induction false} InterruptsMove(g: Graph, a: nat, b: nat, m: nat)
    requires WellFormed(g) && InOrder(g) && a <= b <= |g.transitions|
    requires m <= |g.edges| && forall k :: a <= k < b ==> HoldsInto(g, m, g.transitions[k].node) && TakesAt(g, k, m)
    requires forall k :: a <= k < b ==> g.transitions[k].to.RecoveryRequired?
    ensures DoAll(At(g, a, m), Interrupts(MovedNodes(g.transitions, a, b))) == At(g, b, m)
    ensures InTurn(At(g, a, m), Interrupts(MovedNodes(g.transitions, a, b)))
    decreases b - a
  {
    hide WellFormed; hide InOrder; hide At; hide HoldsInto; hide DoAll; hide TakesAt;
    if a == b {
      NothingDone(At(g, a, m));
      NothingInTurn(At(g, a, m));
    } else {
      hide MovedNodes; hide Interrupts; hide InTurn;
      InterruptsMove(g, a, b - 1, m);
      InterruptsMoveOn(g, a, b - 1, m);
    }
  }

  lemma SettledAt(g: Graph, n: nat, m: nat)
    requires n <= |g.transitions| && m <= |g.edges| && NothingBroken(g.edges[..m], g.transitions[..n])
    ensures Settled(At(g, n, m))
  {
    hide StateAfter; hide ArtifactsAt; hide Cut;
    var h := At(g, n, m);
    forall id | id in h.nodes ensures !Unreachable(h, id) {
      forall i | 0 <= i < |h.edges| && h.edges[i].to == id && h.nodes[id].state.Pending?
        ensures !Broken(h, h.edges[i])
      {
        assert !BrokenBy(h.edges[i], StateAfter(g.transitions[..n], h.edges[i].from));
      }
    }
  }

  lemma NoneRunningAt(g: Graph, n: nat, m: nat)
    requires n <= |g.transitions| && m <= |g.edges| && NoneRunning(g.transitions[..n])
    ensures RunningNodes(At(g, n, m)) == {}
  {
    hide StateAfter; hide ArtifactsAt; hide Cut;
  }

  /** A call can end with this move: the block ends there, or everything is settled before further skips. */
  predicate CallEnds(g: Graph, k: nat)
    requires k < |g.transitions|
  {
    || EndsBlock(g.transitions, k)
    || (g.transitions[k + 1].to.Skipped? && SettledAfter(g.edges, g.transitions, k + 1))
  }

  /** What holds at the end of a call. */
  lemma BlockEnds(g: Graph, n: nat)
    requires Whole(g) && 0 < n <= |g.transitions| && CallEnds(g, n - 1)
    requires g.transitions[n - 1].to.Skipped? || g.transitions[n - 1].to.RecoveryRequired?
    ensures Settled(At(g, n, Needed(g.edges, g.transitions[..n])))
  {
    assert WholeAt(g.edges, g.transitions, n - 1);
    hide NoneRunning; hide NothingBroken; hide At; hide Needed;
    SettledAt(g, n, Needed(g.edges, g.transitions[..n]));
  }

  lemma InterruptionsEnd(g: Graph, p: nat, m: nat)
    requires Whole(g) && 0 < p <= |g.transitions| && g.transitions[p - 1].to.RecoveryRequired? && m <= |g.edges|
    requires p == |g.transitions| || !g.transitions[p].to.RecoveryRequired?
    ensures RunningNodes(At(g, p, m)) == {}
  {
    assert WholeAt(g.edges, g.transitions, p - 1);
    hide NoneRunning; hide NothingBroken; hide At; hide Needed;
    NoneRunningAt(g, p, m);
  }

  /** Moves `a` to `p` interrupt, moves `p` to `n` skip, and a call can end there but not before. */
  predicate Block(g: Graph, a: nat, p: nat, n: nat) {
    && a <= p <= n <= |g.transitions| && a < n
    && (forall k :: a <= k < p ==> g.transitions[k].to.RecoveryRequired?)
    && (forall k :: p <= k < n ==> g.transitions[k].to.Skipped?)
    && CallEnds(g, n - 1) && forall k: nat :: a <= k < n - 1 ==> !CallEnds(g, k)
  }

  lemma SettleCall(g: Graph, a: nat, n: nat, calls: seq<Call>) returns (more: seq<Call>)
    requires WellFormed(g) && InOrder(g) && Block(g, a, a, n)
    requires Makes(calls, At(g, a, Needed(g.edges, g.transitions[..n])))
    ensures Makes(more, At(g, n, Needed(g.edges, g.transitions[..n])))
    ensures calls <= more
  {
    hide WellFormed; hide MovesInOrder; hide ReconciliationsInOrder; hide At; hide Makes; hide Needed; hide Settled;
    hide HoldsInto; hide EndsBlock; hide Whole; hide ByName; hide DoAll; hide Appends; hide AddsPending;
    BlockHolds(g, a, a, n);
    BlockTakes(g, a, a, n);
    hide TakesAt; hide InTurn; hide CallEnds;
    var m, list := Needed(g.edges, g.transitions[..n]), MovedNodes(g.transitions, a, n);
    SkipsMove(g, a, n, m);
    BlockEnds(g, n);
    SkipsAppend(At(g, a, m), list);
    NoAddsAddsPending(At(g, a, m), Skips(list));
    OneMoreCall(calls, At(g, a, m), Settle(list));
    more := calls + [Settle(list)];
  }

  lemma RecoverIsLegal(g: Graph, m: Graph, h: Graph, first: seq<string>, last: seq<string>)
    requires WellFormed(g) && m == DoAll(g, Interrupts(first)) && h == DoAll(m, Skips(last))
    requires RunningNodes(m) == {} && Settled(h) && InTurn(g, Interrupts(first)) && InTurn(m, Skips(last))
    ensures Legal(g, Recover(first, last)) && h == DoAll(g, OpsOf(Recover(first, last)))
    ensures AddsPending(g, OpsOf(Recover(first, last)))
  {
    hide WellFormed; hide DoAll; hide Settled; hide RunningNodes; hide AddsPending; hide Appends; hide InTurn;
    DoAllConcat(g, Interrupts(first), Skips(last));
    InTurnConcat(g, Interrupts(first), Skips(last));
    InterruptsAppend(g, first);
    SkipsAppend(m, last);
    NoAddsAddsPending(g, Interrupts(first) + Skips(last));
  }

  lemma BlockHolds(g: Graph, a: nat, p: nat, n: nat)
    requires Block(g, a, p, n)
    ensures forall k :: a <= k < n ==> HoldsInto(g, Needed(g.edges, g.transitions[..n]), g.transitions[k].node)
    ensures a < p ==> p == |g.transitions| || !g.transitions[p].to.RecoveryRequired?
  {
    assert a < p ==> p == |g.transitions| || !g.transitions[p].to.RecoveryRequired?;
    hide Block; hide HoldsInto; hide Needed;
    forall k | a <= k < n
      ensures HoldsInto(g, Needed(g.edges, g.transitions[..n]), g.transitions[k].node)
    {
      NeededHolds(g, n, k);
    }
  }

  /** The skips of a block are of one settlement. */
  lemma BlockIsOneSettlement(g: Graph, a: nat, p: nat, n: nat, k: nat)
    requires Block(g, a, p, n) && p <= k < n
    ensures OneSettlement(g.edges, g.transitions, k, n - 1)
  {
    hide SettledAfter; hide EndsBlock;
    forall q: nat | k < q <= n - 1 ensures !SettledAfter(g.edges, g.transitions, q) { assert !CallEnds(g, q - 1); }
  }

  /** Every move of a block takes the first node by name. */
  lemma BlockTakes(g: Graph, a: nat, p: nat, n: nat)
    requires WellFormed(g) && InOrder(g) && Block(g, a, p, n)
    ensures forall k :: a <= k < n ==> TakesAt(g, k, Needed(g.edges, g.transitions[..n]))
  {
    hide *;
    WellFormedParts(g);
    BlockBounds(g, a, p, n);
    var m := Needed(g.edges, g.transitions[..n]);
    forall k | a <= k < n ensures TakesAt(g, k, m) {
      NeededHolds(g, n, k);
      OrderAt(g, k, n - 1);
      if k < p {
        InterruptFirst(g, k, n - 1);
        InterruptTakes(g, k, m);
      } else {
        BlockIsOneSettlement(g, a, p, n, k);
        SkipFirst(g, k, n - 1);
        SkipTakes(g, k, m);
      }
    }
  }

  lemma BlockBounds(g: Graph, a: nat, p: nat, n: nat)
    requires Block(g, a, p, n)
    ensures a <= p <= n <= |g.transitions| && a < n && Needed(g.edges, g.transitions[..n]) <= |g.edges|
    ensures forall k :: a <= k < p ==> g.transitions[k].to.RecoveryRequired?
    ensures forall k :: p <= k < n ==> g.transitions[k].to.Skipped?
  {
  }

  lemma OrderAt(g: Graph, k: nat, j: nat)
    requires InOrder(g) && k <= j < |g.transitions|
    ensures InOrderAt(g.edges, g.transitions, k) && ByNameAt(g.edges, g.transitions, k, j)
  {
    hide ByNameAt; hide InOrderAt; hide Whole;
  }

  lemma InterruptFirst(g: Graph, k: nat, j: nat)
    requires k <= j < |g.transitions| && ByNameAt(g.edges, g.transitions, k, j)
    requires g.transitions[k].to.RecoveryRequired?
    ensures FirstRunning(g.transitions[..k], g.transitions[k].node)
  {
    hide FirstRunning;
  }

  lemma SkipFirst(g: Graph, k: nat, j: nat)
    requires k <= j < |g.transitions| && ByNameAt(g.edges, g.transitions, k, j)
    requires OneSettlement(g.edges, g.transitions, k, j)
    ensures FirstBroken(g.edges[..Needed(g.edges, g.transitions[..j + 1])], g.transitions[..k], g.transitions[k].node)
  {
    hide FirstBroken; hide OneSettlement; hide Needed;
  }

  lemma RecoverCall(g: Graph, a: nat, p: nat, n: nat, calls: seq<Call>) returns (more: seq<Call>)
    requires WellFormed(g) && InOrder(g) && Block(g, a, p, n) && a < p
    requires Makes(calls, At(g, a, Needed(g.edges, g.transitions[..n])))
    ensures Makes(more, At(g, n, Needed(g.edges, g.transitions[..n])))
    ensures calls <= more
  {
    hide WellFormed; hide MovesInOrder; hide ReconciliationsInOrder; hide At; hide Makes; hide Needed; hide Settled;
    hide HoldsInto; hide EndsBlock; hide Whole; hide ByName; hide DoAll; hide RunningNodes; hide AddsPending;
    hide Legal; hide OpsOf;
    hide MovedNodes;
    BlockHolds(g, a, p, n);
    BlockTakes(g, a, p, n);
    hide TakesAt; hide InTurn; hide CallEnds;
    var m := Needed(g.edges, g.transitions[..n]);
    var first, last := MovedNodes(g.transitions, a, p), MovedNodes(g.transitions, p, n);
    InterruptsMove(g, a, p, m);
    SkipsMove(g, p, n, m);
    InterruptionsEnd(g, p, m);
    BlockEnds(g, n);
    MadeIsWellFormed(calls, At(g, a, m));
    RecoverIsLegal(At(g, a, m), At(g, p, m), At(g, n, m), first, last);
    OneMoreCall(calls, At(g, a, m), Recover(first, last));
    more := calls + [Recover(first, last)];
  }

  /** Where the call that ends with move `n - 1` starts, and where its interruptions end. */
  lemma {:induction false} FindBlock(g: Graph, n: nat) returns (a: nat, p: nat)
    requires 0 < n <= |g.transitions| && (g.transitions[n - 1].to.Skipped? || g.transitions[n - 1].to.RecoveryRequired?)
    ensures a <= p <= n && a < n && (a == 0 || CallEnds(g, a - 1))
    ensures forall k :: a <= k < p ==> g.transitions[k].to.RecoveryRequired?
    ensures forall k :: p <= k < n ==> g.transitions[k].to.Skipped?
    ensures forall k: nat :: a <= k < n - 1 ==> !CallEnds(g, k)
  {
    hide SettledAfter;
    if n == 1 || CallEnds(g, n - 2) {
      a := n - 1;
      p := if g.transitions[n - 1].to.Skipped? then n - 1 else n;
    } else {
      a, p := FindBlock(g, n - 1);
      if g.transitions[n - 1].to.RecoveryRequired? { p := n; }
    }
  }

  lemma AllFresh(g: Graph) returns (calls: seq<Call>)
    requires WellFormed(g)
    ensures Makes(calls, At(g, 0, 0))
  {
    hide Shape; hide At; hide Makes; hide Reconciled;
    calls := NodesCanBeAdded(g, g.nodes.Keys);
    StartsFresh(g);
  }

  lemma NothingNeeded(edges: seq<Edge>, ts: seq<Transition>)
    ensures Needed(edges, ts[..0]) == 0
  {
    NeededMeans(edges, ts[..0]);
  }

  /** From the start of a block to its end: first the edges it needs, then the one call. */
  lemma BlockCanBeMade(g: Graph, a: nat, p: nat, n: nat, calls: seq<Call>) returns (more: seq<Call>)
    requires WellFormed(g) && InOrder(g) && a <= p <= n <= |g.transitions| && a < n
    requires Block(g, a, p, n) || (a == n - 1 && IsPlain(g.transitions[a]))
    requires Makes(calls, At(g, a, Needed(g.edges, g.transitions[..a])))
    ensures Makes(more, At(g, n, Needed(g.edges, g.transitions[..n])))
    ensures calls <= more
  {
    hide *;
    var m := Needed(g.edges, g.transitions[..n]);
    WellFormedParts(g);
    NeededGrows(g.edges, g.transitions, a, n);
    var ready := EdgesForBlock(g, a, m, calls);
    if Block(g, a, p, n) {
      if a == p { more := SettleCall(g, a, n, ready); } else { more := RecoverCall(g, a, p, n, ready); }
    } else {
      NeededHolds(g, n, a);
      PlainIs(g.transitions[a]);
      more := PlainCall(g, a, m, ready);
    }
  }

  predicate IsPlain(t: Transition) { !t.to.Skipped? && !t.to.RecoveryRequired? }

  lemma PlainIs(t: Transition)
    requires IsPlain(t)
    ensures !t.to.Skipped? && !t.to.RecoveryRequired?
  {
  }

  lemma {:induction false} MovesCanBeMade(g: Graph, n: nat, first: seq<Call>) returns (calls: seq<Call>)
    requires WellFormed(g) && InOrder(g) && n <= |g.transitions| && (n == 0 || CallEnds(g, n - 1))
    requires Makes(first, At(g, 0, 0))
    ensures Makes(calls, At(g, n, Needed(g.edges, g.transitions[..n])))
    ensures first <= calls
    decreases n
  {
    hide WellFormed; hide InOrder; hide At; hide Makes; hide Needed;
    if n == 0 {
      calls := first;
      NothingNeeded(g.edges, g.transitions);
    } else {
      var a, p := n - 1, n - 1;
      if !IsPlain(g.transitions[n - 1]) { a, p := FindBlock(g, n); }
      hide CallEnds;
      var before := MovesCanBeMade(g, a, first);
      calls := BlockCanBeMade(g, a, p, n, before);
    }
  }

  /** First all nodes, then the rest. */
  lemma CanBeMade(g: Graph) returns (first: seq<Call>, calls: seq<Call>)
    requires WellFormed(g) && InOrder(g)
    ensures Makes(first, EMPTY.(nodes := Fresh(g, g.nodes.Keys))) && Makes(calls, g) && first <= calls
  {
    hide InOrder; hide At; hide Makes; hide Needed; hide Reconciled;
    var n := |g.transitions|;
    first := AllFresh(g);
    StartsFresh(g);
    calls := MovesCanBeMade(g, n, first);
    calls := EdgesForBlock(g, n, |g.edges|, calls);
    EndsWhole(g);
  }

  // -- Exactly the reachable graphs -----------------------------------

  /** Some run of calls from the empty graph makes it. */
  ghost predicate Reachable(g: Graph) {
    exists calls :: LegalRun(EMPTY, calls) && DoAll(EMPTY, AllOps(calls)) == g
  }

  /** Some run of calls that adds its nodes as pending makes it. */
  ghost predicate ReachableFresh(g: Graph) { exists calls :: Makes(calls, g) }

  /** A graph is made by some run of calls that adds its nodes as pending exactly when it is well formed, its
      moves respect the dependencies, its reconciliations are listed in the order of their moves, and its
      interruptions and skips come in whole blocks and go by name. */
  lemma ReachableIff(g: Graph)
    ensures
      ReachableFresh(g)
      <==> WellFormed(g) && MovesInOrder(g) && ReconciliationsInOrder(g.reconciliations) && Whole(g) && ByName(g)
  {
    hide WellFormed; hide MovesInOrder; hide ReconciliationsInOrder; hide Whole; hide ByName; hide Gates; hide Makes;
    if calls :| Makes(calls, g) { MadeIsInOrder(calls, g); }
    if WellFormed(g) && InOrder(g) {
      var first, calls := CanBeMade(g);
      assert ReachableFresh(g);
    }
  }

  lemma MadeIsInOrder(calls: seq<Call>, g: Graph)
    requires Makes(calls, g)
    ensures Inv(g) && InOrder(g)
  {
    EmptyInv();
    EmptyIsWhole();
    hide WellFormed; hide MovesInOrder; hide ReconciliationsInOrder; hide Whole; hide ByName; hide Gates; hide LegalRun;
    hide DoAll; hide AddsPending; hide AllOps;
    RunKeepsInv(EMPTY, AllOps(calls));
    RunIsWhole(EMPTY, calls);
  }

  /** Whatever further calls are made from a graph that a run can make, a run can make the result. */
  lemma RunsStayReachable(g: Graph, calls: seq<Call>, h: Graph)
    requires ReachableFresh(g) && Runs(g, calls, h)
    ensures ReachableFresh(h)
  {
    hide LegalRun; hide DoAll; hide AddsPending; hide AllOps; hide NoAdds;
    var before :| Makes(before, g);
    LegalRunConcat(EMPTY, before, calls);
    AllOpsConcat(before, calls);
    AddsPendingConcat(EMPTY, AllOps(before), AllOps(calls));
    NoAddsAddsPending(g, AllOps(calls));
    DoAllConcat(EMPTY, AllOps(before), AllOps(calls));
    assert Makes(before + calls, h);
  }

  lemma EmptyIsWhole()
    ensures Whole(EMPTY) && ByName(EMPTY)
  {
  }

  /** A run that ends in a well-formed graph has added its nodes as pending. */
  lemma RunsWithHistory(g: Graph, ops: seq<Op>)
    requires WellFormed(g) && DoAll(EMPTY, ops) == g
    ensures AddsPending(EMPTY, ops)
  {
    EmptyIsSound();
    HistoryIff(EMPTY, ops);
  }

  // -- Checkpoints and runs -------------------------------------------

  lemma SnapshotDetermines(s: Snapshot, g: Graph, h: Graph)
    requires IsSnapshotOf(s, g) && IsSnapshotOf(s, h) && g.nextSequence == h.nextSequence
    ensures g == h
  {
    ListedComesBack(s.nodes, g.nodes);
    ListedComesBack(s.nodes, h.nodes);
    ListedComesBack(s.artifacts, g.artifacts);
    ListedComesBack(s.artifacts, h.artifacts);
    hide MapOf; hide Lists;
  }

  lemma {:induction false} DistinctArtifacts(listed: seq<Entry<string>>, states: map<string, NodeState>)
    requires forall i, j :: 0 <= i < j < |listed| ==> listed[i].id != listed[j].id
    ensures BadArtifact(listed, states) in {None, Some(InvalidSnapshot)}
  {
    if listed != [] {
      var before := listed[..|listed| - 1];
      DistinctArtifacts(before, states);
      forall i | 0 <= i < |before| ensures before[i].id != listed[|listed| - 1].id { assert before[i] == listed[i]; }
    }
  }

  /** Of a graph of the right shape only history, artifacts or reconciliations can be wrong. */
  lemma ShapePasses(s: Snapshot, g: Graph)
    requires Shape(g) && IsSnapshotOf(s, g)
    ensures Validated(s).Ok? || Validated(s) == Err(InvalidSnapshot)
  {
    TopologyIsWhole(g, s);
    var t := Topology(s.nodes).value;
    AllEdgesPass(g, t);
    var states := Replay(t.nodes.Keys, s.transitions);
    if states.Some? { DistinctArtifacts(s.artifacts, states.value); }
    hide Topology; hide WithEdges; hide Replay; hide ReconciliationsMatch; hide MapOf; hide Shape; hide StatesMatch;
    hide BadArtifact;
  }

  /** The checkpoint of the graph that a run made restores that graph if the run added its nodes as pending,
      and is refused otherwise. */
  lemma CheckpointRoundTrip(ops: seq<Op>, s: Snapshot)
    requires IsSnapshotOf(s, DoAll(EMPTY, ops))
    ensures Validated(s) == if AddsPending(EMPTY, ops) then Ok(DoAll(EMPTY, ops)) else Err(InvalidSnapshot)
  {
    var g := DoAll(EMPTY, ops);
    EmptyIsSound();
    RunKeepsSound(EMPTY, ops);
    assert g.nextSequence == |g.transitions| + 1;
    RunKeepsInvIff(ops);
    ShapePasses(s, g);
    hide DoAll; hide AddsPending; hide Shape; hide Gates; hide Produced; hide Reconciled; hide Validated;
    hide MovesInOrder; hide ReconciliationsInOrder;
    if AddsPending(EMPTY, ops) {
      AcceptedIff(s, g);
    } else if Validated(s).Ok? {
      var h := Validated(s).value;
      AcceptedIff(s, h);
      SnapshotDetermines(s, g, h);
      RunsWithHistory(g, ops);
    }
  }

  /** An accepted checkpoint is one that a run of calls can make exactly when its moves respect the
      dependencies, its reconciliations are listed in the order of their moves, and its interruptions and skips
      come in whole blocks and go by name. */
  lemma AcceptedIsReachableIff(s: Snapshot, g: Graph)
    requires Validated(s) == Ok(g)
    ensures Reachable(g) <==> InOrder(g)
  {
    AcceptedIff(s, g);
    WellFormedIsReachableIff(g);
  }

  lemma WellFormedIsReachableIff(g: Graph)
    requires WellFormed(g)
    ensures Reachable(g) <==> InOrder(g)
  {
    ReachableIff(g);
    hide WellFormed; hide MovesInOrder; hide ReconciliationsInOrder; hide Whole; hide ByName; hide LegalRun; hide DoAll;
    hide AddsPending; hide AllOps;
    if calls :| LegalRun(EMPTY, calls) && DoAll(EMPTY, AllOps(calls)) == g {
      RunsWithHistory(g, AllOps(calls));
      assert Makes(calls, g);
    }
    if calls :| Makes(calls, g) { assert Reachable(g); }
  }

  // -- Accepted all the same ------------------------------------------

  /** Node `b` requires node `a`, and was started before `a`. */
  function StartedTooEarly(): Graph {
    Graph(map["a" := Node(Other, Pending), "b" := Node(Other, Running)], [Edge("a", "b", Requires)], map[],
          [Transition(1, "b", Pending, Running)], [], 2)
  }

  function ItsSnapshot(): Snapshot {
    Snapshot([Entry("a", Node(Other, Pending)), Entry("b", Node(Other, Running))], [Edge("a", "b", Requires)], [],
             [Transition(1, "b", Pending, Running)], [])
  }

  lemma ItsShape()
    ensures Shape(StartedTooEarly())
  {
    assert Ranks(StartedTooEarly().edges, map["a" := 0, "b" := 1]);
    assert "a"[0] == 'a' && "b"[0] == 'b';
  }

  lemma ItsHistory()
    ensures History(StartedTooEarly())
  {
    var g := StartedTooEarly();
    assert g.transitions[..0] == [] && GoodTransition(g, 0);
    assert StateAfter(g.transitions, "b") == Running;
    assert StateAfter(g.transitions, "a") == StateAfter(g.transitions[..0], "a") == Pending;
  }

  lemma ItsListing()
    ensures IsSnapshotOf(ItsSnapshot(), StartedTooEarly())
  {
    var g, s := StartedTooEarly(), ItsSnapshot();
    assert s.nodes[0] == Entry("a", g.nodes["a"]) && s.nodes[1] == Entry("b", g.nodes["b"]);
  }

  lemma ItIsBacked()
    ensures Produced(StartedTooEarly()) && Reconciled(StartedTooEarly())
  {
  }

  lemma ItsOrder()
    ensures !MovesInOrder(StartedTooEarly())
  {
    var g := StartedTooEarly();
    assert g.transitions[..0] == [];
    assert !SatisfiedBy(g.edges[0], StateAfter(g.transitions[..0], g.edges[0].from));
    assert !InOrderAt(g.edges, g.transitions, 0);
  }

  lemma ItIsWellFormed()
    ensures WellFormed(StartedTooEarly())
  {
    ItsShape();
    ItsHistory();
    ItIsBacked();
    hide StartedTooEarly; hide Shape; hide History; hide Produced; hide Reconciled;
  }

  /** A node started before what it requires: no run makes this, and its checkpoint is accepted. */
  lemma OrderIsNotValidated()
    ensures Validated(ItsSnapshot()) == Ok(StartedTooEarly())
    ensures forall ops :: AddsPending(EMPTY, ops) ==> DoAll(EMPTY, ops) != StartedTooEarly()
    ensures !Reachable(StartedTooEarly())
  {
    ItsListing();
    ItsOrder();
    ItIsWellFormed();
    EmptyInv();
    hide Shape; hide History; hide Produced; hide Reconciled; hide Gates; hide MovesInOrder;
    hide ReconciliationsInOrder; hide Whole; hide ByName; hide Validated; hide IsSnapshotOf; hide StartedTooEarly;
    hide ItsSnapshot; hide DoAll; hide LegalRun;
    hide AllOps; hide AddsPending;
    AcceptedIff(ItsSnapshot(), StartedTooEarly());
    WellFormedIsReachableIff(StartedTooEarly());
    forall ops | AddsPending(EMPTY, ops) ensures DoAll(EMPTY, ops) != StartedTooEarly() { RunKeepsInv(EMPTY, ops); }
  }

  // -- Half an interruption, half a settlement ------------------------

  lemma StateSnoc(ts: seq<Transition>, t: Transition, id: string)
    ensures StateAfter(ts + [t], id) == if t.node == id then t.to else StateAfter(ts, id)
  {
    assert (ts + [t])[..|ts|] == ts;
  }

  /** States and checks of a history of three moves. */
  lemma ThreeMoves(t: Transition, u: Transition, v: Transition, id: string)
    ensures
      var ts := [t, u, v];
      && ts[..0] == [] && ts[..1] == [t] && ts[..2] == [t, u] && ts[..3] == ts
      && StateAfter([], id) == Pending && StateAfter([t], id) == (if t.node == id then t.to else Pending)
      && StateAfter([t, u], id) == (if u.node == id then u.to else if t.node == id then t.to else Pending)
      && StateAfter(ts, id)
         == if v.node == id then v.to else if u.node == id then u.to else if t.node == id then t.to else Pending
  {
    assert [] + [t] == [t] && [t] + [u] == [t, u] && [t, u] + [v] == [t, u, v];
    StateSnoc([], t, id);
    StateSnoc([t], u, id);
    StateSnoc([t, u], v, id);
    hide StateAfter;
  }

  /** Two nodes were running, and only one was interrupted. */
  function HalfInterrupted(): Graph {
    Graph(map["x" := Node(Other, RecoveryRequired), "y" := Node(Other, Running)], [], map[],
          [Transition(1, "x", Pending, Running), Transition(2, "y", Pending, Running),
           Transition(3, "x", Running, RecoveryRequired)], [], 4)
  }

  lemma HalfInterruptedHasShape()
    ensures Shape(HalfInterrupted()) && Produced(HalfInterrupted()) && Reconciled(HalfInterrupted())
  {
    HalfInterruptedHasNames();
    HalfInterruptedIsAcyclic();
    hide IsBlank; hide Acyclic;
  }

  lemma HalfInterruptedIsAcyclic()
    ensures Acyclic(HalfInterrupted().edges)
  {
    assert Ranks(HalfInterrupted().edges, map[]);
  }

  lemma HalfInterruptedHasNames()
    ensures forall id :: id in HalfInterrupted().nodes ==> !IsBlank(id)
  {
    assert !IsWhitespace("x"[0]) && !IsWhitespace("y"[0]);
  }

  lemma HalfInterruptedHasHistory()
    ensures History(HalfInterrupted())
  {
    var g := HalfInterrupted();
    var t, u, v := g.transitions[0], g.transitions[1], g.transitions[2];
    ThreeMoves(t, u, v, "x");
    ThreeMoves(t, u, v, "y");
    assert g.transitions == [t, u, v];
    hide StateAfter;
    assert GoodTransition(g, 0) && GoodTransition(g, 1) && GoodTransition(g, 2);
  }

  lemma HalfInterruptedIsWellFormed()
    ensures WellFormed(HalfInterrupted()) && MovesInOrder(HalfInterrupted())
    ensures ReconciliationsInOrder(HalfInterrupted().reconciliations)
  {
    HalfInterruptedHasShape();
    HalfInterruptedHasHistory();
    hide Shape; hide History; hide Produced; hide Reconciled; hide StateAfter;
  }

  lemma HalfInterruptedIsNotWhole()
    ensures !Whole(HalfInterrupted())
  {
    var g := HalfInterrupted();
    var t, u, v := g.transitions[0], g.transitions[1], g.transitions[2];
    ThreeMoves(t, u, v, "y");
    assert g.transitions == [t, u, v];
    hide StateAfter; hide NothingBroken; hide Needed;
    assert StateAfter(g.transitions[..3], "y").Running?;
    assert !WholeAt(g.edges, g.transitions, 2);
  }

  lemma HalfInterruptedGoesByName()
    ensures ByName(HalfInterrupted())
  {
    var g := HalfInterrupted();
    var t, u, v := g.transitions[0], g.transitions[1], g.transitions[2];
    assert g.transitions == [t, u, v];
    forall id | StateAfter(g.transitions[..2], id).Running? ensures !Less(id, "x") {
      ThreeMoves(t, u, v, id);
      assert id == "x" || id == "y";
    }
    hide StateAfter; hide FirstBroken; hide SettledAfter; hide Needed;
    assert FirstRunning(g.transitions[..2], "x");
    forall k: nat, j: nat | k <= j < 3 ensures ByNameAt(g.edges, g.transitions, k, j) {}
  }

  /** Two nodes became unreachable together, and only one was skipped. */
  function HalfSettled(): Graph {
    Graph(map["a" := Node(Other, Failed), "b" := Node(Other, Skipped), "c" := Node(Other, Pending)],
          [Edge("a", "c", Requires), Edge("a", "b", Requires)], map[],
          [Transition(1, "a", Pending, Running), Transition(2, "a", Running, Failed),
           Transition(3, "b", Pending, Skipped)], [], 4)
  }

  lemma HalfSettledHasShape()
    ensures Shape(HalfSettled()) && Produced(HalfSettled()) && Reconciled(HalfSettled())
  {
    HalfSettledHasNames();
    HalfSettledIsAcyclic();
    hide IsBlank; hide Acyclic;
  }

  lemma HalfSettledIsAcyclic()
    ensures Acyclic(HalfSettled().edges)
  {
    assert Ranks(HalfSettled().edges, map["a" := 0, "b" := 1, "c" := 1]);
  }

  lemma HalfSettledHasNames()
    ensures forall id :: id in HalfSettled().nodes ==> !IsBlank(id)
  {
    assert !IsWhitespace("a"[0]) && !IsWhitespace("b"[0]) && !IsWhitespace("c"[0]);
  }

  lemma HalfSettledStates()
    ensures
      var ts := HalfSettled().transitions;
      && StateAfter(ts[..0], "a") == StateAfter(ts[..0], "b") == Pending
      && StateAfter(ts[..1], "a") == Running
      && StateAfter(ts[..2], "a") == Failed && StateAfter(ts[..2], "b") == Pending && ts[..3] == ts
      && StateAfter(ts, "a") == Failed && StateAfter(ts, "b") == Skipped && StateAfter(ts, "c") == Pending
  {
    var ts := HalfSettled().transitions;
    assert ts == [ts[0], ts[1], ts[2]];
    ThreeMoves(ts[0], ts[1], ts[2], "a");
    ThreeMoves(ts[0], ts[1], ts[2], "b");
    ThreeMoves(ts[0], ts[1], ts[2], "c");
    hide StateAfter;
  }

  lemma HalfSettledHasHistory()
    ensures History(HalfSettled())
  {
    var g := HalfSettled();
    HalfSettledStates();
    hide StateAfter;
    assert GoodTransition(g, 0) && GoodTransition(g, 1) && GoodTransition(g, 2);
  }

  lemma HalfSettledMovesInOrder()
    ensures MovesInOrder(HalfSettled())
  {
    var g := HalfSettled();
    HalfSettledStates();
    hide StateAfter;
    assert BrokenBy(g.edges[1], StateAfter(g.transitions[..2], g.edges[1].from));
    assert InOrderAt(g.edges, g.transitions, 0);
    assert InOrderAt(g.edges, g.transitions, 1);
    assert InOrderAt(g.edges, g.transitions, 2);
  }

  lemma HalfSettledIsWellFormed()
    ensures WellFormed(HalfSettled()) && MovesInOrder(HalfSettled())
    ensures ReconciliationsInOrder(HalfSettled().reconciliations)
  {
    HalfSettledHasShape();
    HalfSettledHasHistory();
    HalfSettledMovesInOrder();
    hide Shape; hide History; hide Produced; hide Reconciled; hide MovesInOrder;
  }

  lemma HalfSettledIsNotWhole()
    ensures !Whole(HalfSettled())
  {
    var g := HalfSettled();
    HalfSettledStates();
    hide StateAfter; hide NoneRunning;
    assert g.transitions[..3][2].node == "b";
    assert Needed(g.edges, g.transitions[..3]) == 2 && g.edges[..2] == g.edges;
    assert StateAfter(g.transitions, g.edges[0].to).Pending?;
    assert BrokenBy(g.edges[0], StateAfter(g.transitions, g.edges[0].from));
    assert !NothingBroken(g.edges, g.transitions);
    assert !WholeAt(g.edges, g.transitions, 2);
  }

  lemma HalfSettledGoesByName()
    ensures ByName(HalfSettled())
  {
    var g := HalfSettled();
    forall m: nat | m <= 2 ensures FirstBroken(g.edges[..m], g.transitions[..2], "b") {
      assert !Less("c", "b") && !Less("b", "b");
      hide StateAfter; hide BrokenBy;
    }
    hide StateAfter; hide FirstBroken; hide SettledAfter; hide NothingBroken;
    forall k: nat, j: nat | k <= j < 3 ensures ByNameAt(g.edges, g.transitions, k, j) {}
  }

  /** Neither is made by any run of calls, though both are well formed, so that their checkpoints are accepted,
      respect both orders and go by name. */
  lemma WholenessIsNotValidated()
    ensures
      forall g :: g == HalfInterrupted() || g == HalfSettled() ==>
        && WellFormed(g) && MovesInOrder(g) && ReconciliationsInOrder(g.reconciliations) && ByName(g)
        && !Reachable(g)
  {
    HalfInterruptedGoesByName();
    HalfSettledGoesByName();
    HalfInterruptedIsWellFormed();
    HalfInterruptedIsNotWhole();
    HalfSettledIsWellFormed();
    HalfSettledIsNotWhole();
    hide HalfInterrupted; hide HalfSettled; hide WellFormed; hide Whole; hide ByName; hide MovesInOrder; hide Reachable;
    hide ReconciliationsInOrder;
    WellFormedIsReachableIff(HalfInterrupted());
    WellFormedIsReachableIff(HalfSettled());
  }

  /** Two running nodes were interrupted, the second one by name first. */
  function SecondFirst(): Graph {
    Graph(map["x" := Node(Other, RecoveryRequired), "y" := Node(Other, RecoveryRequired)], [], map[],
          [Transition(1, "x", Pending, Running), Transition(2, "y", Pending, Running),
           Transition(3, "y", Running, RecoveryRequired), Transition(4, "x", Running, RecoveryRequired)], [], 5)
  }

  lemma SecondFirstStates(id: string)
    ensures
      var ts := SecondFirst().transitions;
      && StateAfter(ts[..0], id) == Pending && StateAfter(ts[..1], id) == (if id == "x" then Running else Pending)
      && StateAfter(ts[..2], id) == (if id == "x" || id == "y" then Running else Pending)
      && StateAfter(ts[..3], id) == (if id == "x" then Running else if id == "y" then RecoveryRequired else Pending)
      && ts[..4] == ts && StateAfter(ts, id) == (if id == "x" || id == "y" then RecoveryRequired else Pending)
  {
    var ts := SecondFirst().transitions;
    var t, u, v, w := ts[0], ts[1], ts[2], ts[3];
    ThreeMoves(t, u, v, id);
    StateSnoc([t, u, v], w, id);
    assert ts == [t, u, v] + [w];
    assert ts[..0] == [] && ts[..1] == [t] && ts[..2] == [t, u] && ts[..3] == [t, u, v];
    hide StateAfter;
  }

  lemma SecondFirstHasShape()
    ensures Shape(SecondFirst()) && Produced(SecondFirst()) && Reconciled(SecondFirst())
  {
    assert Ranks(SecondFirst().edges, map[]);
    assert !IsWhitespace("x"[0]) && !IsWhitespace("y"[0]);
  }

  lemma SecondFirstHasHistory()
    ensures History(SecondFirst())
  {
    var g := SecondFirst();
    SecondFirstStates("x");
    SecondFirstStates("y");
    hide StateAfter;
    assert GoodTransition(g, 0) && GoodTransition(g, 1) && GoodTransition(g, 2) && GoodTransition(g, 3);
  }

  lemma SecondFirstIsWhole()
    ensures Whole(SecondFirst())
  {
    var g := SecondFirst();
    forall id ensures !StateAfter(g.transitions, id).Running? { SecondFirstStates(id); }
    hide StateAfter;
    assert g.transitions[..4] == g.transitions;
    assert WholeAt(g.edges, g.transitions, 0) && WholeAt(g.edges, g.transitions, 1);
    assert WholeAt(g.edges, g.transitions, 2) && WholeAt(g.edges, g.transitions, 3);
  }

  lemma SecondFirstIsWellFormed()
    ensures WellFormed(SecondFirst()) && MovesInOrder(SecondFirst())
    ensures ReconciliationsInOrder(SecondFirst().reconciliations)
  {
    SecondFirstHasShape();
    SecondFirstHasHistory();
    hide Shape; hide History; hide Produced; hide Reconciled; hide StateAfter;
  }

  lemma SecondFirstIsNotByName()
    ensures !ByName(SecondFirst())
  {
    var g := SecondFirst();
    SecondFirstStates("x");
    hide StateAfter;
    assert Less("x", "y");
    assert StateAfter(g.transitions[..2], "x").Running? && g.transitions[2].node == "y";
    assert !ByNameAt(g.edges, g.transitions, 2, 2);
  }

  /** Well formed, in both orders and in whole blocks, and still made by no run: interruptions go by name. */
  lemma NamesAreNotValidated()
    ensures
      var g := SecondFirst();
      && WellFormed(g) && MovesInOrder(g) && ReconciliationsInOrder(g.reconciliations) && Whole(g)
      && !Reachable(g)
  {
    SecondFirstIsWellFormed();
    SecondFirstIsWhole();
    SecondFirstIsNotByName();
    hide SecondFirst; hide WellFormed; hide Whole; hide ByName; hide MovesInOrder; hide Reachable;
    hide ReconciliationsInOrder;
    WellFormedIsReachableIff(SecondFirst());
  }

  function Swapped(rs: seq<Reconciliation>, i: nat, j: nat): seq<Reconciliation>
    requires i < j < |rs|
  {
    rs[i := rs[j]][j := rs[i]]
  }

  lemma SwappedIsCovered(ts: seq<Transition>, rs: seq<Reconciliation>, i: nat, j: nat)
    requires Covered(ts, rs) && i < j < |rs|
    ensures Covered(ts, Swapped(rs, i, j))
  {
    forall k | 0 <= k < |ts| && ts[k].from.RecoveryRequired?
      ensures exists x :: 0 <= x < |rs| && Swapped(rs, i, j)[x].sequence == k + 1
    {
      var x :| 0 <= x < |rs| && rs[x].sequence == k + 1;
      var y := if x == i then j else if x == j then i else x;
      assert Swapped(rs, i, j)[y].sequence == k + 1;
    }
  }

  lemma SwappedIsGood(ts: seq<Transition>, rs: seq<Reconciliation>, i: nat, j: nat)
    requires AllGood(ts, rs) && i < j < |rs|
    ensures AllGood(ts, Swapped(rs, i, j))
  {
    hide GoodReconciliation;
  }

  lemma SwappedIsDistinct(rs: seq<Reconciliation>, i: nat, j: nat)
    requires DistinctSequences(rs) && i < j < |rs|
    ensures DistinctSequences(Swapped(rs, i, j))
  {
  }

  lemma SameBesides(g: Graph, h: Graph)
    requires Shape(g) && History(g) && Produced(g) && h == g.(reconciliations := h.reconciliations)
    ensures Shape(h) && History(h) && Produced(h)
  {
    ShapeByKinds(g, h);
    HistoryFrame(g, h);
    hide Shape; hide History;
  }

  lemma SwappedIsWellFormed(g: Graph, i: nat, j: nat)
    requires WellFormed(g) && i < j < |g.reconciliations|
    ensures WellFormed(g.(reconciliations := Swapped(g.reconciliations, i, j)))
  {
    var h := g.(reconciliations := Swapped(g.reconciliations, i, j));
    hide Swapped; hide AllGood; hide Covered; hide DistinctSequences; hide Shape; hide History; hide Produced;
    SameBesides(g, h);
    SwappedIsGood(g.transitions, g.reconciliations, i, j);
    SwappedIsDistinct(g.reconciliations, i, j);
    SwappedIsCovered(g.transitions, g.reconciliations, i, j);
  }

  lemma SwappedIsOutOfOrder(rs: seq<Reconciliation>, i: nat, j: nat)
    requires ReconciliationsInOrder(rs) && i < j < |rs|
    ensures !ReconciliationsInOrder(Swapped(rs, i, j))
  {
    assert Swapped(rs, i, j)[i].sequence > Swapped(rs, i, j)[j].sequence;
  }

  /** Two reconciliations swapped in the list: as well formed as before, and made by no run. */
  lemma ListOrderIsNotValidated(g: Graph, i: nat, j: nat)
    requires ReachableFresh(g) && i < j < |g.reconciliations|
    ensures
      var h := g.(reconciliations := Swapped(g.reconciliations, i, j));
      WellFormed(h) && !ReachableFresh(h)
  {
    var h := g.(reconciliations := Swapped(g.reconciliations, i, j));
    ReachableIff(g);
    ReachableIff(h);
    hide ReachableFresh; hide WellFormed; hide MovesInOrder; hide ReconciliationsInOrder; hide Swapped; hide Whole;
    hide ByName;
    SwappedIsWellFormed(g, i, j);
    SwappedIsOutOfOrder(g.reconciliations, i, j);
  }
}
