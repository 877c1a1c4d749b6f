/** The calls of the execution graph's interface as runs of single moves, and what these calls keep together
    (zhongshu-core/src/agent/execution_graph.rs:320-632, 661-694). */
module GraphCalls {
  import opened GraphPaths
  import opened ExecutionGraph
  import opened GraphLaws
  import opened Names

  predicate Settled(g: Graph) { forall id :: id in g.nodes ==> !Unreachable(g, id) }

  function UnreachableNodes(g: Graph): set<string> { set id | id in g.nodes && Unreachable(g, id) }

  function RunningNodes(g: Graph): set<string> { set id | id in g.nodes && g.nodes[id].state.Running? }

  /** Skips and interruptions are not calls of their own: settling skips until no node is unreachable, and
      recovery interrupts all that is running and then settles. The lists say which nodes these are. */
  datatype Call =
    | Plain(op: Op)
    | Settle(skips: seq<string>)
    | Recover(interrupts: seq<string>, skips: seq<string>)

  function Skips(ids: seq<string>): seq<Op> { if ids == [] then [] else [OpSkip(ids[0])] + Skips(ids[1..]) }

  function Interrupts(ids: seq<string>): seq<Op> {
    if ids == [] then [] else [OpInterrupt(ids[0])] + Interrupts(ids[1..])
  }

  function OpsOf(c: Call): seq<Op> {
    match c
    case Plain(op) => [op]
    case Settle(skips) => Skips(skips)
    case Recover(interrupts, skips) => Interrupts(interrupts) + Skips(skips)
  }

  function AllOps(calls: seq<Call>): seq<Op> {
    if calls == [] then [] else OpsOf(calls[0]) + AllOps(calls[1..])
  }

  /** Skips and interruptions go by the names of the nodes. */
  predicate Takes(g: Graph, op: Op) {
    match op
    case OpSkip(id) => FirstOf(UnreachableNodes(g), id)
    case OpInterrupt(id) => FirstOf(RunningNodes(g), id)
    case _ => true
  }

  ghost predicate InTurn(g: Graph, ops: seq<Op>)
    decreases |ops|
  {
    ops == [] || (Takes(g, ops[0]) && InTurn(Do(g, ops[0]), ops[1..]))
  }

  /** The call can go this way. Recovery starts from a checkpoint that is accepted, and leaves nothing
      running and nothing unreachable. */
  ghost predicate Legal(g: Graph, c: Call) {
    match c
    case Plain(op) => !op.OpSkip? && !op.OpInterrupt?
    case Settle(_) => InTurn(g, OpsOf(c)) && Settled(DoAll(g, OpsOf(c)))
    case Recover(interrupts, _) =>
      && WellFormed(g) && InTurn(g, OpsOf(c))
      && RunningNodes(DoAll(g, Interrupts(interrupts))) == {} && Settled(DoAll(g, OpsOf(c)))
  }

  ghost predicate LegalRun(g: Graph, calls: seq<Call>)
    decreases |calls|
  {
    calls == [] || (Legal(g, calls[0]) && LegalRun(DoAll(g, OpsOf(calls[0])), calls[1..]))
  }

  // -- Runs put together ----------------------------------------------

  lemma NothingDone(g: Graph)
    ensures DoAll(g, []) == g
  {
  }

  lemma OneDone(g: Graph, op: Op)
    ensures DoAll(g, [op]) == Do(g, op)
  {
    hide Do;
    assert [op][1..] == [];
  }

  lemma {:induction false} DoAllConcat(g: Graph, a: seq<Op>, b: seq<Op>)
    ensures DoAll(g, a + b) == DoAll(DoAll(g, a), b)
    decreases |a|
  {
    hide Do;
    if a == [] {
      assert a + b == b;
    } else {
      assert (a + b)[1..] == a[1..] + b;
      DoAllConcat(Do(g, a[0]), a[1..], b);
    }
  }

  lemma DoAllSnoc(g: Graph, ops: seq<Op>, op: Op)
    ensures DoAll(g, ops + [op]) == Do(DoAll(g, ops), op)
  {
    DoAllConcat(g, ops, [op]);
    OneDone(DoAll(g, ops), op);
  }

  lemma {:induction false} InTurnConcat(g: Graph, a: seq<Op>, b: seq<Op>)
    ensures InTurn(g, a + b) <==> InTurn(g, a) && InTurn(DoAll(g, a), b)
    decreases |a|
  {
    hide Do; hide Takes;
    if a == [] {
      assert a + b == b;
    } else {
      assert (a + b)[1..] == a[1..] + b;
      InTurnConcat(Do(g, a[0]), a[1..], b);
    }
  }

  lemma InTurnOne(g: Graph, op: Op)
    ensures InTurn(g, [op]) <==> Takes(g, op)
  {
    hide Do; hide Takes;
    assert [op][1..] == [];
  }

  lemma InTurnSnoc(g: Graph, ops: seq<Op>, op: Op)
    requires InTurn(g, ops) && Takes(DoAll(g, ops), op)
    ensures InTurn(g, ops + [op])
  {
    hide *;
    InTurnOne(DoAll(g, ops), op);
    InTurnConcat(g, ops, [op]);
  }

  lemma NothingInTurn(g: Graph)
    ensures InTurn(g, [])
  {
  }

  lemma {:induction false} AddsPendingConcat(g: Graph, a: seq<Op>, b: seq<Op>)
    ensures AddsPending(g, a + b) <==> AddsPending(g, a) && AddsPending(DoAll(g, a), b)
    decreases |a|
  {
    hide Do; hide AddNode;
    if a == [] {
      assert a + b == b;
    } else {
      assert (a + b)[1..] == a[1..] + b;
      AddsPendingConcat(Do(g, a[0]), a[1..], b);
    }
  }

  lemma {:induction false} AllOpsConcat(a: seq<Call>, b: seq<Call>)
    ensures AllOps(a + b) == AllOps(a) + AllOps(b)
  {
    hide OpsOf;
    if a == [] {
      assert a + b == b;
    } else {
      assert (a + b)[1..] == a[1..] + b;
      AllOpsConcat(a[1..], b);
    }
  }

  lemma OneCall(c: Call)
    ensures AllOps([c]) == OpsOf(c)
  {
    hide OpsOf;
    assert [c][1..] == [] && OpsOf(c) + [] == OpsOf(c);
  }

  lemma {:induction false} SkipsSnoc(ids: seq<string>, id: string)
    ensures Skips(ids + [id]) == Skips(ids) + [OpSkip(id)]
  {
    if ids == [] {
      assert ids + [id] == [id] && [id][1..] == [];
    } else {
      assert (ids + [id])[1..] == ids[1..] + [id];
      SkipsSnoc(ids[1..], id);
    }
  }

  lemma {:induction false} InterruptsSnoc(ids: seq<string>, id: string)
    ensures Interrupts(ids + [id]) == Interrupts(ids) + [OpInterrupt(id)]
  {
    if ids == [] {
      assert ids + [id] == [id] && [id][1..] == [];
    } else {
      assert (ids + [id])[1..] == ids[1..] + [id];
      InterruptsSnoc(ids[1..], id);
    }
  }

  lemma {:induction false} LegalRunConcat(g: Graph, a: seq<Call>, b: seq<Call>)
    ensures LegalRun(g, a + b) <==> LegalRun(g, a) && LegalRun(DoAll(g, AllOps(a)), b)
    decreases |a|
  {
    hide Legal; hide OpsOf;
    if a == [] {
      assert a + b == b;
    } else {
      assert (a + b)[1..] == a[1..] + b;
      DoAllConcat(g, OpsOf(a[0]), AllOps(a[1..]));
      hide DoAll;
      LegalRunConcat(DoAll(g, OpsOf(a[0])), a[1..], b);
    }
  }

  lemma LegalOne(g: Graph, c: Call)
    ensures LegalRun(g, [c]) <==> Legal(g, c)
  {
    hide Legal; hide DoAll;
    assert [c][1..] == [];
  }

  /** The calls lead from one graph to the other, and add no nodes. */
  ghost predicate Runs(g: Graph, calls: seq<Call>, h: Graph) {
    LegalRun(g, calls) && DoAll(g, AllOps(calls)) == h && NoAdds(AllOps(calls))
  }

  lemma RunsNothing(g: Graph)
    ensures Runs(g, [], g)
  {
  }

  lemma RunsOne(g: Graph, c: Call)
    requires Legal(g, c) && NoAdds(OpsOf(c))
    ensures Runs(g, [c], DoAll(g, OpsOf(c)))
  {
    hide Legal; hide DoAll; hide OpsOf; hide LegalRun; hide AllOps;
    LegalOne(g, c);
    OneCall(c);
  }

  lemma RunsPlain(g: Graph, op: Op)
    requires !op.OpSkip? && !op.OpInterrupt? && !op.OpAddNode?
    ensures Runs(g, [Plain(op)], Do(g, op))
  {
    hide Do; hide Runs; hide DoAll;
    RunsOne(g, Plain(op));
    OneDone(g, op);
  }

  lemma RunsConcat(g: Graph, a: seq<Call>, m: Graph, b: seq<Call>, h: Graph)
    requires Runs(g, a, m) && Runs(m, b, h)
    ensures Runs(g, a + b, h)
  {
    hide LegalRun; hide DoAll; hide AllOps;
    LegalRunConcat(g, a, b);
    AllOpsConcat(a, b);
    DoAllConcat(g, AllOps(a), AllOps(b));
  }

  lemma RunsKeep(g: Graph, calls: seq<Call>, h: Graph)
    requires Runs(g, calls, h)
    ensures WellFormed(g) ==> WellFormed(h)
    ensures Inv(g) ==> Inv(h)
  {
    hide WellFormed; hide Inv; hide LegalRun; hide DoAll; hide AllOps; hide NoAdds;
    ExistingNodesKeep(g, AllOps(calls));
  }

  // -- Blocks of moves ------------------------------------------------

  predicate Touched(ts: seq<Transition>, id: string) { exists i :: 0 <= i < |ts| && ts[i].node == id }

  /** The edges up to the last one that leads into a node which has moved. Edges lead into pending nodes when
      they are added, and are added in order, so all of these were there before the moves. */
  function Needed(edges: seq<Edge>, ts: seq<Transition>): (m: nat)
    ensures m <= |edges|
  {
    if edges == [] then 0
    else if Touched(ts, edges[|edges| - 1].to) then |edges|
    else Needed(edges[..|edges| - 1], ts)
  }

  ghost predicate NoneRunning(ts: seq<Transition>) { forall id :: !StateAfter(ts, id).Running? }

  /** No pending node has a dependency that is broken. */
  predicate NothingBroken(edges: seq<Edge>, ts: seq<Transition>) {
    forall i :: 0 <= i < |edges| && StateAfter(ts, edges[i].to).Pending? ==>
      !BrokenBy(edges[i], StateAfter(ts, edges[i].from))
  }

  /** Nothing is unreachable after `n` moves, along the edges that must have been there. */
  predicate SettledAfter(edges: seq<Edge>, ts: seq<Transition>, n: nat)
    requires n <= |ts|
  {
    NothingBroken(edges[..Needed(edges, ts[..n])], ts[..n])
  }

  /** One call can make both moves, one after the other. */
  predicate Joined(a: Transition, b: Transition) {
    (a.to.Skipped? && b.to.Skipped?) || (a.to.RecoveryRequired? && (b.to.RecoveryRequired? || b.to.Skipped?))
  }

  predicate EndsBlock(ts: seq<Transition>, k: nat)
    requires k < |ts|
  {
    k + 1 == |ts| || !Joined(ts[k], ts[k + 1])
  }

  /** The last of several interruptions leaves nothing running, and the last move of a block of interruptions
      and skips leaves nothing unreachable. */
  ghost predicate WholeAt(edges: seq<Edge>, ts: seq<Transition>, k: nat)
    requires k < |ts|
  {
    && (ts[k].to.RecoveryRequired? && (k + 1 == |ts| || !ts[k + 1].to.RecoveryRequired?) ==> NoneRunning(ts[..k + 1]))
    && ((ts[k].to.RecoveryRequired? || ts[k].to.Skipped?) && EndsBlock(ts, k) ==> SettledAfter(edges, ts, k + 1))
  }

  ghost predicate BlocksAreWhole(edges: seq<Edge>, ts: seq<Transition>) {
    forall k: nat | k < |ts| :: WholeAt(edges, ts, k)
  }

  ghost predicate Whole(g: Graph) { BlocksAreWhole(g.edges, g.transitions) }

  // -- Blocks go by name ----------------------------------------------

  /** Nothing that is running comes before the node by name. */
  ghost predicate FirstRunning(ts: seq<Transition>, id: string) {
    forall x :: StateAfter(ts, x).Running? ==> !Less(x, id)
  }

  /** No pending node with a broken dependency comes before the node by name. */
  predicate FirstBroken(edges: seq<Edge>, ts: seq<Transition>, id: string) {
    forall i :: 0 <= i < |edges| && StateAfter(ts, edges[i].to).Pending? ==>
      BrokenBy(edges[i], StateAfter(ts, edges[i].from)) ==> !Less(edges[i].to, id)
  }

  /** The moves from `k` to `j` are skips, and only one call can have made them all: something was still
      unreachable after each but the last. */
  predicate OneSettlement(edges: seq<Edge>, ts: seq<Transition>, k: nat, j: nat)
    requires k <= j < |ts|
  {
    && (forall i :: k <= i <= j ==> ts[i].to.Skipped?)
    && forall n: nat :: k < n <= j ==> !SettledAfter(edges, ts, n)
  }

  /** An interruption takes the first running node, and a skip the first unreachable one, along the edges that
      must have been there for the moves up to `j` of the same call. */
  ghost predicate ByNameAt(edges: seq<Edge>, ts: seq<Transition>, k: nat, j: nat)
    requires k <= j < |ts|
  {
    && (ts[k].to.RecoveryRequired? ==> FirstRunning(ts[..k], ts[k].node))
    && (OneSettlement(edges, ts, k, j) ==>
          FirstBroken(edges[..Needed(edges, ts[..j + 1])], ts[..k], ts[k].node))
  }

  ghost predicate GoesByName(edges: seq<Edge>, ts: seq<Transition>) {
    forall k: nat, j: nat | k <= j < |ts| :: ByNameAt(edges, ts, k, j)
  }

  ghost predicate ByName(g: Graph) { GoesByName(g.edges, g.transitions) }

  // -- Every call leaves whole blocks ---------------------------------

  lemma WholeStays(edges: seq<Edge>, ts: seq<Transition>, more: seq<Transition>, k: nat)
    requires k < |ts| && ts <= more && WholeAt(edges, ts, k)
    ensures WholeAt(edges, more, k)
  {
    hide NoneRunning; hide NothingBroken; hide Needed;
    assert more[..k + 1] == ts[..k + 1];
  }

  lemma WholeExtends(edges: seq<Edge>, ts: seq<Transition>, more: seq<Transition>)
    requires BlocksAreWhole(edges, ts) && ts <= more
    requires forall k: nat | |ts| <= k < |more| :: WholeAt(edges, more, k)
    ensures BlocksAreWhole(edges, more)
  {
    hide WholeAt;
    forall k: nat | k < |more| ensures WholeAt(edges, more, k) {
      if k < |ts| { WholeStays(edges, ts, more, k); }
    }
  }

  lemma EdgeNotNeeded(edges: seq<Edge>, e: Edge, ts: seq<Transition>)
    requires !Touched(ts, e.to)
    ensures Needed(edges + [e], ts) == Needed(edges, ts)
  {
    hide Touched;
    assert (edges + [e])[..|edges|] == edges;
  }

  lemma WholeWithEdge(edges: seq<Edge>, e: Edge, ts: seq<Transition>)
    requires BlocksAreWhole(edges, ts) && !Touched(ts, e.to)
    ensures BlocksAreWhole(edges + [e], ts)
  {
    forall k: nat | k < |ts| ensures WholeAt(edges + [e], ts, k) {
      assert WholeAt(edges, ts, k);
      var earlier := ts[..k + 1];
      forall i | 0 <= i < |earlier| ensures earlier[i].node != e.to { assert ts[i] == earlier[i]; }
      EdgeNotNeeded(edges, e, earlier);
      hide NoneRunning; hide NothingBroken; hide Needed; hide Touched;
      assert (edges + [e])[..Needed(edges, ts[..k + 1])] == edges[..Needed(edges, ts[..k + 1])];
    }
  }

  lemma PendingIsUntouchedBy(g: Graph, id: string)
    requires History(g) && id in g.nodes && g.nodes[id].state.Pending?
    ensures !Touched(g.transitions, id)
  {
    forall k: nat | k < |g.transitions| ensures g.transitions[k].node != id { PendingIsUntouched(g, id, k); }
  }

  lemma NowNoneRunning(g: Graph)
    requires History(g) && RunningNodes(g) == {}
    ensures NoneRunning(g.transitions)
  {
    hide GoodTransition; hide StateAfter;
    forall id ensures !StateAfter(g.transitions, id).Running? {
      if id in g.nodes {
        assert id !in RunningNodes(g);
      } else {
        assert forall i :: 0 <= i < |g.transitions| ==> g.transitions[i].node != id;
        Untouched(g.transitions, id);
      }
    }
  }

  lemma NowNothingBroken(g: Graph, m: nat)
    requires Shape(g) && History(g) && Settled(g) && m <= |g.edges|
    ensures NothingBroken(g.edges[..m], g.transitions)
  {
    hide GoodTransition; hide StateAfter; hide Acyclic;
    forall i | 0 <= i < m && StateAfter(g.transitions, g.edges[i].to).Pending?
      ensures !BrokenBy(g.edges[i], StateAfter(g.transitions, g.edges[i].from))
    {
      assert !Unreachable(g, g.edges[i].to);
      assert !Broken(g, g.edges[i]);
    }
  }

  /** Only moves into this state are added, and no edges. */
  predicate Appends(g: Graph, h: Graph, to: NodeState) {
    && h.edges == g.edges && g.transitions <= h.transitions
    && forall k :: |g.transitions| <= k < |h.transitions| ==> h.transitions[k].to == to
  }

  lemma {:induction false} SkipsAppend(g: Graph, ids: seq<string>)
    ensures Appends(g, DoAll(g, Skips(ids)), Skipped) && NoAdds(Skips(ids))
    decreases |ids|
  {
    hide Unreachable;
    if ids != [] {
      var next := Do(g, OpSkip(ids[0]));
      assert Appends(g, next, Skipped);
      assert Skips(ids)[1..] == Skips(ids[1..]);
      hide Do;
      SkipsAppend(next, ids[1..]);
    }
  }

  lemma {:induction false} InterruptsAppend(g: Graph, ids: seq<string>)
    ensures Appends(g, DoAll(g, Interrupts(ids)), RecoveryRequired) && NoAdds(Interrupts(ids))
    decreases |ids|
  {
    if ids != [] {
      var next := Do(g, OpInterrupt(ids[0]));
      assert Appends(g, next, RecoveryRequired);
      assert Interrupts(ids)[1..] == Interrupts(ids[1..]);
      hide Do;
      InterruptsAppend(next, ids[1..]);
    }
  }

  lemma SkipsAreWhole(g: Graph, h: Graph)
    requires Whole(g) && Appends(g, h, Skipped) && WellFormed(h) && Settled(h)
    ensures Whole(h)
  {
    hide Shape; hide History; hide Produced; hide Reconciled; hide Settled;
    var ts := h.transitions;
    forall k: nat | |g.transitions| <= k < |ts| ensures WholeAt(h.edges, ts, k) {
      hide NoneRunning; hide NothingBroken; hide Needed;
      if k + 1 == |ts| {
        assert ts[..k + 1] == ts;
        NowNothingBroken(h, Needed(h.edges, ts));
      }
    }
    hide WholeAt;
    WholeExtends(g.edges, g.transitions, ts);
  }

  lemma InterruptionsAreWhole(g: Graph, m: Graph, h: Graph)
    requires Whole(g) && Appends(g, m, RecoveryRequired) && Appends(m, h, Skipped)
    requires WellFormed(m) && RunningNodes(m) == {} && WellFormed(h) && Settled(h)
    ensures Whole(h)
  {
    hide Shape; hide History; hide Produced; hide Reconciled; hide Settled; hide RunningNodes;
    var ts, n := h.transitions, |m.transitions|;
    assert ts[..n] == m.transitions;
    forall k: nat | |g.transitions| <= k < |ts| ensures WholeAt(h.edges, ts, k) {
      if k < n { assert ts[k] == m.transitions[k]; }
      if k + 1 == n { NowNoneRunning(m); }
      hide NoneRunning; hide NothingBroken; hide Needed;
      if k + 1 == |ts| {
        assert ts[..k + 1] == ts;
        NowNothingBroken(h, Needed(h.edges, ts));
      } else if k + 1 < n {
        assert ts[k + 1] == m.transitions[k + 1];
      }
    }
    hide WholeAt;
    WholeExtends(g.edges, g.transitions, ts);
  }

  lemma PlainIsWhole(g: Graph, op: Op)
    requires WellFormed(g) && Whole(g) && !op.OpSkip? && !op.OpInterrupt?
    ensures Whole(Do(g, op))
  {
    hide Shape; hide Produced; hide Reconciled;
    var h := Do(g, op);
    if op.OpAddNode? {
      hide BlocksAreWhole; hide History;
    } else if op.OpAddEdge? {
      hide Reaches; hide Linked; hide History; hide BlocksAreWhole; hide Touched;
      if AddEdge(g, op.edge).Ok? {
        PendingIsUntouchedBy(g, op.edge.to);
        WholeWithEdge(g.edges, op.edge, g.transitions);
      }
    } else {
      PlainAppends(g, op);
      hide Do; hide History;
      forall k: nat | |g.transitions| <= k < |h.transitions| ensures WholeAt(h.edges, h.transitions, k) {}
      hide WholeAt;
      WholeExtends(g.edges, g.transitions, h.transitions);
    }
  }

  /** The other operations add at most one move, and never a skip or an interruption. */
  lemma PlainAppends(g: Graph, op: Op)
    requires !op.OpAddNode? && !op.OpAddEdge? && !op.OpSkip? && !op.OpInterrupt?
    ensures
      var h := Do(g, op);
      && h.edges == g.edges && g.transitions <= h.transitions
      && forall k :: |g.transitions| <= k < |h.transitions| ==>
           !h.transitions[k].to.Skipped? && !h.transitions[k].to.RecoveryRequired?
  {
    hide Insert; hide CheckArtifacts; hide HasEvidence; hide Ready;
  }

  lemma CallIsWhole(g: Graph, c: Call)
    requires WellFormed(g) && Whole(g) && Legal(g, c) && AddsPending(g, OpsOf(c))
    ensures WellFormed(DoAll(g, OpsOf(c))) && Whole(DoAll(g, OpsOf(c)))
  {
    hide WellFormed; hide Whole; hide Settled; hide RunningNodes; hide AddsPending; hide Appends;
    RunKeepsWellFormed(g, OpsOf(c));
    match c
    case Plain(op) =>
      OneDone(g, op);
      hide DoAll;
      PlainIsWhole(g, op);
    case Settle(skips) =>
      hide DoAll;
      SkipsAppend(g, skips);
      SkipsAreWhole(g, DoAll(g, Skips(skips)));
    case Recover(interrupts, skips) =>
      hide DoAll;
      var m := DoAll(g, Interrupts(interrupts));
      DoAllConcat(g, Interrupts(interrupts), Skips(skips));
      InterruptsAppend(g, interrupts);
      SkipsAppend(m, skips);
      ExistingNodesKeep(g, Interrupts(interrupts));
      InterruptionsAreWhole(g, m, DoAll(m, Skips(skips)));
  }

  // -- Every call goes by name ----------------------------------------

  /** The move takes the first node that it can take along any edges that may have been there. */
  ghost predicate TakesFirst(edges: seq<Edge>, ts: seq<Transition>, k: nat)
    requires k < |ts|
  {
    && (ts[k].to.RecoveryRequired? ==> FirstRunning(ts[..k], ts[k].node))
    && (ts[k].to.Skipped? ==> forall m: nat | m <= |edges| :: FirstBroken(edges[..m], ts[..k], ts[k].node))
  }

  lemma ByNameStays(edges: seq<Edge>, ts: seq<Transition>, more: seq<Transition>, k: nat, j: nat)
    requires k <= j < |ts| && ts <= more && ByNameAt(edges, ts, k, j)
    ensures ByNameAt(edges, more, k, j)
  {
    hide FirstRunning; hide FirstBroken; hide NothingBroken; hide Needed;
    assert forall i: nat :: i <= j + 1 ==> more[..i] == ts[..i];
    forall n: nat | k < n <= j ensures SettledAfter(edges, more, n) == SettledAfter(edges, ts, n) {
      assert more[..n] == ts[..n];
    }
  }

  /** The last block was whole, so what follows is another call. */
  lemma NotTheSameSettlement(edges: seq<Edge>, ts: seq<Transition>, more: seq<Transition>, k: nat, j: nat)
    requires BlocksAreWhole(edges, ts) && ts <= more && k < |ts| <= j < |more|
    ensures !OneSettlement(edges, more, k, j)
  {
    hide NoneRunning; hide NothingBroken; hide Needed;
    var i := |ts| - 1;
    assert more[..|ts|] == ts && ts[..|ts|] == ts && more[i] == ts[i];
    assert WholeAt(edges, ts, i);
    assert SettledAfter(edges, more, |ts|) == SettledAfter(edges, ts, |ts|);
  }

  lemma ByNameExtends(edges: seq<Edge>, ts: seq<Transition>, more: seq<Transition>)
    requires BlocksAreWhole(edges, ts) && GoesByName(edges, ts) && ts <= more
    requires forall k: nat | |ts| <= k < |more| :: TakesFirst(edges, more, k)
    ensures GoesByName(edges, more)
  {
    hide FirstRunning; hide FirstBroken; hide NothingBroken; hide Needed; hide BlocksAreWhole;
    forall k: nat, j: nat | k <= j < |more| ensures ByNameAt(edges, more, k, j) {
      if j < |ts| {
        assert ByNameAt(edges, ts, k, j);
        ByNameStays(edges, ts, more, k, j);
      } else if k < |ts| {
        assert ByNameAt(edges, ts, k, k);
        ByNameStays(edges, ts, more, k, k);
        NotTheSameSettlement(edges, ts, more, k, j);
      } else {
        assert TakesFirst(edges, more, k);
      }
    }
  }

  lemma NeededWithEdge(edges: seq<Edge>, e: Edge, ts: seq<Transition>, n: nat)
    requires !Touched(ts, e.to) && n <= |ts|
    ensures
      (edges + [e])[..Needed(edges + [e], ts[..n])] == edges[..Needed(edges, ts[..n])]
  {
    forall i | 0 <= i < |ts[..n]| ensures ts[..n][i].node != e.to { assert ts[i] == ts[..n][i]; }
    EdgeNotNeeded(edges, e, ts[..n]);
  }

  lemma ByNameWithEdge(edges: seq<Edge>, e: Edge, ts: seq<Transition>)
    requires GoesByName(edges, ts) && !Touched(ts, e.to)
    ensures GoesByName(edges + [e], ts)
  {
    hide FirstRunning; hide FirstBroken; hide NothingBroken; hide Needed; hide Touched;
    forall k: nat, j: nat | k <= j < |ts| ensures ByNameAt(edges + [e], ts, k, j) {
      assert ByNameAt(edges, ts, k, j);
      NeededWithEdge(edges, e, ts, j + 1);
      forall n: nat | k < n <= j ensures SettledAfter(edges + [e], ts, n) == SettledAfter(edges, ts, n) {
        NeededWithEdge(edges, e, ts, n);
      }
    }
  }

  lemma NowFirstRunning(g: Graph, id: string)
    requires History(g) && FirstOf(RunningNodes(g), id)
    ensures FirstRunning(g.transitions, id)
  {
    hide GoodTransition; hide StateAfter; hide Less;
    forall x | StateAfter(g.transitions, x).Running? ensures !Less(x, id) {
      if x in g.nodes {
        assert x in RunningNodes(g);
        LessIsStrict(id, x);
        LessIsStrict(x, id);
      } else {
        assert forall i :: 0 <= i < |g.transitions| ==> g.transitions[i].node != x;
        Untouched(g.transitions, x);
      }
    }
  }

  lemma NowFirstBroken(g: Graph, id: string, m: nat)
    requires Shape(g) && History(g) && FirstOf(UnreachableNodes(g), id) && m <= |g.edges|
    ensures FirstBroken(g.edges[..m], g.transitions, id)
  {
    hide GoodTransition; hide StateAfter; hide Acyclic; hide Less;
    forall i | 0 <= i < m && StateAfter(g.transitions, g.edges[i].to).Pending?
               && BrokenBy(g.edges[i], StateAfter(g.transitions, g.edges[i].from))
      ensures !Less(g.edges[i].to, id)
    {
      assert Broken(g, g.edges[i]);
      assert g.edges[i].to in UnreachableNodes(g);
      LessIsStrict(id, g.edges[i].to);
      LessIsStrict(g.edges[i].to, id);
    }
  }

  predicate IsBlockOp(op: Op) { op.OpSkip? || op.OpInterrupt? }

  lemma FirstMoveTakesFirst(g: Graph, op: Op)
    requires Shape(g) && History(g) && IsBlockOp(op) && Takes(g, op)
    ensures
      var h := Do(g, op);
      && h.edges == g.edges && |h.transitions| == |g.transitions| + 1 && g.transitions <= h.transitions
      && TakesFirst(h.edges, h.transitions, |g.transitions|)
  {
    hide Shape; hide History; hide FirstRunning; hide FirstBroken; hide Less;
    var h := Do(g, op);
    if op.OpSkip? {
      assert op.id in UnreachableNodes(g);
      forall m: nat | m <= |g.edges| ensures FirstBroken(g.edges[..m], g.transitions, op.id) {
        NowFirstBroken(g, op.id, m);
      }
    } else {
      assert op.id in RunningNodes(g);
      NowFirstRunning(g, op.id);
    }
    assert h.transitions[..|g.transitions|] == g.transitions;
  }

  lemma TakesFirstStays(edges: seq<Edge>, ts: seq<Transition>, more: seq<Transition>, k: nat)
    requires k < |ts| && ts <= more && TakesFirst(edges, ts, k)
    ensures TakesFirst(edges, more, k)
  {
    hide FirstRunning; hide FirstBroken;
    assert more[..k] == ts[..k];
  }

  lemma AllTakeFirst(edges: seq<Edge>, ts: seq<Transition>, next: seq<Transition>, more: seq<Transition>)
    requires ts <= next <= more && |next| == |ts| + 1 && TakesFirst(edges, next, |ts|)
    requires forall k: nat | |next| <= k < |more| :: TakesFirst(edges, more, k)
    ensures forall k: nat | |ts| <= k < |more| :: TakesFirst(edges, more, k)
  {
    hide TakesFirst;
    TakesFirstStays(edges, next, more, |ts|);
  }

  lemma {:induction false} InTurnTakesFirst(g: Graph, ops: seq<Op>)
    requires WellFormed(g) && InTurn(g, ops) && forall i :: 0 <= i < |ops| ==> IsBlockOp(ops[i])
    ensures
      var h := DoAll(g, ops);
      && h.edges == g.edges && g.transitions <= h.transitions
      && forall k: nat | |g.transitions| <= k < |h.transitions| :: TakesFirst(h.edges, h.transitions, k)
    decreases |ops|
  {
    if ops != [] {
      var next, h := Do(g, ops[0]), DoAll(g, ops);
      FirstMoveTakesFirst(g, ops[0]);
      BlockOpKeepsWellFormed(g, ops[0]);
      hide WellFormed; hide TakesFirst; hide Do; hide Takes;
      InTurnTakesFirst(next, ops[1..]);
      hide DoAll; hide InTurn; hide IsBlockOp;
      AllTakeFirst(h.edges, g.transitions, next.transitions, h.transitions);
    }
  }

  lemma BlockOpKeepsWellFormed(g: Graph, op: Op)
    requires WellFormed(g) && IsBlockOp(op)
    ensures WellFormed(Do(g, op))
  {
    hide WellFormed; hide Do;
    assert [op][1..] == [];
    ExistingNodesKeep(g, [op]);
    OneDone(g, op);
  }

  lemma {:induction false} SkipsAreBlockOps(ids: seq<string>)
    ensures forall i :: 0 <= i < |Skips(ids)| ==> IsBlockOp(Skips(ids)[i])
  {
    if ids != [] { SkipsAreBlockOps(ids[1..]); }
  }

  lemma {:induction false} InterruptsAreBlockOps(ids: seq<string>)
    ensures forall i :: 0 <= i < |Interrupts(ids)| ==> IsBlockOp(Interrupts(ids)[i])
  {
    if ids != [] { InterruptsAreBlockOps(ids[1..]); }
  }

  lemma PlainGoesByName(g: Graph, op: Op)
    requires WellFormed(g) && Whole(g) && ByName(g) && !op.OpSkip? && !op.OpInterrupt?
    ensures ByName(Do(g, op))
  {
    hide Shape; hide Produced; hide Reconciled; hide BlocksAreWhole;
    var h := Do(g, op);
    if op.OpAddNode? {
      hide GoesByName; hide History;
    } else if op.OpAddEdge? {
      hide Reaches; hide Linked; hide History; hide GoesByName; hide Touched;
      if AddEdge(g, op.edge).Ok? {
        PendingIsUntouchedBy(g, op.edge.to);
        ByNameWithEdge(g.edges, op.edge, g.transitions);
      }
    } else {
      PlainAppends(g, op);
      hide Do; hide History; hide GoesByName;
      forall k: nat | |g.transitions| <= k < |h.transitions| ensures TakesFirst(h.edges, h.transitions, k) {}
      hide TakesFirst;
      ByNameExtends(g.edges, g.transitions, h.transitions);
    }
  }

  lemma CallGoesByName(g: Graph, c: Call)
    requires WellFormed(g) && Whole(g) && ByName(g) && Legal(g, c)
    ensures ByName(DoAll(g, OpsOf(c)))
  {
    hide WellFormed; hide BlocksAreWhole; hide GoesByName; hide Settled; hide RunningNodes;
    match c
    case Plain(op) =>
      OneDone(g, op);
      hide DoAll;
      PlainGoesByName(g, op);
    case Settle(skips) =>
      hide DoAll; hide TakesFirst;
      SkipsAreBlockOps(skips);
      InTurnTakesFirst(g, OpsOf(c));
      ByNameExtends(g.edges, g.transitions, DoAll(g, OpsOf(c)).transitions);
    case Recover(interrupts, skips) =>
      hide DoAll; hide TakesFirst;
      SkipsAreBlockOps(skips);
      InterruptsAreBlockOps(interrupts);
      InTurnTakesFirst(g, OpsOf(c));
      ByNameExtends(g.edges, g.transitions, DoAll(g, OpsOf(c)).transitions);
  }

  /** Every run of calls keeps the blocks whole, and goes by name in them. */
  lemma {:induction false} RunIsWhole(g: Graph, calls: seq<Call>)
    requires WellFormed(g) && Whole(g) && ByName(g) && LegalRun(g, calls) && AddsPending(g, AllOps(calls))
    ensures Whole(DoAll(g, AllOps(calls))) && ByName(DoAll(g, AllOps(calls)))
    decreases |calls|
  {
    hide WellFormed; hide Whole; hide ByName; hide Legal; hide OpsOf; hide AddsPending;
    if calls == [] {
      NothingDone(g);
    } else {
      var first := OpsOf(calls[0]);
      hide DoAll;
      AddsPendingConcat(g, first, AllOps(calls[1..]));
      DoAllConcat(g, first, AllOps(calls[1..]));
      CallIsWhole(g, calls[0]);
      CallGoesByName(g, calls[0]);
      RunIsWhole(DoAll(g, first), calls[1..]);
    }
  }
}
