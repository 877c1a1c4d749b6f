/** What the answers of a node handler come to: the artifacts they deliver and the moves they make
    (zhongshu-core/src/agent/execution_graph.rs:471-502, 897-926). */
module GraphOutcomes {
  import opened Wrappers
  import opened Text
  import opened ExecutionGraph

  /** What a node handler answers. */
  datatype NodeOutcome = NodeSucceeded(artifacts: seq<Artifact>) | NodeFailed | NodeCancelled | Deferred

  // -- Artifacts ------------------------------------------------------

  /** An artifact that the node may deliver: its own, under a new name. */
  predicate Deliverable(known: map<string, string>, id: string, a: Artifact) { a.producer == id && a.id !in known }

  predicate AllDeliverable(known: map<string, string>, id: string, list: seq<Artifact>) {
    forall i :: 0 <= i < |list| ==> Deliverable(known, id, list[i])
  }

  /** The first one that is not deliverable is number `i`, and this is what is wrong with it. */
  predicate IsBadAt(known: map<string, string>, id: string, list: seq<Artifact>, i: nat, e: Error) {
    && i < |list| && !Deliverable(known, id, list[i]) && AllDeliverable(known, id, list[..i])
    && e == if list[i].producer != id then ArtifactProducerMismatch else DuplicateArtifact
  }

  predicate IsFirstBad(known: map<string, string>, id: string, list: seq<Artifact>, e: Error) {
    exists i: nat :: i < |list| && IsBadAt(known, id, list, i, e)
  }

  predicate HasId(list: seq<Artifact>, a: string) { exists i :: 0 <= i < |list| && list[i].id == a }

  /** The known artifacts and the listed ones, each with its producer, and no others. */
  ghost predicate Delivered(before: map<string, string>, list: seq<Artifact>, after: map<string, string>) {
    && (forall a :: a in after <==> a in before || HasId(list, a))
    && (forall a :: a in before ==> after[a] == before[a])
    && forall i :: 0 <= i < |list| ==> list[i].id in after && after[list[i].id] == list[i].producer
  }

  lemma BadLater(known: map<string, string>, id: string, list: seq<Artifact>, i: nat, e: Error)
    requires list != [] && Deliverable(known, id, list[0]) && IsBadAt(known, id, list[1..], i, e)
    ensures IsBadAt(known, id, list, i + 1, e)
  {
    hide Deliverable;
    assert list[1..][i] == list[i + 1];
    var longer := list[..i + 1];
    forall j | 0 <= j < |longer| ensures Deliverable(known, id, longer[j]) {
      if j > 0 { assert longer[j] == list[1..][..i][j - 1]; }
    }
  }

  lemma {:induction false} CheckMeans(g: Graph, id: string, list: seq<Artifact>)
    ensures CheckArtifacts(g, id, list).None? <==> AllDeliverable(g.artifacts, id, list)
    ensures
      CheckArtifacts(g, id, list).Some? ==> IsFirstBad(g.artifacts, id, list, CheckArtifacts(g, id, list).value)
    decreases |list|
  {
    if list != [] {
      CheckMeans(g, id, list[1..]);
      assert AllDeliverable(g.artifacts, id, list)
             <==> Deliverable(g.artifacts, id, list[0]) && AllDeliverable(g.artifacts, id, list[1..]) by {
        hide Deliverable;
        assert forall i :: 0 <= i < |list| - 1 ==> list[1..][i] == list[i + 1];
        assert forall i :: 1 <= i < |list| ==> list[i] == list[1..][i - 1];
      }
      hide AllDeliverable; hide IsBadAt;
      if !Deliverable(g.artifacts, id, list[0]) {
        BadAtOnce(g.artifacts, id, list);
      } else if CheckArtifacts(g, id, list[1..]).Some? {
        var e := CheckArtifacts(g, id, list[1..]).value;
        var i: nat :| i < |list[1..]| && IsBadAt(g.artifacts, id, list[1..], i, e);
        BadLater(g.artifacts, id, list, i, e);
      }
    }
  }

  lemma BadAtOnce(known: map<string, string>, id: string, list: seq<Artifact>)
    requires list != [] && !Deliverable(known, id, list[0])
    ensures IsBadAt(known, id, list, 0, if list[0].producer != id then ArtifactProducerMismatch else DuplicateArtifact)
  {
  }

  lemma HasIdConcat(a: seq<Artifact>, b: seq<Artifact>, x: string)
    ensures HasId(a + b, x) <==> HasId(a, x) || HasId(b, x)
  {
    var both := a + b;
    if i :| 0 <= i < |a| && a[i].id == x { assert both[i].id == x; }
    if i :| 0 <= i < |b| && b[i].id == x { assert both[|a| + i].id == x; }
  }

  lemma {:induction false} InsertAdds(known: map<string, string>, list: seq<Artifact>, id: string, a: string)
    requires forall i :: 0 <= i < |list| ==> list[i].producer == id
    ensures a in Insert(known, list) <==> a in known || HasId(list, a)
    ensures a in Insert(known, list) ==> Insert(known, list)[a] == if HasId(list, a) then id else known[a]
    decreases |list|
  {
    if list != [] {
      InsertAdds(known[list[0].id := list[0].producer], list[1..], id, a);
      assert list == [list[0]] + list[1..];
      HasIdConcat([list[0]], list[1..], a);
      assert HasId([list[0]], a) <==> list[0].id == a by { assert [list[0]][0] == list[0]; }
      hide HasId;
    }
  }

  lemma InsertDelivers(known: map<string, string>, id: string, list: seq<Artifact>)
    requires AllDeliverable(known, id, list)
    ensures Delivered(known, list, Insert(known, list))
  {
    var after := Insert(known, list);
    forall a
      ensures a in after <==> a in known || HasId(list, a)
      ensures a in after ==> after[a] == if HasId(list, a) then id else known[a]
    {
      InsertAdds(known, list, id, a);
    }
    hide Insert;
    forall i | 0 <= i < |list| ensures HasId(list, list[i].id) {}
    forall a | a in known ensures !HasId(list, a) {}
  }

  lemma NothingDelivered(known: map<string, string>)
    ensures Delivered(known, [], known)
  {
  }

  /** A node that is running is completed exactly with artifacts that it may deliver, and delivers them;
      otherwise the first bad one is the error. */
  lemma CompletionDelivers(g: Graph, id: string, list: seq<Artifact>)
    requires id in g.nodes && g.nodes[id].state.Running?
    ensures CompleteNode(g, id, list).Ok? <==> AllDeliverable(g.artifacts, id, list)
    ensures
      var r := CompleteNode(g, id, list);
      if r.Ok? then Delivered(g.artifacts, list, r.value.artifacts) else IsFirstBad(g.artifacts, id, list, r.error)
  {
    CheckMeans(g, id, list);
    if AllDeliverable(g.artifacts, id, list) { InsertDelivers(g.artifacts, id, list); }
    hide CheckArtifacts; hide Insert; hide Delivered; hide AllDeliverable; hide IsFirstBad;
  }

  // -- Answers --------------------------------------------------------

  /** The state in which an answer leaves the node. */
  function EndState(o: NodeOutcome): NodeState {
    match o
    case NodeSucceeded(_) => Succeeded
    case NodeFailed => Failed
    case NodeCancelled => Cancelled
    case Deferred => Pending
  }

  /** What an answer delivers. */
  function Listed(o: NodeOutcome): seq<Artifact> { if o.NodeSucceeded? then o.artifacts else [] }

  /** The known artifacts and what the answers list, each with its producer, and no others. */
  ghost predicate AllDelivered(before: map<string, string>, answers: map<string, NodeOutcome>,
                               after: map<string, string>)
  {
    && (forall a :: a in after <==> a in before || IsListed(answers, a))
    && (forall a :: a in before ==> after[a] == before[a])
    && forall id :: id in answers ==> AreIn(Listed(answers[id]), after)
  }

  predicate IsListed(answers: map<string, NodeOutcome>, a: string) {
    exists id :: id in answers && HasId(Listed(answers[id]), a)
  }

  predicate AreIn(list: seq<Artifact>, known: map<string, string>) {
    forall i :: 0 <= i < |list| ==> list[i].id in known && known[list[i].id] == list[i].producer
  }

  lemma NothingAnswered(known: map<string, string>)
    ensures AllDelivered(known, map[], known)
  {
  }

  lemma OneAnswered(before: map<string, string>, id: string, o: NodeOutcome, after: map<string, string>)
    requires Delivered(before, Listed(o), after)
    ensures AllDelivered(before, map[id := o], after)
  {
    var answers := map[id := o];
    hide Listed; hide HasId;
    forall a ensures IsListed(answers, a) <==> HasId(Listed(o), a) {
      if HasId(Listed(o), a) { assert id in answers && HasId(Listed(answers[id]), a); }
    }
    hide IsListed;
  }

  lemma AreStillIn(list: seq<Artifact>, known: map<string, string>, after: map<string, string>)
    requires AreIn(list, known) && forall a :: a in known ==> a in after && after[a] == known[a]
    ensures AreIn(list, after)
  {
  }

  lemma AllDeliveredThen(a: map<string, string>, x: map<string, NodeOutcome>, b: map<string, string>,
                         y: map<string, NodeOutcome>, c: map<string, string>)
    requires AllDelivered(a, x, b) && AllDelivered(b, y, c) && x.Keys !! y.Keys
    ensures AllDelivered(a, x + y, c)
  {
    hide HasId; hide Listed; hide AreIn;
    forall n ensures IsListed(x + y, n) <==> IsListed(x, n) || IsListed(y, n) {
      if id :| id in x && HasId(Listed(x[id]), n) { assert id in x + y && HasId(Listed((x + y)[id]), n); }
      if id :| id in y && HasId(Listed(y[id]), n) { assert id in x + y && HasId(Listed((x + y)[id]), n); }
    }
    hide IsListed;
    forall id | id in x + y ensures AreIn(Listed((x + y)[id]), c) {
      if id in x { AreStillIn(Listed(x[id]), b, c); }
    }
  }

  // -- Moves ----------------------------------------------------------

  datatype Change = Change(from: NodeState, to: NodeState)

  /** The moves of one node, in order. */
  function MovesOf(ts: seq<Transition>, id: string): seq<Change> {
    if ts == [] then []
    else OwnChange(ts[0], id) + MovesOf(ts[1..], id)
  }

  function OwnChange(t: Transition, id: string): seq<Change> {
    if t.node == id then [Change(t.from, t.to)] else []
  }

  lemma {:induction false} MovesOfConcat(a: seq<Transition>, b: seq<Transition>, id: string)
    ensures MovesOf(a + b, id) == MovesOf(a, id) + MovesOf(b, id)
  {
    if a == [] {
      assert a + b == b;
    } else {
      hide OwnChange;
      assert (a + b)[1..] == a[1..] + b;
      MovesOfConcat(a[1..], b, id);
      ConcatAssoc(OwnChange(a[0], id), MovesOf(a[1..], id), MovesOf(b, id));
    }
  }

  /** A success and a failure start the node first; a cancelled node never starts. */
  function Changes(o: NodeOutcome): seq<Change> {
    match o
    case NodeSucceeded(_) => [Change(Pending, Running), Change(Running, Succeeded)]
    case NodeFailed => [Change(Pending, Running), Change(Running, Failed)]
    case NodeCancelled => [Change(Pending, Cancelled)]
    case Deferred => []
  }

  /** These moves of one node, numbered from `n`. */
  function Trace(n: nat, id: string, changes: seq<Change>): seq<Transition>
    decreases |changes|
  {
    if changes == [] then []
    else [Transition(n, id, changes[0].from, changes[0].to)] + Trace(n + 1, id, changes[1..])
  }

  lemma {:induction false} TraceMoves(n: nat, id: string, changes: seq<Change>, x: string)
    ensures MovesOf(Trace(n, id, changes), x) == if x == id then changes else []
    decreases |changes|
  {
    if changes != [] {
      TraceMoves(n + 1, id, changes[1..], x);
      assert changes == [changes[0]] + changes[1..];
      assert Trace(n, id, changes)[1..] == Trace(n + 1, id, changes[1..]);
    }
  }

  /** Skips of these nodes, numbered from `n`. */
  function SkipTrace(n: nat, ids: seq<string>): seq<Transition> {
    if ids == [] then []
    else SkipTrace(n, ids[..|ids| - 1]) + [Transition(n + |ids| - 1, ids[|ids| - 1], Pending, Skipped)]
  }

  lemma {:induction false} SkipTraceMoves(n: nat, ids: seq<string>, x: string)
    requires forall i, j :: 0 <= i < j < |ids| ==> ids[i] != ids[j]
    ensures MovesOf(SkipTrace(n, ids), x) == if x in ids then [Change(Pending, Skipped)] else []
  {
    if ids != [] {
      var before, last := ids[..|ids| - 1], ids[|ids| - 1];
      SkipTraceMoves(n, before, x);
      var t := Transition(n + |ids| - 1, last, Pending, Skipped);
      MovesOfConcat(SkipTrace(n, before), [t], x);
      assert MovesOf([t], x) == if x == last then [Change(Pending, Skipped)] else [] by { assert [t][1..] == []; }
      assert forall i :: 0 <= i < |before| ==> before[i] != last;
      assert x in ids <==> x in before || x == last;
    }
  }
}
