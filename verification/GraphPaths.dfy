/** Paths and cycles in the execution graph, and the breadth-first search that looks for them
    (zhongshu-core/src/agent/execution_graph.rs:991-1008). */
module GraphPaths {
  import Sets

  datatype EdgeKind = Requires | Consumes | Validates | Supersedes | Finally

  datatype Edge = Edge(from: string, to: string, kind: EdgeKind)

  predicate Linked(edges: seq<Edge>, a: string, b: string) {
    exists i :: 0 <= i < |edges| && edges[i].from == a && edges[i].to == b
  }

  /** Consecutive nodes of the path are linked. */
  predicate IsPath(edges: seq<Edge>, path: seq<string>) {
    path != [] && forall i :: 0 < i < |path| ==> Linked(edges, path[i - 1], path[i])
  }

  ghost predicate Reaches(edges: seq<Edge>, a: string, b: string) {
    exists path :: IsPath(edges, path) && path[0] == a && path[|path| - 1] == b
  }

  /** The ranks grow along every edge. */
  predicate Ranks(edges: seq<Edge>, rank: map<string, nat>) {
    forall i :: 0 <= i < |edges| ==>
      edges[i].from in rank && edges[i].to in rank && rank[edges[i].from] < rank[edges[i].to]
  }

  /** No node reaches itself over one edge or more. */
  ghost predicate Acyclic(edges: seq<Edge>) { exists rank :: Ranks(edges, rank) }

  lemma ReachesItself(edges: seq<Edge>, a: string)
    ensures Reaches(edges, a, a)
  {
    assert IsPath(edges, [a]) && [a][0] == a;
  }

  lemma ReachesFurther(edges: seq<Edge>, a: string, b: string, c: string)
    requires Reaches(edges, a, b) && Linked(edges, b, c)
    ensures Reaches(edges, a, c)
  {
    hide Linked;
    var path :| IsPath(edges, path) && path[0] == a && path[|path| - 1] == b;
    var longer := path + [c];
    assert IsPath(edges, longer) && longer[0] == a && longer[|longer| - 1] == c;
  }

  predicate Closed(edges: seq<Edge>, nodes: set<string>) {
    forall i :: 0 <= i < |edges| && edges[i].from in nodes ==> edges[i].to in nodes
  }

  lemma {:induction false} ClosedHoldsPath(edges: seq<Edge>, nodes: set<string>, path: seq<string>, i: nat)
    requires Closed(edges, nodes) && IsPath(edges, path) && path[0] in nodes && i < |path|
    ensures path[i] in nodes
  {
    if i > 0 {
      ClosedHoldsPath(edges, nodes, path, i - 1);
      assert Linked(edges, path[i - 1], path[i]);
    }
  }

  /** A closed set that holds `a` but not `b` shows that `a` does not reach `b`. */
  lemma ClosedSeparates(edges: seq<Edge>, nodes: set<string>, a: string, b: string)
    requires Closed(edges, nodes) && a in nodes && b !in nodes
    ensures !Reaches(edges, a, b)
  {
    hide Closed;
    forall path | IsPath(edges, path) && path[0] == a ensures path[|path| - 1] != b {
      ClosedHoldsPath(edges, nodes, path, |path| - 1);
    }
  }

  function Endpoints(edges: seq<Edge>): set<string> {
    (set i | 0 <= i < |edges| :: edges[i].from) + set i | 0 <= i < |edges| :: edges[i].to
  }

  /** The targets of the edges that leave `current`, in order. */
  function Targets(edges: seq<Edge>, current: string): seq<string> {
    if edges == [] then []
    else (if edges[0].from == current then [edges[0].to] else []) + Targets(edges[1..], current)
  }

  lemma {:induction false} TargetsAre(edges: seq<Edge>, current: string, b: string)
    ensures b in Targets(edges, current) <==> Linked(edges, current, b)
  {
    if edges != [] {
      TargetsAre(edges[1..], current, b);
      if Linked(edges, current, b) {
        var i :| 0 <= i < |edges| && edges[i].from == current && edges[i].to == b;
        if i > 0 { assert edges[1..][i - 1] == edges[i]; }
      }
      if Linked(edges[1..], current, b) {
        var i :| 0 <= i < |edges| - 1 && edges[1..][i].from == current && edges[1..][i].to == b;
        assert edges[i + 1] == edges[1..][i];
      }
    }
  }

  /** Links out of visited nodes lead to visited or queued ones. */
  ghost predicate Frontier(edges: seq<Edge>, visited: set<string>, queue: seq<string>) {
    forall a, b :: a in visited && Linked(edges, a, b) ==> b in visited || b in queue
  }

  /** The search: true exactly when `to` can be reached. */
  method HasPath(edges: seq<Edge>, from: string, to: string) returns (found: bool)
    ensures found <==> Reaches(edges, from, to)
  {
    var queue: seq<string> := [from];
    var visited: set<string> := {};
    ghost var all := Endpoints(edges) + {from};
    ReachesItself(edges, from);
    while queue != []
      invariant visited <= all && forall x :: x in queue ==> x in all
      invariant forall x :: x in queue || x in visited ==> Reaches(edges, from, x)
      invariant from in visited || from in queue
      invariant to !in visited
      invariant Frontier(edges, visited, queue)
      decreases |all - visited|, |queue|
    {
      hide Reaches; hide Linked; hide Endpoints;
      var current := queue[0];
      ghost var before := queue;
      queue := queue[1..];
      if current == to { return true; }
      if current in visited {
        FrontierPop(edges, visited, before);
        continue;
      }
      ghost var unseen := all - visited;
      Expand(edges, from, visited, before, all);
      visited := visited + {current};
      queue := queue + Targets(edges, current);
      Sets.SmallerBy(all - visited, unseen, current);
    }
    assert Closed(edges, visited) by {
      forall i | 0 <= i < |edges| && edges[i].from in visited ensures edges[i].to in visited {
        assert Linked(edges, edges[i].from, edges[i].to);
      }
    }
    ClosedSeparates(edges, visited, from, to);
    return false;
  }

  lemma FrontierPop(edges: seq<Edge>, visited: set<string>, queue: seq<string>)
    requires Frontier(edges, visited, queue) && queue != [] && queue[0] in visited
    ensures Frontier(edges, visited, queue[1..])
  {
    hide Linked;
    forall a, b | a in visited && Linked(edges, a, b) ensures b in visited || b in queue[1..] {
      if b in queue && b !in visited { assert b != queue[0]; }
    }
  }

  /** Visiting the first node of the queue. */
  lemma Expand(edges: seq<Edge>, from: string, visited: set<string>, queue: seq<string>, all: set<string>)
    requires queue != [] && Frontier(edges, visited, queue) && all == Endpoints(edges) + {from}
    requires forall x :: x in queue ==> x in all && Reaches(edges, from, x)
    ensures
      var current := queue[0];
      var longer := queue[1..] + Targets(edges, current);
      && Frontier(edges, visited + {current}, longer)
      && forall x :: x in longer ==> x in all && Reaches(edges, from, x)
  {
    var current := queue[0];
    var targets := Targets(edges, current);
    var longer := queue[1..] + targets;
    forall b | b in targets ensures b in all && Reaches(edges, from, b) {
      TargetsAre(edges, current, b);
      ReachesFurther(edges, from, current, b);
      var i :| 0 <= i < |edges| && edges[i].from == current && edges[i].to == b;
    }
    hide Reaches; hide Linked; hide Endpoints;
    forall a, b | a in visited + {current} && Linked(edges, a, b)
      ensures b in visited + {current} || b in longer
    {
      if a == current {
        TargetsAre(edges, current, b);
      } else if b != current && b !in visited {
        assert b in queue && b in queue[1..];
      }
    }
    assert forall x :: x in queue[1..] ==> x in queue;
  }

  // -- Cycles ---------------------------------------------------------

  lemma {:induction false} RanksGrowAlong(edges: seq<Edge>, rank: map<string, nat>, path: seq<string>, i: nat)
    requires Ranks(edges, rank) && IsPath(edges, path) && 0 < i < |path|
    ensures path[0] in rank && path[i] in rank && rank[path[0]] < rank[path[i]]
  {
    hide IsPath;
    LinkRanks(edges, rank, path, i);
    if i > 1 { RanksGrowAlong(edges, rank, path, i - 1); }
  }

  lemma LinkRanks(edges: seq<Edge>, rank: map<string, nat>, path: seq<string>, i: nat)
    requires Ranks(edges, rank) && IsPath(edges, path) && 0 < i < |path|
    ensures path[i - 1] in rank && path[i] in rank && rank[path[i - 1]] < rank[path[i]]
  {
    assert Linked(edges, path[i - 1], path[i]);
  }

  lemma ReachesRanks(edges: seq<Edge>, rank: map<string, nat>, a: string, b: string)
    requires Ranks(edges, rank) && Reaches(edges, a, b)
    ensures a == b || (a in rank && b in rank && rank[a] < rank[b])
  {
    var path :| IsPath(edges, path) && path[0] == a && path[|path| - 1] == b;
    if |path| > 1 { RanksGrowAlong(edges, rank, path, |path| - 1); }
  }

  /** Shifting everything that `e.to` reaches above `e.from`. */
  ghost function Shifted(edges: seq<Edge>, rank: map<string, nat>, e: Edge): map<string, nat> {
    var base := if e.from in rank then rank[e.from] else 0;
    map x | x in rank.Keys + {e.from, e.to} ::
      (if x in rank then rank[x] else 0) + if Reaches(edges, e.to, x) then base + 1 else 0
  }

  lemma ShiftedRanks(edges: seq<Edge>, rank: map<string, nat>, e: Edge)
    requires Ranks(edges, rank) && !Reaches(edges, e.to, e.from)
    ensures Ranks(edges + [e], Shifted(edges, rank, e))
  {
    var more, shifted := edges + [e], Shifted(edges, rank, e);
    ReachesItself(edges, e.to);
    hide Reaches;
    forall i | 0 <= i < |more|
      ensures more[i].from in shifted && more[i].to in shifted && shifted[more[i].from] < shifted[more[i].to]
    {
      if i < |edges| {
        if Reaches(edges, e.to, edges[i].from) {
          assert Linked(edges, edges[i].from, edges[i].to);
          ReachesFurther(edges, e.to, edges[i].from, edges[i].to);
        }
      }
    }
  }

  /** Adding an edge to an acyclic graph keeps it acyclic exactly when the search finds no way back. */
  lemma StaysAcyclicIff(edges: seq<Edge>, e: Edge)
    requires Acyclic(edges)
    ensures Acyclic(edges + [e]) <==> !Reaches(edges, e.to, e.from)
  {
    var rank :| Ranks(edges, rank);
    if !Reaches(edges, e.to, e.from) {
      ShiftedRanks(edges, rank, e);
    }
    if Acyclic(edges + [e]) {
      var r :| Ranks(edges + [e], r);
      assert (edges + [e])[|edges|] == e;
      assert forall i :: 0 <= i < |edges| ==> (edges + [e])[i] == edges[i];
      assert Ranks(edges, r);
      if Reaches(edges, e.to, e.from) { ReachesRanks(edges, r, e.to, e.from); }
    }
  }

  lemma AcyclicPrefix(edges: seq<Edge>, n: nat)
    requires Acyclic(edges) && n <= |edges|
    ensures Acyclic(edges[..n])
  {
    var rank :| Ranks(edges, rank);
    assert Ranks(edges[..n], rank);
  }

  lemma ReachesInMore(edges: seq<Edge>, n: nat, a: string, b: string)
    requires n <= |edges|
    ensures Reaches(edges[..n], a, b) ==> Reaches(edges, a, b)
  {
    if path :| IsPath(edges[..n], path) && path[0] == a && path[|path| - 1] == b {
      forall i | 0 < i < |path| ensures Linked(edges, path[i - 1], path[i]) {
        assert Linked(edges[..n], path[i - 1], path[i]);
        var j :| 0 <= j < n && edges[..n][j].from == path[i - 1] && edges[..n][j].to == path[i];
        assert edges[j] == edges[..n][j];
      }
      assert IsPath(edges, path);
    }
  }

  lemma {:induction false} NoWayBackIsAcyclic(edges: seq<Edge>, n: nat)
    requires n <= |edges| && forall i :: 0 <= i < |edges| ==> !Reaches(edges, edges[i].to, edges[i].from)
    ensures Acyclic(edges[..n])
  {
    if n == 0 {
      assert Ranks(edges[..0], map[]);
    } else {
      hide *;
      var shorter, e := edges[..n - 1], edges[n - 1];
      NoWayBackIsAcyclic(edges, n - 1);
      ReachesInMore(edges, n - 1, e.to, e.from);
      StaysAcyclicIff(shorter, e);
      assert edges[..n] == shorter + [e];
    }
  }

  lemma NotBack(edges: seq<Edge>, rank: map<string, nat>, e: Edge)
    requires Ranks(edges, rank) && e.from in rank && e.to in rank && rank[e.from] < rank[e.to]
    ensures !Reaches(edges, e.to, e.from)
  {
    if Reaches(edges, e.to, e.from) { ReachesRanks(edges, rank, e.to, e.from); }
  }

  /** Having ranks is having no cycle: no edge can be travelled back. */
  lemma AcyclicIffNoWayBack(edges: seq<Edge>)
    ensures Acyclic(edges) <==> forall i :: 0 <= i < |edges| ==> !Reaches(edges, edges[i].to, edges[i].from)
  {
    if Acyclic(edges) {
      var rank :| Ranks(edges, rank);
      forall i | 0 <= i < |edges| ensures !Reaches(edges, edges[i].to, edges[i].from) {
        NotBack(edges, rank, edges[i]);
      }
    }
    if forall i :: 0 <= i < |edges| ==> !Reaches(edges, edges[i].to, edges[i].from) {
      NoWayBackIsAcyclic(edges, |edges|);
      assert edges[..|edges|] == edges;
    }
  }
}
