/** Sizes of finite sets, and the pigeonhole principle. */
module Sets {

  lemma {:induction false} SubsetSize<T>(a: set<T>, b: set<T>)
    requires a <= b
    ensures |a| <= |b|
  {
    if a != {} {
      var x :| x in a;
      SubsetSize(a - {x}, b - {x});
    }
  }

  lemma UnionSize<T>(a: set<T>, b: set<T>, c: set<T>)
    requires a <= b + c
    ensures |a| <= |b| + |c|
  {
    SubsetSize(a, b + c);
    SubsetSize(c - b, c);
    assert b + c == b + (c - b);
  }

  lemma SmallerBy<T>(a: set<T>, b: set<T>, x: T)
    requires a <= b && x in b && x !in a
    ensures |a| < |b|
  {
    SubsetSize(a, b - {x});
  }

  /** The first `n` values of `f`. */
  function Values(f: nat -> nat, n: nat): set<nat> { if n == 0 then {} else Values(f, n - 1) + {f(n - 1)} }

  lemma {:induction false} ValuesAre(f: nat -> nat, n: nat, v: nat)
    ensures v in Values(f, n) <==> exists k: nat :: k < n && f(k) == v
  {
    if n > 0 { ValuesAre(f, n - 1, v); }
  }

  lemma {:induction false} AllDifferent(f: nat -> nat, n: nat)
    requires forall i: nat, j: nat :: i < j < n ==> f(i) != f(j)
    ensures |Values(f, n)| == n
  {
    if n > 0 {
      ValuesAre(f, n - 1, f(n - 1));
      AllDifferent(f, n - 1);
    }
  }

  /** Of `bound + 1` values below `bound` two are the same. */
  lemma Pigeonhole(f: nat -> nat, bound: nat)
    requires forall k: nat :: f(k) < bound
    ensures exists i: nat, j: nat :: i < j && f(i) == f(j)
  {
    if forall i: nat, j: nat :: i < j < bound + 1 ==> f(i) != f(j) {
      AllDifferent(f, bound + 1);
      var all := k => k;
      AllDifferent(all, bound);
      forall v | v in Values(f, bound + 1) ensures v in Values(all, bound) {
        ValuesAre(f, bound + 1, v);
        ValuesAre(all, bound, v);
        assert all(v) == v;
      }
      SubsetSize(Values(f, bound + 1), Values(all, bound));
    }
  }
}
