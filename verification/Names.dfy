/** The order of names: character by character, as Rust orders strings. */
module Names {

  predicate Less(a: string, b: string) {
    b != [] && (a == [] || a[0] < b[0] || (a[0] == b[0] && Less(a[1..], b[1..])))
  }

  /** The same up to place `k`, where the lesser one ends or has the lesser character. */
  predicate LessAt(a: string, b: string, k: nat) {
    k <= |a| && k < |b| && a[..k] == b[..k] && (k == |a| || a[k] < b[k])
  }

  lemma {:induction false} LessMeans(a: string, b: string)
    ensures Less(a, b) <==> exists k: nat :: LessAt(a, b, k)
  {
    forall k: nat | LessAt(a, b, k) && k > 0 ensures a[0] == b[0] { assert a[..k][0] == b[..k][0]; }
    if a != [] && b != [] && a[0] == b[0] {
      var c, d := a[1..], b[1..];
      LessMeans(c, d);
      if k: nat :| LessAt(c, d, k) {
        assert a[..k + 1] == [a[0]] + c[..k] && b[..k + 1] == [b[0]] + d[..k];
        assert LessAt(a, b, k + 1);
      }
      if k: nat :| LessAt(a, b, k) {
        assert k > 0;
        assert c[..k - 1] == a[..k][1..] && d[..k - 1] == b[..k][1..];
        assert LessAt(c, d, k - 1);
      }
    } else if Less(a, b) {
      assert LessAt(a, b, 0);
    }
  }

  lemma {:induction false} LessIsTotal(a: string, b: string)
    ensures a == b || Less(a, b) || Less(b, a)
  {
    if a != [] && b != [] && a[0] == b[0] {
      LessIsTotal(a[1..], b[1..]);
      assert a == [a[0]] + a[1..] && b == [b[0]] + b[1..];
    }
  }

  lemma {:induction false} LessIsStrict(a: string, b: string)
    ensures Less(a, b) ==> a != b && !Less(b, a)
  {
    if a != [] && b != [] && a[0] == b[0] { LessIsStrict(a[1..], b[1..]); }
  }

  lemma {:induction false} LessIsTransitive(a: string, b: string, c: string)
    requires Less(a, b) && Less(b, c)
    ensures Less(a, c)
  {
    if a != [] && a[0] == b[0] == c[0] { LessIsTransitive(a[1..], b[1..], c[1..]); }
  }

  predicate FirstOf(names: set<string>, first: string) {
    first in names && forall x :: x in names ==> x == first || Less(first, x)
  }

  method First(names: set<string>) returns (first: string)
    requires names != {}
    ensures FirstOf(names, first)
  {
    hide Less;
    first :| first in names;
    var rest := names - {first};
    while rest != {}
      invariant rest <= names && first in names
      invariant forall x :: x in names && x !in rest ==> x == first || Less(first, x)
      decreases |rest|
    {
      var next :| next in rest;
      if Less(next, first) {
        forall x | x in names && x !in rest && x != next ensures Less(next, x) {
          if x != first { LessIsTransitive(next, first, x); }
        }
        first := next;
      } else {
        LessIsTotal(next, first);
      }
      rest := rest - {next};
    }
  }

  predicate Sorted(list: seq<string>) { forall i, j :: 0 <= i < j < |list| ==> Less(list[i], list[j]) }

  /** The list names exactly these, in their order. */
  predicate Enumerates(list: seq<string>, names: set<string>) {
    Sorted(list) && (forall x :: x in list ==> x in names) && forall x :: x in names ==> x in list
  }

  /** Taking the first that is left, again and again, lists them in their order. */
  lemma EnumeratesOneMore(list: seq<string>, names: set<string>, rest: set<string>, first: string)
    requires rest <= names && Enumerates(list, names - rest) && FirstOf(rest, first)
    requires forall x, y :: x in list && y in rest ==> Less(x, y)
    ensures Enumerates(list + [first], names - (rest - {first}))
    ensures forall x, y :: x in list + [first] && y in rest - {first} ==> Less(x, y)
  {
    hide Less;
    var more := list + [first];
    forall i, j | 0 <= i < j < |more| ensures Less(more[i], more[j]) {
      if j == |list| { assert list[i] in list; }
    }
  }

  lemma SortedIsDistinct(list: seq<string>)
    requires Sorted(list)
    ensures forall i, j :: 0 <= i < j < |list| ==> list[i] != list[j]
  {
    forall i, j | 0 <= i < j < |list| ensures list[i] != list[j] { LessIsStrict(list[i], list[j]); }
  }

  method InNameOrder(names: set<string>) returns (list: seq<string>)
    ensures Enumerates(list, names)
  {
    hide Less; hide FirstOf; hide Enumerates;
    list := [];
    var rest := names;
    NothingEnumerated(names);
    while rest != {}
      invariant rest <= names && Enumerates(list, names - rest)
      invariant forall x, y :: x in list && y in rest ==> Less(x, y)
      decreases |rest|
    {
      var first := First(rest);
      EnumeratesOneMore(list, names, rest, first);
      FirstIsOne(rest, first);
      list := list + [first];
      rest := rest - {first};
    }
    assert names - rest == names;
  }

  lemma NothingEnumerated(names: set<string>)
    ensures Enumerates([], names - names)
  {
  }

  lemma FirstIsOne(names: set<string>, first: string)
    requires FirstOf(names, first)
    ensures first in names
  {
  }
}
