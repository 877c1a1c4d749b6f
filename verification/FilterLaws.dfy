/** What the control-token filter promises: chunk boundaries do not matter, one-shot stripping
    leaves no tag behind, and exactly when a chunked stream can still leak one. */
module FilterLaws {
  import opened Text
  import opened ControlFilter

  // -- Padding with newlines is a congruent preorder ------------------

  lemma {:induction false} PaddedRefl(a: string)
    ensures Padded(a, a)
  {
    if a != [] { PaddedRefl(a[1..]); }
  }

  lemma {:induction false} PaddedTrans(a: string, b: string, c: string)
    requires Padded(a, b) && Padded(b, c)
    ensures Padded(a, c)
    decreases |c|
  {
    if c != [] {
      if b != [] && b[0] == c[0] && Padded(b[1..], c[1..]) {
        if a != [] && a[0] == b[0] && Padded(a[1..], b[1..]) {
          PaddedTrans(a[1..], b[1..], c[1..]);
        } else {
          PaddedTrans(a, b[1..], c[1..]);
        }
      } else {
        PaddedTrans(a, b, c[1..]);
      }
    }
  }

  lemma {:induction false} PaddedConcat(a: string, b: string, c: string, d: string)
    requires Padded(a, b) && Padded(c, d)
    ensures Padded(a + c, b + d)
    decreases |b|
  {
    if b == [] {
      assert a + c == c && b + d == d;
    } else {
      assert (b + d)[1..] == b[1..] + d;
      if a != [] && a[0] == b[0] && Padded(a[1..], b[1..]) {
        assert (a + c)[1..] == a[1..] + c;
        PaddedConcat(a[1..], b[1..], c, d);
      } else {
        PaddedConcat(a, b[1..], c, d);
      }
    }
  }

  /** The characters of `s` that satisfy `keep`, in order. */
  function Select(s: string, keep: char -> bool): string {
    if s == [] then []
    else if keep(s[0]) then [s[0]] + Select(s[1..], keep)
    else Select(s[1..], keep)
  }

  lemma {:induction false} SelectConcat(a: string, b: string, keep: char -> bool)
    ensures Select(a + b, keep) == Select(a, keep) + Select(b, keep)
  {
    if a == [] {
      assert a + b == b;
    } else {
      SelectConcat(a[1..], b, keep);
      assert (a + b)[1..] == a[1..] + b;
    }
  }

  /** A view that ignores newlines cannot tell a text from its padding. */
  lemma {:induction false} PaddedSelect(a: string, b: string, keep: char -> bool)
    requires Padded(a, b) && !keep('\n')
    ensures Select(a, keep) == Select(b, keep) && |a| <= |b|
    decreases |b|
  {
    if b != [] {
      if a != [] && a[0] == b[0] && Padded(a[1..], b[1..]) {
        PaddedSelect(a[1..], b[1..], keep);
      } else {
        PaddedSelect(a, b[1..], keep);
      }
    }
  }

  // -- One position of the input --------------------------------------

  lemma {:induction false} TagEndStable(s: string, t: string)
    requires TagEnd(s) > 0
    ensures TagEnd(s + t) == TagEnd(s)
  {
    if s[0] != '>' {
      assert (s + t)[1..] == s[1..] + t;
      TagEndStable(s[1..], t);
    }
  }

  lemma CutStable(lexer: TagLexer, s: string, t: string)
    ensures lexer.IsControl(s) ==> lexer.IsControl(s + t)
    ensures lexer.IsPartial(s + t) ==> lexer.IsPartial(s)
    ensures lexer.IsControl(s + t) ==> lexer.IsControl(s) || lexer.IsPartial(s)
  {
    var u := s + t;
    assert forall k :: 0 <= k < |s| ==> u[k] == s[k];
    if lexer.IsControl(s) {
      var p :| p in lexer.prefixes && Begins(s, p);
      assert Begins(u, p);
    }
    if lexer.IsPartial(u) {
      var p :| p in lexer.prefixes && CutInside(u, p);
      assert forall k :: 0 <= k < |s| ==> LowerChar(u[k]) == p[k];
      assert CutInside(s, p);
    }
    if lexer.IsControl(u) {
      var p :| p in lexer.prefixes && Begins(u, p);
      if |p| <= |s| {
        assert forall k :: 0 <= k < |p| ==> LowerChar(u[k]) == p[k];
        assert Begins(s, p);
      } else {
        assert forall k :: 0 <= k < |s| ==> LowerChar(u[k]) == p[k];
        assert CutInside(s, p);
      }
    }
  }

  /** A decision other than waiting does not change when more text arrives. */
  lemma StepStable(lexer: TagLexer, s: string, t: string)
    requires s != [] && lexer.StepAt(s) != Wait
    ensures lexer.StepAt(s + t) == lexer.StepAt(s)
  {
    CutStable(lexer, s, t);
    if s[0] == '<' && lexer.IsControl(s) {
      TagEndStable(s, t);
    }
  }

  /** A lone '<' is always held back, so no separate end-of-input rule is needed. */
  lemma LoneOpenWaits()
    ensures Control().StepAt("<") == Wait
  {
    var p := "<final_answer";
    assert p in Control().prefixes && CutInside("<", p);
    assert TagEnd("<") == 0;
  }

  // -- The pending buffer ---------------------------------------------

  /** Empty, or an opening that is still undecided: cut inside a prefix, or a tag with no '>'. */
  predicate Undecided(lexer: TagLexer, p: string) {
    p == [] || (p[0] == '<' && (if lexer.IsControl(p) then TagEnd(p) == 0 else lexer.IsPartial(p)))
  }

  lemma {:induction false} HeldIsUndecided(lexer: TagLexer, s: string)
    ensures Undecided(lexer, lexer.Held(s))
    decreases |s|
  {
    if s != [] {
      match lexer.StepAt(s)
      case Keep => HeldIsUndecided(lexer, s[1..]);
      case Wait =>
      case Drop(n) => HeldIsUndecided(lexer, s[n..]);
    }
  }

  lemma {:induction false} HeldIsSuffix(lexer: TagLexer, s: string)
    ensures |lexer.Held(s)| <= |s| && s[|s| - |lexer.Held(s)|..] == lexer.Held(s)
    decreases |s|
  {
    hide TagLexer.IsControl;
    hide TagLexer.IsPartial;
    if s != [] && lexer.StepAt(s) != Wait {
      var n := if lexer.StepAt(s) == Keep then 1 else lexer.StepAt(s).len;
      HeldIsSuffix(lexer, s[n..]);
      var h := |lexer.Held(s[n..])|;
      assert lexer.Held(s) == lexer.Held(s[n..]);
      assert s[|s| - h..] == s[n..][|s| - n - h..];
    }
  }

  lemma UndecidedStays(lexer: TagLexer, p: string, started: bool)
    requires Undecided(lexer, p)
    ensures lexer.Held(p) == p && lexer.Kept(p) == [] && lexer.Emit(p, started) == []
  {
    if p != [] { assert lexer.StepAt(p) == Wait; }
  }

  /** A feed never gives out more than it took in. */
  lemma {:induction false} FeedNeverGrows(lexer: TagLexer, s: string, started: bool)
    ensures |lexer.Emit(s, started)| + |lexer.Held(s)| <= |s|
    decreases |s|
  {
    if s != [] {
      match lexer.StepAt(s)
      case Keep => FeedNeverGrows(lexer, s[1..], true);
      case Wait =>
      case Drop(n) => FeedNeverGrows(lexer, s[n..], started);
    }
  }

  // -- Chunk boundaries do not matter ---------------------------------

  lemma {:induction false} ScanSplit(lexer: TagLexer, s: string, t: string)
    ensures lexer.Kept(s + t) == lexer.Kept(s) + lexer.Kept(lexer.Held(s) + t)
    ensures lexer.Held(s + t) == lexer.Held(lexer.Held(s) + t)
    decreases |s|
  {
    if s == [] {
      assert s + t == t && lexer.Held(s) + t == t;
    } else {
      match lexer.StepAt(s)
      case Wait =>
      case Keep =>
        StepStable(lexer, s, t);
        assert (s + t)[1..] == s[1..] + t;
        ScanSplit(lexer, s[1..], t);
      case Drop(n) =>
        StepStable(lexer, s, t);
        assert (s + t)[n..] == s[n..] + t;
        ScanSplit(lexer, s[n..], t);
    }
  }

  /** The break inserted at a removed tag only grows when more text follows or was emitted. */
  lemma BreakPadded(lexer: TagLexer, rest: string, t: string, b: bool, b': bool)
    requires b ==> b'
    ensures Padded([], lexer.ParagraphBreak(rest, b))
    ensures Padded(lexer.ParagraphBreak(rest, b), lexer.ParagraphBreak(rest + t, b'))
  {
  }

  lemma {:induction false} KeptIsPadded(lexer: TagLexer, s: string, started: bool)
    ensures Padded(lexer.Kept(s), lexer.Emit(s, started))
    decreases |s|
  {
    if s != [] {
      match lexer.StepAt(s)
      case Wait =>
      case Keep => KeptIsPadded(lexer, s[1..], true);
      case Drop(n) =>
        var rest := s[n..];
        KeptIsPadded(lexer, rest, started);
        BreakPadded(lexer, rest, [], started, started);
        PaddedConcat([], lexer.ParagraphBreak(rest, started), lexer.Kept(rest), lexer.Emit(rest, started));
        assert [] + lexer.Kept(rest) == lexer.Kept(s);
    }
  }

  lemma {:induction false} EmitMonotone(lexer: TagLexer, s: string, b: bool, b': bool)
    requires b ==> b'
    ensures Padded(lexer.Emit(s, b), lexer.Emit(s, b'))
    decreases |s|
  {
    if s != [] {
      match lexer.StepAt(s)
      case Wait =>
      case Keep => PaddedRefl(lexer.Emit(s[1..], true));
      case Drop(n) =>
        var rest := s[n..];
        assert rest + [] == rest;
        EmitMonotone(lexer, rest, b, b');
        BreakPadded(lexer, rest, [], b, b');
        PaddedConcat(lexer.ParagraphBreak(rest, b), lexer.ParagraphBreak(rest, b'),
                     lexer.Emit(rest, b), lexer.Emit(rest, b'));
    }
  }

  lemma {:induction false} EmitSplit(lexer: TagLexer, s: string, t: string, b: bool, b': bool)
    requires b ==> b'
    ensures Padded(lexer.Emit(s, b) + lexer.Strip(lexer.Held(s) + t), lexer.Emit(s + t, b'))
    decreases |s|
  {
    if s == [] || lexer.StepAt(s) == Wait {
      assert lexer.Held(s) == s && lexer.Emit(s, b) == [];
      assert lexer.Emit(s, b) + lexer.Strip(s + t) == lexer.Strip(s + t);
      EmitMonotone(lexer, s + t, false, b');
    } else if lexer.StepAt(s) == Keep {
      EmitSplit(lexer, s[1..], t, true, true);
      EmitSplitKeep(lexer, s, t, b, b');
    } else {
      var n := lexer.StepAt(s).len;
      EmitSplit(lexer, s[n..], t, b, b');
      EmitSplitDrop(lexer, s, t, n, b, b');
    }
  }

  lemma KeptThen(lexer: TagLexer, s: string, started: bool)
    requires s != [] && lexer.StepAt(s) == Keep
    ensures lexer.Emit(s, started) == [s[0]] + lexer.Emit(s[1..], true) && lexer.Held(s) == lexer.Held(s[1..])
  {
  }

  lemma DroppedThen(lexer: TagLexer, s: string, n: nat, started: bool)
    requires s != [] && lexer.StepAt(s) == Drop(n)
    ensures n <= |s| && lexer.Held(s) == lexer.Held(s[n..])
    ensures lexer.Emit(s, started) == lexer.ParagraphBreak(s[n..], started) + lexer.Emit(s[n..], started)
  {
  }

  lemma EmitSplitKeep(lexer: TagLexer, s: string, t: string, b: bool, b': bool)
    requires s != [] && lexer.StepAt(s) == Keep
    requires Padded(lexer.Emit(s[1..], true) + lexer.Strip(lexer.Held(s[1..]) + t), lexer.Emit(s[1..] + t, true))
    ensures Padded(lexer.Emit(s, b) + lexer.Strip(lexer.Held(s) + t), lexer.Emit(s + t, b'))
  {
    hide *;
    var last := lexer.Strip(lexer.Held(s) + t);
    StepStable(lexer, s, t);
    KeptThen(lexer, s, b);
    KeptThen(lexer, s + t, b');
    assert (s + t)[1..] == s[1..] + t;
    PaddedRefl([s[0]]);
    PaddedConcat([s[0]], [s[0]], lexer.Emit(s[1..], true) + last, lexer.Emit(s[1..] + t, true));
    assert lexer.Emit(s, b) + last == [s[0]] + (lexer.Emit(s[1..], true) + last);
  }

  lemma EmitSplitDrop(lexer: TagLexer, s: string, t: string, n: nat, b: bool, b': bool)
    requires b ==> b'
    requires s != [] && lexer.StepAt(s) == Drop(n) && n <= |s|
    requires Padded(lexer.Emit(s[n..], b) + lexer.Strip(lexer.Held(s[n..]) + t), lexer.Emit(s[n..] + t, b'))
    ensures Padded(lexer.Emit(s, b) + lexer.Strip(lexer.Held(s) + t), lexer.Emit(s + t, b'))
  {
    hide *;
    var rest, last := s[n..], lexer.Strip(lexer.Held(s) + t);
    StepStable(lexer, s, t);
    DroppedThen(lexer, s, n, b);
    DroppedThen(lexer, s + t, n, b');
    assert (s + t)[n..] == rest + t;
    BreakPadded(lexer, rest, t, b, b');
    PaddedConcat(lexer.ParagraphBreak(rest, b), lexer.ParagraphBreak(rest + t, b'),
                 lexer.Emit(rest, b) + last, lexer.Emit(rest + t, b'));
    assert lexer.Emit(s, b) + last == lexer.ParagraphBreak(rest, b) + (lexer.Emit(rest, b) + last);
  }

  /** For every text and every way of cutting it into deltas: the filter ends in the same
      state as after one feed, and its output is the one-shot output with some of the inserted
      paragraph breaks left out, so it differs from it in newlines only. */
  lemma {:induction false} ChunkInvariance(lexer: TagLexer, pending: string, deltas: seq<string>)
    requires Undecided(lexer, pending)
    ensures lexer.HeldAfter(pending, deltas) == lexer.Held(pending + Flatten(deltas))
    ensures Padded(Flatten(lexer.Outputs(pending, deltas)), lexer.Strip(pending + Flatten(deltas)))
    ensures Padded(lexer.Kept(pending + Flatten(deltas)), Flatten(lexer.Outputs(pending, deltas)))
    decreases |deltas|
  {
    if deltas == [] {
      assert pending + Flatten(deltas) == pending;
      UndecidedStays(lexer, pending, false);
    } else {
      var s, t := pending + deltas[0], Flatten(deltas[1..]);
      var held := lexer.Held(s);
      assert pending + Flatten(deltas) == s + t;
      HeldIsUndecided(lexer, s);
      ChunkInvariance(lexer, held, deltas[1..]);
      var tail := Flatten(lexer.Outputs(held, deltas[1..]));
      assert Flatten(lexer.Outputs(pending, deltas)) == lexer.Strip(s) + tail;
      ScanSplit(lexer, s, t);
      EmitSplit(lexer, s, t, false, false);
      PaddedRefl(lexer.Strip(s));
      PaddedConcat(lexer.Strip(s), lexer.Strip(s), tail, lexer.Strip(held + t));
      PaddedTrans(lexer.Strip(s) + tail, lexer.Strip(s) + lexer.Strip(held + t), lexer.Strip(s + t));
      KeptIsPadded(lexer, s, false);
      PaddedConcat(lexer.Kept(s), lexer.Strip(s), lexer.Kept(held + t), tail);
    }
  }

  /** The same law for a fresh filter, read through any view that ignores newlines. */
  lemma ChunkInvarianceUpToNewlines(lexer: TagLexer, deltas: seq<string>, keep: char -> bool)
    requires !keep('\n')
    ensures Select(Flatten(lexer.Outputs([], deltas)), keep) == Select(lexer.Strip(Flatten(deltas)), keep)
    ensures |Flatten(lexer.Outputs([], deltas))| <= |lexer.Strip(Flatten(deltas))| <= |Flatten(deltas)|
    ensures lexer.HeldAfter([], deltas) == lexer.Held(Flatten(deltas))
  {
    assert [] + Flatten(deltas) == Flatten(deltas);
    ChunkInvariance(lexer, [], deltas);
    PaddedSelect(Flatten(lexer.Outputs([], deltas)), lexer.Strip(Flatten(deltas)), keep);
    FeedNeverGrows(lexer, Flatten(deltas), false);
  }

  // -- One-shot stripping is complete ---------------------------------

  /** After a removed tag the first thing emitted, if text precedes it, is a break character. */
  lemma AfterDropComesBreak(lexer: TagLexer, r: string)
    requires r != [] && lexer.StepAt(r).Drop?
    ensures lexer.Emit(r, true) != [] ==> IsBreak(lexer.Emit(r, true)[0])
  {
    var tail := r[lexer.StepAt(r).len..];
    if tail != [] && IsBreak(tail[0]) {
      assert lexer.StepAt(tail) == Keep;
    }
  }

  /** If the emitted text continues with `q`, which holds no '<' and no break character,
      then so does the input: removing a tag cannot bring two halves of `q` together. */
  lemma {:induction false} EmittedRunIsInInput(lexer: TagLexer, r: string, q: string)
    requires Begins(lexer.Emit(r, true), q)
    requires forall k :: 0 <= k < |q| ==> q[k] != '<' && !IsBreak(q[k])
    ensures Begins(r, q)
    decreases |r|
  {
    if q != [] {
      var e := lexer.Emit(r, true);
      assert e != [] && LowerChar(e[0]) == q[0];
      assert r != [];
      match lexer.StepAt(r)
      case Wait => assert false;
      case Keep =>
        assert e[1..] == lexer.Emit(r[1..], true);
        assert forall k :: 0 <= k < |q[1..]| ==> LowerChar(e[1..][k]) == q[1..][k];
        EmittedRunIsInInput(lexer, r[1..], q[1..]);
        forall k | 0 <= k < |q| ensures LowerChar(r[k]) == q[k] {
          if k > 0 { assert r[k] == r[1..][k - 1] && q[k] == q[1..][k - 1]; }
        }
      case Drop(n) =>
        AfterDropComesBreak(lexer, r);
        assert false;
    }
  }

  lemma PrefixThroughEmit(lexer: TagLexer, s: string, p: string)
    requires s != [] && PrefixShape(p) && Begins([s[0]] + lexer.Emit(s[1..], true), p)
    ensures s[0] == '<' && Begins(s, p)
  {
    hide TagLexer.Emit;
    var tail, q := lexer.Emit(s[1..], true), p[1..];
    assert LowerChar(([s[0]] + tail)[0]) == p[0];
    forall k | 0 <= k < |q| ensures LowerChar(tail[k]) == q[k] && q[k] != '<' && !IsBreak(q[k]) {
      assert LowerChar(([s[0]] + tail)[k + 1]) == p[k + 1];
    }
    EmittedRunIsInInput(lexer, s[1..], q);
    forall k | 0 <= k < |p| ensures LowerChar(s[k]) == p[k] {
      if k > 0 { assert LowerChar(s[1..][k - 1]) == q[k - 1]; }
    }
  }

  /** If the emitted text opens a tag where the input has `s[0]`, so does the input. */
  lemma ControlAtHeadIsInInput(lexer: TagLexer, s: string)
    requires lexer.WellFormed() && s != [] && lexer.IsControl([s[0]] + lexer.Emit(s[1..], true))
    ensures s[0] == '<' && lexer.IsControl(s)
  {
    hide TagLexer.Emit;
    hide PrefixShape;
    var p :| p in lexer.prefixes && Begins([s[0]] + lexer.Emit(s[1..], true), p);
    hide Begins;
    PrefixThroughEmit(lexer, s, p);
  }

  lemma CleanPrepend(lexer: TagLexer, c: char, tail: string)
    requires lexer.Clean(tail) && !lexer.IsControl([c] + tail)
    ensures lexer.Clean([c] + tail)
  {
    var e := [c] + tail;
    forall i | 0 <= i <= |e| ensures !lexer.IsControl(e[i..]) {
      if i == 0 { assert e[0..] == e; } else { assert e[i..] == tail[i - 1..]; }
    }
  }

  lemma ControlOpens(lexer: TagLexer, s: string)
    requires lexer.WellFormed() && lexer.IsControl(s)
    ensures |s| >= 2 && s[0] == '<'
  {
    var p :| p in lexer.prefixes && Begins(s, p);
    assert PrefixShape(p) && LowerChar(s[0]) == p[0];
  }

  /** Nothing one call emits contains a tag opening, wherever one looks and whatever the case
      of its letters, even where removing a tag brings two pieces of text together. */
  lemma {:induction false} EmitIsClean(lexer: TagLexer, s: string, started: bool)
    requires lexer.WellFormed()
    ensures lexer.Clean(lexer.Emit(s, started))
    decreases |s|
  {
    if s == [] || lexer.StepAt(s) == Wait {
      forall i | 0 <= i <= |lexer.Emit(s, started)| ensures !lexer.IsControl(lexer.Emit(s, started)[i..]) {
        if lexer.IsControl(lexer.Emit(s, started)[i..]) { ControlOpens(lexer, lexer.Emit(s, started)[i..]); }
      }
    } else {
      match lexer.StepAt(s)
      case Keep =>
        EmitIsClean(lexer, s[1..], true);
        if lexer.IsControl([s[0]] + lexer.Emit(s[1..], true)) { ControlAtHeadIsInInput(lexer, s); }
        CleanPrepend(lexer, s[0], lexer.Emit(s[1..], true));
      case Drop(n) =>
        var tail := lexer.Emit(s[n..], started);
        EmitIsClean(lexer, s[n..], started);
        if lexer.ParagraphBreak(s[n..], started) == [] {
          assert lexer.Emit(s, started) == tail;
        } else {
          if lexer.IsControl("\n" + tail) { ControlOpens(lexer, "\n" + tail); }
          CleanPrepend(lexer, '\n', tail);
        }
    }
  }

  /** A second pass over clean text takes away at most an unfinished opening at its end. */
  lemma {:induction false} SecondPass(lexer: TagLexer, x: string, started: bool)
    requires lexer.Clean(x)
    ensures lexer.Emit(x, started) + lexer.Held(x) == x
    ensures lexer.Held(x) != [] ==> lexer.IsPartial(lexer.Held(x))
    decreases |x|
  {
    if x != [] {
      assert x[0..] == x && !lexer.IsControl(x[0..]);
      if lexer.StepAt(x) == Keep {
        forall i | 0 <= i <= |x[1..]| ensures !lexer.IsControl(x[1..][i..]) {
          assert x[1..][i..] == x[i + 1..];
        }
        SecondPass(lexer, x[1..], true);
      }
    }
  }

  // -- When a chunked stream leaks a tag ------------------------------

  lemma {:induction false} PlainTextPasses(lexer: TagLexer, s: string, started: bool)
    requires '<' !in s
    ensures lexer.Emit(s, started) == s && lexer.Held(s) == []
    decreases |s|
  {
    if s != [] {
      assert s[0] in s;
      PlainTextPasses(lexer, s[1..], true);
    }
  }

  lemma ControlPrefixesAreLong()
    ensures forall p :: p in Control().prefixes ==> |p| > 4
  {
  }

  lemma OpenBeforeAnotherOpenIsKept(lexer: TagLexer, s: string)
    requires lexer.WellFormed() && forall p :: p in lexer.prefixes ==> |p| > 4
    requires |s| > 4 && s[0] == '<' && s[4] == '<'
    ensures lexer.StepAt(s) == Keep
  {
    forall p | p in lexer.prefixes ensures !Begins(s, p) && !CutInside(s, p) {
      assert PrefixShape(p) && LowerChar(s[4]) != p[4];
    }
  }

  /** Chunked output can hold a tag that no single feed emits: the removed tag ends its chunk,
      so no paragraph break separates the two halves. */
  lemma ChunkedOutputCanLeak()
    ensures
      var deltas := ["<fin<system>", "al_answer>"];
      Flatten(Control().Outputs([], deltas)) == "<final_answer>" && !Control().Clean("<final_answer>")
  {
    hide *;
    var lexer := Control();
    KnownTags();
    ControlIsWellFormed();
    ControlPrefixesAreLong();
    OpenBeforeAnotherOpenIsKept(lexer, "<fin<system>");
    FirstHalfPasses(lexer);
    PlainTextPasses(lexer, "al_answer>", false);
    StripIsEmit(lexer, "al_answer>");
    TwoOutputs(lexer, "<fin<system>", "al_answer>");
    assert "<fin" + "al_answer>" == "<final_answer>";
    ControlIsNotClean(lexer, "<final_answer>");
  }

  lemma StripIsEmit(lexer: TagLexer, s: string)
    ensures lexer.Strip(s) == lexer.Emit(s, false)
  {
  }

  lemma ControlIsNotClean(lexer: TagLexer, s: string)
    requires lexer.IsControl(s)
    ensures !lexer.Clean(s)
  {
    assert s[0..] == s;
  }

  lemma TwoOutputs(lexer: TagLexer, a: string, b: string)
    requires lexer.Held(a) == []
    ensures Flatten(lexer.Outputs([], [a, b])) == lexer.Strip(a) + lexer.Strip(b)
  {
    hide TagLexer.Strip;
    hide TagLexer.Held;
    assert [] + a == a && [] + b == b && [a, b][1..] == [b] && [b][1..] == [];
    assert lexer.Outputs([], [b]) == [lexer.Strip(b)];
    assert lexer.Outputs([], [a, b]) == [lexer.Strip(a)] + [lexer.Strip(b)];
    FlattenAppend([lexer.Strip(a)], [lexer.Strip(b)]);
    assert Flatten([lexer.Strip(a)]) == lexer.Strip(a) + [] && Flatten([lexer.Strip(b)]) == lexer.Strip(b) + [];
  }

  lemma KnownTags()
    ensures Control().IsControl("<system>") && Control().IsControl("<final_answer>")
  {
    assert Begins("<system>", "<system>") && Begins("<final_answer>", "<final_answer");
    hide Begins;
    assert Control().prefixes[10] == "<system>" && Control().prefixes[0] == "<final_answer";
  }

  lemma FirstHalfPasses(lexer: TagLexer)
    requires lexer.StepAt("<fin<system>") == Keep && lexer.IsControl("<system>")
    ensures lexer.Strip("<fin<system>") == "<fin" && lexer.Held("<fin<system>") == []
  {
    hide TagLexer.IsControl;
    hide TagLexer.IsPartial;
    hide TagLexer.Emit;
    hide TagLexer.Held;
    SystemTagIsDropped(lexer);
    KeptThen(lexer, "n<system>", true);
    assert "n<system>"[1..] == "<system>";
    KeptThen(lexer, "in<system>", true);
    assert "in<system>"[1..] == "n<system>";
    KeptThen(lexer, "fin<system>", true);
    assert "fin<system>"[1..] == "in<system>";
    KeptThen(lexer, "<fin<system>", false);
    assert "<fin<system>"[1..] == "fin<system>";
  }

  lemma SystemTagIsDropped(lexer: TagLexer)
    requires lexer.IsControl("<system>")
    ensures lexer.Emit("<system>", true) == [] && lexer.Held("<system>") == []
  {
    var tag := "<system>";
    hide TagLexer.IsControl;
    assert TagEnd(tag[7..]) == 1 && tag[6..][1..] == tag[7..] && tag[5..][1..] == tag[6..];
    assert tag[4..][1..] == tag[5..] && tag[3..][1..] == tag[4..] && tag[2..][1..] == tag[3..];
    assert TagEnd(tag[5..]) == 3 && TagEnd(tag[3..]) == 5 && TagEnd(tag[1..]) == 7;
    assert lexer.StepAt(tag) == Drop(8);
    assert tag[8..] == [];
  }

  lemma CleanPart(lexer: TagLexer, o: string, e: string)
    requires lexer.Clean(o + e)
    ensures lexer.Clean(o) && lexer.Clean(e)
  {
    forall i | 0 <= i <= |o| ensures !lexer.IsControl(o[i..]) {
      assert (o + e)[i..] == o[i..] + e;
      CutStable(lexer, o[i..], e);
    }
    forall i | 0 <= i <= |e| ensures !lexer.IsControl(e[i..]) {
      assert (o + e)[|o| + i..] == e[i..];
    }
  }

  /** The held suffix of clean text starts at its first undecided position. */
  lemma {:induction false} HeldStartsBy(lexer: TagLexer, o: string, i: nat)
    requires lexer.Clean(o) && i < |o| && lexer.StepAt(o[i..]) == Wait
    ensures |lexer.Held(o)| >= |o| - i
    decreases |o|
  {
    assert o[0..] == o && !lexer.IsControl(o[0..]);
    if lexer.StepAt(o) == Keep {
      assert i > 0 && o[i..] == o[1..][i - 1..];
      assert o == o[..1] + o[1..];
      CleanPart(lexer, o[..1], o[1..]);
      HeldStartsBy(lexer, o[1..], i - 1);
    }
  }

  lemma HeldOpensOnce(lexer: TagLexer, o: string, k: nat)
    requires lexer.WellFormed() && lexer.Clean(o) && 0 < k < |lexer.Held(o)|
    ensures lexer.Held(o)[k] != '<'
  {
    var held := lexer.Held(o);
    SecondPass(lexer, o, false);
    var p :| p in lexer.prefixes && CutInside(held, p);
    assert PrefixShape(p) && LowerChar(held[k]) == p[k];
  }

  lemma UnfinishedTagWaits(lexer: TagLexer, rest: string, e: string)
    requires lexer.WellFormed() && rest != [] && !lexer.IsControl(rest) && lexer.IsControl(rest + e)
    ensures rest[0] == '<' && lexer.StepAt(rest) == Wait
  {
    CutStable(lexer, rest, e);
    ControlOpens(lexer, rest + e);
    assert rest[0] == (rest + e)[0];
  }

  lemma CleanAt(lexer: TagLexer, s: string, i: nat)
    requires lexer.Clean(s) && i <= |s|
    ensures !lexer.IsControl(s[i..])
  {
  }

  /** A tag that straddles the end of clean text starts at the text's held suffix. */
  lemma StraddlingTagStartsAtHeld(lexer: TagLexer, o: string, e: string, i: nat)
    requires lexer.WellFormed() && lexer.Clean(o) && i < |o| && lexer.IsControl(o[i..] + e)
    ensures o[i..] == lexer.Held(o)
  {
    hide *;
    CleanAt(lexer, o, i);
    UnfinishedTagWaits(lexer, o[i..], e);
    HeldStartsBy(lexer, o, i);
    HeldIsSuffix(lexer, o);
    var h := |o| - |lexer.Held(o)|;
    forall k | h < k < |o| ensures o[k] != '<' {
      HeldOpensOnce(lexer, o, k - h);
      assert o[k] == o[h..][k - h];
    }
    assert o[i] == o[i..][0];
  }

  /** Appending one clean output to clean text makes a tag appear exactly when the unfinished
      opening at the end of the text, continued by the new output, is a tag. */
  lemma JoinIsCleanIff(lexer: TagLexer, o: string, e: string)
    requires lexer.WellFormed() && lexer.Clean(o) && lexer.Clean(e)
    ensures lexer.Clean(o + e) <==> !lexer.IsControl(lexer.Held(o) + e)
  {
    HeldIsSuffix(lexer, o);
    hide TagLexer.IsControl;
    hide TagLexer.Held;
    var held := lexer.Held(o);
    assert (o + e)[|o| - |held|..] == held + e;
    if !lexer.IsControl(held + e) {
      forall i | 0 <= i <= |o + e| ensures !lexer.IsControl((o + e)[i..]) {
        JoinHasNoTagAt(lexer, o, e, i);
      }
    }
  }

  lemma JoinHasNoTagAt(lexer: TagLexer, o: string, e: string, i: nat)
    requires lexer.WellFormed() && lexer.Clean(o) && lexer.Clean(e) && i <= |o + e|
    requires !lexer.IsControl(lexer.Held(o) + e)
    ensures !lexer.IsControl((o + e)[i..])
  {
    hide TagLexer.IsControl;
    hide TagLexer.Held;
    if i >= |o| {
      assert (o + e)[i..] == e[i - |o|..];
    } else {
      assert (o + e)[i..] == o[i..] + e;
      if lexer.IsControl(o[i..] + e) { StraddlingTagStartsAtHeld(lexer, o, e, i); }
    }
  }

  // -- The same condition on the text that is fed ---------------------

  /** `s` without the removed tags it begins with. */
  function SkipTags(lexer: TagLexer, s: string): string
    decreases |s|
  {
    if s != [] && lexer.StepAt(s).Drop? then SkipTags(lexer, s[lexer.StepAt(s).len..]) else s
  }

  lemma {:induction false} SkippedEmitsNothing(lexer: TagLexer, s: string)
    ensures lexer.Strip(SkipTags(lexer, s)) == lexer.Strip(s)
    ensures var r := SkipTags(lexer, s); r != [] ==> !lexer.StepAt(r).Drop?
    decreases |s|
  {
    hide TagLexer.StepAt;
    if s != [] && lexer.StepAt(s).Drop? {
      var n := lexer.StepAt(s).len;
      SkippedEmitsNothing(lexer, s[n..]);
      DroppedThen(lexer, s, n, false);
    }
  }

  /** A run without '<' at the head of the input is emitted as it is. */
  lemma {:induction false} PlainRunIsEmitted(lexer: TagLexer, r: string, q: string, started: bool)
    requires Begins(r, q) && '<' !in q
    ensures Begins(lexer.Emit(r, started), q)
    decreases |r|
  {
    if q != [] {
      assert q[0] in q && LowerChar(r[0]) == q[0];
      assert lexer.StepAt(r) == Keep;
      forall k | 0 <= k < |q[1..]| ensures LowerChar(r[1..][k]) == q[1..][k] { assert r[1..][k] == r[k + 1]; }
      PlainRunIsEmitted(lexer, r[1..], q[1..], true);
      var e := lexer.Emit(r, started);
      assert e == [r[0]] + lexer.Emit(r[1..], true);
      forall k | 0 <= k < |q| ensures LowerChar(e[k]) == q[k] {
        if k > 0 { assert e[k] == lexer.Emit(r[1..], true)[k - 1] && q[k] == q[1..][k - 1]; }
      }
    }
  }

  lemma BeginsLater(h: string, x: string, p: string)
    requires |h| <= |p|
    ensures Begins(h + x, p) <==> Begins(h, p[..|h|]) && Begins(x, p[|h|..])
  {
    var n, u := |h|, h + x;
    if Begins(u, p) {
      assert forall k :: 0 <= k < n ==> LowerChar(u[k]) == p[k];
      forall k | 0 <= k < |p| - n ensures LowerChar(x[k]) == p[n..][k] { assert u[n + k] == x[k]; }
    }
    if Begins(h, p[..n]) && Begins(x, p[n..]) {
      forall k | 0 <= k < |p| ensures LowerChar(u[k]) == p[k] {
        if k >= n { assert u[k] == x[k - n] && p[n..][k - n] == p[k]; } else { assert p[..n][k] == p[k]; }
      }
    }
  }

  lemma BeginsEarlier(h: string, x: string, y: string, p: string)
    requires |p| <= |h| && Begins(h + x, p)
    ensures Begins(h + y, p)
  {
    forall k | 0 <= k < |p| ensures LowerChar((h + y)[k]) == p[k] { assert (h + x)[k] == (h + y)[k]; }
  }

  /** What a feed emits begins with `q`, which holds no '<' and no break character, exactly when the fed text
      does after the tags that it begins with. */
  lemma RunAtHeadIff(lexer: TagLexer, r: string, q: string)
    requires r != [] ==> !lexer.StepAt(r).Drop?
    requires q != [] && forall k :: 0 <= k < |q| ==> q[k] != '<' && !IsBreak(q[k])
    ensures Begins(lexer.Strip(r), q) <==> Begins(r, q)
  {
    if Begins(r, q) { PlainRunIsEmitted(lexer, r, q, false); }
    if Begins(lexer.Strip(r), q) {
      var e := lexer.Strip(r);
      assert LowerChar(e[0]) == q[0];
      KeptThen(lexer, r, false);
      var tail := lexer.Emit(r[1..], true);
      forall k | 0 <= k < |q| - 1 ensures LowerChar(tail[k]) == q[1..][k] { assert e[k + 1] == tail[k]; }
      EmittedRunIsInInput(lexer, r[1..], q[1..]);
      forall k | 0 <= k < |q| ensures LowerChar(r[k]) == q[k] {
        if k > 0 { assert r[k] == r[1..][k - 1] && q[k] == q[1..][k - 1]; }
      }
    }
  }

  lemma PrefixRest(p: string, n: nat)
    requires PrefixShape(p) && 0 < n < |p|
    ensures p[n..] != [] && forall k :: 0 <= k < |p[n..]| ==> p[n..][k] != '<' && !IsBreak(p[n..][k])
  {
  }

  lemma ControlAfterIff(lexer: TagLexer, h: string, s: string, p: string)
    requires PrefixShape(p) && h != []
    ensures Begins(h + lexer.Strip(s), p) <==> Begins(h + SkipTags(lexer, s), p)
  {
    var e, r := lexer.Strip(s), SkipTags(lexer, s);
    hide TagLexer.Strip; hide SkipTags; hide TagLexer.StepAt; hide Begins;
    SkippedEmitsNothing(lexer, s);
    if |p| <= |h| {
      if Begins(h + e, p) { BeginsEarlier(h, e, r, p); }
      if Begins(h + r, p) { BeginsEarlier(h, r, e, p); }
    } else {
      BeginsLater(h, e, p);
      BeginsLater(h, r, p);
      PrefixRest(p, |h|);
      RunAtHeadIff(lexer, r, p[|h|..]);
    }
  }

  /** Whether a feed completes an unfinished opening `h` can be read off the fed text: what counts is the text
      after the tags that it begins with. */
  lemma CompletionIff(lexer: TagLexer, h: string, s: string)
    requires lexer.WellFormed() && h != []
    ensures lexer.IsControl(h + lexer.Strip(s)) <==> lexer.IsControl(h + SkipTags(lexer, s))
  {
    hide TagLexer.Strip; hide SkipTags; hide Begins; hide PrefixShape;
    forall p | p in lexer.prefixes
      ensures Begins(h + lexer.Strip(s), p) <==> Begins(h + SkipTags(lexer, s), p)
    {
      ControlAfterIff(lexer, h, s, p);
    }
  }

  /** No feed completes the unfinished opening `open` that the stream has come to end with; computed from the
      deltas before any is fed. */
  predicate NeverCompletes(lexer: TagLexer, open: string, pending: string, deltas: seq<string>)
    decreases |deltas|
  {
    deltas == []
    || var s := pending + deltas[0];
       && (open != [] ==> !lexer.IsControl(open + SkipTags(lexer, s)))
       && NeverCompletes(lexer, lexer.Held(open + lexer.Strip(s)), lexer.Held(s), deltas[1..])
  }

  lemma {:induction false} OutputsAreClean(lexer: TagLexer, pending: string, deltas: seq<string>)
    requires lexer.WellFormed()
    ensures forall e :: e in lexer.Outputs(pending, deltas) ==> lexer.Clean(e)
    decreases |deltas|
  {
    if deltas != [] {
      EmitIsClean(lexer, pending + deltas[0], false);
      OutputsAreClean(lexer, lexer.Held(pending + deltas[0]), deltas[1..]);
    }
  }

  /** One feed after clean text. */
  lemma FeedIsCleanIff(lexer: TagLexer, o: string, s: string)
    requires lexer.WellFormed() && lexer.Clean(o)
    ensures
      var open := lexer.Held(o);
      lexer.Clean(o + lexer.Strip(s)) <==> (open != [] ==> !lexer.IsControl(open + SkipTags(lexer, s)))
  {
    var e, open := lexer.Strip(s), lexer.Held(o);
    EmitIsClean(lexer, s, false);
    JoinIsCleanIff(lexer, o, e);
    hide TagLexer.IsControl; hide TagLexer.Held; hide SkipTags;
    if open == [] {
      assert open + e == e[0..];
    } else {
      CompletionIff(lexer, open, s);
    }
  }

  lemma {:induction false} RunIsCleanIff(lexer: TagLexer, o: string, pending: string, deltas: seq<string>)
    requires lexer.WellFormed() && lexer.Clean(o)
    ensures
      lexer.Clean(o + Flatten(lexer.Outputs(pending, deltas)))
      <==> NeverCompletes(lexer, lexer.Held(o), pending, deltas)
    decreases |deltas|
  {
    hide TagLexer.Clean; hide TagLexer.Held; hide TagLexer.Strip; hide TagLexer.IsControl; hide SkipTags;
    if deltas == [] {
      assert o + Flatten(lexer.Outputs(pending, deltas)) == o;
    } else {
      var s := pending + deltas[0];
      var e, rest := lexer.Strip(s), lexer.Outputs(lexer.Held(s), deltas[1..]);
      assert lexer.Outputs(pending, deltas) == [e] + rest;
      assert o + Flatten([e] + rest) == (o + e) + Flatten(rest);
      FeedIsCleanIff(lexer, o, s);
      if lexer.Clean(o + e) {
        ScanSplit(lexer, o, e);
        RunIsCleanIff(lexer, o + e, lexer.Held(s), deltas[1..]);
      } else if lexer.Clean((o + e) + Flatten(rest)) {
        CleanPart(lexer, o + e, Flatten(rest));
      }
    }
  }

  lemma NothingIsClean(lexer: TagLexer)
    requires lexer.WellFormed()
    ensures lexer.Clean([]) && lexer.Held([]) == []
  {
    if lexer.IsControl([]) { ControlOpens(lexer, []); }
  }

  /** For every list of deltas: the whole stream is free of tags if and only if no delta, read together with
      the text held back and after the tags this begins with, completes the unfinished opening that the
      stream had come to end with. */
  lemma StreamIsCleanIff(lexer: TagLexer, deltas: seq<string>)
    requires lexer.WellFormed()
    ensures lexer.Clean(Flatten(lexer.Outputs([], deltas))) <==> NeverCompletes(lexer, [], [], deltas)
  {
    NothingIsClean(lexer);
    RunIsCleanIff(lexer, [], [], deltas);
    assert [] + Flatten(lexer.Outputs([], deltas)) == Flatten(lexer.Outputs([], deltas));
  }

  // -- Tags inside the deltas do no harm ------------------------------

  predicate BeginsWithTag(lexer: TagLexer, s: string) { s != [] && lexer.StepAt(s).Drop? }

  /** The last thing the lexer does with `s` is to remove a tag. */
  predicate EndsWithTag(lexer: TagLexer, s: string)
    decreases |s|
  {
    s != []
    && match lexer.StepAt(s)
       case Keep => EndsWithTag(lexer, s[1..])
       case Wait => false
       case Drop(n) => s[n..] == [] || EndsWithTag(lexer, s[n..])
  }

  /** No fed text, pending text included, begins or ends with a removed tag. */
  predicate TagsInside(lexer: TagLexer, pending: string, deltas: seq<string>)
    decreases |deltas|
  {
    deltas == []
    || var s := pending + deltas[0];
       && !BeginsWithTag(lexer, s) && !EndsWithTag(lexer, s)
       && TagsInside(lexer, lexer.Held(s), deltas[1..])
  }

  /** Text that is emitted without any break, and followed by nothing held or removed, is the input itself. */
  lemma {:induction false} UnbrokenTextIsInput(lexer: TagLexer, r: string)
    requires lexer.Held(r) == [] && !EndsWithTag(lexer, r)
    requires forall k :: 0 <= k < |lexer.Emit(r, true)| ==> !IsBreak(lexer.Emit(r, true)[k])
    ensures lexer.Emit(r, true) == r
    decreases |r|
  {
    if r != [] {
      match lexer.StepAt(r)
      case Wait => assert false;
      case Keep =>
        var e := lexer.Emit(r, true);
        assert e == [r[0]] + lexer.Emit(r[1..], true);
        forall k | 0 <= k < |lexer.Emit(r[1..], true)| ensures !IsBreak(lexer.Emit(r[1..], true)[k]) {
          assert e[k + 1] == lexer.Emit(r[1..], true)[k];
        }
        UnbrokenTextIsInput(lexer, r[1..]);
      case Drop(n) =>
        AfterDropComesBreak(lexer, r);
        DropEmitsSomething(lexer, r, n);
        assert false;
    }
  }

  lemma {:induction false} SomethingIsEmitted(lexer: TagLexer, r: string, started: bool)
    requires r != [] && lexer.Held(r) == [] && !EndsWithTag(lexer, r)
    ensures lexer.Emit(r, started) != []
    decreases |r|
  {
    match lexer.StepAt(r)
    case Wait =>
    case Keep =>
    case Drop(n) => SomethingIsEmitted(lexer, r[n..], started);
  }

  lemma DropEmitsSomething(lexer: TagLexer, r: string, n: nat)
    requires r != [] && lexer.StepAt(r) == Drop(n) && lexer.Held(r) == [] && !EndsWithTag(lexer, r)
    ensures lexer.Emit(r, true) != []
  {
    SomethingIsEmitted(lexer, r, true);
  }

  lemma PartialHasNoBreak(lexer: TagLexer, x: string)
    requires lexer.WellFormed() && lexer.IsPartial(x)
    ensures forall k :: 0 < k < |x| ==> x[k] != '<' && !IsBreak(x[k])
  {
    var p :| p in lexer.prefixes && CutInside(x, p);
    assert PrefixShape(p);
    forall k | 0 < k < |x| ensures x[k] != '<' && !IsBreak(x[k]) { assert LowerChar(x[k]) == p[k]; }
  }

  /** A feed that holds nothing back and does not end with a removed tag leaves no opening behind. */
  lemma {:induction false} NoOpeningLeft(lexer: TagLexer, s: string, started: bool)
    requires lexer.WellFormed() && lexer.Held(s) == [] && !EndsWithTag(lexer, s)
    ensures lexer.Held(lexer.Emit(s, started)) == []
    decreases |s|
  {
    if s != [] {
      match lexer.StepAt(s)
      case Wait =>
      case Keep =>
        NoOpeningLeft(lexer, s[1..], true);
        KeptCharIsKeptAgain(lexer, s, started);
      case Drop(n) =>
        NoOpeningLeft(lexer, s[n..], started);
        var tail := lexer.Emit(s[n..], started);
        if lexer.ParagraphBreak(s[n..], started) == [] {
          assert lexer.Emit(s, started) == tail;
        } else {
          assert lexer.StepAt("\n" + tail) == Keep && ("\n" + tail)[1..] == tail;
        }
    }
  }

  /** An output that is cut inside a prefix is the input itself. */
  lemma PartialOutputIsInput(lexer: TagLexer, s: string)
    requires lexer.WellFormed() && s != [] && lexer.Held(s[1..]) == [] && !EndsWithTag(lexer, s[1..])
    requires lexer.IsPartial([s[0]] + lexer.Emit(s[1..], true))
    ensures [s[0]] + lexer.Emit(s[1..], true) == s
  {
    hide TagLexer.Emit; hide TagLexer.IsPartial;
    var tail := lexer.Emit(s[1..], true);
    var e := [s[0]] + tail;
    PartialHasNoBreak(lexer, e);
    forall k | 0 <= k < |tail| ensures !IsBreak(tail[k]) { assert e[k + 1] == tail[k]; }
    UnbrokenTextIsInput(lexer, s[1..]);
  }

  lemma KeptCharIsKeptAgain(lexer: TagLexer, s: string, started: bool)
    requires lexer.WellFormed() && s != [] && lexer.StepAt(s) == Keep
    requires lexer.Held(s) == [] && !EndsWithTag(lexer, s)
    ensures lexer.Held(lexer.Emit(s, started)) == lexer.Held(lexer.Emit(s[1..], true))
  {
    var e, tail := lexer.Emit(s, started), lexer.Emit(s[1..], true);
    KeptThen(lexer, s, started);
    EmitIsClean(lexer, s, started);
    CleanAt(lexer, e, 0);
    assert e[0..] == e && e[1..] == tail;
    hide TagLexer.Emit;
    if e[0] == '<' && lexer.IsPartial(e) {
      PartialOutputIsInput(lexer, s);
      assert false;
    }
    assert lexer.StepAt(e) == Keep;
  }

  /** A new opening cuts the old one off. */
  lemma {:induction false} NewOpeningCutsOff(lexer: TagLexer, x: string, e: string)
    requires lexer.WellFormed() && e != [] && e[0] == '<' && !lexer.IsControl(x)
    requires forall k :: 0 < k < |x| ==> x[k] != '<'
    ensures !lexer.IsControl(x + e) || x == []
    ensures lexer.Held(x + e) == lexer.Held(e)
    decreases |x|
  {
    if x == [] {
      assert x + e == e;
    } else {
      var u := x + e;
      assert u[|x|] == '<';
      if lexer.IsPartial(u) { PartialHasNoBreak(lexer, u); }
      if lexer.IsControl(u) { ControlReaches(lexer, x, e); }
      assert lexer.StepAt(u) == Keep && u[1..] == x[1..] + e;
      if lexer.IsControl(x[1..]) { ControlOpens(lexer, x[1..]); }
      NewOpeningCutsOff(lexer, x[1..], e);
    }
  }

  lemma ControlReaches(lexer: TagLexer, x: string, e: string)
    requires lexer.WellFormed() && x != [] && e != [] && e[0] == '<' && lexer.IsControl(x + e)
    ensures lexer.IsControl(x)
  {
    var u := x + e;
    var p :| p in lexer.prefixes && Begins(u, p);
    assert PrefixShape(p);
    forall k | 0 < k < |p| ensures u[k] != '<' { assert LowerChar(u[k]) == p[k]; }
    assert u[|x|] == '<';
    forall k | 0 <= k < |p| ensures LowerChar(x[k]) == p[k] { assert u[k] == x[k]; }
    assert Begins(x, p);
  }

  lemma HeldOfCleanIsOpen(lexer: TagLexer, o: string)
    requires lexer.WellFormed() && lexer.Clean(o)
    ensures !lexer.IsControl(lexer.Held(o)) && forall k :: 0 < k < |lexer.Held(o)| ==> lexer.Held(o)[k] != '<'
  {
    HeldIsSuffix(lexer, o);
    CleanAt(lexer, o, |o| - |lexer.Held(o)|);
    hide TagLexer.Held; hide TagLexer.IsControl; hide TagLexer.Clean;
    forall k | 0 < k < |lexer.Held(o)| ensures lexer.Held(o)[k] != '<' { HeldOpensOnce(lexer, o, k); }
  }

  /** A fed text with its tags inside completes nothing, and leaves an opening only if it holds one back. */
  lemma FeedWithTagsInside(lexer: TagLexer, open: string, s: string)
    requires lexer.WellFormed() && !lexer.IsControl(open) && forall k :: 0 < k < |open| ==> open[k] != '<'
    requires !BeginsWithTag(lexer, s) && !EndsWithTag(lexer, s)
    requires lexer.Held(open) == open && (open != [] ==> s != [] && s[0] == '<')
    ensures open != [] ==> !lexer.IsControl(open + SkipTags(lexer, s))
    ensures lexer.Held(s) == [] ==> lexer.Held(open + lexer.Strip(s)) == []
  {
    assert SkipTags(lexer, s) == s;
    if open == [] {
      assert open + lexer.Strip(s) == lexer.Strip(s);
    } else {
      NewOpeningCutsOff(lexer, open, s);
      if lexer.Held(s) == [] {
        KeptThen(lexer, s, false);
        assert lexer.Strip(s)[0] == '<';
        NewOpeningCutsOff(lexer, open, lexer.Strip(s));
      }
    }
    hide TagLexer.IsControl; hide TagLexer.Strip;
    if lexer.Held(s) == [] { NoOpeningLeft(lexer, s, false); StripIsEmit(lexer, s); }
  }

  lemma {:induction false} RunWithTagsInside(lexer: TagLexer, o: string, pending: string, deltas: seq<string>)
    requires lexer.WellFormed() && lexer.Clean(o) && Undecided(lexer, pending) && TagsInside(lexer, pending, deltas)
    requires lexer.Held(o) != [] ==> pending != []
    ensures NeverCompletes(lexer, lexer.Held(o), pending, deltas)
    decreases |deltas|
  {
    if deltas != [] {
      var s, open := pending + deltas[0], lexer.Held(o);
      HeldOfCleanIsOpen(lexer, o);
      HeldIsUndecided(lexer, o);
      UndecidedStays(lexer, open, false);
      FeedWithTagsInside(lexer, open, s);
      FeedIsCleanIff(lexer, o, s);
      ScanSplit(lexer, o, lexer.Strip(s));
      HeldIsUndecided(lexer, s);
      hide TagLexer.IsControl; hide TagLexer.Strip; hide TagLexer.Held; hide SkipTags; hide TagLexer.Clean;
      hide BeginsWithTag; hide EndsWithTag;
      RunWithTagsInside(lexer, o + lexer.Strip(s), lexer.Held(s), deltas[1..]);
    }
  }

  /** In particular a stream is clean when no fed text begins or ends with a removed tag: only tags at the edge
      of a delta can bring two pieces of text together. */
  lemma StreamIsCleanWhenTagsAreInside(lexer: TagLexer, deltas: seq<string>)
    requires lexer.WellFormed() && TagsInside(lexer, [], deltas)
    ensures lexer.Clean(Flatten(lexer.Outputs([], deltas)))
  {
    NothingIsClean(lexer);
    StreamIsCleanIff(lexer, deltas);
    RunWithTagsInside(lexer, [], [], deltas);
  }
}
