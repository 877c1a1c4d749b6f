/** What the control-token filter takes for a tag, character by character
    (zhongshu-message-core/src/streaming.rs:16-31, 62-140). */
module TagMeaning {
  import opened ControlFilter
  import opened FilterLaws
  import opened Text

  /** The small character itself, or the capital of a small letter. */
  predicate Reads(c: char, small: char) { c == small || ('a' <= small <= 'z' && c as int == small as int - 32) }

  predicate Spells(s: string, p: string) { |s| == |p| && forall k :: 0 <= k < |p| ==> Reads(s[k], p[k]) }

  const NAMES := ["final_answer", "final-answer", "observation", "lcm_context", "tool_result", "system>",
                  "compressed_summary"]

  /** How a tag begins: a bracket, perhaps a slash, and a name. */
  predicate Opening(p: string) { exists i :: 0 <= i < |NAMES| && (p == "<" + NAMES[i] || p == "</" + NAMES[i]) }

  /** A whole tag: the spelling of an opening, and what follows it up to the first '>'. */
  ghost predicate IsTag(lexer: TagLexer, t: string) {
    t != [] && t[|t| - 1] == '>' && '>' !in t[..|t| - 1] && SpellsOpening(lexer, t)
  }

  /** An opening is spelled at the head of the text. */
  ghost predicate SpellsOpening(lexer: TagLexer, s: string) {
    exists p :: p in lexer.prefixes && |p| <= |s| && Spells(s[..|p|], p)
  }

  /** The text stops inside an opening. */
  ghost predicate StopsInside(lexer: TagLexer, s: string) {
    exists p :: p in lexer.prefixes && |s| < |p| && Spells(s, p[..|s|])
  }

  /** A tag that is still open, or a text that stops inside an opening. */
  ghost predicate IsUnfinished(lexer: TagLexer, s: string) {
    ('>' !in s && SpellsOpening(lexer, s)) || StopsInside(lexer, s)
  }

  ghost predicate BeginsWithWholeTag(lexer: TagLexer, s: string) { exists n :: 0 <= n <= |s| && IsTag(lexer, s[..n]) }

  /** What the known prefixes have in common. */
  predicate Usual(lexer: TagLexer) { lexer.WellFormed() && forall p :: p in lexer.prefixes ==> Small(p) }

  // -- The lexer's tests mean this ------------------------------------

  /** No capitals, and a '>' at most at the end. */
  predicate Small(p: string) {
    p != [] && forall k :: 0 <= k < |p| ==> !('A' <= p[k] <= 'Z') && (p[k] == '>' ==> k == |p| - 1)
  }

  /** The two prefixes made of one name. */
  predicate IsPair(i: nat) {
    && i < |NAMES| && |Control().prefixes| == 2 * |NAMES|
    && Control().prefixes[2 * i] == "<" + NAMES[i] && Control().prefixes[2 * i + 1] == "</" + NAMES[i]
    && Small("<" + NAMES[i]) && Small("</" + NAMES[i])
  }

  lemma Pair0()
    ensures IsPair(0)
  {
  }

  lemma Pair1()
    ensures IsPair(1)
  {
  }

  lemma Pair2()
    ensures IsPair(2)
  {
  }

  lemma Pair3()
    ensures IsPair(3)
  {
  }

  lemma Pair4()
    ensures IsPair(4)
  {
  }

  lemma Pair5()
    ensures IsPair(5)
  {
  }

  lemma LastPairIsSmall()
    ensures Small("<" + NAMES[6]) && Small("</" + NAMES[6])
  {
  }

  lemma Pair6()
    ensures IsPair(6)
  {
    LastPairIsSmall();
    hide Small;
  }

  lemma AllPairs()
    ensures |NAMES| == 7 && forall i: nat :: i < |NAMES| ==> IsPair(i)
  {
    hide IsPair;
    Pair0();
    Pair1();
    Pair2();
    Pair3();
    Pair4();
    Pair5();
    Pair6();
  }

  /** The known prefixes are exactly the openings, and hold no capitals. */
  lemma PrefixesAreOpenings(p: string)
    ensures p in Control().prefixes <==> Opening(p)
    ensures Opening(p) ==> Small(p) && PrefixShape(p)
  {
    ControlIsWellFormed();
    AllPairs();
    hide Control; hide Small; hide PrefixShape;
    if Opening(p) {
      var i :| 0 <= i < |NAMES| && (p == "<" + NAMES[i] || p == "</" + NAMES[i]);
      assert IsPair(i);
    }
    if p in Control().prefixes {
      var j :| 0 <= j < |Control().prefixes| && Control().prefixes[j] == p;
      assert IsPair(0) && IsPair(j / 2);
    }
  }

  lemma BeginsMeans(s: string, p: string)
    requires Small(p)
    ensures Begins(s, p) <==> |p| <= |s| && Spells(s[..|p|], p)
    ensures CutInside(s, p) <==> |s| <= |p| && Spells(s, p[..|s|])
  {
    forall c, k | 0 <= k < |p| ensures LowerChar(c) == p[k] <==> Reads(c, p[k]) { LowerCharMeans(c, p[k]); }
    hide LowerChar; hide Reads;
    if Begins(s, p) {
      forall k | 0 <= k < |p| ensures Reads(s[..|p|][k], p[k]) { assert LowerChar(s[k]) == p[k]; }
    }
    if |p| <= |s| && Spells(s[..|p|], p) {
      forall k | 0 <= k < |p| ensures LowerChar(s[k]) == p[k] { assert Reads(s[..|p|][k], p[k]); }
    }
    if CutInside(s, p) {
      forall k | 0 <= k < |s| ensures Reads(s[k], p[..|s|][k]) { assert LowerChar(s[k]) == p[k]; }
    }
    if |s| <= |p| && Spells(s, p[..|s|]) {
      forall k | 0 <= k < |s| ensures LowerChar(s[k]) == p[k] { assert Reads(s[k], p[..|s|][k]); }
    }
  }

  lemma LowerCharMeans(c: char, small: char)
    requires !('A' <= small <= 'Z')
    ensures LowerChar(c) == small <==> Reads(c, small)
  {
  }

  lemma {:induction false} TagEndMeans(s: string)
    ensures TagEnd(s) == 0 <==> '>' !in s
    ensures TagEnd(s) > 0 ==> s[TagEnd(s) - 1] == '>' && '>' !in s[..TagEnd(s) - 1]
  {
    if s != [] && s[0] != '>' {
      TagEndMeans(s[1..]);
      var n := TagEnd(s);
      assert s == [s[0]] + s[1..];
      if n > 0 { assert s[..n - 1] == [s[0]] + s[1..][..n - 2]; }
    }
  }

  lemma FirstClose(s: string, n: nat)
    requires 0 < n <= |s| && s[n - 1] == '>' && '>' !in s[..n - 1]
    ensures TagEnd(s) == n
  {
    TagEndMeans(s);
    var m := TagEnd(s);
    assert s[n - 1] in s;
    forall k | 0 <= k < n - 1 ensures s[k] != '>' { assert s[..n - 1][k] in s[..n - 1]; }
    forall k | 0 <= k < m - 1 ensures s[k] != '>' { assert s[..m - 1][k] in s[..m - 1]; }
  }

  lemma IsControlMeans(lexer: TagLexer, s: string)
    requires Usual(lexer)
    ensures lexer.IsControl(s) <==> SpellsOpening(lexer, s)
  {
    forall p | p in lexer.prefixes ensures Begins(s, p) <==> |p| <= |s| && Spells(s[..|p|], p) { BeginsMeans(s, p); }
    hide Begins; hide Spells;
  }

  lemma IsPartialMeans(lexer: TagLexer, s: string)
    requires Usual(lexer)
    ensures StopsInside(lexer, s) ==> lexer.IsPartial(s)
    ensures lexer.IsPartial(s) ==> StopsInside(lexer, s) || lexer.IsControl(s)
  {
    IsControlMeans(lexer, s);
    forall p | p in lexer.prefixes ensures CutInside(s, p) <==> |s| <= |p| && Spells(s, p[..|s|]) { BeginsMeans(s, p); }
    hide CutInside; hide Spells; hide TagLexer.IsControl;
    if lexer.IsPartial(s) {
      var p :| p in lexer.prefixes && CutInside(s, p);
      if |s| == |p| { assert p[..|s|] == p && s[..|p|] == s; }
    }
  }

  lemma PartialOpens(lexer: TagLexer, s: string)
    requires lexer.WellFormed() && s != [] && lexer.IsPartial(s)
    ensures s[0] == '<'
  {
    var p :| p in lexer.prefixes && CutInside(s, p);
    assert PrefixShape(p) && LowerChar(s[0]) == p[0];
  }

  /** An opening reaches at most as far as the first '>'. */
  lemma OpeningEndsBy(s: string, p: string, n: nat)
    requires Small(p) && |p| <= |s| && Spells(s[..|p|], p) && 0 < n <= |s| && s[n - 1] == '>'
    ensures |p| <= n
  {
    assert n <= |p| ==> s[..|p|][n - 1] == s[n - 1];
  }

  lemma TagIsDropped(lexer: TagLexer, s: string, n: nat)
    requires Usual(lexer) && n <= |s| && IsTag(lexer, s[..n])
    ensures s != [] && lexer.StepAt(s) == Drop(n)
  {
    var t := s[..n];
    assert SpellsOpening(lexer, s) by {
      hide Spells;
      var p :| p in lexer.prefixes && |p| <= |t| && Spells(t[..|p|], p);
      assert t[..|p|] == s[..|p|];
    }
    IsControlMeans(lexer, s);
    ControlOpens(lexer, s);
    hide SpellsOpening; hide TagLexer.IsControl; hide TagLexer.WellFormed;
    assert s[n - 1] == t[n - 1] && s[..n - 1] == t[..n - 1];
    FirstClose(s, n);
  }

  lemma DroppedIsTag(lexer: TagLexer, s: string)
    requires Usual(lexer) && s != [] && lexer.StepAt(s).Drop?
    ensures IsTag(lexer, s[..lexer.StepAt(s).len])
  {
    IsControlMeans(lexer, s);
    TagEndMeans(s);
    hide TagLexer.IsControl; hide Spells; hide TagLexer.WellFormed;
    var n := TagEnd(s);
    var p :| p in lexer.prefixes && |p| <= |s| && Spells(s[..|p|], p);
    OpeningEndsBy(s, p, n);
    assert s[..n][..|p|] == s[..|p|] && s[..n][..n - 1] == s[..n - 1];
  }

  /** The lexer waits exactly at an unfinished tag. */
  lemma WaitMeans(lexer: TagLexer, s: string)
    requires Usual(lexer) && s != []
    ensures lexer.StepAt(s) == Wait <==> IsUnfinished(lexer, s) && !BeginsWithWholeTag(lexer, s)
  {
    IsControlMeans(lexer, s);
    IsPartialMeans(lexer, s);
    TagEndMeans(s);
    if BeginsWithWholeTag(lexer, s) {
      var n :| 0 <= n <= |s| && IsTag(lexer, s[..n]);
      TagIsDropped(lexer, s, n);
    }
    if lexer.StepAt(s).Drop? { DroppedIsTag(lexer, s); }
    if lexer.IsControl(s) { ControlOpens(lexer, s); }
    if lexer.IsPartial(s) { PartialOpens(lexer, s); }
    hide IsTag; hide SpellsOpening; hide StopsInside; hide TagLexer.IsControl; hide TagLexer.IsPartial;
    hide TagLexer.WellFormed;
  }

  // -- What the filter does, in these words ---------------------------

  /** A whole tag at the head of the input is taken out, and leaves a newline behind if something was given out
      before it and what follows does not begin with white space; an unfinished tag is held back as it is; and
      every other character is given out. */
  lemma FilterMeans(lexer: TagLexer, s: string, started: bool)
    requires Usual(lexer) && s != []
    ensures
      forall n :: 0 <= n <= |s| && IsTag(lexer, s[..n]) ==>
        var rest := s[n..];
        var newline := started && rest != [] && rest[0] != '\n' && rest[0] != ' ' && rest[0] != '\t';
        && lexer.Emit(s, started) == (if newline then "\n" else "") + lexer.Emit(rest, started)
        && lexer.Held(s) == lexer.Held(rest)
    ensures
      IsUnfinished(lexer, s) && !BeginsWithWholeTag(lexer, s) ==> lexer.Emit(s, started) == [] && lexer.Held(s) == s
    ensures
      !IsUnfinished(lexer, s) && !BeginsWithWholeTag(lexer, s) ==>
        && lexer.Emit(s, started) == [s[0]] + lexer.Emit(s[1..], true)
        && lexer.Held(s) == lexer.Held(s[1..])
  {
    WaitMeans(lexer, s);
    if lexer.StepAt(s).Drop? {
      DroppedIsTag(lexer, s);
      assert BeginsWithWholeTag(lexer, s);
    }
    hide IsTag; hide IsUnfinished; hide Usual; hide TagLexer.StepAt;
    forall n | 0 <= n <= |s| && IsTag(lexer, s[..n])
      ensures lexer.StepAt(s) == Drop(n)
    {
      TagIsDropped(lexer, s, n);
    }
  }

  lemma WholeTagIsRemoved(lexer: TagLexer, tag: string, t: string)
    requires Usual(lexer) && IsTag(lexer, tag)
    ensures lexer.Strip(tag + t) == lexer.Strip(t) && lexer.Held(tag + t) == lexer.Held(t)
  {
    assert (tag + t)[..|tag|] == tag && (tag + t)[|tag|..] == t;
    FilterMeans(lexer, tag + t, false);
    assert "" + lexer.Emit(t, false) == lexer.Emit(t, false);
    hide IsTag; hide Usual; hide TagLexer.Emit; hide TagLexer.Held;
  }

  lemma SpellingIsTag(lexer: TagLexer, p: string, tag: string)
    requires Usual(lexer) && p in lexer.prefixes && |p| <= |tag| && Spells(tag[..|p|], p)
    requires tag[|tag| - 1] == '>' && (|tag| > |p| ==> p[|p| - 1] != '>')
    requires forall k :: |p| <= k < |tag| - 1 ==> tag[k] != '>'
    ensures IsTag(lexer, tag)
  {
    forall k | 0 <= k < |tag| - 1 ensures tag[k] != '>' {
      if k < |p| { assert Reads(tag[..|p|][k], p[k]); }
    }
    hide Spells;
  }

  /** Every tag is removed in any letter case, whatever it holds. */
  lemma AnyCaseIsRemoved(lexer: TagLexer, p: string, s: string, u: string, t: string)
    requires Usual(lexer) && p in lexer.prefixes && Spells(s, p)
    ensures p[|p| - 1] == '>' ==> lexer.Strip(s + t) == lexer.Strip(t)
    ensures p[|p| - 1] != '>' && '>' !in u ==> lexer.Strip(s + u + ">" + t) == lexer.Strip(t)
  {
    if p[|p| - 1] == '>' {
      assert Reads(s[|p| - 1], p[|p| - 1]);
      assert s[..|p|] == s;
      SpellingIsTag(lexer, p, s);
      WholeTagIsRemoved(lexer, s, t);
    } else if '>' !in u {
      var tag := s + u + ">";
      assert tag[..|p|] == s;
      forall k | |p| <= k < |tag| - 1 ensures tag[k] != '>' { assert tag[k] == u[k - |p|]; }
      SpellingIsTag(lexer, p, tag);
      WholeTagIsRemoved(lexer, tag, t);
    }
  }

  /** Nothing that one feed gives out spells an opening anywhere. */
  lemma OutputSpellsNoOpening(lexer: TagLexer, s: string, started: bool, i: nat, p: string)
    requires Usual(lexer) && p in lexer.prefixes && i + |p| <= |lexer.Emit(s, started)|
    ensures !Spells(lexer.Emit(s, started)[i..i + |p|], p)
  {
    var e := lexer.Emit(s, started);
    EmitIsClean(lexer, s, started);
    CleanAt(lexer, e, i);
    IsControlMeans(lexer, e[i..]);
    hide Spells; hide Usual; hide TagLexer.Emit; hide TagLexer.Clean; hide TagLexer.IsControl;
    assert e[i..][..|p|] == e[i..i + |p|];
  }

  /** The text holds no whole tag, and no tag is unfinished at its end. */
  ghost predicate HasNoTag(lexer: TagLexer, s: string) {
    forall i :: 0 <= i < |s| ==> !BeginsWithWholeTag(lexer, s[i..]) && !IsUnfinished(lexer, s[i..])
  }

  lemma ShorterWithTag(lexer: TagLexer, s: string, started: bool)
    requires Usual(lexer) && s != [] && (BeginsWithWholeTag(lexer, s) || IsUnfinished(lexer, s))
    ensures |lexer.Emit(s, started)| < |s|
  {
    WaitMeans(lexer, s);
    if BeginsWithWholeTag(lexer, s) {
      var n :| 0 <= n <= |s| && IsTag(lexer, s[..n]);
      TagIsDropped(lexer, s, n);
      FeedNeverGrows(lexer, s[n..], started);
    }
    hide IsUnfinished; hide BeginsWithWholeTag; hide Usual;
  }

  lemma NoTagLater(lexer: TagLexer, s: string)
    requires s != []
    ensures
      HasNoTag(lexer, s) <==>
        !BeginsWithWholeTag(lexer, s) && !IsUnfinished(lexer, s) && HasNoTag(lexer, s[1..])
  {
    hide BeginsWithWholeTag; hide IsUnfinished;
    assert s[0..] == s;
    assert forall i :: 0 <= i < |s| - 1 ==> s[1..][i..] == s[i + 1..];
    assert forall i :: 1 <= i < |s| ==> s[i..] == s[1..][i - 1..];
  }

  /** Text without tags passes unchanged, and no other does. */
  lemma {:induction false} UntouchedIff(lexer: TagLexer, s: string, started: bool)
    requires Usual(lexer)
    ensures lexer.Emit(s, started) == s <==> HasNoTag(lexer, s)
    decreases |s|
  {
    if s != [] {
      NoTagLater(lexer, s);
      if BeginsWithWholeTag(lexer, s) || IsUnfinished(lexer, s) {
        ShorterWithTag(lexer, s, started);
      } else {
        FilterMeans(lexer, s, started);
        hide BeginsWithWholeTag; hide IsUnfinished; hide Usual; hide HasNoTag;
        UntouchedIff(lexer, s[1..], true);
        assert s == [s[0]] + s[1..];
      }
    }
  }

  /** All of this is about the known control tags. */
  lemma ControlIsUsual()
    ensures Usual(Control())
  {
    ControlIsWellFormed();
    forall p | p in Control().prefixes ensures Small(p) { PrefixesAreOpenings(p); }
    hide Control;
  }
}
