/** The control-token filter of zhongshu-message-core/src/streaming.rs: an incremental lexer
    that removes agent protocol tags from a text stream delivered in arbitrary deltas. */
module ControlFilter {
  import opened Text

  /** `text` begins with `p`, ignoring ASCII case (`p` is lower case). */
  predicate Begins(text: string, p: string) {
    |p| <= |text| && forall k :: 0 <= k < |p| ==> LowerChar(text[k]) == p[k]
  }

  /** `text` is cut short inside `p`: every character it has agrees with `p`. */
  predicate CutInside(text: string, p: string) {
    |text| <= |p| && forall k :: 0 <= k < |text| ==> LowerChar(text[k]) == p[k]
  }

  /** Index just past the first '>' of `s`, or 0 when there is none. */
  function TagEnd(s: string): (n: nat)
    ensures n <= |s|
    ensures n > 0 ==> s[n - 1] == '>'
  {
    if s == [] then 0
    else if s[0] == '>' then 1
    else
      var n := TagEnd(s[1..]);
      if n == 0 then 0 else n + 1
  }

  /** A character after which no paragraph break is inserted. */
  predicate IsBreak(c: char) { c == '\n' || c == ' ' || c == '\t' }

  /** What the lexer decides at one position of its input. */
  datatype Step = Keep | Drop(len: nat) | Wait

  /** The lexer for one family of tag prefixes. */
  datatype TagLexer = TagLexer(prefixes: seq<string>) {

    /** Prefixes open with '<', and hold no further '<' and no break character. */
    predicate WellFormed() {
      forall p :: p in prefixes ==> PrefixShape(p)
    }

    predicate IsControl(text: string) {
      exists p :: p in prefixes && Begins(text, p)
    }

    predicate IsPartial(text: string) {
      exists p :: p in prefixes && CutInside(text, p)
    }

    function StepAt(s: string): (r: Step)
      requires s != []
      ensures r.Drop? ==> 1 < r.len <= |s|
    {
      if s[0] != '<' then Keep
      else if IsControl(s) then
        var n := TagEnd(s);
        if n == 0 then Wait else Drop(n)
      else if IsPartial(s) then Wait
      else Keep
    }

    /** Text emitted for `s`; `started` says whether this call has already emitted something. */
    function Emit(s: string, started: bool): string
      decreases |s|
    {
      if s == [] then [] else
      match StepAt(s)
      case Keep => [s[0]] + Emit(s[1..], true)
      case Wait => []
      case Drop(n) => ParagraphBreak(s[n..], started) + Emit(s[n..], started)
    }

    /** The break inserted where a tag was removed and `rest` follows. */
    function ParagraphBreak(rest: string, started: bool): (r: string)
      ensures r != [] ==> started
    {
      if started && rest != [] && !IsBreak(rest[0]) then "\n" else ""
    }

    /** The suffix of `s` held back for the next delta. */
    function Held(s: string): string
      decreases |s|
    {
      if s == [] then [] else
      match StepAt(s)
      case Keep => Held(s[1..])
      case Wait => s
      case Drop(n) => Held(s[n..])
    }

    /** The characters of `s` that survive, before any paragraph break is inserted. */
    function Kept(s: string): string
      decreases |s|
    {
      if s == [] then [] else
      match StepAt(s)
      case Keep => [s[0]] + Kept(s[1..])
      case Wait => []
      case Drop(n) => Kept(s[n..])
    }

    /** One-shot stripping. */
    function Strip(s: string): string { Emit(s, false) }

    /** The outputs of feeding `deltas` one by one to a filter that holds back `pending`. */
    function Outputs(pending: string, deltas: seq<string>): seq<string>
      decreases |deltas|
    {
      if deltas == [] then []
      else [Strip(pending + deltas[0])] + Outputs(Held(pending + deltas[0]), deltas[1..])
    }

    /** What the filter holds back after those deltas. */
    function HeldAfter(pending: string, deltas: seq<string>): string
      decreases |deltas|
    {
      if deltas == [] then pending else HeldAfter(Held(pending + deltas[0]), deltas[1..])
    }

    /** No tag opening anywhere in `s`. */
    ghost predicate Clean(s: string) {
      forall i {:trigger IsControl(s[i..])} :: 0 <= i <= |s| ==> !IsControl(s[i..])
    }
  }

  /** `b` is `a` with zero or more extra newlines inserted. */
  predicate Padded(a: string, b: string) {
    if b == [] then a == []
    else
      || (a != [] && a[0] == b[0] && Padded(a[1..], b[1..]))
      || (b[0] == '\n' && Padded(a, b[1..]))
  }

  function Control(): TagLexer {
    TagLexer([
      "<final_answer", "</final_answer", "<final-answer", "</final-answer",
      "<observation", "</observation", "<lcm_context", "</lcm_context",
      "<tool_result", "</tool_result", "<system>", "</system>",
      "<compressed_summary", "</compressed_summary"
    ])
  }

  predicate PrefixShape(p: string) {
    |p| >= 2 && p[0] == '<' && forall k :: 1 <= k < |p| ==> p[k] != '<' && !IsBreak(p[k])
  }

  lemma FinalAnswerShapes()
    ensures PrefixShape("<final_answer")
    ensures PrefixShape("</final_answer")
    ensures PrefixShape("<final-answer")
    ensures PrefixShape("</final-answer")
  {
  }

  lemma ObservationShapes()
    ensures PrefixShape("<observation")
    ensures PrefixShape("</observation")
    ensures PrefixShape("<lcm_context")
    ensures PrefixShape("</lcm_context")
  {
  }

  lemma ToolShapes()
    ensures PrefixShape("<tool_result")
    ensures PrefixShape("</tool_result")
    ensures PrefixShape("<system>")
    ensures PrefixShape("</system>")
  {
  }

  lemma SummaryShapes()
    ensures PrefixShape("<compressed_summary")
    ensures PrefixShape("</compressed_summary")
  {
  }

  lemma ControlIsWellFormed()
    ensures Control().WellFormed()
  {
    hide PrefixShape;
    FinalAnswerShapes();
    ObservationShapes();
    ToolShapes();
    SummaryShapes();
  }

  // -- The stateful filter --------------------------------------------

  class ControlTokenFilter {
    var pending: string

    constructor ()
      ensures pending == []
    {
      pending := [];
    }

    method Feed(delta: string) returns (output: string)
      modifies this
      ensures output == Control().Emit(old(pending) + delta, false)
      ensures pending == Control().Held(old(pending) + delta)
    {
      hide *;
      var lexer := Control();
      var input := pending + delta;
      pending := [];
      output := [];
      var i := 0;
      while i < |input|
        invariant 0 <= i <= |input|
        invariant pending == []
        invariant output + lexer.Emit(input[i..], output != []) == lexer.Emit(input, false)
        invariant lexer.Held(input[i..]) == lexer.Held(input)
      {
        var rest := input[i..];
        var ch := input[i];
        if ch != '<' {
          KeepStep(lexer, rest, output);
          output := output + [ch];
          i := i + 1;
          assert rest[1..] == input[i..];
          continue;
        }
        if !lexer.IsControl(rest) {
          if lexer.IsPartial(rest) {
            WaitStep(lexer, rest, output);
            pending := rest;
            return;
          }
          // A lone '<' is a partial prefix (LoneOpenWaits), so the source's further
          // end-of-input test cannot succeed here.
          KeepStep(lexer, rest, output);
          output := output + [ch];
          i := i + 1;
          assert rest[1..] == input[i..];
          continue;
        }
        var n := TagEnd(rest);
        if n > 0 {
          DropStep(lexer, rest, output);
          i := i + n;
          assert rest[n..] == input[i..];
          output := output + lexer.ParagraphBreak(input[i..], output != []);
          continue;
        }
        WaitStep(lexer, rest, output);
        pending := rest;
        return;
      }
      EndStep(lexer, output);
      assert input[i..] == [];
    }

    method Flush() returns (output: string)
      modifies this
      ensures output == [] && pending == []
    {
      pending := [];
      output := [];
    }
  }

  method StripControlTokens(input: string) returns (output: string)
    ensures output == Control().Strip(input)
  {
    hide Control;
    var filter := new ControlTokenFilter();
    output := filter.Feed(input);
    assert [] + input == input;
  }

  lemma KeepStep(lexer: TagLexer, rest: string, output: string)
    requires rest != []
    requires rest[0] != '<' || (!lexer.IsControl(rest) && !lexer.IsPartial(rest))
    ensures output + lexer.Emit(rest, output != []) == (output + [rest[0]]) + lexer.Emit(rest[1..], true)
    ensures lexer.Held(rest) == lexer.Held(rest[1..])
  {
    assert lexer.StepAt(rest) == Keep;
  }

  lemma DropStep(lexer: TagLexer, rest: string, output: string)
    requires rest != [] && rest[0] == '<' && lexer.IsControl(rest) && TagEnd(rest) > 0
    ensures TagEnd(rest) <= |rest|
    ensures
      var tail := rest[TagEnd(rest)..];
      output + lexer.Emit(rest, output != [])
      == (output + lexer.ParagraphBreak(tail, output != [])) + lexer.Emit(tail, output != [])
      && lexer.Held(rest) == lexer.Held(tail)
  {
    assert lexer.StepAt(rest) == Drop(TagEnd(rest));
  }

  lemma WaitStep(lexer: TagLexer, rest: string, output: string)
    requires rest != [] && rest[0] == '<'
    requires if lexer.IsControl(rest) then TagEnd(rest) == 0 else lexer.IsPartial(rest)
    ensures output + lexer.Emit(rest, output != []) == output && lexer.Held(rest) == rest
  {
    assert lexer.StepAt(rest) == Wait;
  }

  lemma EndStep(lexer: TagLexer, output: string)
    ensures output + lexer.Emit([], output != []) == output && lexer.Held([]) == []
  {
  }
}
