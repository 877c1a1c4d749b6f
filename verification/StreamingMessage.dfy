/** The streaming message of zhongshu-message-core/src/streaming.rs: filtered text accumulates
    in a buffer whose block tree is re-parsed after every change. */
module StreamingMessage {
  import opened Text
  import opened ControlFilter
  import opened FilterLaws
  import M = MarkdownFold

  datatype MessageState = Streaming | Complete | Interrupted | Failed

  /** One message as a value. */
  datatype View = View(pending: string, buffer: string, blocks: seq<M.Block>, state: MessageState)

  /** The operations a caller can perform. */
  datatype Op =
    | Append(delta: string) | Sync | Finish | Interrupt | Fail | SetContent(text: string)

  /** The markdown tokenizer, followed by the fold of its events. */
  function Parsed(tokenize: string -> seq<M.Event>, text: string): seq<M.Block> {
    M.BlocksOf(tokenize(text))
  }

  function Synced(tokenize: string -> seq<M.Event>, v: View): View {
    if v.buffer == "" then v else v.(blocks := Parsed(tokenize, v.buffer))
  }

  function Apply(tokenize: string -> seq<M.Event>, v: View, op: Op): View {
    match op
    case Append(delta) =>
      var cleaned := Control().Strip(v.pending + delta);
      var fed := v.(pending := Control().Held(v.pending + delta));
      if IsBlank(cleaned) then fed else Synced(tokenize, fed.(buffer := fed.buffer + cleaned))
    case Sync => Synced(tokenize, v)
    case Finish => Synced(tokenize, v.(pending := "", state := Complete))
    case Interrupt => v.(state := Interrupted)
    case Fail => v.(state := Failed)
    case SetContent(text) => v.(buffer := text, state := Complete, blocks := Parsed(tokenize, text))
  }

  function Run(tokenize: string -> seq<M.Event>, v: View, ops: seq<Op>): View
    decreases |ops|
  {
    if ops == [] then v else Run(tokenize, Apply(tokenize, v, ops[0]), ops[1..])
  }

  const FRESH := View("", "", [], Streaming)

  /** `r` is the length of the longest common prefix of `old` and `new`. */
  ghost predicate Diverges(before: seq<M.Block>, after: seq<M.Block>, r: nat) {
    && r <= |before| && r <= |after|
    && before[..r] == after[..r]
    && (r < |before| && r < |after| ==> before[r] != after[r])
  }

  method FindDivergence(before: seq<M.Block>, after: seq<M.Block>) returns (r: nat)
    ensures Diverges(before, after, r)
  {
    var minLen := if |before| < |after| then |before| else |after|;
    for i := 0 to minLen
      invariant before[..i] == after[..i]
    {
      if before[i] != after[i] {
        return i;
      }
    }
    return minLen;
  }

  class Message {
    const filter: ControlTokenFilter
    const tokenize: string -> seq<M.Event>
    var buffer: string
    var blocks: seq<M.Block>
    var state: MessageState

    ghost function Contents(): View
      reads this, filter
    {
      View(filter.pending, buffer, blocks, state)
    }

    constructor (tokenize: string -> seq<M.Event>)
      ensures Contents() == FRESH && fresh(filter) && this.tokenize == tokenize
    {
      this.tokenize := tokenize;
      filter := new ControlTokenFilter();
      buffer, blocks, state := "", [], Streaming;
    }

    /** Returns the index of the first block that may have changed. */
    method Append(delta: string) returns (changedFrom: nat)
      modifies this, filter
      ensures Contents() == Apply(tokenize, old(Contents()), Op.Append(delta))
      ensures Diverges(old(blocks), blocks, changedFrom)
    {
      hide Control;
      var cleaned := filter.Feed(delta);
      TrimIsEmptyIff(cleaned);
      if Trim(cleaned) == "" {
        return |blocks|;
      }
      buffer := buffer + cleaned;
      assert buffer != "";
      changedFrom := Sync();
    }

    method Sync() returns (changedFrom: nat)
      modifies this
      ensures Contents() == Apply(tokenize, old(Contents()), Op.Sync)
      ensures if buffer == "" then changedFrom == 0 else Diverges(old(blocks), blocks, changedFrom)
    {
      if buffer == "" {
        return 0;
      }
      var tree := M.Parse(tokenize(buffer));
      var divergence := FindDivergence(blocks, tree);
      blocks := tree;
      return if divergence < |blocks| then divergence else |blocks|;
    }

    method Finish()
      modifies this, filter
      ensures Contents() == Apply(tokenize, old(Contents()), Op.Finish)
    {
      var _ := filter.Flush();
      state := Complete;
      var _ := Sync();
    }

    method Interrupt()
      modifies this
      ensures Contents() == Apply(tokenize, old(Contents()), Op.Interrupt)
    {
      state := Interrupted;
    }

    method Fail()
      modifies this
      ensures Contents() == Apply(tokenize, old(Contents()), Op.Fail)
    {
      state := Failed;
    }

    method SetContent(text: string)
      modifies this
      ensures Contents() == Apply(tokenize, old(Contents()), Op.SetContent(text))
    {
      buffer := text;
      state := Complete;
      blocks := M.Parse(tokenize(text));
    }
  }

  // -- Every run ------------------------------------------------------

  /** The block tree shown is the parse of the buffer. */
  predicate InSync(tokenize: string -> seq<M.Event>, v: View) {
    v.blocks == Parsed(tokenize, v.buffer)
  }

  /** In every run of operations from a new message the blocks are the parse of the buffer,
      given a tokenizer that finds nothing in the empty text. */
  lemma {:induction false} EveryRunStaysInSync(tokenize: string -> seq<M.Event>, v: View, ops: seq<Op>)
    requires InSync(tokenize, v)
    ensures InSync(tokenize, Run(tokenize, v, ops))
    decreases |ops|
  {
    if ops != [] {
      hide Control;
      EveryRunStaysInSync(tokenize, Apply(tokenize, v, ops[0]), ops[1..]);
    }
  }

  lemma FreshIsInSync(tokenize: string -> seq<M.Event>)
    requires tokenize("") == []
    ensures InSync(tokenize, FRESH)
  {
  }

  function Appends(deltas: seq<string>): seq<Op> {
    if deltas == [] then [] else [Append(deltas[0])] + Appends(deltas[1..])
  }

  predicate Visible(c: char) { !IsWhitespace(c) }

  lemma {:induction false} BlankSelectsNothing(s: string)
    requires IsBlank(s)
    ensures Select(s, Visible) == ""
  {
    if s != [] {
      assert forall i :: 0 <= i < |s[1..]| ==> s[1..][i] == s[i + 1];
      BlankSelectsNothing(s[1..]);
    }
  }

  lemma AppendCollectsOutput(tokenize: string -> seq<M.Event>, v: View, delta: string)
    ensures
      var w := Apply(tokenize, v, Append(delta));
      && w.pending == Control().Held(v.pending + delta)
      && Select(w.buffer, Visible)
         == Select(v.buffer, Visible) + Select(Control().Strip(v.pending + delta), Visible)
  {
    hide Control;
    hide Parsed;
    hide Select;
    hide IsBlank;
    hide TagLexer.Strip;
    hide TagLexer.Held;
    var cleaned := Control().Strip(v.pending + delta);
    SelectConcat(v.buffer, cleaned, Visible);
    if IsBlank(cleaned) { BlankSelectsNothing(cleaned); }
    assert Select(v.buffer, Visible) + "" == Select(v.buffer, Visible);
  }

  lemma OutputsStep(lexer: TagLexer, pending: string, deltas: seq<string>)
    requires deltas != []
    ensures
      var held := lexer.Held(pending + deltas[0]);
      && Flatten(lexer.Outputs(pending, deltas))
         == lexer.Strip(pending + deltas[0]) + Flatten(lexer.Outputs(held, deltas[1..]))
      && lexer.HeldAfter(pending, deltas) == lexer.HeldAfter(held, deltas[1..])
  {
    hide TagLexer.Strip;
    hide TagLexer.Held;
    var outs := lexer.Outputs(pending, deltas);
    assert outs[1..] == lexer.Outputs(lexer.Held(pending + deltas[0]), deltas[1..]);
  }

  lemma RunAppends(tokenize: string -> seq<M.Event>, v: View, deltas: seq<string>)
    ensures deltas == [] ==> Run(tokenize, v, Appends(deltas)) == v
    ensures deltas != [] ==>
      Run(tokenize, v, Appends(deltas)) == Run(tokenize, Apply(tokenize, v, Append(deltas[0])), Appends(deltas[1..]))
  {
    hide Apply;
    if deltas != [] { assert Appends(deltas)[1..] == Appends(deltas[1..]); }
  }

  lemma NoOutputs(lexer: TagLexer, pending: string)
    ensures lexer.HeldAfter(pending, []) == pending && Select(Flatten(lexer.Outputs(pending, [])), Visible) == ""
  {
  }

  lemma {:induction false} AppendsCollectOutputs(tokenize: string -> seq<M.Event>, v: View, deltas: seq<string>)
    ensures
      var w := Run(tokenize, v, Appends(deltas));
      && w.pending == Control().HeldAfter(v.pending, deltas)
      && Select(w.buffer, Visible)
         == Select(v.buffer, Visible) + Select(Flatten(Control().Outputs(v.pending, deltas)), Visible)
    decreases |deltas|
  {
    hide *;
    RunAppends(tokenize, v, deltas);
    if deltas == [] {
      NoOutputs(Control(), v.pending);
      assert Select(v.buffer, Visible) + "" == Select(v.buffer, Visible);
    } else {
      var first := Control().Strip(v.pending + deltas[0]);
      var rest := Flatten(Control().Outputs(Control().Held(v.pending + deltas[0]), deltas[1..]));
      AppendCollectsOutput(tokenize, v, deltas[0]);
      AppendsCollectOutputs(tokenize, Apply(tokenize, v, Append(deltas[0])), deltas[1..]);
      OutputsStep(Control(), v.pending, deltas);
      SelectConcat(first, rest, Visible);
      var x, y, z := Select(v.buffer, Visible), Select(first, Visible), Select(rest, Visible);
      assert (x + y) + z == x + (y + z);
    }
  }

  /** For every way of cutting a text into appended deltas, and despite blank outputs being
      dropped, the visible characters of the buffer are those of one-shot stripping. */
  lemma AppendedTextIsStrippedText(tokenize: string -> seq<M.Event>, deltas: seq<string>)
    ensures
      Select(Run(tokenize, FRESH, Appends(deltas)).buffer, Visible)
      == Select(Control().Strip(Flatten(deltas)), Visible)
  {
    hide Control;
    AppendsCollectOutputs(tokenize, FRESH, deltas);
    ChunkInvarianceUpToNewlines(Control(), deltas, Visible);
    assert Select("", Visible) + Select(Flatten(Control().Outputs("", deltas)), Visible)
        == Select(Flatten(Control().Outputs("", deltas)), Visible);
  }

  // -- The whole text and the state -----------------------------------

  /** Those of the texts that show something. */
  function NotBlank(texts: seq<string>): seq<string> {
    if texts == [] then []
    else (if HasText(texts[0]) then [texts[0]] else []) + NotBlank(texts[1..])
  }

  lemma NotBlankStep(text: string, texts: seq<string>)
    ensures
      Flatten(NotBlank([text] + texts)) == (if IsBlank(text) then "" else text) + Flatten(NotBlank(texts))
  {
    var kept := if IsBlank(text) then [] else [text];
    assert ([text] + texts)[0] == text && ([text] + texts)[1..] == texts;
    assert NotBlank([text] + texts) == kept + NotBlank(texts);
    FlattenAppend(kept, NotBlank(texts));
    if !IsBlank(text) { assert [text][1..] == [] && text + "" == text; }
  }

  lemma OutputsCons(lexer: TagLexer, pending: string, deltas: seq<string>)
    requires deltas != []
    ensures
      lexer.Outputs(pending, deltas)
      == [lexer.Strip(pending + deltas[0])] + lexer.Outputs(lexer.Held(pending + deltas[0]), deltas[1..])
  {
    hide TagLexer.Strip;
    hide TagLexer.Held;
  }

  lemma AppendAddsOutput(tokenize: string -> seq<M.Event>, v: View, delta: string)
    ensures
      var w, cleaned := Apply(tokenize, v, Append(delta)), Control().Strip(v.pending + delta);
      && w.pending == Control().Held(v.pending + delta)
      && w.buffer == v.buffer + if IsBlank(cleaned) then "" else cleaned
  {
    hide Control; hide Parsed; hide IsBlank; hide TagLexer.Strip; hide TagLexer.Held;
    assert v.buffer + "" == v.buffer;
  }

  /** Whatever is appended, the buffer gets the outputs of the filter that are not blank, whole and in order. */
  lemma {:induction false} BufferHoldsTheOutputs(tokenize: string -> seq<M.Event>, v: View, deltas: seq<string>)
    ensures
      Run(tokenize, v, Appends(deltas)).buffer
      == v.buffer + Flatten(NotBlank(Control().Outputs(v.pending, deltas)))
    decreases |deltas|
  {
    if deltas == [] {
      assert v.buffer + "" == v.buffer;
    } else {
      hide *;
      var w := Apply(tokenize, v, Append(deltas[0]));
      var first := Control().Strip(v.pending + deltas[0]);
      var rest := Control().Outputs(Control().Held(v.pending + deltas[0]), deltas[1..]);
      RunAppends(tokenize, v, deltas);
      AppendAddsOutput(tokenize, v, deltas[0]);
      BufferHoldsTheOutputs(tokenize, w, deltas[1..]);
      OutputsCons(Control(), v.pending, deltas);
      NotBlankStep(first, rest);
      ConcatAssoc(v.buffer, if IsBlank(first) then "" else first, Flatten(NotBlank(rest)));
    }
  }

  /** The state that the last operation to set one gave to the message. */
  function LastState(ops: seq<Op>): MessageState {
    if ops == [] then Streaming
    else
      match ops[|ops| - 1]
      case Finish => Complete
      case SetContent(_) => Complete
      case Interrupt => Interrupted
      case Fail => Failed
      case _ => LastState(ops[..|ops| - 1])
  }

  lemma {:induction false} RunSnoc(tokenize: string -> seq<M.Event>, v: View, ops: seq<Op>, op: Op)
    ensures Run(tokenize, v, ops + [op]) == Apply(tokenize, Run(tokenize, v, ops), op)
    decreases |ops|
  {
    hide Apply;
    if ops == [] {
      assert [] + [op] == [op] && [op][1..] == [];
    } else {
      assert (ops + [op])[0] == ops[0] && (ops + [op])[1..] == ops[1..] + [op];
      RunSnoc(tokenize, Apply(tokenize, v, ops[0]), ops[1..], op);
    }
  }

  /** In every run a message is streaming until it is finished, interrupted, failed or given its content; what came
      last decides. A finished message holds no text back. */
  lemma {:induction false} StateIsTheLast(tokenize: string -> seq<M.Event>, ops: seq<Op>)
    ensures
      var v := Run(tokenize, FRESH, ops);
      v.state == LastState(ops) && (ops != [] && ops[|ops| - 1] == Finish ==> v.pending == "")
    decreases |ops|
  {
    if ops != [] {
      var before, op := ops[..|ops| - 1], ops[|ops| - 1];
      assert ops == before + [op];
      StateIsTheLast(tokenize, before);
      RunSnoc(tokenize, FRESH, before, op);
      hide Run; hide Parsed; hide Control; hide IsBlank;
    }
  }
}
