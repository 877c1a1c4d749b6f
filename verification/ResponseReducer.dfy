/** The overlay's response reducer of zhongshu-orb/src/handler.rs: it gates response events by
    run and message, filters the deltas of the open assistant message, and pushes the result. */
module ResponseReducer {
  import opened Text
  import opened Wrappers
  import opened ControlFilter
  import opened FilterLaws

  datatype Role = Assistant | OtherRole

  datatype Response =
    | Started(id: nat, run: nat, role: Role)
    | Delta(id: nat, run: nat, text: string)
    | Completed(id: nat, run: nat)

  /** What the overlay is told. */
  datatype Effect = Thinking | Push(text: string) | MessageDone

  datatype View = View(open: Option<nat>, pending: string, shown: seq<Effect>)

  predicate Accepted(active: Option<nat>, ev: Response) {
    active.Some? ==> ev.run == active.value
  }

  function Shown(text: string): seq<Effect> { if text == "" then [] else [Push(text)] }

  function React(active: Option<nat>, v: View, ev: Response): View {
    if !Accepted(active, ev) then v else
    match ev
    case Started(id, _, role) =>
      if role == Assistant then v.(open := Some(id), shown := v.shown + [Thinking])
      else v.(open := None, pending := "")
    case Delta(id, _, text) =>
      if v.open != Some(id) then v else
      v.(pending := Control().Held(v.pending + text),
         shown := v.shown + Shown(Control().Strip(v.pending + text)))
    case Completed(id, _) =>
      if v.open != Some(id) then v else
      v.(open := None, pending := "", shown := v.shown + [MessageDone])
  }

  function ReactAll(active: Option<nat>, v: View, evs: seq<Response>): View
    decreases |evs|
  {
    if evs == [] then v else ReactAll(active, React(active, v, evs[0]), evs[1..])
  }

  class Reducer {
    var activeRun: Option<nat>
    var assistantId: Option<nat>
    var filter: ControlTokenFilter
    var queue: seq<Response>
    var shown: seq<Effect>

    ghost function Contents(): View
      reads this, filter
    {
      View(assistantId, filter.pending, shown)
    }

    constructor ()
      ensures Contents() == View(None, "", []) && fresh(filter) && queue == []
    {
      activeRun, assistantId, queue, shown := None, None, [], [];
      filter := new ControlTokenFilter();
    }

    /** Drain the response channel; `currentRun` is what the run controller reports. */
    method ReduceResponses(currentRun: Option<nat>) returns (active: bool)
      modifies this, filter
      ensures activeRun == currentRun && queue == []
      ensures active <==> old(queue) != []
      ensures Contents() == ReactAll(currentRun, old(Contents()), old(queue))
      ensures filter == old(filter) || fresh(filter)
    {
      active := false;
      activeRun := currentRun;
      while queue != []
        invariant activeRun == currentRun
        invariant active || queue == old(queue)
        invariant active ==> old(queue) != []
        invariant filter == old(filter) || fresh(filter)
        invariant ReactAll(currentRun, Contents(), queue) == ReactAll(currentRun, old(Contents()), old(queue))
        decreases |queue|
      {
        var ev := queue[0];
        queue := queue[1..];
        active := true;
        HandleOne(ev);
      }
    }

    method HandleOne(ev: Response)
      modifies this`assistantId, this`filter, this`shown, filter
      ensures Contents() == React(activeRun, old(Contents()), ev)
      ensures filter == old(filter) || fresh(filter)
    {
      hide Control;
      var accept := activeRun.Some? ==> ev.run == activeRun.value;
      if !accept {
        return;
      }
      match ev
      case Started(id, _, role) =>
        if role == Assistant {
          assistantId := Some(id);
          shown := shown + [Thinking];
        } else {
          assistantId := None;
          filter := new ControlTokenFilter();
        }
      case Delta(id, _, text) =>
        if assistantId == Some(id) {
          var cleaned := filter.Feed(text);
          if cleaned != "" {
            shown := shown + [Push(cleaned)];
          }
        }
      case Completed(id, _) =>
        if assistantId == Some(id) {
          shown := shown + [MessageDone];
          var _ := filter.Flush();
          assistantId := None;
        }
    }
  }

  lemma {:induction false} ReactConcat(active: Option<nat>, v: View, xs: seq<Response>, ys: seq<Response>)
    ensures ReactAll(active, v, xs + ys) == ReactAll(active, ReactAll(active, v, xs), ys)
    decreases |xs|
  {
    hide React;
    if xs == [] {
      assert xs + ys == ys;
    } else {
      assert (xs + ys)[0] == xs[0] && (xs + ys)[1..] == xs[1..] + ys;
      ReactConcat(active, React(active, v, xs[0]), xs[1..], ys);
    }
  }

  // -- Streams of bracketed messages ----------------------------------

  /** Inside a message: one of its own deltas, or an event that is not its business. */
  datatype Item = Own(text: string) | Foreign(ev: Response)

  /** A stream of bracketed assistant messages with other events before, between and inside. */
  datatype Part = Message(id: nat, run: nat, items: seq<Item>) | Between(ev: Response)

  /** Another run's event, or a delta or completion of another message. */
  predicate Elsewhere(active: Option<nat>, id: nat, ev: Response) {
    !Accepted(active, ev) || (!ev.Started? && ev.id != id)
  }

  predicate WellBracketed(active: Option<nat>, part: Part) {
    match part
    case Between(ev) => !Accepted(active, ev) || (ev.Started? ==> ev.role != Assistant)
    case Message(id, run, items) =>
      && (active.Some? ==> run == active.value)
      && forall i :: 0 <= i < |items| && items[i].Foreign? ==> Elsewhere(active, id, items[i].ev)
  }

  function ItemEvents(id: nat, run: nat, items: seq<Item>): seq<Response> {
    if items == [] then []
    else [if items[0].Own? then Delta(id, run, items[0].text) else items[0].ev] + ItemEvents(id, run, items[1..])
  }

  function PartEvents(part: Part): seq<Response> {
    match part
    case Between(ev) => [ev]
    case Message(id, run, items) =>
      [Started(id, run, Assistant)] + ItemEvents(id, run, items) + [Completed(id, run)]
  }

  function Stream(parts: seq<Part>): seq<Response> {
    if parts == [] then [] else PartEvents(parts[0]) + Stream(parts[1..])
  }

  function OwnTexts(items: seq<Item>): seq<string> {
    if items == [] then []
    else (if items[0].Own? then [items[0].text] else []) + OwnTexts(items[1..])
  }

  function ShownEach(outs: seq<string>): seq<Effect> {
    if outs == [] then [] else Shown(outs[0]) + ShownEach(outs[1..])
  }

  /** What the overlay should see of a stream: each message's own text and nothing else. */
  function Expected(parts: seq<Part>): seq<Effect> {
    if parts == [] then [] else ExpectedOf(parts[0]) + Expected(parts[1..])
  }

  function ExpectedOf(part: Part): seq<Effect> {
    if part.Between? then []
    else [Thinking] + ShownEach(Control().Outputs("", OwnTexts(part.items))) + [MessageDone]
  }

  lemma ReactOne(active: Option<nat>, v: View, ev: Response)
    ensures ReactAll(active, v, [ev]) == React(active, v, ev)
  {
    hide React;
    assert [ev][1..] == [];
  }

  lemma ReactOwn(active: Option<nat>, v: View, id: nat, run: nat, text: string)
    requires v.open == Some(id) && (active.Some? ==> run == active.value)
    ensures React(active, v, Delta(id, run, text))
         == v.(pending := Control().Held(v.pending + text), shown := v.shown + Shown(Control().Strip(v.pending + text)))
  {
    hide Control;
  }

  lemma OutputsUnfold(lexer: TagLexer, pending: string, text: string, rest: seq<string>)
    ensures
      var held := lexer.Held(pending + text);
      && lexer.Outputs(pending, [text] + rest) == [lexer.Strip(pending + text)] + lexer.Outputs(held, rest)
      && lexer.HeldAfter(pending, [text] + rest) == lexer.HeldAfter(held, rest)
  {
    hide TagLexer.Held;
    hide TagLexer.Strip;
    assert ([text] + rest)[0] == text && ([text] + rest)[1..] == rest;
  }

  lemma ShownEachStep(out: string, outs: seq<string>)
    ensures ShownEach([out] + outs) == Shown(out) + ShownEach(outs)
  {
    hide Shown;
    assert ([out] + outs)[0] == out && ([out] + outs)[1..] == outs;
  }

  lemma {:induction false} ReactItems(active: Option<nat>, v: View, id: nat, run: nat, items: seq<Item>)
    requires v.open == Some(id) && WellBracketed(active, Message(id, run, items))
    ensures ReactAll(active, v, ItemEvents(id, run, items))
         == v.(pending := Control().HeldAfter(v.pending, OwnTexts(items)),
               shown := v.shown + ShownEach(Control().Outputs(v.pending, OwnTexts(items))))
    decreases |items|
  {
    hide Control;
    hide Shown;
    var lexer := Control();
    if items == [] {
      assert v.shown + [] == v.shown;
    } else {
      var rest := items[1..];
      var ev := if items[0].Own? then Delta(id, run, items[0].text) else items[0].ev;
      var w := React(active, v, ev);
      assert forall i :: 0 <= i < |rest| ==> rest[i] == items[i + 1];
      assert ItemEvents(id, run, items)[1..] == ItemEvents(id, run, rest);
      assert ReactAll(active, v, ItemEvents(id, run, items)) == ReactAll(active, w, ItemEvents(id, run, rest));
      if items[0].Own? {
        ReactOwnItem(active, v, id, run, items);
      } else {
        assert w == v && OwnTexts(items) == OwnTexts(rest);
        ReactItems(active, v, id, run, rest);
      }
    }
  }

  lemma OwnFirst(items: seq<Item>)
    requires items != [] && items[0].Own?
    ensures OwnTexts(items) == [items[0].text] + OwnTexts(items[1..])
  {
  }

  lemma {:induction false} ReactOwnItem(active: Option<nat>, v: View, id: nat, run: nat, items: seq<Item>)
    requires v.open == Some(id) && (active.Some? ==> run == active.value)
    requires items != [] && items[0].Own? && WellBracketed(active, Message(id, run, items[1..]))
    ensures ReactAll(active, React(active, v, Delta(id, run, items[0].text)), ItemEvents(id, run, items[1..]))
         == v.(pending := Control().HeldAfter(v.pending, OwnTexts(items)),
               shown := v.shown + ShownEach(Control().Outputs(v.pending, OwnTexts(items))))
    decreases |items|, 0
  {
    hide *;
    var text, rest := items[0].text, items[1..];
    var out, held := Control().Strip(v.pending + text), Control().Held(v.pending + text);
    OwnFirst(items);
    ReactOwn(active, v, id, run, text);
    ReactItems(active, v.(pending := held, shown := v.shown + Shown(out)), id, run, rest);
    OutputsUnfold(Control(), v.pending, text, OwnTexts(rest));
    ShownEachStep(out, Control().Outputs(held, OwnTexts(rest)));
    ConcatAssoc(v.shown, Shown(out), ShownEach(Control().Outputs(held, OwnTexts(rest))));
  }

  /** What is shown of a message that begins with `pending` held back. */
  function ShownFrom(pending: string, part: Part): seq<Effect>
    requires part.Message?
  {
    [Thinking] + ShownEach(Control().Outputs(pending, OwnTexts(part.items))) + [MessageDone]
  }

  /** A bracketed message takes over whatever was held back, and leaves nothing. */
  lemma ReactMessage(active: Option<nat>, v: View, part: Part)
    requires part.Message? && WellBracketed(active, part)
    ensures ReactAll(active, v, PartEvents(part)) == View(None, "", v.shown + ShownFrom(v.pending, part))
  {
    hide Control;
    hide WellBracketed;
    hide ReactAll;
    var start, finish := Started(part.id, part.run, Assistant), Completed(part.id, part.run);
    var mid := ItemEvents(part.id, part.run, part.items);
    var begun := v.(open := Some(part.id), shown := v.shown + [Thinking]);
    ReactConcat(active, v, [start] + mid, [finish]);
    ReactConcat(active, v, [start], mid);
    MessageRunIsAccepted(active, part);
    ReactOne(active, v, start);
    assert React(active, v, start) == begun;
    ReactItems(active, begun, part.id, part.run, part.items);
    ReactOne(active, ReactAll(active, begun, mid), finish);
    var pushed := ShownEach(Control().Outputs(v.pending, OwnTexts(part.items)));
    assert ((v.shown + [Thinking]) + pushed) + [MessageDone] == v.shown + ([Thinking] + pushed + [MessageDone]);
  }

  lemma ReactClean(active: Option<nat>, v: View, part: Part)
    requires v.open == None && v.pending == "" && part.Message? && WellBracketed(active, part)
    ensures ReactAll(active, v, PartEvents(part)) == v.(shown := v.shown + ExpectedOf(part))
  {
    hide Control; hide ReactAll; hide PartEvents; hide WellBracketed;
    ReactMessage(active, v, part);
  }

  lemma MessageRunIsAccepted(active: Option<nat>, part: Part)
    requires part.Message? && WellBracketed(active, part)
    ensures active.Some? ==> part.run == active.value
  {
  }

  lemma ReactBetween(active: Option<nat>, v: View, part: Part)
    requires v.open == None && v.pending == "" && part.Between? && WellBracketed(active, part)
    ensures ReactAll(active, v, PartEvents(part)) == v.(shown := v.shown + ExpectedOf(part))
  {
    ReactOne(active, v, part.ev);
    assert v.shown + [] == v.shown;
  }

  lemma StreamStep(parts: seq<Part>)
    requires parts != []
    ensures Stream(parts) == PartEvents(parts[0]) + Stream(parts[1..])
    ensures Expected(parts) == ExpectedOf(parts[0]) + Expected(parts[1..])
  {
  }

  /** For every stream of bracketed messages mixed with other runs and messages, the overlay is
      told exactly what is expected, and nothing is left open or held back. */
  lemma {:induction false} ReactStream(active: Option<nat>, v: View, parts: seq<Part>)
    requires v.open == None && v.pending == ""
    requires forall part :: part in parts ==> WellBracketed(active, part)
    ensures ReactAll(active, v, Stream(parts)) == v.(shown := v.shown + Expected(parts))
    decreases |parts|
  {
    if parts == [] {
      assert v.shown + [] == v.shown;
    } else {
      hide *;
      StreamStep(parts);
      ReactConcat(active, v, PartEvents(parts[0]), Stream(parts[1..]));
      if parts[0].Between? { ReactBetween(active, v, parts[0]); } else { ReactClean(active, v, parts[0]); }
      ReactStream(active, v.(shown := v.shown + ExpectedOf(parts[0])), parts[1..]);
      ConcatAssoc(v.shown, ExpectedOf(parts[0]), Expected(parts[1..]));
    }
  }

  /** A message of another role that starts inside an assistant message cuts it off: later deltas are not shown,
      its completion is not announced, and nothing is held back for the next one. */
  lemma {:induction false} OtherMessageCutsOff(active: Option<nat>, v: View, id: nat, run: nat, evs: seq<Response>)
    requires active.Some? ==> run == active.value
    requires forall ev :: ev in evs && ev.Started? && ev.role.Assistant? ==> active.Some? && ev.run != active.value
    ensures ReactAll(active, v, [Started(id, run, OtherRole)] + evs) == View(None, "", v.shown)
  {
    var start := Started(id, run, OtherRole);
    assert React(active, v, start) == View(None, "", v.shown);
    ReactConcat(active, v, [start], evs);
    ReactOne(active, v, start);
    NothingIsOpen(active, View(None, "", v.shown), evs);
  }

  lemma {:induction false} NothingIsOpen(active: Option<nat>, v: View, evs: seq<Response>)
    requires v.open == None && v.pending == ""
    requires forall ev :: ev in evs && ev.Started? && ev.role.Assistant? ==> active.Some? && ev.run != active.value
    ensures ReactAll(active, v, evs) == v
    decreases |evs|
  {
    if evs != [] {
      assert evs[0] in evs;
      assert React(active, v, evs[0]) == v;
      NothingIsOpen(active, v, evs[1..]);
    }
  }

  function Pushed(effects: seq<Effect>): string {
    if effects == [] then ""
    else (if effects[0].Push? then effects[0].text else "") + Pushed(effects[1..])
  }

  lemma {:induction false} PushedIsFlattened(outs: seq<string>)
    ensures Pushed(ShownEach(outs)) == Flatten(outs)
  {
    if outs != [] {
      PushedIsFlattened(outs[1..]);
      if outs[0] != "" {
        assert ShownEach(outs)[1..] == ShownEach(outs[1..]);
      } else {
        assert ShownEach(outs) == ShownEach(outs[1..]) && "" + Flatten(outs[1..]) == Flatten(outs[1..]);
      }
    }
  }

  /** What a state shows beyond an earlier one. */
  function Newly(before: View, after: View): seq<Effect> {
    if before.shown <= after.shown then after.shown[|before.shown|..] else []
  }

  /** What is pushed for a message, whatever was held back when it began: up to newlines, the stripped text of
      what was held back followed by exactly that message's deltas. */
  lemma MessageShowsWhatWasHeldToo(active: Option<nat>, v: View, part: Part, keep: char -> bool)
    requires Undecided(Control(), v.pending) && part.Message? && WellBracketed(active, part)
    requires !keep('\n')
    ensures
      var w := ReactAll(active, v, PartEvents(part));
      && w.open == None && w.pending == ""
      && v.shown <= w.shown
      && Select(Pushed(Newly(v, w)), keep)
         == Select(Control().Strip(v.pending + Flatten(OwnTexts(part.items))), keep)
  {
    hide Control; hide ReactAll; hide PartEvents; hide WellBracketed; hide Undecided; hide Padded; hide Select;
    hide Pushed; hide TagLexer.Strip; hide TagLexer.Kept;
    var outs := Control().Outputs(v.pending, OwnTexts(part.items));
    ReactMessage(active, v, part);
    ChunkInvariance(Control(), v.pending, OwnTexts(part.items));
    PaddedSelect(Flatten(outs), Control().Strip(v.pending + Flatten(OwnTexts(part.items))), keep);
    assert (v.shown + ShownFrom(v.pending, part))[|v.shown|..] == ShownFrom(v.pending, part);
    PushedInBrackets(outs);
  }

  /** In particular, when nothing was held back: its own text, however its deltas are cut and whatever else is
      interleaved. */
  lemma EachMessageShowsItsOwnText(active: Option<nat>, v: View, part: Part, keep: char -> bool)
    requires v.open == None && v.pending == "" && part.Message? && WellBracketed(active, part)
    requires !keep('\n')
    ensures
      var w := ReactAll(active, v, PartEvents(part));
      && w.open == None && w.pending == ""
      && v.shown <= w.shown
      && Select(Pushed(Newly(v, w)), keep) == Select(Control().Strip(Flatten(OwnTexts(part.items))), keep)
  {
    hide Control; hide ReactAll; hide PartEvents; hide WellBracketed; hide Select; hide Pushed; hide TagLexer.Strip;
    hide OwnTexts; hide Flatten; hide Newly;
    MessageShowsWhatWasHeldToo(active, v, part, keep);
    assert "" + Flatten(OwnTexts(part.items)) == Flatten(OwnTexts(part.items));
  }

  lemma PushedInBrackets(outs: seq<string>)
    ensures Pushed([Thinking] + ShownEach(outs) + [MessageDone]) == Flatten(outs)
  {
    PushedConcat([Thinking] + ShownEach(outs), [MessageDone]);
    PushedConcat([Thinking], ShownEach(outs));
    PushedIsFlattened(outs);
    assert Pushed([Thinking]) == "" + Pushed([Thinking][1..]) == "";
    assert Pushed([MessageDone]) == "" + Pushed([MessageDone][1..]) == "";
  }

  lemma {:induction false} PushedConcat(a: seq<Effect>, b: seq<Effect>)
    ensures Pushed(a + b) == Pushed(a) + Pushed(b)
  {
    if a == [] {
      assert a + b == b;
    } else {
      assert (a + b)[1..] == a[1..] + b;
      PushedConcat(a[1..], b);
    }
  }

  // -- When a message is not closed -----------------------------------

  /** What the first delta of a message shows, from a given held-back text. */
  function FirstShown(pending: string, text: string): seq<Effect> {
    Shown(Control().Strip(pending + text))
  }

  /** What is shown when an assistant message opens and its first delta arrives. */
  lemma FirstDeltaShows(active: Option<nat>, v: View, id: nat, run: nat, text: string)
    requires active.Some? ==> run == active.value
    ensures
      var opening := React(active, v, Started(id, run, Assistant));
      React(active, opening, Delta(id, run, text)).shown == v.shown + ([Thinking] + FirstShown(v.pending, text))
  {
    var opening := React(active, v, Started(id, run, Assistant));
    ReactOwn(active, opening, id, run, text);
    hide Shown;
    ConcatAssoc(v.shown, [Thinking], FirstShown(v.pending, text));
  }

  /** Opening an assistant message does not reset the filter. Its first delta is shown free of
      earlier text, whatever that delta is, if and only if nothing was held back before. */
  lemma NextMessageIsCleanIff(pending: string)
    requires Undecided(Control(), pending)
    ensures (forall text :: FirstShown(pending, text) == FirstShown("", text)) <==> pending == ""
  {
    if pending != "" {
      var text := LeakingDelta(pending);
      assert FirstShown(pending, text) != FirstShown("", text);
    }
  }

  /** A delta that settles the held-back text, and what the two readings strip it to. */
  lemma SettlingDelta(lexer: TagLexer, pending: string) returns (text: string)
    requires lexer.WellFormed() && Undecided(lexer, pending) && pending != ""
    ensures
      || (text == ">" && lexer.Strip(pending + text) == "" && lexer.Strip(text) == text)
      || (text == "\n" && lexer.Strip(pending + text) != "" && lexer.Strip(pending + text)[0] == '<'
          && lexer.Strip(text) == text)
  {
    if lexer.IsControl(pending) {
      text := ">";
      CutStable(lexer, pending, text);
      CloseEndsTag(pending);
      assert lexer.StepAt(pending + text) == Drop(|pending| + 1);
      assert (pending + text)[|pending| + 1..] == [];
      DroppedThen(lexer, pending + text, |pending| + 1, false);
      assert lexer.Strip(pending + text) == "";
      PlainTextPasses(lexer, ">", false);
    } else {
      text := "\n";
      NewlineSettles(lexer, pending);
      assert lexer.Strip(pending + text)[0] == '<';
      PlainTextPasses(lexer, "\n", false);
    }
  }

  lemma LeakingDelta(pending: string) returns (text: string)
    requires Undecided(Control(), pending) && pending != ""
    ensures FirstShown(pending, text) != FirstShown("", text)
  {
    ControlIsWellFormed();
    hide Control; hide TagLexer.Strip; hide Undecided;
    text := SettlingDelta(Control(), pending);
    assert "" + text == text;
  }

  /** The message of one delta. */
  function Single(active: Option<nat>, text: string): Part {
    Message(0, if active.Some? then active.value else 0, [Own(text)])
  }

  lemma SingleIs(active: Option<nat>, text: string)
    ensures WellBracketed(active, Single(active, text)) && Flatten(OwnTexts(Single(active, text).items)) == text
  {
    var items := Single(active, text).items;
    assert items[1..] == [] && OwnTexts(items) == [text] + [];
    assert [text][1..] == [] && text + [] == text;
  }

  /** The message shows its own text and nothing else, up to what `keep` leaves out. */
  predicate ShowsItsOwn(active: Option<nat>, v: View, part: Part, keep: char -> bool)
    requires part.Message?
  {
    Select(Pushed(Newly(v, ReactAll(active, v, PartEvents(part)))), keep)
    == Select(Control().Strip(Flatten(OwnTexts(part.items))), keep)
  }

  lemma SelectOfOne(c: char, rest: string, keep: char -> bool)
    ensures Select([c] + rest, keep) == (if keep(c) then [c] else []) + Select(rest, keep)
  {
    assert ([c] + rest)[1..] == rest;
  }

  lemma SettledTextDiffers(lexer: TagLexer, pending: string, keep: char -> bool) returns (text: string)
    requires lexer.WellFormed() && Undecided(lexer, pending) && pending != ""
    requires !keep('\n') && keep('<') && keep('>')
    ensures Select(lexer.Strip(pending + text), keep) != Select(lexer.Strip(text), keep)
  {
    text := SettlingDelta(lexer, pending);
    hide TagLexer.Strip; hide Undecided;
    if text == ">" {
      assert text == ['>'] + "";
      SelectOfOne('>', "", keep);
    } else {
      assert text == ['\n'] + "";
      SelectOfOne('\n', "", keep);
      var shown := lexer.Strip(pending + text);
      assert shown == [shown[0]] + shown[1..];
      SelectOfOne('<', shown[1..], keep);
    }
  }

  /** Every next message, over all its deltas and up to newlines, shows its own text if and only if nothing was
      held back before it. */
  lemma NextMessageShowsItsOwnTextIff(active: Option<nat>, v: View, keep: char -> bool)
    requires Undecided(Control(), v.pending) && !keep('\n') && keep('<') && keep('>')
    ensures
      (forall part: Part :: part.Message? && WellBracketed(active, part) ==> ShowsItsOwn(active, v, part, keep))
      <==> v.pending == ""
  {
    ControlIsWellFormed();
    hide Control; hide WellBracketed; hide Undecided; hide ReactAll; hide PartEvents; hide Select; hide Pushed;
    hide TagLexer.Strip; hide OwnTexts; hide Flatten; hide Newly;
    if v.pending == "" {
      forall part: Part | part.Message? && WellBracketed(active, part) ensures ShowsItsOwn(active, v, part, keep) {
        MessageShowsWhatWasHeldToo(active, v, part, keep);
        assert "" + Flatten(OwnTexts(part.items)) == Flatten(OwnTexts(part.items));
      }
    } else {
      var text := SettledTextDiffers(Control(), v.pending, keep);
      SingleIs(active, text);
      MessageShowsWhatWasHeldToo(active, v, Single(active, text), keep);
      assert !ShowsItsOwn(active, v, Single(active, text), keep);
    }
  }

  lemma LoneOpenIsHeld()
    ensures Control().Held("<") == "<" && Control().Strip("<") == ""
  {
    LoneOpenWaits();
    hide Control;
  }

  /** It does happen: a new reducer opens a second message while text of the first is held back. */
  lemma SecondMessageFindsHeldText(run: nat)
    ensures
      var evs := [Started(0, run, Assistant), Delta(0, run, "<"), Started(1, run, Assistant)];
      ReactAll(Some(run), View(None, "", []), evs) == View(Some(1), "<", [Thinking, Thinking])
  {
    LoneOpenIsHeld();
    hide Control; hide TagLexer.Held; hide TagLexer.Strip;
    var evs := [Started(0, run, Assistant), Delta(0, run, "<"), Started(1, run, Assistant)];
    var v1 := View(Some(0), "", [Thinking]);
    var v2 := View(Some(0), "<", [Thinking]);
    assert React(Some(run), View(None, "", []), evs[0]) == v1;
    assert "" + "<" == "<" && React(Some(run), v1, evs[1]) == v2;
    assert React(Some(run), v2, evs[2]) == View(Some(1), "<", [Thinking, Thinking]);
    hide React;
    assert evs == [evs[0]] + ([evs[1]] + [evs[2]]);
    ReactConcat(Some(run), View(None, "", []), [evs[0]], [evs[1]] + [evs[2]]);
    ReactConcat(Some(run), v1, [evs[1]], [evs[2]]);
    ReactOne(Some(run), View(None, "", []), evs[0]);
    ReactOne(Some(run), v1, evs[1]);
    ReactOne(Some(run), v2, evs[2]);
  }

  lemma {:induction false} CloseEndsTag(s: string)
    requires TagEnd(s) == 0
    ensures TagEnd(s + ">") == |s| + 1
  {
    if s == [] {
      assert s + ">" == ">";
    } else {
      assert (s + ">")[1..] == s[1..] + ">";
      CloseEndsTag(s[1..]);
    }
  }

  lemma NewlineSettles(lexer: TagLexer, pending: string)
    requires lexer.WellFormed() && pending != "" && pending[0] == '<' && !lexer.IsControl(pending)
    ensures lexer.StepAt(pending + "\n") == Keep
  {
    var s := pending + "\n";
    assert s[|pending|] == '\n' && LowerChar('\n') == '\n';
    assert forall k :: 0 <= k < |pending| ==> s[k] == pending[k];
    forall p | p in lexer.prefixes ensures !Begins(s, p) && !CutInside(s, p) {
      assert PrefixShape(p) && !Begins(pending, p);
    }
  }
}
