/** The per-action lifecycle of zhongshu-core/src/action/dispatcher.rs:37-257 over the append-only
    journal of zhongshu-core/src/action/journal.rs:16-47. */
module ActionDispatch {
  import opened Wrappers

  datatype ReplayPolicy = AlwaysExecute | SkipIfCommitted | QueryBeforeRetry | VerifyBeforeRetry | NeverAutomaticRetry

  datatype SideEffect = ReadOnly | LocalWrite | SystemChange | ExternalAction | Irreversible

  function InferReplayPolicy(name: string): ReplayPolicy {
    if name in ["read", "read_file", "list_dir", "grep", "glob", "search_files", "webfetch", "web_search",
                "search", "system_info", "self_test", "memory_query", "shell"] then AlwaysExecute
    else if name in ["write_file", "edit", "patch", "fs"] then VerifyBeforeRetry
    else if name in ["browser", "browser_automation", "browser_session", "screenshot", "automation",
                     "desktop"] then QueryBeforeRetry
    else SkipIfCommitted
  }

  function InferSideEffect(name: string): SideEffect {
    if name in ["write_file", "edit", "memory", "fs", "patch"] then LocalWrite
    else if name in ["screenshot", "automation", "desktop"] then SystemChange
    else if name in ["browser", "browser_automation", "browser_session"] then ExternalAction
    else if name == "shell" then Irreversible
    else ReadOnly
  }

  predicate SkipEligible(name: string) { !InferReplayPolicy(name).AlwaysExecute? }

  datatype Termination = RanToEnd | TimedOut | Cancelled

  datatype ToolStatus = Success | Error | AuthRequired

  /** What executing the tool came to; `effect` is that of the registered tool, if there is one. */
  datatype Execution = Execution(termination: Termination, status: ToolStatus, effect: Option<SideEffect>)

  /** What became of the wait for the user's approval. */
  datatype Wait = NoRequestId | NotPending | Approved | Denied | OtherOutcome | TokenCancelled

  /** Statuses of tool-call rows in the ledger. */
  datatype RowStatus =
    | Started | Completed | Failed | TimedOutRow | CancelledRow | UnknownEffect | ApprovedRow | DeniedRow

  datatype ActionStatus = ActionCompleted | ActionFailed | ActionTimedOut | ActionCancelled | UnknownOutcome

  /** Statuses shown to the callbacks when a tool is done. */
  datatype DoneStatus = DoneCompleted | DoneFailed | DoneTimedOut | DoneCancelled | DoneUnknown | AwaitingApproval

  datatype Row = Row(tool: string, args: string, key: nat, status: RowStatus)

  /** One effect of a dispatch, in the order they happen. */
  datatype Event =
    | OnStart(tool: string, args: string)
    | Append(row: Row)
    | Execute(tool: string, key: nat)
    | OnDone(tool: string, args: string, done: DoneStatus)

  datatype Request = Request(tool: string, args: string, toolCallsMade: nat)

  datatype ActionResult = ActionResult(status: ActionStatus, toolCallsMade: nat, skipped: bool)

  function Rows(events: seq<Event>): seq<Row> {
    if events == [] then []
    else if events[0].Append? then [events[0].row] + Rows(events[1..])
    else Rows(events[1..])
  }

  /** A completed row for the key exists. */
  predicate IsCompleted(log: seq<Row>, key: nat) {
    exists i :: 0 <= i < |log| && log[i].key == key && log[i].status == Completed
  }

  /** Indices of started rows with no later row of another status for the same key. */
  predicate InFlight(log: seq<Row>, i: nat) {
    i < |log| && log[i].status == Started
    && forall j :: i < j < |log| && log[j].key == log[i].key ==> log[j].status == Started
  }

  // -- What one dispatch does, as values ------------------------------

  datatype Outcome = Skip | Interrupted | Approval | Normal

  function SideEffectOf(tool: string, e: Execution): SideEffect {
    if e.effect.Some? then e.effect.value else InferSideEffect(tool)
  }

  function OutcomeOf(log: seq<Row>, tool: string, key: nat, e: Execution): Outcome {
    if SkipEligible(tool) && IsCompleted(log, key) then Skip
    else if !e.termination.RanToEnd? && !SideEffectOf(tool, e).ReadOnly? then Interrupted
    else if e.status == AuthRequired then Approval
    else Normal
  }

  function NormalDone(e: Execution): DoneStatus {
    if e.status == Success then DoneCompleted
    else match e.termination
         case TimedOut => DoneTimedOut
         case Cancelled => DoneCancelled
         case RanToEnd => DoneFailed
  }

  function LedgerStatus(d: DoneStatus): RowStatus
    requires d != AwaitingApproval
  {
    match d
    case DoneCompleted => Completed
    case DoneFailed => Failed
    case DoneTimedOut => TimedOutRow
    case DoneCancelled => CancelledRow
    case DoneUnknown => UnknownEffect
  }

  /** The terminal row's status. */
  function TerminalRow(o: Outcome, e: Execution, w: Wait): RowStatus {
    match o
    case Interrupted => UnknownEffect
    case Approval => if w.Approved? then ApprovedRow else if w.Denied? then DeniedRow else CancelledRow
    case _ => LedgerStatus(NormalDone(e))
  }

  function Opening(r: Request, key: nat): seq<Event> {
    [OnStart(r.tool, r.args), Append(Row(r.tool, r.args, key, Started)), Execute(r.tool, key)]
  }

  function Closing(r: Request, key: nat, o: Outcome, e: Execution, w: Wait): seq<Event> {
    var last := Append(Row(r.tool, r.args, key, TerminalRow(o, e, w)));
    match o
    case Interrupted => [OnDone(r.tool, r.args, DoneUnknown), last]
    case Approval =>
      var done := if w.Approved? then DoneCompleted else if w.Denied? then DoneFailed else DoneCancelled;
      [OnDone(r.tool, r.args, AwaitingApproval), OnDone(r.tool, r.args, done), last]
    case _ => [OnDone(r.tool, r.args, NormalDone(e)), last]
  }

  function Effects(log: seq<Row>, r: Request, key: nat, e: Execution, w: Wait): seq<Event> {
    var o := OutcomeOf(log, r.tool, key, e);
    if o.Skip? then [] else Opening(r, key) + Closing(r, key, o, e, w)
  }

  function ResultOf(log: seq<Row>, r: Request, key: nat, e: Execution, w: Wait): ActionResult {
    match OutcomeOf(log, r.tool, key, e)
    case Skip => ActionResult(ActionCompleted, r.toolCallsMade, true)
    case Interrupted => ActionResult(UnknownOutcome, r.toolCallsMade, false)
    case Approval =>
      ActionResult(if w.Approved? then ActionCompleted else if w.Denied? then ActionFailed else ActionCancelled,
             r.toolCallsMade, false)
    case Normal =>
      ActionResult(match NormalDone(e)
             case DoneFailed => ActionFailed
             case DoneTimedOut => ActionTimedOut
             case DoneCancelled => ActionCancelled
             case _ => ActionCompleted,
             r.toolCallsMade + 1, false)
  }

  /** The events of a runtime without a ledger: nothing is written. */
  function Unwritten(events: seq<Event>): seq<Event> {
    if events == [] then []
    else (if events[0].Append? then [] else [events[0]]) + Unwritten(events[1..])
  }

  // -- The same, step by step -----------------------------------------

  /** The journal of one run and the effects so far. The ledger may be absent; `hash` stands for the
      64-bit hash of name and arguments. */
  class ActionRuntime {
    const hash: (string, string) -> nat
    var ledger: Option<seq<Row>>
    var events: seq<Event>

    constructor (ledger: Option<seq<Row>>, hash: (string, string) -> nat)
      ensures this.ledger == ledger && events == [] && this.hash == hash
    {
      this.ledger, events, this.hash := ledger, [], hash;
    }

    function Log(): seq<Row>
      reads this
    {
      if ledger.Some? then ledger.value else []
    }

    /** From `ledger` and `events` as they were, the effects `done` have happened. */
    ghost predicate Did(ledger0: Option<seq<Row>>, events0: seq<Event>, done: seq<Event>)
      reads this
    {
      if ledger0.Some? then ledger == Some(ledger0.value + Rows(done)) && events == events0 + done
      else ledger == None && events == events0 + Unwritten(done)
    }

    /** One effect more; without a ledger nothing is written. */
    method Emit(event: Event, ghost ledger0: Option<seq<Row>>, ghost events0: seq<Event>, ghost done: seq<Event>)
      requires Did(ledger0, events0, done)
      modifies this
      ensures Did(ledger0, events0, done + [event])
    {
      RowsConcat(done, [event]);
      UnwrittenConcat(done, [event]);
      RowsOne(event);
      hide Rows; hide Unwritten;
      if !event.Append? {
        events := events + [event];
        assert Rows(done) + [] == Rows(done);
      } else if ledger.Some? {
        assert ledger.value + [event.row] == ledger0.value + (Rows(done) + [event.row]);
        assert events + [event] == events0 + (done + [event]);
        ledger := Some(ledger.value + [event.row]);
        events := events + [event];
      } else {
        assert Unwritten(done) + [] == Unwritten(done);
      }
    }

    /** The query of the ledger: is there a completed row for the key? */
    method IsToolCompleted(key: nat) returns (completed: bool)
      ensures completed <==> IsCompleted(Log(), key)
    {
      if ledger.None? { return false; }
      var log := ledger.value;
      for i := 0 to |log|
        invariant !IsCompleted(log[..i], key)
      {
        if log[i].key == key && log[i].status == Completed { return true; }
      }
      assert log[..|log|] == log;
      return false;
    }

    method DispatchWith(r: Request, e: Execution, w: Wait) returns (result: ActionResult)
      modifies this
      ensures result == ResultOf(old(Log()), r, hash(r.tool, r.args), e, w)
      ensures Did(old(ledger), old(events), Effects(old(Log()), r, hash(r.tool, r.args), e, w))
    {
      var key := hash(r.tool, r.args);
      ghost var ledger0, events0 := ledger, events;
      DidNothing();
      hide SkipEligible; hide InferSideEffect; hide IsCompleted; hide Did; hide Opening; hide Closing;
      ghost var o := OutcomeOf(Log(), r.tool, key, e);
      if SkipEligible(r.tool) {
        var completed := IsToolCompleted(key);
        if completed { return ActionResult(ActionCompleted, r.toolCallsMade, true); }
      }
      Open(r, key, ledger0, events0);

      if !e.termination.RanToEnd? && !SideEffectOf(r.tool, e).ReadOnly? {
        Finish(r, key, DoneUnknown, UnknownEffect, ledger0, events0, Opening(r, key));
        ClosingIs(r, key, Interrupted, e, w);
        return ActionResult(UnknownOutcome, r.toolCallsMade, false);
      }

      if e.status == AuthRequired {
        var status := FinishApproval(r, key, e, w, ledger0, events0);
        return ActionResult(status, r.toolCallsMade, false);
      }

      var done := NormalDone(e);
      Finish(r, key, done, LedgerStatus(done), ledger0, events0, Opening(r, key));
      ClosingIs(r, key, Normal, e, w);
      var status :=
        match done
        case DoneFailed => ActionFailed
        case DoneTimedOut => ActionTimedOut
        case DoneCancelled => ActionCancelled
        case _ => ActionCompleted;
      return ActionResult(status, r.toolCallsMade + 1, false);
    }

    lemma DidNothing()
      ensures Did(ledger, events, [])
    {
      NoRows();
      if ledger.Some? { assert ledger.value + [] == ledger.value; }
    }

    method Open(r: Request, key: nat, ghost ledger0: Option<seq<Row>>, ghost events0: seq<Event>)
      requires Did(ledger0, events0, [])
      modifies this
      ensures Did(ledger0, events0, Opening(r, key))
    {
      hide Did;
      ghost var start := Append(Row(r.tool, r.args, key, Started));
      Emit(OnStart(r.tool, r.args), ledger0, events0, []);
      assert [] + [OnStart(r.tool, r.args)] == [OnStart(r.tool, r.args)];
      Emit(Append(Row(r.tool, r.args, key, Started)), ledger0, events0, [OnStart(r.tool, r.args)]);
      assert [OnStart(r.tool, r.args)] + [start] == [OnStart(r.tool, r.args), start];
      Emit(Execute(r.tool, key), ledger0, events0, [OnStart(r.tool, r.args), start]);
      assert [OnStart(r.tool, r.args), start] + [Execute(r.tool, key)] == Opening(r, key);
    }

    /** The wait for approval: two done callbacks, then the row for its outcome. */
    method FinishApproval(r: Request, key: nat, e: Execution, w: Wait,
                          ghost ledger0: Option<seq<Row>>, ghost events0: seq<Event>)
      returns (status: ActionStatus)
      requires Did(ledger0, events0, Opening(r, key))
      modifies this
      ensures Did(ledger0, events0, Opening(r, key) + Closing(r, key, Approval, e, w))
      ensures status == if w.Approved? then ActionCompleted else if w.Denied? then ActionFailed else ActionCancelled
    {
      hide Did; hide Opening;
      var waiting := OnDone(r.tool, r.args, AwaitingApproval);
      Emit(waiting, ledger0, events0, Opening(r, key));
      var done := if w.Approved? then DoneCompleted else if w.Denied? then DoneFailed else DoneCancelled;
      var row := if w.Approved? then ApprovedRow else if w.Denied? then DeniedRow else CancelledRow;
      Finish(r, key, done, row, ledger0, events0, Opening(r, key) + [waiting]);
      assert Opening(r, key) + [waiting] + [OnDone(r.tool, r.args, done), Append(Row(r.tool, r.args, key, row))]
          == Opening(r, key) + Closing(r, key, Approval, e, w);
      status := if w.Approved? then ActionCompleted else if w.Denied? then ActionFailed else ActionCancelled;
    }

    /** The done callback, then the terminal row. */
    method Finish(r: Request, key: nat, done: DoneStatus, status: RowStatus,
                  ghost ledger0: Option<seq<Row>>, ghost events0: seq<Event>, ghost so: seq<Event>)
      requires Did(ledger0, events0, so)
      modifies this
      ensures
        Did(ledger0, events0, so + [OnDone(r.tool, r.args, done), Append(Row(r.tool, r.args, key, status))])
    {
      hide Did;
      Emit(OnDone(r.tool, r.args, done), ledger0, events0, so);
      Emit(Append(Row(r.tool, r.args, key, status)), ledger0, events0, so + [OnDone(r.tool, r.args, done)]);
      assert so + [OnDone(r.tool, r.args, done)] + [Append(Row(r.tool, r.args, key, status))]
          == so + [OnDone(r.tool, r.args, done), Append(Row(r.tool, r.args, key, status))];
    }
  }

  lemma ClosingIs(r: Request, key: nat, o: Outcome, e: Execution, w: Wait)
    requires o.Interrupted? || o.Normal?
    ensures
      Closing(r, key, o, e, w)
      == [OnDone(r.tool, r.args, if o.Normal? then NormalDone(e) else DoneUnknown),
          Append(Row(r.tool, r.args, key, if o.Normal? then LedgerStatus(NormalDone(e)) else UnknownEffect))]
  {
  }

  lemma NoRows()
    ensures Rows([]) == [] && Unwritten([]) == []
  {
  }

  lemma {:induction false} RowsConcat(a: seq<Event>, b: seq<Event>)
    ensures Rows(a + b) == Rows(a) + Rows(b)
  {
    if a == [] {
      assert a + b == b;
    } else {
      assert (a + b)[1..] == a[1..] + b;
      RowsConcat(a[1..], b);
    }
  }

  lemma {:induction false} UnwrittenConcat(a: seq<Event>, b: seq<Event>)
    ensures Unwritten(a + b) == Unwritten(a) + Unwritten(b)
  {
    if a == [] {
      assert a + b == b;
    } else {
      assert (a + b)[1..] == a[1..] + b;
      UnwrittenConcat(a[1..], b);
    }
  }

  lemma RowsOne(e: Event)
    ensures Rows([e]) == if e.Append? then [e.row] else []
    ensures Unwritten([e]) == if e.Append? then [] else [e]
  {
    assert [e][1..] == [];
  }

  lemma RowsTwo(a: Event, b: Event)
    ensures Rows([a, b]) == Rows([a]) + Rows([b])
  {
    assert [a, b] == [a] + [b];
    RowsConcat([a], [b]);
  }

  lemma RowsThree(a: Event, b: Event, c: Event)
    ensures Rows([a, b, c]) == Rows([a]) + Rows([b]) + Rows([c])
  {
    assert [a, b, c] == [a, b] + [c];
    RowsConcat([a, b], [c]);
    RowsTwo(a, b);
  }

  /** The rows a dispatch that is not skipped writes: one start and one end. */
  lemma EffectRows(r: Request, key: nat, o: Outcome, e: Execution, w: Wait)
    ensures Rows(Opening(r, key)) == [Row(r.tool, r.args, key, Started)]
    ensures Rows(Closing(r, key, o, e, w)) == [Row(r.tool, r.args, key, TerminalRow(o, e, w))]
  {
    var opening, closing := Opening(r, key), Closing(r, key, o, e, w);
    hide Rows; hide Unwritten; hide TerminalRow; hide NormalDone;
    RowsThree(opening[0], opening[1], opening[2]);
    RowsOne(opening[0]); RowsOne(opening[1]); RowsOne(opening[2]);
    if |closing| == 2 {
      RowsTwo(closing[0], closing[1]);
      RowsOne(closing[0]); RowsOne(closing[1]);
    } else {
      RowsThree(closing[0], closing[1], closing[2]);
      RowsOne(closing[0]); RowsOne(closing[1]); RowsOne(closing[2]);
    }
  }

  // -- How dispatches end ---------------------------------------------

  /** How a dispatch that is not skipped ends, given the tool's side effect: what the caller is told, what the
      journal says, what the callbacks hear, and whether it counts as a tool call. */
  predicate EndsAs(e: Execution, w: Wait, effect: SideEffect, status: ActionStatus, row: RowStatus,
                   dones: seq<DoneStatus>, counts: bool)
  {
    if e.termination != RanToEnd && effect != ReadOnly then
      status == UnknownOutcome && row == UnknownEffect && dones == [DoneUnknown] && !counts
    else if e.status == AuthRequired then
      && !counts
      && (w == Approved ==>
            status == ActionCompleted && row == ApprovedRow && dones == [AwaitingApproval, DoneCompleted])
      && (w == Denied ==> status == ActionFailed && row == DeniedRow && dones == [AwaitingApproval, DoneFailed])
      && (w != Approved && w != Denied ==>
            status == ActionCancelled && row == CancelledRow && dones == [AwaitingApproval, DoneCancelled])
    else if e.status == Success then
      status == ActionCompleted && row == Completed && dones == [DoneCompleted] && counts
    else
      && counts
      && (e.termination == RanToEnd ==> status == ActionFailed && row == Failed && dones == [DoneFailed])
      && (e.termination == TimedOut ==> status == ActionTimedOut && row == TimedOutRow && dones == [DoneTimedOut])
      && (e.termination == Cancelled ==>
            status == ActionCancelled && row == CancelledRow && dones == [DoneCancelled])
  }

  function Told(r: Request, dones: seq<DoneStatus>): seq<Event> {
    if dones == [] then [] else [OnDone(r.tool, r.args, dones[0])] + Told(r, dones[1..])
  }

  lemma ToldOneOrTwo(r: Request, first: DoneStatus, second: DoneStatus)
    ensures Told(r, [first]) == [OnDone(r.tool, r.args, first)]
    ensures Told(r, [first, second]) == [OnDone(r.tool, r.args, first), OnDone(r.tool, r.args, second)]
  {
    assert [first][1..] == [] && [first, second][1..] == [second] && [second][1..] == [];
  }

  /** A dispatch is skipped if the tool may be skipped and a completed row has the key; nothing happens then.
      Any other one starts, is written down as started before it is executed, and ends as the table says: with
      an unknown outcome exactly when it did not run to its end and its effect, the registered one or else the
      one inferred from its name, is not read-only. */
  lemma DispatchEnds(log: seq<Row>, r: Request, key: nat, e: Execution, w: Wait)
    returns (row: RowStatus, dones: seq<DoneStatus>, counts: bool)
    ensures
      var result, events := ResultOf(log, r, key, e, w), Effects(log, r, key, e, w);
      var known := exists i :: 0 <= i < |log| && log[i].key == key && log[i].status == Completed;
      var skipped := SkipEligible(r.tool) && known;
      var effect := match e.effect case Some(known) => known case None => InferSideEffect(r.tool);
      if skipped then result == ActionResult(ActionCompleted, r.toolCallsMade, true) && events == []
      else
        && EndsAs(e, w, effect, result.status, row, dones, counts)
        && result == ActionResult(result.status, if counts then r.toolCallsMade + 1 else r.toolCallsMade, false)
        && events == [OnStart(r.tool, r.args), Append(Row(r.tool, r.args, key, Started)), Execute(r.tool, key)]
                     + Told(r, dones) + [Append(Row(r.tool, r.args, key, row))]
        && (result.status == UnknownOutcome <==> e.termination != RanToEnd && effect != ReadOnly)
  {
    hide SkipEligible; hide InferSideEffect;
    var o := OutcomeOf(log, r.tool, key, e);
    row, counts := TerminalRow(o, e, w), o.Normal?;
    var done := if w.Approved? then DoneCompleted else if w.Denied? then DoneFailed else DoneCancelled;
    dones :=
      match o
      case Interrupted => [DoneUnknown]
      case Approval => [AwaitingApproval, done]
      case _ => [NormalDone(e)];
    ToldOneOrTwo(r, dones[0], done);
  }

  /** Exactly these tools are always executed. */
  lemma AlwaysExecutedIff(name: string)
    ensures
      !SkipEligible(name)
      <==> name in {"read", "read_file", "list_dir", "grep", "glob", "search_files", "webfetch", "web_search", "search",
                    "system_info", "self_test", "memory_query", "shell"}
    ensures InferReplayPolicy(name) == VerifyBeforeRetry <==> name in {"write_file", "edit", "patch", "fs"}
    ensures
      InferReplayPolicy(name) == QueryBeforeRetry
      <==> name in {"browser", "browser_automation", "browser_session", "screenshot", "automation", "desktop"}
    ensures InferReplayPolicy(name) != NeverAutomaticRetry
  {
  }

  /** Exactly these are known to change something. */
  lemma ReadOnlyIff(name: string)
    ensures
      !InferSideEffect(name).ReadOnly?
      <==> name in {"write_file", "edit", "memory", "fs", "patch", "screenshot", "automation", "desktop", "browser",
                    "browser_automation", "browser_session", "shell"}
    ensures InferSideEffect(name) == LocalWrite <==> name in {"write_file", "edit", "memory", "fs", "patch"}
    ensures InferSideEffect(name) == SystemChange <==> name in {"screenshot", "automation", "desktop"}
    ensures InferSideEffect(name) == Irreversible <==> name == "shell"
  {
  }
}
