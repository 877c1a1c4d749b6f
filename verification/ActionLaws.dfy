/** What the journal guarantees over runs of dispatches, crashes and restarts
    (zhongshu-core/src/action/dispatcher.rs:37-257, zhongshu-core/src/core/ledger.rs:136-154, 200-246). */
module ActionLaws {
  import opened Wrappers
  import opened ActionDispatch
  import Sets

  /** One dispatch as the agent makes it, with what the world answers. */
  datatype Call = Call(tool: string, args: string, key: nat, execution: Execution, wait: Wait)

  function EffectsOf(log: seq<Row>, c: Call): seq<Event> {
    Effects(log, Request(c.tool, c.args, 0), c.key, c.execution, c.wait)
  }

  /** The events of dispatches made one after the other by one process. */
  function Session(log: seq<Row>, calls: seq<Call>): seq<Event>
    decreases |calls|
  {
    if calls == [] then []
    else EffectsOf(log, calls[0]) + Session(log + Rows(EffectsOf(log, calls[0])), calls[1..])
  }

  /** A process that ran `calls`, and was cut off after `cut` events if it had that many. */
  datatype Process = Process(calls: seq<Call>, cut: nat)

  function ProcessEvents(log: seq<Row>, p: Process): seq<Event> {
    var all := Session(log, p.calls);
    if p.cut < |all| then all[..p.cut] else all
  }

  predicate Crashed(log: seq<Row>, p: Process) { p.cut < |Session(log, p.calls)| }

  /** All events of processes that restart on the same journal. */
  function History(log: seq<Row>, ps: seq<Process>): seq<Event>
    decreases |ps|
  {
    if ps == [] then []
    else ProcessEvents(log, ps[0]) + History(log + Rows(ProcessEvents(log, ps[0])), ps[1..])
  }

  // -- A completed action is not executed again -----------------------

  /** Nothing that may be skipped is executed once its key has completed. */
  ghost predicate NeverAgain(log: seq<Row>, events: seq<Event>) {
    forall j :: 0 <= j < |events| && events[j].Execute? && SkipEligible(events[j].tool) ==>
      !IsCompleted(log + Rows(events[..j]), events[j].key)
  }

  lemma RowsPrefix(events: seq<Event>, i: nat)
    requires i <= |events|
    ensures Rows(events) == Rows(events[..i]) + Rows(events[i..])
  {
    assert events[..i] + events[i..] == events;
    RowsConcat(events[..i], events[i..]);
  }

  lemma NeverAgainJoins(log: seq<Row>, a: seq<Event>, b: seq<Event>)
    requires NeverAgain(log, a) && NeverAgain(log + Rows(a), b)
    ensures NeverAgain(log, a + b)
  {
    hide Rows; hide SkipEligible; hide IsCompleted;
    var ab := a + b;
    forall j | 0 <= j < |ab| && ab[j].Execute? && SkipEligible(ab[j].tool)
      ensures !IsCompleted(log + Rows(ab[..j]), ab[j].key)
    {
      if j < |a| {
        assert ab[..j] == a[..j] && ab[j] == a[j];
      } else {
        var k := j - |a|;
        assert ab[..j] == a + b[..k] && ab[j] == b[k];
        RowsConcat(a, b[..k]);
        assert log + (Rows(a) + Rows(b[..k])) == log + Rows(a) + Rows(b[..k]);
      }
    }
  }

  lemma NeverAgainPrefix(log: seq<Row>, events: seq<Event>, n: nat)
    requires NeverAgain(log, events) && n <= |events|
    ensures NeverAgain(log, events[..n])
  {
    hide Rows; hide SkipEligible; hide IsCompleted;
    forall j | 0 <= j < n ensures events[..n][..j] == events[..j] {}
  }

  /** The start row is on the journal before the tool is executed. */
  lemma OneDispatchIsSafe(log: seq<Row>, c: Call)
    ensures NeverAgain(log, EffectsOf(log, c))
  {
    hide Rows; hide SkipEligible; hide IsCompleted; hide TerminalRow; hide NormalDone;
    var r := Request(c.tool, c.args, 0);
    var o := OutcomeOf(log, c.tool, c.key, c.execution);
    if !o.Skip? {
      var opening, closing := Opening(r, c.key), Closing(r, c.key, o, c.execution, c.wait);
      var events := opening + closing;
      assert events[..2] == [opening[0], opening[1]];
      BeforeExecution(r, c.key);
      StartIsNotCompletion(log, opening[1].row, c.key);
      OnlyOneExecution(r, c.key, o, c.execution, c.wait);
    }
  }

  lemma BeforeExecution(r: Request, key: nat)
    ensures Rows([Opening(r, key)[0], Opening(r, key)[1]]) == [Row(r.tool, r.args, key, Started)]
  {
    var opening := Opening(r, key);
    RowsTwo(opening[0], opening[1]);
    RowsOne(opening[0]);
    RowsOne(opening[1]);
  }

  lemma OnlyOneExecution(r: Request, key: nat, o: Outcome, e: Execution, w: Wait)
    ensures
      var events := Opening(r, key) + Closing(r, key, o, e, w);
      forall j :: 0 <= j < |events| && events[j].Execute? ==> j == 2
  {
    hide TerminalRow; hide NormalDone;
  }

  lemma StartIsNotCompletion(log: seq<Row>, row: Row, key: nat)
    requires row.status == Started
    ensures IsCompleted(log + [row], key) <==> IsCompleted(log, key)
  {
    if i :| 0 <= i < |log| && log[i].key == key && log[i].status == Completed {
      assert (log + [row])[i] == log[i];
    }
  }

  lemma {:induction false} SessionIsSafe(log: seq<Row>, calls: seq<Call>)
    ensures NeverAgain(log, Session(log, calls))
    decreases |calls|
  {
    hide NeverAgain; hide EffectsOf; hide Rows;
    if calls == [] {
      NothingIsSafe(log);
    } else {
      var first := EffectsOf(log, calls[0]);
      OneDispatchIsSafe(log, calls[0]);
      SessionIsSafe(log + Rows(first), calls[1..]);
      NeverAgainJoins(log, first, Session(log + Rows(first), calls[1..]));
    }
  }

  lemma NothingIsSafe(log: seq<Row>)
    ensures NeverAgain(log, [])
  {
  }

  lemma {:induction false} HistoryIsSafe(log: seq<Row>, ps: seq<Process>)
    ensures NeverAgain(log, History(log, ps))
    decreases |ps|
  {
    hide NeverAgain; hide Rows; hide Session;
    if ps == [] {
      NothingIsSafe(log);
    } else {
      var first := ProcessEvents(log, ps[0]);
      SessionIsSafe(log, ps[0].calls);
      if ps[0].cut < |Session(log, ps[0].calls)| { NeverAgainPrefix(log, Session(log, ps[0].calls), ps[0].cut); }
      HistoryIsSafe(log + Rows(first), ps[1..]);
      NeverAgainJoins(log, first, History(log + Rows(first), ps[1..]));
    }
  }

  /** Across any number of crashes and restarts on one journal: once a row says that a key completed,
      no tool that may be skipped is executed under that key again. */
  lemma CompletedIsNeverExecutedAgain(log: seq<Row>, ps: seq<Process>, i: nat, j: nat)
    requires i < j < |History(log, ps)|
    requires
      var events := History(log, ps);
      && events[i].Append? && events[i].row.status == Completed
      && events[j].Execute? && events[j].key == events[i].row.key
    ensures !SkipEligible(History(log, ps)[j].tool)
  {
    var events := History(log, ps);
    HistoryIsSafe(log, ps);
    hide History; hide SkipEligible;
    AppendedIsThere(events[..j], i);
    var row := events[i].row;
    var k :| 0 <= k < |Rows(events[..j])| && Rows(events[..j])[k] == row;
    assert (log + Rows(events[..j]))[|log| + k] == row;
    assert IsCompleted(log + Rows(events[..j]), row.key);
  }

  lemma {:induction false} AppendedIsThere(events: seq<Event>, i: nat)
    requires i < |events| && events[i].Append?
    ensures events[i].row in Rows(events)
  {
    if i > 0 { AppendedIsThere(events[1..], i - 1); }
  }

  /** After a dispatch, one for the same key is skipped exactly when the key had completed before or
      the dispatch wrote a `completed` row; an approved or interrupted action runs again. */
  lemma SkippedNextIff(log: seq<Row>, c: Call, d: Call)
    requires SkipEligible(d.tool) && d.key == c.key
    ensures
      var o := OutcomeOf(log, c.tool, c.key, c.execution);
      OutcomeOf(log + Rows(EffectsOf(log, c)), d.tool, d.key, d.execution).Skip?
      <==> IsCompleted(log, c.key) || (o.Normal? && c.execution.status == Success)
  {
    var r := Request(c.tool, c.args, 0);
    var o := OutcomeOf(log, c.tool, c.key, c.execution);
    hide SkipEligible; hide InferSideEffect; hide IsCompleted; hide Rows;
    if !o.Skip? {
      DispatchRows(log, c);
      var end := TerminalRow(o, c.execution, c.wait);
      var rows := [Row(c.tool, c.args, c.key, Started), Row(c.tool, c.args, c.key, end)];
      CompletedAfterTwo(log, rows[0], rows[1], c.key);
      assert rows == [rows[0], rows[1]];
    } else {
      NoRows();
      assert log + [] == log;
    }
  }

  lemma CompletedAfterTwo(log: seq<Row>, a: Row, b: Row, key: nat)
    requires a.status == Started && b.key == key
    ensures IsCompleted(log + [a, b], key) <==> IsCompleted(log, key) || b.status == Completed
  {
    var longer := log + [a, b];
    assert longer[|log| + 1] == b;
    if i :| 0 <= i < |log| && log[i].key == key && log[i].status == Completed { assert longer[i] == log[i]; }
  }

  /** A dispatch that is not skipped writes a start and an end with the same tool, arguments and key. */
  lemma DispatchRows(log: seq<Row>, c: Call)
    ensures
      var o := OutcomeOf(log, c.tool, c.key, c.execution);
      Rows(EffectsOf(log, c))
      == if o.Skip? then []
         else [Row(c.tool, c.args, c.key, Started), Row(c.tool, c.args, c.key, TerminalRow(o, c.execution, c.wait))]
  {
    var r := Request(c.tool, c.args, 0);
    var o := OutcomeOf(log, c.tool, c.key, c.execution);
    hide SkipEligible; hide InferSideEffect; hide IsCompleted; hide Rows; hide TerminalRow; hide Opening; hide Closing;
    if o.Skip? {
      NoRows();
    } else {
      EffectRows(r, c.key, o, c.execution, c.wait);
      RowsConcat(Opening(r, c.key), Closing(r, c.key, o, c.execution, c.wait));
    }
  }

  // -- What a skipped action had completed ----------------------------

  /** The key is the hash of name and arguments. */
  predicate KeyedCall(hash: (string, string) -> nat, c: Call) { c.key == hash(c.tool, c.args) }

  predicate KeyedProcess(hash: (string, string) -> nat, p: Process) {
    forall i :: 0 <= i < |p.calls| ==> KeyedCall(hash, p.calls[i])
  }

  predicate Keyed(hash: (string, string) -> nat, log: seq<Row>) {
    forall i :: 0 <= i < |log| ==> log[i].key == hash(log[i].tool, log[i].args)
  }

  /** This very action, by name and arguments, has a completed row. */
  predicate OwnCompleted(log: seq<Row>, c: Call) {
    exists i :: 0 <= i < |log| && log[i].tool == c.tool && log[i].args == c.args && log[i].status == Completed
  }

  predicate IsSkipped(log: seq<Row>, c: Call) { OutcomeOf(log, c.tool, c.key, c.execution).Skip? }

  lemma {:induction false} SessionIsKeyed(hash: (string, string) -> nat, log: seq<Row>, calls: seq<Call>)
    requires forall i :: 0 <= i < |calls| ==> KeyedCall(hash, calls[i])
    ensures Keyed(hash, Rows(Session(log, calls)))
    decreases |calls|
  {
    hide EffectsOf; hide Rows;
    if calls == [] {
      NoRows();
    } else {
      var first := EffectsOf(log, calls[0]);
      DispatchRows(log, calls[0]);
      assert KeyedCall(hash, calls[0]);
      SessionIsKeyed(hash, log + Rows(first), calls[1..]);
      RowsConcat(first, Session(log + Rows(first), calls[1..]));
    }
  }

  lemma ProcessIsKeyed(hash: (string, string) -> nat, log: seq<Row>, p: Process)
    requires KeyedProcess(hash, p)
    ensures Keyed(hash, Rows(ProcessEvents(log, p)))
  {
    hide Session; hide Rows;
    SessionIsKeyed(hash, log, p.calls);
    var all := Session(log, p.calls);
    if p.cut < |all| {
      RowsPrefix(all, p.cut);
      assert forall i :: 0 <= i < |Rows(all[..p.cut])| ==> Rows(all[..p.cut])[i] == Rows(all)[i];
    }
  }

  lemma {:induction false} HistoryIsKeyed(hash: (string, string) -> nat, log: seq<Row>, ps: seq<Process>)
    requires forall i :: 0 <= i < |ps| ==> KeyedProcess(hash, ps[i])
    ensures Keyed(hash, Rows(History(log, ps)))
    decreases |ps|
  {
    hide ProcessEvents; hide Rows; hide KeyedProcess;
    if ps == [] {
      NoRows();
    } else {
      var first := ProcessEvents(log, ps[0]);
      ProcessIsKeyed(hash, log, ps[0]);
      HistoryIsKeyed(hash, log + Rows(first), ps[1..]);
      RowsConcat(first, History(log + Rows(first), ps[1..]));
    }
  }

  /** After any dispatches, crashes and restarts, an action is only skipped if it had itself completed. */
  ghost predicate SkipsOnlyItsOwn(hash: (string, string) -> nat) {
    forall ps: seq<Process>, c: Call |
      (forall i :: 0 <= i < |ps| ==> KeyedProcess(hash, ps[i])) && KeyedCall(hash, c)
      && IsSkipped(Rows(History([], ps)), c) :: OwnCompleted(Rows(History([], ps)), c)
  }

  /** No other action has the hash of one that may be skipped. */
  ghost predicate Separates(hash: (string, string) -> nat) {
    forall t, a, u, b :: SkipEligible(u) && hash(t, a) == hash(u, b) ==> t == u && a == b
  }

  lemma SeparatedSkip(hash: (string, string) -> nat, log: seq<Row>, c: Call)
    requires Separates(hash) && Keyed(hash, log) && KeyedCall(hash, c) && IsSkipped(log, c)
    ensures OwnCompleted(log, c)
  {
    hide SkipEligible; hide InferSideEffect;
    var i :| 0 <= i < |log| && log[i].key == c.key && log[i].status == Completed;
    assert log[i].tool == c.tool && log[i].args == c.args;
  }

  /** The journal of one action that ran and succeeded. */
  lemma OneSuccess(t: string, a: string, key: nat)
    ensures
      var c := Call(t, a, key, Execution(RanToEnd, Success, None), NoRequestId);
      Rows(History([], [Process([c], 100)])) == [Row(t, a, key, Started), Row(t, a, key, Completed)]
  {
    var c := Call(t, a, key, Execution(RanToEnd, Success, None), NoRequestId);
    var p := Process([c], 100);
    hide SkipEligible; hide InferSideEffect;
    DispatchRows([], c);
    var first := EffectsOf([], c);
    assert |first| <= 6;
    hide EffectsOf; hide Rows;
    assert [c][1..] == [] && [p][1..] == [];
    assert Session([], [c]) == first + [] == first;
    assert History([], [p]) == first + [] == first;
  }

  lemma CollidingSkip(hash: (string, string) -> nat, t: string, a: string, u: string, b: string)
    requires SkipEligible(u) && hash(t, a) == hash(u, b) && (t != u || a != b)
    ensures !SkipsOnlyItsOwn(hash)
  {
    var ran := Execution(RanToEnd, Success, None);
    var c := Call(u, b, hash(u, b), ran, NoRequestId);
    var p := Process([Call(t, a, hash(t, a), ran, NoRequestId)], 100);
    OneSuccess(t, a, hash(t, a));
    var log := Rows(History([], [p]));
    hide History; hide Rows; hide SkipEligible; hide InferSideEffect;
    assert log[1].status == Completed && IsSkipped(log, c) && !OwnCompleted(log, c);
    assert KeyedCall(hash, c) && KeyedProcess(hash, p);
    var ps := [p];
    assert forall i :: 0 <= i < |ps| ==> KeyedProcess(hash, ps[i]);
  }

  function Repeated(n: nat): (text: string)
    ensures |text| == n
  {
    seq(n, _ => 'a')
  }

  /** A hash of any fixed width therefore skips some action that had not completed. */
  lemma BoundedHashSkipsOthers(hash: (string, string) -> nat, bound: nat)
    requires forall t, a :: hash(t, a) < bound
    ensures !SkipsOnlyItsOwn(hash)
  {
    var f := (k: nat) => hash("edit", Repeated(k));
    forall k: nat ensures f(k) < bound { assert f(k) == hash("edit", Repeated(k)); }
    Sets.Pigeonhole(f, bound);
    var i: nat, j: nat :| i < j && f(i) == f(j);
    assert |Repeated(i)| != |Repeated(j)| && SkipEligible("edit");
    assert !Separates(hash) by { assert hash("edit", Repeated(i)) == hash("edit", Repeated(j)); }
    SkipsOnlyItsOwnIff(hash);
  }

  /** Only actions that had completed are ever skipped, if and only if no two actions share a hash of which one
      may be skipped: the key does not carry name and arguments themselves. */
  lemma SkipsOnlyItsOwnIff(hash: (string, string) -> nat)
    ensures SkipsOnlyItsOwn(hash) <==> Separates(hash)
  {
    hide History; hide Rows; hide SkipEligible; hide IsSkipped; hide OwnCompleted; hide KeyedProcess; hide KeyedCall;
    if Separates(hash) {
      forall ps: seq<Process>, c: Call |
        (forall i :: 0 <= i < |ps| ==> KeyedProcess(hash, ps[i])) && KeyedCall(hash, c)
        && IsSkipped(Rows(History([], ps)), c)
        ensures OwnCompleted(Rows(History([], ps)), c)
      {
        HistoryIsKeyed(hash, [], ps);
        SeparatedSkip(hash, Rows(History([], ps)), c);
      }
    } else {
      var t, a, u, b :| SkipEligible(u) && hash(t, a) == hash(u, b) && (t != u || a != b);
      CollidingSkip(hash, t, a, u, b);
    }
  }

  // -- The journal is well bracketed ----------------------------------

  predicate Pair(a: Row, b: Row) {
    a.status == Started && b.status != Started && a.tool == b.tool && a.args == b.args && a.key == b.key
  }

  /** A sequence of matched starts and ends. */
  predicate Bracketed(rows: seq<Row>) {
    rows == [] || (|rows| >= 2 && Pair(rows[0], rows[1]) && Bracketed(rows[2..]))
  }

  /** Matched pairs, and perhaps one last start without its end. */
  predicate Cutoff(rows: seq<Row>) {
    Bracketed(rows) || (|rows| > 0 && Bracketed(rows[..|rows| - 1]) && rows[|rows| - 1].status == Started)
  }

  lemma {:induction false} BracketedConcat(a: seq<Row>, b: seq<Row>)
    requires Bracketed(a)
    ensures Bracketed(b) ==> Bracketed(a + b)
    ensures Cutoff(b) ==> Cutoff(a + b)
    decreases |a|
  {
    if a == [] {
      assert a + b == b;
    } else {
      assert |a| >= 2 && Pair(a[0], a[1]) && Bracketed(a[2..]);
      hide Pair; hide Bracketed; hide Cutoff;
      BracketedConcat(a[2..], b);
      assert a + b == [a[0], a[1]] + (a[2..] + b);
      BracketedCons(a[0], a[1], a[2..] + b);
      CutoffCons(a[0], a[1], a[2..] + b);
    }
  }

  lemma BracketedCons(x: Row, y: Row, rows: seq<Row>)
    requires Pair(x, y)
    ensures Bracketed(rows) ==> Bracketed([x, y] + rows)
  {
    assert ([x, y] + rows)[2..] == rows;
  }

  lemma CutoffCons(x: Row, y: Row, rows: seq<Row>)
    requires Pair(x, y)
    ensures Cutoff(rows) ==> Cutoff([x, y] + rows)
  {
    hide Pair;
    var all := [x, y] + rows;
    BracketedCons(x, y, rows);
    if |rows| > 0 {
      assert all[..|all| - 1] == [x, y] + rows[..|rows| - 1];
      BracketedCons(x, y, rows[..|rows| - 1]);
    }
    hide Bracketed;
  }

  lemma {:induction false} SessionIsBracketed(log: seq<Row>, calls: seq<Call>)
    ensures Bracketed(Rows(Session(log, calls)))
    decreases |calls|
  {
    hide EffectsOf; hide Rows;
    if calls == [] {
      NoRows();
    } else {
      var first := EffectsOf(log, calls[0]);
      var rest := Session(log + Rows(first), calls[1..]);
      DispatchRows(log, calls[0]);
      SessionIsBracketed(log + Rows(first), calls[1..]);
      RowsConcat(first, rest);
      BracketedConcat(Rows(first), Rows(rest));
    }
  }

  /** Wherever a process is cut off, its rows are matched pairs and at most one last unmatched start. */
  lemma {:induction false} CrashPrefixIsCutoff(log: seq<Row>, calls: seq<Call>, n: nat)
    requires n <= |Session(log, calls)|
    ensures Cutoff(Rows(Session(log, calls)[..n]))
    decreases |calls|
  {
    hide EffectsOf; hide Rows; hide Cutoff;
    if calls == [] {
      NoRows();
      EmptyCutoff();
    } else {
      var first := EffectsOf(log, calls[0]);
      var rest := Session(log + Rows(first), calls[1..]);
      if n <= |first| {
        assert (first + rest)[..n] == first[..n];
        OneCrashPrefix(log, calls[0], n);
      } else {
        CrashPrefixIsCutoff(log + Rows(first), calls[1..], n - |first|);
        assert (first + rest)[..n] == first + rest[..n - |first|];
        RowsConcat(first, rest[..n - |first|]);
        DispatchRows(log, calls[0]);
        BracketedConcat(Rows(first), Rows(rest[..n - |first|]));
      }
    }
  }

  lemma EmptyCutoff()
    ensures Cutoff([])
  {
  }

  lemma OneCrashPrefix(log: seq<Row>, c: Call, n: nat)
    requires n <= |EffectsOf(log, c)|
    ensures Cutoff(Rows(EffectsOf(log, c)[..n]))
  {
    var events := EffectsOf(log, c);
    RowsPrefix(events, n);
    DispatchRows(log, c);
    hide Rows; hide EffectsOf;
    PrefixOfPair(Rows(events[..n]), Rows(events[n..]), Rows(events));
  }

  lemma PrefixOfPair(a: seq<Row>, b: seq<Row>, all: seq<Row>)
    requires all == a + b && (all == [] || (|all| == 2 && Pair(all[0], all[1])))
    ensures Cutoff(a)
  {
    if |a| == 1 {
      assert a[0] == all[0] && a[..0] == [];
    } else if |a| == 2 {
      assert a == all && a[2..] == [];
    }
  }

  // -- Actions in flight after a crash --------------------------------

  /** The rows the reconciliation query returns. */
  ghost function Reconciled(log: seq<Row>): set<nat> { set i: nat | i < |log| && InFlight(log, i) }

  lemma {:induction false} StartIsFollowedByItsEnd(rows: seq<Row>, k: nat)
    requires Bracketed(rows) && k < |rows| && rows[k].status == Started
    ensures k + 1 < |rows| && rows[k + 1].key == rows[k].key && rows[k + 1].status != Started
  {
    if k >= 2 { StartIsFollowedByItsEnd(rows[2..], k - 2); }
  }

  lemma OlderStart(log: seq<Row>, rows: seq<Row>, i: nat)
    requires i < |log| && InFlight(log + rows, i)
    ensures InFlight(log, i)
  {
    assert forall j :: 0 <= j < |log| ==> (log + rows)[j] == log[j];
  }

  lemma EndedIsNotInFlight(log: seq<Row>, i: nat)
    requires i < |log|
    requires log[i].status != Started
             || (i + 1 < |log| && log[i + 1].key == log[i].key && log[i + 1].status != Started)
    ensures !InFlight(log, i)
  {
  }

  /** Among the rows of one process only a last, unmatched start can be in flight. */
  lemma LateStart(log: seq<Row>, rows: seq<Row>, k: nat)
    requires Cutoff(rows) && k < |rows|
    ensures InFlight(log + rows, |log| + k) ==> !Bracketed(rows) && k == |rows| - 1
  {
    hide InFlight; hide Bracketed;
    var all := log + rows;
    assert all[|log| + k] == rows[k];
    if rows[k].status != Started {
      EndedIsNotInFlight(all, |log| + k);
    } else if Bracketed(rows) || k < |rows| - 1 {
      var paired := if Bracketed(rows) then rows else rows[..|rows| - 1];
      StartIsFollowedByItsEnd(paired, k);
      assert all[|log| + k + 1] == rows[k + 1];
      EndedIsNotInFlight(all, |log| + k);
    }
  }

  function LastStart(log: seq<Row>, rows: seq<Row>): set<nat> {
    if Bracketed(rows) || rows == [] then {} else {|log| + |rows| - 1}
  }

  /** Rows appended by one process add at most its own last start to the reconciled set. */
  lemma ReconciledAfter(log: seq<Row>, rows: seq<Row>)
    requires Cutoff(rows)
    ensures Reconciled(log + rows) <= Reconciled(log) + LastStart(log, rows)
    ensures |LastStart(log, rows)| == if Bracketed(rows) then 0 else 1
  {
    assert rows == [] ==> Bracketed(rows);
    hide InFlight; hide Bracketed; hide Cutoff;
    forall i: nat | i in Reconciled(log + rows) ensures i in Reconciled(log) + LastStart(log, rows) {
      ReconciledIsOldOrLast(log, rows, i);
    }
  }

  lemma ReconciledIsOldOrLast(log: seq<Row>, rows: seq<Row>, i: nat)
    requires Cutoff(rows) && i in Reconciled(log + rows)
    ensures i in Reconciled(log) || i in LastStart(log, rows)
  {
    hide InFlight; hide Bracketed; hide Cutoff;
    assert i < |log + rows| && InFlight(log + rows, i);
    if i < |log| {
      OlderStart(log, rows, i);
    } else {
      LateStart(log, rows, i - |log|);
    }
  }

  /** An unmatched start is returned by the query when the process that wrote it is gone. */
  lemma UnmatchedStartIsReported(log: seq<Row>, rows: seq<Row>)
    requires Cutoff(rows) && !Bracketed(rows)
    ensures |rows| > 0 && |log| + |rows| - 1 in Reconciled(log + rows)
  {
    hide Bracketed;
    assert (log + rows)[|log| + |rows| - 1] == rows[|rows| - 1];
  }

  /** How many of the processes were cut off. */
  function Crashes(log: seq<Row>, ps: seq<Process>): nat
    decreases |ps|
  {
    if ps == [] then 0
    else (if Crashed(log, ps[0]) then 1 else 0) + Crashes(log + Rows(ProcessEvents(log, ps[0])), ps[1..])
  }

  lemma ProcessIsCutoff(log: seq<Row>, p: Process)
    ensures Cutoff(Rows(ProcessEvents(log, p)))
    ensures !Crashed(log, p) ==> Bracketed(Rows(ProcessEvents(log, p)))
  {
    hide Session; hide Rows;
    if p.cut < |Session(log, p.calls)| {
      CrashPrefixIsCutoff(log, p.calls, p.cut);
    } else {
      SessionIsBracketed(log, p.calls);
    }
  }

  /** After any number of crashes and restarts the query returns at most one action per crash; after
      complete processes it returns nothing new. */
  lemma {:induction false} OneActionInFlightPerCrash(log: seq<Row>, ps: seq<Process>)
    ensures |Reconciled(log + Rows(History(log, ps)))| <= |Reconciled(log)| + Crashes(log, ps)
    decreases |ps|
  {
    hide Rows; hide ProcessEvents; hide Crashed; hide Reconciled; hide Cutoff; hide Bracketed;
    if ps == [] {
      NoRows();
      assert log + [] == log;
    } else {
      var first := ProcessEvents(log, ps[0]);
      var next := log + Rows(first);
      ProcessIsCutoff(log, ps[0]);
      ReconciledAfter(log, Rows(first));
      Sets.UnionSize(Reconciled(next), Reconciled(log), LastStart(log, Rows(first)));
      hide LastStart;
      OneActionInFlightPerCrash(next, ps[1..]);
      RowsConcat(first, History(next, ps[1..]));
      assert log + (Rows(first) + Rows(History(next, ps[1..]))) == next + Rows(History(next, ps[1..]));
    }
  }

  // -- What the rows say and what the callers are told ----------------

  /** The status an ending row stands for. */
  function Says(s: RowStatus): ActionStatus
    requires s != Started
  {
    match s
    case Completed => ActionCompleted
    case ApprovedRow => ActionCompleted
    case Failed => ActionFailed
    case DeniedRow => ActionFailed
    case TimedOutRow => ActionTimedOut
    case CancelledRow => ActionCancelled
    case UnknownEffect => UnknownOutcome
  }

  /** What the ends on the journal say, in order. */
  function Said(rows: seq<Row>): seq<ActionStatus> {
    if rows == [] then []
    else (if rows[0].status == Started then [] else [Says(rows[0].status)]) + Said(rows[1..])
  }

  function CallResult(log: seq<Row>, c: Call, made: nat): ActionResult {
    ResultOf(log, Request(c.tool, c.args, made), c.key, c.execution, c.wait)
  }

  /** The statuses returned by dispatches that were not skipped, in order. */
  function Told(log: seq<Row>, calls: seq<Call>): seq<ActionStatus>
    decreases |calls|
  {
    if calls == [] then []
    else
      var r := CallResult(log, calls[0], 0);
      (if r.skipped then [] else [r.status]) + Told(log + Rows(EffectsOf(log, calls[0])), calls[1..])
  }

  lemma {:induction false} SaidConcat(a: seq<Row>, b: seq<Row>)
    ensures Said(a + b) == Said(a) + Said(b)
  {
    if a == [] {
      assert a + b == b;
    } else {
      assert (a + b)[1..] == a[1..] + b;
      SaidConcat(a[1..], b);
    }
  }

  lemma OneDispatchTells(log: seq<Row>, c: Call, made: nat)
    ensures
      var r := CallResult(log, c, made);
      Said(Rows(EffectsOf(log, c))) == if r.skipped then [] else [r.status]
  {
    var o := OutcomeOf(log, c.tool, c.key, c.execution);
    DispatchRows(log, c);
    hide EffectsOf; hide Rows; hide IsCompleted; hide SkipEligible; hide InferSideEffect;
    if !o.Skip? {
      var a := Row(c.tool, c.args, c.key, Started);
      var b := Row(c.tool, c.args, c.key, TerminalRow(o, c.execution, c.wait));
      assert [a, b][1..] == [b] && [b][1..] == [];
      assert Said([a, b]) == Said([b]) == [Says(b.status)];
    }
  }

  /** The ends on the journal say, one for one, what the callers were told. */
  lemma {:induction false} JournalSaysWhatWasTold(log: seq<Row>, calls: seq<Call>)
    ensures Said(Rows(Session(log, calls))) == Told(log, calls)
    decreases |calls|
  {
    hide EffectsOf; hide Rows; hide CallResult; hide Said;
    if calls == [] {
      NoRows();
      NothingSaid();
    } else {
      var first := EffectsOf(log, calls[0]);
      var rest := Session(log + Rows(first), calls[1..]);
      OneDispatchTells(log, calls[0], 0);
      JournalSaysWhatWasTold(log + Rows(first), calls[1..]);
      RowsConcat(first, rest);
      SaidConcat(Rows(first), Rows(rest));
    }
  }

  lemma NothingSaid()
    ensures Said([]) == []
  {
  }

  // -- Counting tool calls --------------------------------------------

  /** The counter after a session, each dispatch given what the one before returned. */
  function CallsMade(log: seq<Row>, calls: seq<Call>, made: nat): nat
    decreases |calls|
  {
    if calls == [] then made
    else CallsMade(log + Rows(EffectsOf(log, calls[0])), calls[1..], CallResult(log, calls[0], made).toolCallsMade)
  }

  /** Executions, less those that ended in a wait for approval or in an unknown effect. */
  function Ordinary(e: Event): int {
    if e.Execute? then 1
    else if e.OnDone? && (e.done == AwaitingApproval || e.done == DoneUnknown) then -1
    else 0
  }

  function OrdinaryIn(events: seq<Event>): int {
    if events == [] then 0 else Ordinary(events[0]) + OrdinaryIn(events[1..])
  }

  lemma {:induction false} OrdinaryConcat(a: seq<Event>, b: seq<Event>)
    ensures OrdinaryIn(a + b) == OrdinaryIn(a) + OrdinaryIn(b)
  {
    if a == [] {
      assert a + b == b;
    } else {
      assert (a + b)[1..] == a[1..] + b;
      OrdinaryConcat(a[1..], b);
    }
  }

  lemma OrdinaryThree(x: Event, y: Event, z: Event)
    ensures OrdinaryIn([x, y]) == Ordinary(x) + Ordinary(y)
    ensures OrdinaryIn([x, y, z]) == Ordinary(x) + Ordinary(y) + Ordinary(z)
  {
    hide Ordinary; hide OrdinaryIn;
    NothingOrdinary();
    OrdinaryCons(z, []);
    OrdinaryCons(y, []);
    OrdinaryCons(y, [z]);
    OrdinaryCons(x, [y]);
    OrdinaryCons(x, [y, z]);
    assert [z] == [z] + [] && [y] == [y] + [];
    assert [y, z] == [y] + [z] && [x, y] == [x] + [y];
    assert [x, y, z] == [x] + [y, z];
  }

  lemma OrdinaryCons(first: Event, rest: seq<Event>)
    ensures OrdinaryIn([first] + rest) == Ordinary(first) + OrdinaryIn(rest)
  {
    hide Ordinary;
    assert ([first] + rest)[1..] == rest;
  }

  lemma OneDispatchCounts(log: seq<Row>, c: Call, made: nat)
    ensures CallResult(log, c, made).toolCallsMade == made + OrdinaryIn(EffectsOf(log, c))
  {
    var r, o := Request(c.tool, c.args, 0), OutcomeOf(log, c.tool, c.key, c.execution);
    hide SkipEligible; hide InferSideEffect; hide IsCompleted; hide OrdinaryIn; hide TerminalRow;
    if o.Skip? {
      NothingOrdinary();
    } else {
      var opening, closing := Opening(r, c.key), Closing(r, c.key, o, c.execution, c.wait);
      OrdinaryConcat(opening, closing);
      OrdinaryThree(opening[0], opening[1], opening[2]);
      OrdinaryThree(closing[0], closing[1], closing[|closing| - 1]);
    }
  }

  lemma NothingOrdinary()
    ensures OrdinaryIn([]) == 0
  {
  }

  /** The counter grows by exactly the executions that ended normally: skipped, interrupted and
      approval-bound dispatches do not count. */
  lemma {:induction false} OnlyNormalCompletionsCount(log: seq<Row>, calls: seq<Call>, made: nat)
    ensures CallsMade(log, calls, made) == made + OrdinaryIn(Session(log, calls))
    decreases |calls|
  {
    hide EffectsOf; hide Rows; hide CallResult; hide OrdinaryIn;
    if calls == [] {
      NothingOrdinary();
    } else {
      var first := EffectsOf(log, calls[0]);
      OneDispatchCounts(log, calls[0], made);
      OnlyNormalCompletionsCount(log + Rows(first), calls[1..], CallResult(log, calls[0], made).toolCallsMade);
      OrdinaryConcat(first, Session(log + Rows(first), calls[1..]));
    }
  }
}
