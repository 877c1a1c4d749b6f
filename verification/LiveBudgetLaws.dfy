/** What the live benchmark budget guarantees over all interleavings (xtask/src/benchmark.rs:235-297, 477-521). */
module LiveBudgetLaws {
  import opened Wrappers
  import opened LiveBudget

  // -- Requests -------------------------------------------------------

  /** Calls of meter `m` that are in flight, abandoned, or returned without their outcome counted. */
  function UnsettledCalls(calls: seq<Call>, m: nat): nat { Sum(calls, (c: Call) => UnsettledIn(m, c)) }

  lemma SharesFitAdmissions(calls: seq<Call>, m: nat, k: Counter)
    requires k in {Requests, Successes, Failures, Missing}
    ensures Sum(calls, Of(m, k)) <= Admissions(calls)
  {
    SumMonotone(calls, Of(m, k), Admission);
  }

  lemma CountIsExact(s: State, m: nat, k: Counter)
    requires Balanced(s) && m < |s.meters| && k in {Requests, Successes, Failures, Missing}
    ensures s.meters[m].Get(k) == Sum(s.calls, Of(m, k)) <= s.admitted
  {
    assert Agrees(s, m, k);
    SharesFitAdmissions(s.calls, m, k);
    hide Sum; hide Meter.Get; hide Of;
  }

  lemma RequestSplits(calls: seq<Call>, m: nat)
    ensures Sum(calls, Of(m, Requests))
         == Sum(calls, Of(m, Successes)) + Sum(calls, Of(m, Failures)) + UnsettledCalls(calls, m)
    ensures Sum(calls, Of(m, Missing)) <= Sum(calls, Of(m, Successes))
  {
    SumThree(calls, Of(m, Requests), Of(m, Successes), Of(m, Failures), (c: Call) => UnsettledIn(m, c));
    SumMonotone(calls, Of(m, Missing), Of(m, Successes));
  }

  /** In every run from fresh counters no more than `maxRequests` calls are admitted, and every meter's
      requests are its successes, its failures and the calls still unsettled, with no wrap-around. */
  lemma RequestsAreAccountedFor(limits: Limits, meters: nat, actions: seq<Action>, m: nat)
    requires m < meters
    ensures
      var s := Run(Fresh(limits, meters), actions);
      && s.admitted == Admissions(s.calls) <= limits.maxRequests
      && |s.meters| == meters
      && s.meters[m].missing <= s.meters[m].successes
      && s.meters[m].requests
         == s.meters[m].successes + s.meters[m].failures + UnsettledCalls(s.calls, m) <= s.admitted
  {
    var s := Run(Fresh(limits, meters), actions);
    FreshIsBalanced(limits, meters);
    RunKeepsBalance(Fresh(limits, meters), actions);
    RunKeepsSetting(Fresh(limits, meters), actions);
    CountIsExact(s, m, Requests);
    CountIsExact(s, m, Successes);
    CountIsExact(s, m, Failures);
    CountIsExact(s, m, Missing);
    RequestSplits(s.calls, m);
    hide Run; hide Sum; hide Of; hide Agrees; hide UnsettledCalls;
  }

  lemma {:induction false} RunKeepsSetting(s: State, actions: seq<Action>)
    ensures Run(s, actions).limits == s.limits && |Run(s, actions).meters| == |s.meters|
    decreases |actions|
  {
    if actions != [] {
      assert Step(s, actions[0]).limits == s.limits && |Step(s, actions[0]).meters| == |s.meters|;
      hide Step;
      RunKeepsSetting(Step(s, actions[0]), actions[1..]);
    }
  }

  // -- Tokens ---------------------------------------------------------

  function Both(m: Meter): nat { m.prompt + m.completion }

  /** The prompt and completion tokens on all meters. */
  function MeterTotal(meters: seq<Meter>): nat { Sum(meters, Both) }

  /** Tokens a call has put on its meter. */
  function Metered(c: Call): nat { Share(c.pc, Prompt) + Share(c.pc, Completion) }

  /** Metered but not yet on the shared counter. */
  function Pending(c: Call): nat { if c.pc.PromptAdded? || c.pc.CompletionAdded? then Metered(c) else 0 }

  /** Metered, and lost by the saturating sum that is recorded. */
  function Lost(c: Call): nat {
    if c.pc.Recorded? && Metered(c) >= U64 then Metered(c) - Reported(c.pc.usage) else 0
  }

  lemma ReportedFits(pc: Pc)
    ensures pc.Recorded? ==> Reported(pc.usage) <= pc.usage.prompt + pc.usage.completion
  {
  }

  lemma MeteredSplits(calls: seq<Call>)
    ensures Sum(calls, Metered) == Recordings(calls) + Sum(calls, Pending) + Sum(calls, Lost)
  {
    forall c | c in calls ensures Metered(c) == Recording(c) + Pending(c) + Lost(c) { ReportedFits(c.pc); }
    hide Metered; hide Recording; hide Pending; hide Lost;
    SumThree(calls, Metered, Recording, Pending, Lost);
  }

  /** Tokens of the calls on the first `n` meters. */
  function MeteredBelow(n: nat, c: Call): nat { if c.meter < n then Metered(c) else 0 }
  function Below(n: nat): Call -> nat { (c: Call) => MeteredBelow(n, c) }

  lemma BelowGrows(calls: seq<Call>, n: nat)
    ensures Sum(calls, Below(n + 1))
         == Sum(calls, Below(n)) + Sum(calls, Of(n, Prompt)) + Sum(calls, Of(n, Completion))
  {
    SumThree(calls, Below(n + 1), Below(n), Of(n, Prompt), Of(n, Completion));
  }

  lemma WrapSum(a: nat, b: nat, c: nat)
    ensures Wrap(Wrap(a) + Wrap(b) + Wrap(c)) == Wrap(a + b + c)
  {
    WrapAdd(a, Wrap(b) + Wrap(c));
    WrapAdd(b, a + Wrap(c));
    WrapAdd(c, a + b);
  }

  lemma {:induction false} MetersHoldWhatCallsMetered(s: State, n: nat)
    requires Balanced(s) && n <= |s.meters|
    ensures Wrap(MeterTotal(s.meters[..n])) == Wrap(Sum(s.calls, Below(n)))
    ensures MeterTotal(s.meters[..n]) <= Sum(s.calls, Below(n))
  {
    hide *;
    if n == 0 {
      NoMeters(s);
    } else {
      var m := n - 1;
      MetersHoldWhatCallsMetered(s, m);
      OneMoreTotal(s, m);
      BelowGrows(s.calls, m);
      OneMoreMeter(MeterTotal(s.meters[..m]), Sum(s.calls, Below(m)),
        Sum(s.calls, Of(m, Prompt)), Sum(s.calls, Of(m, Completion)));
    }
  }

  lemma NoMeters(s: State)
    ensures MeterTotal(s.meters[..0]) == Sum(s.calls, Below(0)) == 0
  {
    SumMonotone(s.calls, Below(0), (c: Call) => 0);
    SumZero(s.calls);
  }

  lemma OneMoreTotal(s: State, m: nat)
    requires Balanced(s) && m < |s.meters|
    ensures MeterTotal(s.meters[..m + 1])
         == MeterTotal(s.meters[..m]) + Wrap(Sum(s.calls, Of(m, Prompt))) + Wrap(Sum(s.calls, Of(m, Completion)))
  {
    assert Agrees(s, m, Prompt) && Agrees(s, m, Completion);
    hide Balanced; hide Sum; hide Of; hide Wrap;
    assert s.meters[..m + 1] == s.meters[..m] + [s.meters[m]];
    SumAppend(s.meters[..m], s.meters[m], Both);
  }

  lemma OneMoreMeter(t: nat, x: nat, p: nat, q: nat)
    requires Wrap(t) == Wrap(x) && t <= x
    ensures t + Wrap(p) + Wrap(q) <= x + p + q
    ensures Wrap(t + Wrap(p) + Wrap(q)) == Wrap(x + p + q)
  {
    WrapSum(x, p, q);
    WrapAdd(t, Wrap(p) + Wrap(q));
  }

  lemma {:induction false} SumZero(calls: seq<Call>)
    ensures Sum(calls, (c: Call) => 0) == 0
  {
    if calls != [] { SumZero(calls[1..]); }
  }

  lemma {:induction false} SameSum(calls: seq<Call>, f: Call -> nat, g: Call -> nat)
    requires forall c :: c in calls ==> f(c) == g(c)
    ensures Sum(calls, f) == Sum(calls, g)
  {
    SumMonotone(calls, f, g);
    SumMonotone(calls, g, f);
  }

  lemma BelowAllIsMetered(s: State)
    requires Balanced(s)
    ensures Sum(s.calls, Below(|s.meters|)) == Sum(s.calls, Metered)
  {
    forall c | c in s.calls ensures Below(|s.meters|)(c) == Metered(c) {
      var i :| 0 <= i < |s.calls| && s.calls[i] == c;
    }
    hide Sum; hide Metered;
    SameSum(s.calls, Below(|s.meters|), Metered);
  }

  /** Conservation, for every interleaving: up to 2^64, the tokens on all meters are the tokens on the
      shared counter, those between the meter and the counter, and those lost to saturation. */
  lemma TokensAreConserved(limits: Limits, meters: nat, actions: seq<Action>)
    ensures
      var s := Run(Fresh(limits, meters), actions);
      Wrap(MeterTotal(s.meters)) == Wrap(s.tokens + Sum(s.calls, Pending) + Sum(s.calls, Lost))
  {
    hide Run; hide Sum; hide Wrap; hide MeterTotal; hide Recordings; hide Fresh; hide Below; hide Agrees;
    var s := Run(Fresh(limits, meters), actions);
    FreshIsBalanced(limits, meters);
    RunKeepsBalance(Fresh(limits, meters), actions);
    MetersHoldWhatCallsMetered(s, |s.meters|);
    assert s.meters[..|s.meters|] == s.meters;
    BelowAllIsMetered(s);
    MeteredSplits(s.calls);
    WrapAdd(Recordings(s.calls), Sum(s.calls, Pending) + Sum(s.calls, Lost));
  }

  lemma {:induction false} NothingLost(calls: seq<Call>)
    requires Sum(calls, Metered) < U64
    ensures Sum(calls, Lost) == 0
  {
    if calls != [] {
      hide Metered;
      NothingLost(calls[1..]);
    }
  }

  /** While fewer than 2^64 tokens have been metered, the shared counter and the meters show the same
      total exactly when no call stands between its meter and the shared counter. */
  lemma TotalsAgreeIff(limits: Limits, meters: nat, actions: seq<Action>)
    requires Sum(Run(Fresh(limits, meters), actions).calls, Metered) < U64
    ensures
      var s := Run(Fresh(limits, meters), actions);
      && MeterTotal(s.meters) == s.tokens + Sum(s.calls, Pending)
      && (s.tokens == MeterTotal(s.meters) <==> Sum(s.calls, Pending) == 0)
  {
    hide Run; hide Sum; hide MeterTotal; hide Fresh; hide Below; hide Agrees;
    var s := Run(Fresh(limits, meters), actions);
    FreshIsBalanced(limits, meters);
    RunKeepsBalance(Fresh(limits, meters), actions);
    MetersHoldWhatCallsMetered(s, |s.meters|);
    assert s.meters[..|s.meters|] == s.meters;
    BelowAllIsMetered(s);
    MeteredSplits(s.calls);
    NothingLost(s.calls);
  }

  // -- The token limit with concurrent calls --------------------------

  /** Past the load of the shared token counter. */
  predicate PassedLoad(pc: Pc) { !pc.Starting? && !pc.Refused? }

  predicate AtLimit(s: State) { s.tokens >= s.limits.maxTokens }

  /** The step records a sum that wraps the counter to below the limit it had reached. */
  predicate Reopens(s: State, a: Action) {
    Enabled(s, a) && a.Record? && AtLimit(s) && Wrap(s.tokens + Reported(s.calls[a.i].pc.usage)) < s.limits.maxTokens
  }

  /** No step of the run does so. */
  predicate NeverReopens(s: State, actions: seq<Action>)
    decreases |actions|
  {
    actions == [] || (!Reopens(s, actions[0]) && NeverReopens(Step(s, actions[0]), actions[1..]))
  }

  lemma StepAdmitsNoOne(s: State, a: Action, i: nat)
    requires AtLimit(s)
    requires i < |Step(s, a).calls| && PassedLoad(Step(s, a).calls[i].pc)
    ensures i < |s.calls| && PassedLoad(s.calls[i].pc)
  {
    hide NextMeter; hide Reported; hide Cap;
  }

  lemma LimitStays(s: State, a: Action)
    requires AtLimit(s)
    ensures AtLimit(Step(s, a)) <==> !Reopens(s, a)
  {
    hide NextPc; hide NextMeter; hide Reported;
  }

  /** Once the limit is reached the only calls that are ever admitted, reach the provider or add tokens are
      those that had already passed the load check, in every run in which no recorded sum wraps the counter
      back to below the limit. */
  lemma {:induction false} OnlyCallsPastTheLoadGoOn(s: State, actions: seq<Action>, i: nat)
    requires AtLimit(s) && NeverReopens(s, actions)
    requires i < |Run(s, actions).calls| && PassedLoad(Run(s, actions).calls[i].pc)
    ensures i < |s.calls| && PassedLoad(s.calls[i].pc)
    decreases |actions|
  {
    hide PassedLoad; hide Step; hide Reopens; hide AtLimit;
    if actions != [] {
      LimitStays(s, actions[0]);
      OnlyCallsPastTheLoadGoOn(Step(s, actions[0]), actions[1..], i);
      StepAdmitsNoOne(s, actions[0], i);
    }
  }

  /** Some call is past the load check in `t` and was not in `s`. */
  predicate LetsIn(s: State, t: State) {
    exists i :: 0 <= i < |t.calls| && PassedLoad(t.calls[i].pc) && (i >= |s.calls| || !PassedLoad(s.calls[i].pc))
  }

  /** A call that begins below the limit passes the load check. */
  lemma BelowLimitLetsIn(s: State, t: State)
    requires t.meters != [] && !AtLimit(t) && |t.calls| == |s.calls|
    ensures
      var actions := [Begin(0), CheckTokens(|t.calls|)];
      NeverReopens(t, actions) && LetsIn(s, Run(t, actions))
  {
    hide NextMeter; hide Reported; hide Cap; hide Wrap;
    var n := |t.calls|;
    var actions := [Begin(0), CheckTokens(n)];
    var u := Step(t, Begin(0));
    var v := Step(u, CheckTokens(n));
    assert u.calls[n] == Call(0, Starting) && v.calls[n].pc == TokensChecked;
    assert PassedLoad(v.calls[n].pc) && n >= |s.calls|;
    hide Step; hide PassedLoad; hide Reopens;
    assert actions[1..] == [CheckTokens(n)] && actions[1..][1..] == [];
    assert Run(t, actions) == Run(u, [CheckTokens(n)]) == Run(v, []);
    assert NeverReopens(v, []);
    NoRecordNeverReopens(t, Begin(0));
    NoRecordNeverReopens(u, CheckTokens(n));
  }

  lemma NoRecordNeverReopens(s: State, a: Action)
    requires !a.Record?
    ensures !Reopens(s, a)
  {
  }

  /** At the limit a step lets no later run without such a wrap let in a new call, if and only if the step is
      not one itself. */
  lemma StepKeepsShutIff(s: State, a: Action)
    requires AtLimit(s) && s.meters != []
    ensures
      (forall actions :: NeverReopens(Step(s, a), actions) ==> !LetsIn(s, Run(Step(s, a), actions)))
      <==> !Reopens(s, a)
  {
    var t := Step(s, a);
    LimitStays(s, a);
    if Reopens(s, a) {
      assert t.meters != [] && |t.calls| == |s.calls|;
      hide Step; hide Reopens; hide LetsIn; hide NeverReopens; hide AtLimit;
      BelowLimitLetsIn(s, t);
    } else {
      hide Step; hide Reopens; hide AtLimit; hide PassedLoad; hide Run;
      forall actions | NeverReopens(t, actions) ensures !LetsIn(s, Run(t, actions)) {
        forall i | 0 <= i < |Run(t, actions).calls| && PassedLoad(Run(t, actions).calls[i].pc)
          ensures i < |s.calls| && PassedLoad(s.calls[i].pc)
        {
          OnlyCallsPastTheLoadGoOn(t, actions, i);
          StepAdmitsNoOne(s, a, i);
        }
      }
    }
  }

  // -- The wrap does happen -------------------------------------------

  /** A call from its start to just before it records. */
  function UpToRecord(i: nat, u: Usage): seq<Action> {
    [CheckTokens(i), CheckTime(i, true), Admit(i), Clamp(i, None), Count(i), Answer(i, u), CountSuccess(i),
     AddPrompt(i), AddCompletion(i)]
  }

  /** Only call `i` has moved, to `pc`. */
  predicate OnlyMoved(s: State, t: State, i: nat, pc: Pc) {
    && i < |s.calls| && t.calls == s.calls[i := s.calls[i].(pc := pc)]
    && t.limits == s.limits && t.tokens == s.tokens && |t.meters| == |s.meters|
  }

  lemma MoveOn(s: State, t: State, i: nat, pc: Pc, a: Action)
    requires OnlyMoved(s, t, i, pc) && s.calls[i].meter < |s.meters| && !a.Begin? && !a.Record?
    requires a.i == i && EnabledAt(pc, a)
    ensures Enabled(t, a) && OnlyMoved(s, Step(t, a), i, NextPc(t, a))
    ensures Step(t, a).admitted == if a.Admit? && t.admitted < t.limits.maxRequests then t.admitted + 1 else t.admitted
  {
    hide NextPc; hide NextMeter; hide Reported; hide EnabledAt; hide Cap;
    assert t.calls[i].meter == s.calls[i].meter;
  }

  lemma RunNext(s: State, a: Action, rest: seq<Action>)
    ensures Run(s, [a] + rest) == Run(Step(s, a), rest)
  {
    hide Step;
    assert ([a] + rest)[0] == a && ([a] + rest)[1..] == rest;
  }

  lemma RunNineActions(s: State, x: seq<Action>)
    requires |x| == 9
    ensures
      Run(s, x)
      == Step(Step(Step(Step(Step(Step(Step(Step(Step(s, x[0]), x[1]), x[2]), x[3]), x[4]), x[5]), x[6]), x[7]), x[8])
  {
    hide Step;
    var s3 := Step(Step(Step(s, x[0]), x[1]), x[2]);
    var s6 := Step(Step(Step(s3, x[3]), x[4]), x[5]);
    RunThreeActions(s, x);
    RunThreeActions(s3, x[3..]);
    RunThreeActions(s6, x[3..][3..]);
    hide Run;
    assert x[3..][3..][3..] == [];
    NothingRuns(Step(Step(Step(s6, x[6]), x[7]), x[8]));
  }

  lemma RunThreeActions(s: State, x: seq<Action>)
    requires |x| >= 3
    ensures Run(s, x) == Run(Step(Step(Step(s, x[0]), x[1]), x[2]), x[3..])
  {
    hide Step;
    assert x[1..][1..][1..] == x[3..];
  }

  lemma NothingRuns(s: State)
    ensures Run(s, []) == s
  {
  }

  lemma GetsAdmitted(s: State, i: nat)
    requires i < |s.calls| && s.calls[i].pc.Starting? && s.calls[i].meter < |s.meters|
    requires !AtLimit(s) && s.admitted < s.limits.maxRequests
    ensures
      var t := Step(Step(Step(s, CheckTokens(i)), CheckTime(i, true)), Admit(i));
      OnlyMoved(s, t, i, Admitted) && t.admitted == s.admitted + 1
  {
    hide Step; hide Cap; hide Reported;
    assert s.calls == s.calls[i := s.calls[i].(pc := Starting)];
    MoveOn(s, s, i, Starting, CheckTokens(i));
    var s1 := Step(s, CheckTokens(i));
    MoveOn(s, s1, i, TokensChecked, CheckTime(i, true));
    MoveOn(s, Step(s1, CheckTime(i, true)), i, TimeChecked, Admit(i));
  }

  lemma GetsAnswer(s: State, t: State, i: nat, u: Usage)
    requires OnlyMoved(s, t, i, Admitted) && s.calls[i].meter < |s.meters|
    ensures
      var v := Step(Step(Step(t, Clamp(i, None)), Count(i)), Answer(i, u));
      OnlyMoved(s, v, i, Answered(u)) && v.admitted == t.admitted
  {
    hide Step; hide Cap; hide Reported;
    MoveOn(s, t, i, Admitted, Clamp(i, None));
    var t1 := Step(t, Clamp(i, None));
    var cap := Cap(t.limits, t.tokens, None);
    MoveOn(s, t1, i, Clamped(cap), Count(i));
    MoveOn(s, Step(t1, Count(i)), i, InFlight(cap), Answer(i, u));
  }

  lemma GetsMetered(s: State, t: State, i: nat, u: Usage)
    requires OnlyMoved(s, t, i, Answered(u)) && s.calls[i].meter < |s.meters| && Reported(u) != 0
    ensures
      var v := Step(Step(Step(t, CountSuccess(i)), AddPrompt(i)), AddCompletion(i));
      OnlyMoved(s, v, i, CompletionAdded(u)) && v.admitted == t.admitted
  {
    hide Step; hide Cap; hide Reported;
    MoveOn(s, t, i, Answered(u), CountSuccess(i));
    var t1 := Step(t, CountSuccess(i));
    MoveOn(s, t1, i, SuccessCounted(u), AddPrompt(i));
    MoveOn(s, Step(t1, AddPrompt(i)), i, PromptAdded(u), AddCompletion(i));
  }

  /** Below both limits a call gets to just before it records, and changes no counter but the meters and the
      number admitted. */
  lemma GetsToRecord(s: State, i: nat, u: Usage)
    requires i < |s.calls| && s.calls[i].pc.Starting? && s.calls[i].meter < |s.meters|
    requires !AtLimit(s) && s.admitted < s.limits.maxRequests && Reported(u) != 0
    ensures
      var t := Run(s, UpToRecord(i, u));
      OnlyMoved(s, t, i, CompletionAdded(u)) && t.admitted == s.admitted + 1
  {
    hide Run; hide Reported; hide Step; hide OnlyMoved; hide AtLimit;
    RunNineActions(s, UpToRecord(i, u));
    GetsAdmitted(s, i);
    var t := Step(Step(Step(s, CheckTokens(i)), CheckTime(i, true)), Admit(i));
    GetsAnswer(s, t, i, u);
    GetsMetered(s, Step(Step(Step(t, Clamp(i, None)), Count(i)), Answer(i, u)), i, u);
  }

  lemma {:induction false} RunsOn(s: State, a: seq<Action>, b: seq<Action>)
    ensures Run(s, a + b) == Run(Run(s, a), b)
    decreases |a|
  {
    hide Step;
    if a == [] {
      assert a + b == b;
    } else {
      assert (a + b)[1..] == a[1..] + b;
      RunsOn(Step(s, a[0]), a[1..], b);
    }
  }

  /** The first call reports ten tokens, the second 2^64 - 10, both while the limit is not reached. */
  function Wrapping(): seq<Action> {
    [Begin(0), Begin(0)] + (UpToRecord(0, Usage(10, 0)) + (UpToRecord(1, Usage(U64 - 10, 0)) + [Record(0)]))
  }

  lemma WrappingIs(s: State)
    ensures
      var begun := Step(Step(s, Begin(0)), Begin(0));
      var t := Run(Run(begun, UpToRecord(0, Usage(10, 0))), UpToRecord(1, Usage(U64 - 10, 0)));
      Run(s, Wrapping()) == Step(t, Record(0))
  {
    hide Step; hide UpToRecord; hide Run;
    var first, second := UpToRecord(0, Usage(10, 0)), UpToRecord(1, Usage(U64 - 10, 0));
    var s2 := Step(Step(s, Begin(0)), Begin(0));
    assert Wrapping() == [Begin(0)] + ([Begin(0)] + (first + (second + [Record(0)])));
    RunNext(s, Begin(0), [Begin(0)] + (first + (second + [Record(0)])));
    RunNext(Step(s, Begin(0)), Begin(0), first + (second + [Record(0)]));
    RunsOn(s2, first, second + [Record(0)]);
    RunsOn(Run(s2, first), second, [Record(0)]);
    var t := Run(Run(s2, first), second);
    assert [Record(0)] == [Record(0)] + [];
    RunNext(t, Record(0), []);
    NothingRuns(Step(t, Record(0)));
  }

  /** Two calls have begun on fresh counters with a limit of five tokens. */
  function TwoBegun(): State { Step(Step(Fresh(Limits(2, 5), 1), Begin(0)), Begin(0)) }

  lemma TwoBegunIs()
    ensures
      var s := TwoBegun();
      && s.calls == [Call(0, Starting), Call(0, Starting)] && s.tokens == 0 && s.admitted == 0
      && s.limits == Limits(2, 5) && |s.meters| == 1
  {
  }

  lemma TwoCallsRecordNext(s: State, u: Usage, v: Usage)
    requires s.calls == [Call(0, Starting), Call(0, Starting)] && s.tokens == 0 && s.admitted == 0
    requires s.limits == Limits(2, 5) && |s.meters| == 1 && Reported(u) != 0 && Reported(v) != 0
    ensures
      var t := Run(Run(s, UpToRecord(0, u)), UpToRecord(1, v));
      && t.calls == [Call(0, CompletionAdded(u)), Call(0, CompletionAdded(v))] && t.tokens == 0
      && t.limits == Limits(2, 5) && |t.meters| == 1
  {
    hide Step; hide Run; hide UpToRecord; hide Reported;
    GetsToRecord(s, 0, u);
    GetsToRecord(Run(s, UpToRecord(0, u)), 1, v);
  }

  /** From fresh counters: two calls later the limit is reached, and the second one's record wraps the counter
      to zero. */
  lemma ReopeningIsReachable()
    ensures
      var s := Run(Fresh(Limits(2, 5), 1), Wrapping());
      AtLimit(s) && Reopens(s, Record(1)) && Step(s, Record(1)).tokens == 0
  {
    WrappingIs(Fresh(Limits(2, 5), 1));
    TwoBegunIs();
    var u, v := Usage(10, 0), Usage(U64 - 10, 0);
    assert Reported(u) == 10 && Reported(v) == U64 - 10;
    assert TwoBegun() == Step(Step(Fresh(Limits(2, 5), 1), Begin(0)), Begin(0));
    hide *;
    TwoCallsRecordNext(TwoBegun(), u, v);
    TwoRecords(Run(Run(TwoBegun(), UpToRecord(0, u)), UpToRecord(1, v)), u, v);
  }

  lemma TwoRecords(s: State, u: Usage, v: Usage)
    requires |s.calls| == 2 && s.calls[0].meter < |s.meters| && s.calls[1].meter < |s.meters|
    requires s.calls[0].pc == CompletionAdded(u) && s.calls[1].pc == CompletionAdded(v)
    requires s.tokens == 0 && s.limits.maxTokens == 5 && Reported(u) == 10 && Reported(v) == U64 - 10
    ensures
      var t := Step(s, Record(0));
      AtLimit(t) && Reopens(t, Record(1)) && Step(t, Record(1)).tokens == 0
  {
    hide Reported; hide Cap;
  }

  lemma TokensAreRecordings(s: State)
    requires Balanced(s) && Recordings(s.calls) < U64
    ensures s.tokens == Recordings(s.calls)
  {
    hide Agrees;
  }

  // -- The token limit with one call at a time ------------------------

  predicate Final(pc: Pc) {
    pc.Recorded? || pc.ZeroUsage? || pc.BlankDone? || pc.FailedDone? || pc.Refused? || pc.Abandoned?
  }

  /** Actions of a sequential run whose provider honours the cap it was given: a call begins only
      when all others have finished, and completions fit the cap. */
  predicate Orderly(s: State, a: Action) {
    match a
    case Begin(_) => forall c :: c in s.calls ==> Final(c.pc)
    case Answer(i, u) =>
      i < |s.calls| && s.calls[i].pc.InFlight? ==> u.completion <= s.calls[i].pc.cap
    case _ => true
  }

  predicate OrderlyRun(s: State, actions: seq<Action>)
    decreases |actions|
  {
    actions == [] || (Orderly(s, actions[0]) && OrderlyRun(Step(s, actions[0]), actions[1..]))
  }

  /** The prompt tokens of the last call that recorded tokens. */
  function LastPrompt(calls: seq<Call>): nat {
    if calls == [] then 0
    else if calls[|calls| - 1].pc.Recorded? then calls[|calls| - 1].pc.usage.prompt
    else LastPrompt(calls[..|calls| - 1])
  }

  /** What is known of the unfinished call, given the tokens recorded so far. */
  predicate Room(limits: Limits, recorded: nat, pc: Pc) {
    match pc
    case Starting => true
    case TokensChecked => recorded < limits.maxTokens
    case TimeChecked => recorded < limits.maxTokens
    case Admitted => recorded < limits.maxTokens
    case Clamped(cap) => recorded < limits.maxTokens && recorded + cap <= limits.maxTokens
    case InFlight(cap) => recorded < limits.maxTokens && recorded + cap <= limits.maxTokens
    case Answered(u) => Fits(limits, recorded, u)
    case SuccessCounted(u) => Fits(limits, recorded, u)
    case PromptAdded(u) => Fits(limits, recorded, u)
    case CompletionAdded(u) => Fits(limits, recorded, u)
    case _ => recorded < limits.maxTokens
  }

  predicate Fits(limits: Limits, recorded: nat, u: Usage) {
    recorded < limits.maxTokens && recorded + u.completion <= limits.maxTokens
  }

  /** The invariant of sequential runs. */
  ghost predicate InOrder(s: State) {
    var n := |s.calls|;
    && (forall i :: 0 <= i < n - 1 ==> Final(s.calls[i].pc))
    && s.tokens <= s.limits.maxTokens + LastPrompt(s.calls)
    && (n > 0 && !Final(s.calls[n - 1].pc) ==> Room(s.limits, s.tokens, s.calls[n - 1].pc))
  }

  lemma LastPromptAppend(calls: seq<Call>, c: Call)
    ensures LastPrompt(calls + [c]) == if c.pc.Recorded? then c.pc.usage.prompt else LastPrompt(calls)
  {
    assert (calls + [c])[..|calls|] == calls;
  }

  lemma LastPromptMoves(calls: seq<Call>, c: Call)
    requires calls != [] && !calls[|calls| - 1].pc.Recorded?
    ensures
      LastPrompt(calls[|calls| - 1 := c]) == if c.pc.Recorded? then c.pc.usage.prompt else LastPrompt(calls)
  {
    assert calls[|calls| - 1 := c][..|calls| - 1] == calls[..|calls| - 1];
  }

  lemma BeginStaysInOrder(s: State, m: nat)
    requires InOrder(s) && Orderly(s, Begin(m)) && m < |s.meters|
    ensures InOrder(Step(s, Begin(m)))
  {
    var c := Call(m, Starting);
    LastPromptAppend(s.calls, c);
    hide Sum; hide LastPrompt;
  }

  lemma OnlyTheLastCallMoves(s: State, a: Action)
    requires InOrder(s) && Enabled(s, a) && !a.Begin?
    ensures a.i == |s.calls| - 1 && !Final(s.calls[a.i].pc)
  {
    hide Room; hide Sum; hide LastPrompt;
    assert EnabledAt(s.calls[a.i].pc, a);
  }

  lemma RoomMoves(s: State, a: Action)
    requires Enabled(s, a) && !a.Begin? && Orderly(s, a) && Room(s.limits, s.tokens, s.calls[a.i].pc)
    ensures Final(NextPc(s, a)) || Room(s.limits, s.tokens, NextPc(s, a))
    ensures a.Record? ==> Fits(s.limits, s.tokens, s.calls[a.i].pc.usage) && Final(NextPc(s, a))
  {
    hide Reported;
  }

  lemma CallStaysInOrder(s: State, a: Action)
    requires InOrder(s) && Orderly(s, a) && Enabled(s, a) && !a.Begin?
    ensures InOrder(Step(s, a))
  {
    var c := s.calls[a.i];
    var next := c.(pc := NextPc(s, a));
    OnlyTheLastCallMoves(s, a);
    RoomMoves(s, a);
    LastCallRecords(s, a);
    ReportedFits(if a.Record? then NextPc(s, a) else Starting);
    LastPromptMoves(s.calls, next);
    hide LastPrompt; hide NextPc; hide NextMeter; hide Reported; hide Room; hide Final;
    hide EnabledAt; hide Orderly;
    StepCalls(s, a);
  }

  lemma LastCallRecords(s: State, a: Action)
    requires Enabled(s, a) && !a.Begin?
    ensures !s.calls[a.i].pc.Recorded? && (NextPc(s, a).Recorded? <==> a.Record?)
    ensures a.Record? ==> NextPc(s, a).usage == s.calls[a.i].pc.usage
  {
    hide Reported; hide Cap;
  }

  lemma {:induction false} RunStaysInOrder(s: State, actions: seq<Action>)
    requires InOrder(s) && OrderlyRun(s, actions)
    ensures InOrder(Run(s, actions))
    decreases |actions|
  {
    hide InOrder; hide Step; hide Orderly;
    if actions != [] {
      StepStaysInOrder(s, actions[0]);
      RunStaysInOrder(Step(s, actions[0]), actions[1..]);
    }
  }

  lemma StepStaysInOrder(s: State, a: Action)
    requires InOrder(s) && Orderly(s, a)
    ensures InOrder(Step(s, a))
  {
    hide InOrder; hide Orderly;
    if Enabled(s, a) {
      if a.Begin? { BeginStaysInOrder(s, a.meter); } else { CallStaysInOrder(s, a); }
    }
  }

  /** In every sequential run whose provider honours the clamped cap, the shared counter never exceeds
      the limit by more than the prompt of the last call that recorded any; nor do the tokens recorded
      in truth, unless there are 2^64 of them. */
  lemma SequentialTokenBound(limits: Limits, meters: nat, actions: seq<Action>)
    requires OrderlyRun(Fresh(limits, meters), actions)
    ensures
      var s := Run(Fresh(limits, meters), actions);
      && s.tokens <= limits.maxTokens + LastPrompt(s.calls)
      && (Recordings(s.calls) < U64 ==> Recordings(s.calls) <= limits.maxTokens + LastPrompt(s.calls))
  {
    hide Run; hide OrderlyRun; hide Recordings;
    FreshIsBalanced(limits, meters);
    RunKeepsBalance(Fresh(limits, meters), actions);
    RunKeepsSetting(Fresh(limits, meters), actions);
    RunStaysInOrder(Fresh(limits, meters), actions);
    if Recordings(Run(Fresh(limits, meters), actions).calls) < U64 {
      TokensAreRecordings(Run(Fresh(limits, meters), actions));
    }
  }
}
