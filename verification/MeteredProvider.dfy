/** The live budget guard, the usage meter and the metered provider as they are called one at a time
    (xtask/src/benchmark.rs:235-297, 471-521); each call is a run of the state machine. */
module MeteredProvider {
  import opened Wrappers
  import opened LiveBudget
  import opened LiveBudgetLaws

  /** The part of a chat completion request that is rewritten. */
  class Request {
    var maxTokens: Option<nat>

    constructor (maxTokens: Option<nat>)
      ensures this.maxTokens == maxTokens
    {
      this.maxTokens := maxTokens;
    }
  }

  datatype Refusal = TokenLimit | TimeLimit | RequestLimit

  class LiveBudgetGuard {
    const limits: Limits
    var admitted: u64
    var tokens: u64

    constructor (limits: Limits)
      ensures this.limits == limits && admitted == 0 && tokens == 0
    {
      this.limits, admitted, tokens := limits, 0, 0;
    }

    method AdmitRequest(timeLeft: bool) returns (refusal: Option<Refusal>)
      modifies this`admitted
      ensures refusal.None? <==> old(tokens) < limits.maxTokens && timeLeft && old(admitted) < limits.maxRequests
      ensures admitted == if refusal.None? then old(admitted) + 1 else old(admitted)
      ensures refusal == Some(TokenLimit) <==> tokens >= limits.maxTokens
      ensures refusal == Some(TimeLimit) <==> tokens < limits.maxTokens && !timeLeft
      ensures
        refusal == Some(RequestLimit)
        <==> tokens < limits.maxTokens && timeLeft && old(admitted) >= limits.maxRequests
    {
      if tokens >= limits.maxTokens { return Some(TokenLimit); }
      if !timeLeft { return Some(TimeLimit); }
      if admitted < limits.maxRequests {
        admitted := admitted + 1;
        return None;
      }
      return Some(RequestLimit);
    }

    method RecordTokens(n: u64) returns (withinLimit: bool)
      modifies this`tokens
      ensures tokens == Wrap(old(tokens) + n)
      ensures withinLimit <==> old(tokens) + n <= limits.maxTokens || limits.maxTokens == U64 - 1
    {
      var previous := tokens;
      tokens := Wrap(previous + n);
      var total := SaturatingAdd(previous, n);
      withinLimit := total <= limits.maxTokens;
    }

    method ClampRequestTokens(request: Request)
      modifies request
      ensures request.maxTokens == Some(Cap(limits, tokens, old(request.maxTokens)))
    {
      var remaining := if tokens < limits.maxTokens then limits.maxTokens - tokens else 0;
      var cap := if remaining < 0x1_0000_0000 then remaining else 0xFFFF_FFFF;
      match request.maxTokens
      case None => request.maxTokens := Some(cap);
      case Some(requested) => request.maxTokens := Some(if requested < cap then requested else cap);
    }
  }

  class ProviderUsageMeter {
    var requests: u64
    var successes: u64
    var failures: u64
    var missing: u64
    var prompt: u64
    var completion: u64

    constructor ()
      ensures View() == Meter(0, 0, 0, 0, 0, 0)
    {
      requests, successes, failures, missing, prompt, completion := 0, 0, 0, 0, 0, 0;
    }

    function View(): Meter
      reads this
    {
      Meter(requests, successes, failures, missing, prompt, completion)
    }
  }

  /** What the wrapped provider does within the time left. */
  datatype Outcome = Reports(usage: Usage) | NoUsage | Failure

  datatype Reply =
    | Response | NotAdmitted(why: Refusal) | LimitExceeded | ZeroUsageReported | UsageOmitted | ProviderFailed

  /** A run of call `i` of meter `m` from `s`, so far: what it has done to the state. */
  ghost predicate Follows(s: State, m: nat, trace: seq<Action>, pc: Pc, meter: Meter, admitted: u64, tokens: u64) {
    && m < |s.meters|
    && Run(s, trace) == s.(calls := s.calls + [Call(m, pc)], meters := s.meters[m := meter],
                           admitted := admitted, tokens := tokens)
  }

  lemma {:induction false} RunSnoc(s: State, trace: seq<Action>, a: Action)
    ensures Run(s, trace + [a]) == Step(Run(s, trace), a)
    ensures OrderlyRun(s, trace + [a]) <==> OrderlyRun(s, trace) && Orderly(Run(s, trace), a)
    decreases |trace|
  {
    hide Step; hide Orderly;
    if trace == [] {
      assert trace + [a] == [a] && [a][1..] == [];
    } else {
      assert (trace + [a])[1..] == trace[1..] + [a];
      RunSnoc(Step(s, trace[0]), trace[1..], a);
    }
  }

  /** The next step of the call that began last. */
  lemma FollowStep(s: State, m: nat, trace: seq<Action>, pc: Pc, meter: Meter, admitted: u64, tokens: u64, a: Action)
    requires Follows(s, m, trace, pc, meter, admitted, tokens)
    requires !a.Begin? && a.i == |s.calls| && EnabledAt(pc, a)
    ensures
      var t := Run(s, trace);
      && Enabled(t, a) && t.calls[a.i].pc == pc
      && Follows(s, m, trace + [a], NextPc(t, a), NextMeter(meter, pc, a),
           if a.Admit? && admitted < s.limits.maxRequests then admitted + 1 else admitted,
           if a.Record? then Wrap(tokens + Reported(pc.usage)) else tokens)
  {
    RunSnoc(s, trace, a);
    var t := Run(s, trace);
    hide Run; hide NextPc; hide NextMeter; hide EnabledAt; hide Reported; hide Wrap;
    assert t.calls[a.i] == Call(m, pc) && t.meters[m] == meter;
    var pc' := NextPc(t, a);
    assert t.calls[a.i := Call(m, pc')] == s.calls + [Call(m, pc')];
    assert s.meters[m := meter][m := NextMeter(meter, pc, a)] == s.meters[m := NextMeter(meter, pc, a)];
  }

  lemma FollowBegin(s: State, m: nat)
    requires m < |s.meters|
    ensures Follows(s, m, [Begin(m)], Starting, s.meters[m], s.admitted, s.tokens)
    ensures AllFinal(s) ==> OrderlyRun(s, [Begin(m)])
  {
    RunSnoc(s, [], Begin(m));
    assert [] + [Begin(m)] == [Begin(m)];
    assert s.meters[m := s.meters[m]] == s.meters;
  }

  ghost predicate AllFinal(s: State) { forall c :: c in s.calls ==> Final(c.pc) }

  /** The next step of the call that began last; `alone` when the run so far is sequential. */
  lemma Advance(s: State, m: nat, trace: seq<Action>, pc: Pc, meter: Meter, admitted: u64, tokens: u64,
                alone: bool, a: Action)
    returns (longer: seq<Action>, next: Pc)
    requires Follows(s, m, trace, pc, meter, admitted, tokens)
    requires !a.Begin? && a.i == |s.calls| && EnabledAt(pc, a)
    requires alone ==> OrderlyRun(s, trace) && (a.Answer? ==> a.usage.completion <= pc.cap)
    ensures Enabled(Run(s, trace), a) && next == NextPc(Run(s, trace), a)
    ensures Run(s, trace).calls[a.i].pc == pc
    ensures
      Follows(s, m, longer, next, NextMeter(meter, pc, a),
        if a.Admit? && admitted < s.limits.maxRequests then admitted + 1 else admitted,
        if a.Record? then Wrap(tokens + Reported(pc.usage)) else tokens)
    ensures alone ==> OrderlyRun(s, longer)
  {
    FollowStep(s, m, trace, pc, meter, admitted, tokens, a);
    RunSnoc(s, trace, a);
    hide Run; hide Step; hide OrderlyRun; hide NextPc; hide NextMeter; hide Reported; hide Wrap;
    longer, next := trace + [a], NextPc(Run(s, trace), a);
  }

  lemma FollowsShared(s: State, m: nat, trace: seq<Action>, pc: Pc, meter: Meter, admitted: u64, tokens: u64)
    requires Follows(s, m, trace, pc, meter, admitted, tokens)
    ensures
      var t := Run(s, trace);
      t.limits == s.limits && t.tokens == tokens && t.admitted == admitted
      && |t.calls| == |s.calls| + 1 && t.calls[|s.calls|].pc == pc
  {
    hide Run;
  }

  /** The reply that goes with the place where a call ended. */
  predicate Matches(pc: Pc, reply: Reply, outcome: Outcome) {
    match reply
    case Response => pc.Recorded? && outcome == Reports(pc.usage)
    case LimitExceeded => pc.Recorded? && outcome == Reports(pc.usage)
    case NotAdmitted(_) => pc.Refused?
    case ZeroUsageReported => pc.ZeroUsage? && outcome == Reports(Usage(0, 0))
    case UsageOmitted => pc.BlankDone? && outcome.NoUsage?
    case ProviderFailed => pc.FailedDone? && outcome.Failure?
  }

  /** Both counts together, or the largest number there is. */
  function Together(u: Usage): u64 {
    if u.prompt + u.completion < 0x1_0000_0000_0000_0000 then u.prompt + u.completion else 0xFFFF_FFFF_FFFF_FFFF
  }

  /** What an admitted call replies when so many tokens are on the shared counter. */
  function ReplyOf(limits: Limits, tokens: u64, outcome: Outcome): Reply {
    match outcome
    case Failure => ProviderFailed
    case NoUsage => UsageOmitted
    case Reports(u) =>
      if Together(u) == 0 then ZeroUsageReported
      else if tokens + Together(u) <= limits.maxTokens || limits.maxTokens == 0xFFFF_FFFF_FFFF_FFFF then Response
      else LimitExceeded
  }

  /** Why a call is not admitted; the token limit comes first, then the time, then the number of requests. */
  function RefusalOf(limits: Limits, tokens: u64, admitted: u64, timeLeft: bool): Option<Refusal> {
    if tokens >= limits.maxTokens then Some(TokenLimit)
    else if !timeLeft then Some(TimeLimit)
    else if admitted >= limits.maxRequests then Some(RequestLimit)
    else None
  }

  function Plus(counter: u64, n: u64): u64 { (counter + n) % 0x1_0000_0000_0000_0000 }

  /** What an answer is counted as. */
  function MeterAfter(m: Meter, outcome: Outcome): Meter {
    match outcome
    case Failure => m.(failures := Plus(m.failures, 1))
    case NoUsage => m.(successes := Plus(m.successes, 1), missing := Plus(m.missing, 1))
    case Reports(u) =>
      m.(successes := Plus(m.successes, 1), prompt := Plus(m.prompt, u.prompt),
         completion := Plus(m.completion, u.completion))
  }

  lemma SumIsReported(u: Usage)
    ensures Reported(u) == Together(u)
  {
  }

  class MeteredProvider {
    const meter: ProviderUsageMeter
    const budget: LiveBudgetGuard

    constructor (meter: ProviderUsageMeter, budget: LiveBudgetGuard)
      ensures this.meter == meter && this.budget == budget
    {
      this.meter, this.budget := meter, budget;
    }

    /** The provider shows meter `m` and the shared counters of state `s`. */
    ghost predicate Shows(s: State, m: nat)
      reads meter, budget
    {
      && m < |s.meters| && s.limits == budget.limits && s.admitted == budget.admitted
      && s.tokens == budget.tokens && s.meters[m] == meter.View()
    }

    /** Where the run of the call has come to. */
    ghost predicate At(s: State, m: nat, trace: seq<Action>, pc: Pc, alone: bool)
      reads meter, budget
    {
      && s.limits == budget.limits && Follows(s, m, trace, pc, meter.View(), budget.admitted, budget.tokens)
      && (alone ==> OrderlyRun(s, trace))
    }

    /** From the start of a call to its admission or refusal. */
    method Enter(timeLeft: bool, ghost s: State, ghost m: nat, ghost alone: bool)
      returns (refusal: Option<Refusal>, ghost trace: seq<Action>, ghost pc: Pc)
      requires Shows(s, m) && (alone ==> AllFinal(s))
      modifies budget`admitted
      ensures At(s, m, trace, pc, alone)
      ensures if refusal.None? then pc.Admitted? else pc.Refused?
      ensures refusal == RefusalOf(budget.limits, budget.tokens, old(budget.admitted), timeLeft)
      ensures budget.admitted == if refusal.None? then old(budget.admitted) + 1 else old(budget.admitted)
    {
      FollowBegin(s, m);
      ghost var i, before, shown := |s.calls|, budget.admitted, meter.View();
      trace, pc := [Begin(m)], Starting;
      refusal := budget.AdmitRequest(timeLeft);
      hide Run; hide OrderlyRun; hide ProviderUsageMeter.View;
      trace, pc := Advance(s, m, trace, pc, shown, before, budget.tokens, alone, CheckTokens(i));
      if pc.TokensChecked? {
        trace, pc := Advance(s, m, trace, pc, shown, before, budget.tokens, alone, CheckTime(i, timeLeft));
        if pc.TimeChecked? {
          trace, pc := Advance(s, m, trace, pc, shown, before, budget.tokens, alone, Admit(i));
        }
      }
    }
  
    // The atomic additions of `chat`, each one step of the run.

    method CountRequest(ghost s: State, ghost m: nat, ghost start: seq<Action>, ghost from: Pc, ghost alone: bool)
      returns (ghost trace: seq<Action>, ghost pc: Pc)
      requires At(s, m, start, from, alone) && from.Clamped?
      modifies meter`requests
      ensures At(s, m, trace, pc, alone) && pc == InFlight(from.cap)
      ensures meter.requests == Plus(old(meter.requests), 1)
    {
      ghost var was := meter.View();
      hide Run; hide OrderlyRun; hide Wrap; hide Reported; hide Follows;
      FollowsShared(s, m, start, from, was, budget.admitted, budget.tokens);
      meter.requests := Wrap(meter.requests + 1);
      trace, pc := Advance(s, m, start, from, was, budget.admitted, budget.tokens, alone, Count(|s.calls|));
    }

    method CountSuccess(ghost s: State, ghost m: nat, ghost start: seq<Action>, ghost from: Pc, ghost alone: bool)
      returns (ghost trace: seq<Action>, ghost pc: Pc)
      requires At(s, m, start, from, alone) && (from.Answered? || from.AnsweredBlank?)
      modifies meter`successes
      ensures At(s, m, trace, pc, alone) && pc == if from.Answered? then SuccessCounted(from.usage) else BlankCounted
      ensures meter.successes == Plus(old(meter.successes), 1)
    {
      ghost var was := meter.View();
      hide Run; hide OrderlyRun; hide Wrap; hide Reported; hide Follows;
      FollowsShared(s, m, start, from, was, budget.admitted, budget.tokens);
      meter.successes := Wrap(meter.successes + 1);
      ghost var count := Action.CountSuccess(|s.calls|);
      trace, pc := Advance(s, m, start, from, was, budget.admitted, budget.tokens, alone, count);
    }

    method CountMissing(ghost s: State, ghost m: nat, ghost start: seq<Action>, ghost from: Pc, ghost alone: bool)
      returns (ghost trace: seq<Action>, ghost pc: Pc)
      requires At(s, m, start, from, alone) && from.BlankCounted?
      modifies meter`missing
      ensures At(s, m, trace, pc, alone) && pc == BlankDone
      ensures meter.missing == Plus(old(meter.missing), 1)
    {
      ghost var was := meter.View();
      hide Run; hide OrderlyRun; hide Wrap; hide Reported; hide Follows;
      FollowsShared(s, m, start, from, was, budget.admitted, budget.tokens);
      meter.missing := Wrap(meter.missing + 1);
      ghost var count := Action.CountMissing(|s.calls|);
      trace, pc := Advance(s, m, start, from, was, budget.admitted, budget.tokens, alone, count);
    }

    method CountFailure(ghost s: State, ghost m: nat, ghost start: seq<Action>, ghost from: Pc, ghost alone: bool)
      returns (ghost trace: seq<Action>, ghost pc: Pc)
      requires At(s, m, start, from, alone) && from.Errored?
      modifies meter`failures
      ensures At(s, m, trace, pc, alone) && pc == FailedDone
      ensures meter.failures == Plus(old(meter.failures), 1)
    {
      ghost var was := meter.View();
      hide Run; hide OrderlyRun; hide Wrap; hide Reported; hide Follows;
      FollowsShared(s, m, start, from, was, budget.admitted, budget.tokens);
      meter.failures := Wrap(meter.failures + 1);
      ghost var count := Action.CountFailure(|s.calls|);
      trace, pc := Advance(s, m, start, from, was, budget.admitted, budget.tokens, alone, count);
    }

    method AddPromptTokens(usage: Usage, ghost s: State, ghost m: nat, ghost start: seq<Action>, ghost alone: bool)
      returns (ghost trace: seq<Action>, ghost pc: Pc)
      requires At(s, m, start, SuccessCounted(usage), alone)
      modifies meter`prompt
      ensures At(s, m, trace, pc, alone) && pc == PromptAdded(usage)
      ensures meter.prompt == Plus(old(meter.prompt), usage.prompt)
    {
      ghost var was := meter.View();
      hide Run; hide OrderlyRun; hide Wrap; hide Reported; hide Follows;
      FollowsShared(s, m, start, SuccessCounted(usage), was, budget.admitted, budget.tokens);
      meter.prompt := Wrap(meter.prompt + usage.prompt);
      trace, pc := Advance(s, m, start, SuccessCounted(usage), was, budget.admitted, budget.tokens, alone,
        AddPrompt(|s.calls|));
    }

    method AddCompletionTokens(usage: Usage, ghost s: State, ghost m: nat, ghost start: seq<Action>, ghost alone: bool)
      returns (ghost trace: seq<Action>, ghost pc: Pc)
      requires At(s, m, start, PromptAdded(usage), alone)
      modifies meter`completion
      ensures At(s, m, trace, pc, alone)
      ensures pc == if Reported(usage) == 0 then ZeroUsage else CompletionAdded(usage)
      ensures meter.completion == Plus(old(meter.completion), usage.completion)
    {
      ghost var was := meter.View();
      hide Run; hide OrderlyRun; hide Wrap; hide Reported; hide Follows;
      FollowsShared(s, m, start, PromptAdded(usage), was, budget.admitted, budget.tokens);
      meter.completion := Wrap(meter.completion + usage.completion);
      trace, pc := Advance(s, m, start, PromptAdded(usage), was, budget.admitted, budget.tokens, alone,
        AddCompletion(|s.calls|));
    }

    method AddUsage(usage: Usage, ghost s: State, ghost m: nat, ghost start: seq<Action>, ghost alone: bool)
      returns (ghost trace: seq<Action>, ghost pc: Pc)
      requires At(s, m, start, SuccessCounted(usage), alone)
      modifies meter`prompt, meter`completion
      ensures At(s, m, trace, pc, alone)
      ensures pc == if Reported(usage) == 0 then ZeroUsage else CompletionAdded(usage)
      ensures meter.prompt == Plus(old(meter.prompt), usage.prompt)
      ensures meter.completion == Plus(old(meter.completion), usage.completion)
    {
      hide At; hide Reported;
      trace, pc := AddPromptTokens(usage, s, m, start, alone);
      trace, pc := AddCompletionTokens(usage, s, m, trace, alone);
    }

    method RecordUsage(usage: Usage, ghost s: State, ghost m: nat, ghost start: seq<Action>, ghost alone: bool)
      returns (withinLimit: bool, ghost trace: seq<Action>, ghost pc: Pc)
      requires At(s, m, start, CompletionAdded(usage), alone)
      modifies budget`tokens
      ensures At(s, m, trace, pc, alone) && pc == Recorded(usage)
      ensures withinLimit <==> old(budget.tokens) + Reported(usage) <= budget.limits.maxTokens
                               || budget.limits.maxTokens == U64 - 1
      ensures budget.tokens == Plus(old(budget.tokens), Together(usage))
    {
      ghost var tokens := budget.tokens;
      hide Run; hide OrderlyRun; hide Wrap; hide Reported; hide Follows;
      withinLimit := budget.RecordTokens(Reported(usage));
      trace, pc := Advance(s, m, start, CompletionAdded(usage), meter.View(), budget.admitted, tokens, alone,
        Record(|s.calls|));
    }

    /** A step that touches none of the counters. */
    lemma Noted(s: State, m: nat, start: seq<Action>, from: Pc, alone: bool, a: Action)
      returns (trace: seq<Action>, pc: Pc)
      requires At(s, m, start, from, alone)
      requires
        match a
        case Clamp(i, _) => i == |s.calls| && from.Admitted?
        case Answer(i, u) => i == |s.calls| && from.InFlight? && (alone ==> u.completion <= from.cap)
        case AnswerBlank(i) => i == |s.calls| && from.InFlight?
        case Error(i) => i == |s.calls| && from.InFlight?
        case _ => false
      ensures At(s, m, trace, pc, alone)
      ensures
        pc == match a
              case Clamp(_, requested) => Clamped(Cap(budget.limits, budget.tokens, requested))
              case Answer(_, u) => Answered(u)
              case AnswerBlank(_) => AnsweredBlank
              case _ => Errored
    {
      FollowsShared(s, m, start, from, meter.View(), budget.admitted, budget.tokens);
      hide Run; hide OrderlyRun; hide Wrap; hide Reported; hide Follows; hide Cap;
      trace, pc := Advance(s, m, start, from, meter.View(), budget.admitted, budget.tokens, alone, a);
    }

    /** A response with its usage: counted, metered, and recorded unless it is zero. */
    method SettleUsage(usage: Usage, ghost s: State, ghost m: nat, ghost start: seq<Action>, ghost alone: bool)
      returns (reply: Reply, ghost trace: seq<Action>, ghost pc: Pc)
      requires At(s, m, start, Answered(usage), alone)
      modifies meter, budget`tokens
      ensures At(s, m, trace, pc, alone) && Final(pc) && Matches(pc, reply, Reports(usage))
      ensures reply == ReplyOf(budget.limits, old(budget.tokens), Reports(usage))
      ensures
        budget.tokens
        == if Together(usage) == 0 then old(budget.tokens) else Plus(old(budget.tokens), Together(usage))
      ensures meter.View() == MeterAfter(old(meter.View()), Reports(usage))
    {
      hide At; hide Reported; hide Plus;
      SumIsReported(usage);
      trace, pc := CountSuccess(s, m, start, Answered(usage), alone);
      trace, pc := AddUsage(usage, s, m, trace, alone);
      if Reported(usage) == 0 {
        ReportedZero(usage);
        return ZeroUsageReported, trace, pc;
      }
      var withinLimit;
      withinLimit, trace, pc := RecordUsage(usage, s, m, trace, alone);
      reply := if withinLimit then Response else LimitExceeded;
    }

    /** From the provider's answer to the reply. */
    method Conclude(outcome: Outcome, ghost s: State, ghost m: nat, ghost start: seq<Action>, ghost from: Pc,
                    ghost alone: bool)
      returns (reply: Reply, ghost trace: seq<Action>, ghost pc: Pc)
      requires At(s, m, start, from, alone) && from.InFlight?
      requires alone && outcome.Reports? ==> outcome.usage.completion <= from.cap
      modifies meter, budget`tokens
      ensures At(s, m, trace, pc, alone) && Final(pc) && Matches(pc, reply, outcome)
      ensures reply == ReplyOf(budget.limits, old(budget.tokens), outcome)
      ensures
        budget.tokens
        == if reply.Response? || reply.LimitExceeded? then Plus(old(budget.tokens), Together(outcome.usage))
           else old(budget.tokens)
      ensures meter.View() == MeterAfter(old(meter.View()), outcome)
    {
      hide At;
      ghost var i := |s.calls|;
      match outcome
      case Reports(usage) =>
        trace, pc := Noted(s, m, start, from, alone, Answer(i, usage));
        reply, trace, pc := SettleUsage(usage, s, m, trace, alone);
      case NoUsage =>
        trace, pc := Noted(s, m, start, from, alone, AnswerBlank(i));
        trace, pc := CountSuccess(s, m, trace, pc, alone);
        trace, pc := CountMissing(s, m, trace, pc, alone);
        reply := UsageOmitted;
      case Failure =>
        trace, pc := Noted(s, m, start, from, alone, Error(i));
        trace, pc := CountFailure(s, m, trace, pc, alone);
        reply := ProviderFailed;
    }

    /** A provider call made alone is a run of the state machine in which one new call begins and ends.
        When no other call is unfinished and the provider honours the cap, the run is sequential. */
    method Chat(request: Request, timeLeft: bool, outcome: Outcome, ghost s: State, ghost m: nat, ghost alone: bool)
      returns (reply: Reply, ghost trace: seq<Action>, ghost pc: Pc)
      requires Shows(s, m)
      requires alone ==> AllFinal(s)
      requires
        alone && outcome.Reports? ==>
          outcome.usage.completion <= Cap(budget.limits, budget.tokens, request.maxTokens)
      modifies request, meter, budget`admitted, budget`tokens
      ensures At(s, m, trace, pc, alone) && Final(pc) && Matches(pc, reply, outcome)
      ensures
        var refusal := RefusalOf(budget.limits, old(budget.tokens), old(budget.admitted), timeLeft);
        reply == if refusal.Some? then NotAdmitted(refusal.value)
                 else ReplyOf(budget.limits, old(budget.tokens), outcome)
      ensures budget.admitted == if reply.NotAdmitted? then old(budget.admitted) else old(budget.admitted) + 1
      ensures
        budget.tokens
        == if reply.Response? || reply.LimitExceeded? then Plus(old(budget.tokens), Together(outcome.usage))
           else old(budget.tokens)
      ensures
        var before := old(meter.View());
        meter.View() == if reply.NotAdmitted? then before
                        else MeterAfter(before.(requests := Plus(before.requests, 1)), outcome)
      ensures
        request.maxTokens
        == if reply.NotAdmitted? then old(request.maxTokens)
           else Some(Cap(budget.limits, old(budget.tokens), old(request.maxTokens)))
    {
      ghost var i, requested := |s.calls|, request.maxTokens;
      var refusal;
      refusal, trace, pc := Enter(timeLeft, s, m, alone);
      if refusal.Some? { return NotAdmitted(refusal.value), trace, pc; }
      hide Cap; hide Follows; hide Run; hide OrderlyRun;
      budget.ClampRequestTokens(request);
      trace, pc := Noted(s, m, trace, pc, alone, Clamp(i, requested));
      hide At;
      trace, pc := CountRequest(s, m, trace, pc, alone);
      reply, trace, pc := Conclude(outcome, s, m, trace, pc, alone);
    }
  }
}
