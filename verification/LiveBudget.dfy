/** The live benchmark budget of xtask/src/benchmark.rs: 64-bit atomic counters shared by
    concurrent metered provider calls, as a state machine over their atomic steps. */
module LiveBudget {
  import opened Wrappers

  const U64 := 0x1_0000_0000_0000_0000

  type u64 = x: int | 0 <= x < 0x1_0000_0000_0000_0000

  /** `fetch_add` wraps around. */
  function Wrap(x: nat): u64 { x % U64 }

  function SaturatingAdd(a: u64, b: u64): u64 { if a + b < U64 then a + b else U64 - 1 }

  datatype Limits = Limits(maxRequests: u64, maxTokens: u64)

  datatype Usage = Usage(prompt: u64, completion: u64)

  /** Where one call to the metered provider is. The last six are final. */
  datatype Pc =
    | Starting | TokensChecked | TimeChecked | Admitted | Clamped(cap: nat) | InFlight(cap: nat)
    | Answered(usage: Usage) | AnsweredBlank | Errored
    | SuccessCounted(usage: Usage) | PromptAdded(usage: Usage) | CompletionAdded(usage: Usage) | BlankCounted
    | Recorded(usage: Usage) | ZeroUsage | BlankDone | FailedDone | Refused | Abandoned

  datatype Call = Call(meter: nat, pc: Pc)

  datatype Counter = Requests | Successes | Failures | Missing | Prompt | Completion

  datatype Meter = Meter(requests: u64, successes: u64, failures: u64, missing: u64,
                         prompt: u64, completion: u64) {
    function Get(k: Counter): u64 {
      match k
      case Requests => requests
      case Successes => successes
      case Failures => failures
      case Missing => missing
      case Prompt => prompt
      case Completion => completion
    }
  }

  datatype State = State(limits: Limits, admitted: u64, tokens: u64, meters: seq<Meter>, calls: seq<Call>)

  datatype Action =
    | Begin(meter: nat)
    | CheckTokens(i: nat) | CheckTime(i: nat, remaining: bool) | Admit(i: nat)
    | Clamp(i: nat, requested: Option<nat>) | Count(i: nat)
    | Answer(i: nat, usage: Usage) | AnswerBlank(i: nat) | Error(i: nat) | Abandon(i: nat)
    | CountSuccess(i: nat) | AddPrompt(i: nat) | AddCompletion(i: nat) | Record(i: nat)
    | CountMissing(i: nat) | CountFailure(i: nat)

  /** What a call reports to the shared counter. */
  function Reported(u: Usage): u64 { SaturatingAdd(u.prompt, u.completion) }

  /** The completion cap put into the request: what is left of the token limit, as a 32-bit value,
      and never more than was requested. */
  function Cap(limits: Limits, tokens: u64, requested: Option<nat>): nat {
    var remaining := if tokens < limits.maxTokens then limits.maxTokens - tokens else 0;
    var cap := if remaining < 0x1_0000_0000 then remaining else 0xFFFF_FFFF;
    if requested.Some? && requested.value < cap then requested.value else cap
  }

  /** The cap is the least of what is left, the largest 32-bit value and what was requested. */
  lemma CapIsLeast(limits: Limits, tokens: u64, requested: Option<nat>)
    ensures
      var cap, left := Cap(limits, tokens, requested), limits.maxTokens - tokens;
      && cap <= 0xFFFF_FFFF && (if left <= 0 then cap == 0 else cap <= left)
      && (requested.Some? ==> cap <= requested.value)
      && (cap == 0xFFFF_FFFF || (if left <= 0 then cap == 0 else cap == left) || requested == Some(cap))
  {
  }

  predicate EnabledAt(pc: Pc, a: Action)
    requires !a.Begin?
  {
    match a
    case CheckTokens(_) => pc.Starting?
    case CheckTime(_, _) => pc.TokensChecked?
    case Admit(_) => pc.TimeChecked?
    case Clamp(_, _) => pc.Admitted?
    case Count(_) => pc.Clamped?
    case Answer(_, _) => pc.InFlight?
    case AnswerBlank(_) => pc.InFlight?
    case Error(_) => pc.InFlight?
    case Abandon(_) => pc.InFlight?
    case CountSuccess(_) => pc.Answered? || pc.AnsweredBlank?
    case AddPrompt(_) => pc.SuccessCounted?
    case AddCompletion(_) => pc.PromptAdded?
    case Record(_) => pc.CompletionAdded?
    case CountMissing(_) => pc.BlankCounted?
    case CountFailure(_) => pc.Errored?
  }

  predicate Enabled(s: State, a: Action) {
    if a.Begin? then a.meter < |s.meters|
    else a.i < |s.calls| && s.calls[a.i].meter < |s.meters| && EnabledAt(s.calls[a.i].pc, a)
  }

  /** Where the call goes. */
  function NextPc(s: State, a: Action): Pc
    requires Enabled(s, a) && !a.Begin?
  {
    var pc := s.calls[a.i].pc;
    match a
    case CheckTokens(_) => if s.tokens >= s.limits.maxTokens then Refused else TokensChecked
    case CheckTime(_, remaining) => if remaining then TimeChecked else Refused
    case Admit(_) => if s.admitted < s.limits.maxRequests then Admitted else Refused
    case Clamp(_, requested) => Clamped(Cap(s.limits, s.tokens, requested))
    case Count(_) => InFlight(pc.cap)
    case Answer(_, usage) => Answered(usage)
    case AnswerBlank(_) => AnsweredBlank
    case Error(_) => Errored
    case Abandon(_) => Abandoned
    case CountSuccess(_) => if pc.Answered? then SuccessCounted(pc.usage) else BlankCounted
    case AddPrompt(_) => PromptAdded(pc.usage)
    case AddCompletion(_) => if Reported(pc.usage) == 0 then ZeroUsage else CompletionAdded(pc.usage)
    case Record(_) => Recorded(pc.usage)
    case CountMissing(_) => BlankDone
    case CountFailure(_) => FailedDone
  }

  /** What the step does to the call's own meter. */
  function NextMeter(m: Meter, pc: Pc, a: Action): Meter
    requires !a.Begin? && EnabledAt(pc, a)
  {
    match a
    case Count(_) => m.(requests := Wrap(m.requests + 1))
    case CountSuccess(_) => m.(successes := Wrap(m.successes + 1))
    case AddPrompt(_) => m.(prompt := Wrap(m.prompt + pc.usage.prompt))
    case AddCompletion(_) => m.(completion := Wrap(m.completion + pc.usage.completion))
    case CountMissing(_) => m.(missing := Wrap(m.missing + 1))
    case CountFailure(_) => m.(failures := Wrap(m.failures + 1))
    case _ => m
  }

  /** One atomic step; an action whose call is elsewhere changes nothing. */
  function Step(s: State, a: Action): State {
    if !Enabled(s, a) then s
    else if a.Begin? then s.(calls := s.calls + [Call(a.meter, Starting)])
    else
      var c := s.calls[a.i];
      s.(calls := s.calls[a.i := c.(pc := NextPc(s, a))],
         meters := s.meters[c.meter := NextMeter(s.meters[c.meter], c.pc, a)],
         admitted := if a.Admit? && s.admitted < s.limits.maxRequests then s.admitted + 1 else s.admitted,
         tokens := if a.Record? then Wrap(s.tokens + Reported(c.pc.usage)) else s.tokens)
  }

  function Run(s: State, actions: seq<Action>): State
    decreases |actions|
  {
    if actions == [] then s else Run(Step(s, actions[0]), actions[1..])
  }

  function Fresh(limits: Limits, meters: nat): State {
    State(limits, 0, 0, seq(meters, _ => Meter(0, 0, 0, 0, 0, 0)), [])
  }

  // -- Sums over the calls --------------------------------------------

  function Sum<T>(xs: seq<T>, f: T -> nat): nat {
    if xs == [] then 0 else f(xs[0]) + Sum(xs[1..], f)
  }

  lemma {:induction false} SumUpdate<T>(xs: seq<T>, i: nat, x: T, f: T -> nat)
    requires i < |xs|
    ensures Sum(xs[i := x], f) == Sum(xs, f) - f(xs[i]) + f(x)
  {
    if i == 0 {
      assert xs[0 := x][1..] == xs[1..];
    } else {
      assert xs[i := x][1..] == xs[1..][i - 1 := x];
      SumUpdate(xs[1..], i - 1, x, f);
    }
  }

  lemma {:induction false} SumAppend<T>(xs: seq<T>, x: T, f: T -> nat)
    ensures Sum(xs + [x], f) == Sum(xs, f) + f(x)
  {
    if xs == [] {
      assert xs + [x] == [x] && [x][1..] == [];
    } else {
      assert (xs + [x])[1..] == xs[1..] + [x];
      SumAppend(xs[1..], x, f);
    }
  }

  lemma {:induction false} SumMonotone<T>(xs: seq<T>, f: T -> nat, g: T -> nat)
    requires forall x :: x in xs ==> f(x) <= g(x)
    ensures Sum(xs, f) <= Sum(xs, g)
  {
    if xs != [] {
      assert xs[0] in xs;
      SumMonotone(xs[1..], f, g);
    }
  }

  lemma {:induction false} SumThree<T>(xs: seq<T>, f: T -> nat, g: T -> nat, h: T -> nat, k: T -> nat)
    requires forall x :: x in xs ==> f(x) == g(x) + h(x) + k(x)
    ensures Sum(xs, f) == Sum(xs, g) + Sum(xs, h) + Sum(xs, k)
  {
    if xs != [] {
      assert xs[0] in xs;
      SumThree(xs[1..], f, g, h, k);
    }
  }

  // -- What each counter should be ------------------------------------

  function One(b: bool): nat { if b then 1 else 0 }

  predicate PastAdmission(pc: Pc) {
    !pc.Starting? && !pc.TokensChecked? && !pc.TimeChecked? && !pc.Refused?
  }

  predicate PastCount(pc: Pc) { PastAdmission(pc) && !pc.Admitted? && !pc.Clamped? }

  /** Counted as a request, but neither as a success nor as a failure: in flight, abandoned, or
      returned with the outcome not counted yet. */
  predicate Unsettled(pc: Pc) {
    pc.InFlight? || pc.Answered? || pc.AnsweredBlank? || pc.Errored? || pc.Abandoned?
  }

  predicate Succeeded(pc: Pc) { PastCount(pc) && !Unsettled(pc) && !pc.FailedDone? }

  /** What a call at `pc` has added to counter `k` of its meter so far. */
  function Share(pc: Pc, k: Counter): nat {
    match k
    case Requests => One(PastCount(pc))
    case Successes => One(Succeeded(pc))
    case Failures => One(pc.FailedDone?)
    case Missing => One(pc.BlankDone?)
    case Prompt =>
      if pc.PromptAdded? || pc.CompletionAdded? || pc.Recorded? then pc.usage.prompt else 0
    case Completion =>
      if pc.CompletionAdded? || pc.Recorded? then pc.usage.completion else 0
  }

  function ShareIn(m: nat, k: Counter, c: Call): nat { if c.meter == m then Share(c.pc, k) else 0 }
  function Of(m: nat, k: Counter): Call -> nat { (c: Call) => ShareIn(m, k, c) }

  function Admission(c: Call): nat { One(PastAdmission(c.pc)) }
  function Recording(c: Call): nat { if c.pc.Recorded? then Reported(c.pc.usage) else 0 }
  function UnsettledIn(m: nat, c: Call): nat { One(c.meter == m && Unsettled(c.pc)) }

  function Admissions(calls: seq<Call>): nat { Sum(calls, Admission) }
  function Recordings(calls: seq<Call>): nat { Sum(calls, Recording) }

  /** A counter of one meter agrees with the progress of the calls. */
  predicate Agrees(s: State, m: nat, k: Counter)
    requires m < |s.meters|
  {
    s.meters[m].Get(k) == Wrap(Sum(s.calls, Of(m, k)))
  }

  /** Every counter is what the calls' own progress says it should be. */
  ghost predicate Balanced(s: State) {
    && (forall i :: 0 <= i < |s.calls| ==> s.calls[i].meter < |s.meters|)
    && (forall m: nat, k | m < |s.meters| :: Agrees(s, m, k))
    && s.admitted == Admissions(s.calls) <= s.limits.maxRequests
    && s.tokens == Wrap(Recordings(s.calls))
  }

  lemma WrapAdd(x: nat, y: nat)
    ensures Wrap(Wrap(x) + y) == Wrap(x + y)
  {
  }

  /** What a step adds to counter `k` of the call's own meter. */
  function Added(pc: Pc, a: Action, k: Counter): nat
    requires !a.Begin? && EnabledAt(pc, a)
  {
    match k
    case Requests => One(a.Count?)
    case Successes => One(a.CountSuccess?)
    case Failures => One(a.CountFailure?)
    case Missing => One(a.CountMissing?)
    case Prompt => if a.AddPrompt? then pc.usage.prompt else 0
    case Completion => if a.AddCompletion? then pc.usage.completion else 0
  }

  lemma MeterMoves(m: Meter, pc: Pc, a: Action, k: Counter)
    requires !a.Begin? && EnabledAt(pc, a)
    ensures NextMeter(m, pc, a).Get(k) == Wrap(m.Get(k) + Added(pc, a, k))
  {
    hide Reported;
  }

  lemma ReportedZero(u: Usage)
    ensures Reported(u) == 0 <==> u.prompt == 0 && u.completion == 0
  {
  }

  lemma ShareMoves(s: State, a: Action, k: Counter)
    requires Enabled(s, a) && !a.Begin?
    ensures Share(NextPc(s, a), k) == Share(s.calls[a.i].pc, k) + Added(s.calls[a.i].pc, a, k)
  {
    if a.AddCompletion? { ReportedZero(s.calls[a.i].pc.usage); }
    hide Reported;
    hide Cap;
  }

  lemma AdmissionMoves(s: State, a: Action)
    requires Enabled(s, a) && !a.Begin?
    ensures
      One(PastAdmission(NextPc(s, a)))
      == One(PastAdmission(s.calls[a.i].pc)) + One(a.Admit? && s.admitted < s.limits.maxRequests)
  {
    hide Reported;
    hide Cap;
  }

  lemma RecordingMoves(s: State, a: Action)
    requires Enabled(s, a) && !a.Begin?
    ensures
      var c := s.calls[a.i];
      Recording(c.(pc := NextPc(s, a))) == Recording(c) + if a.Record? then Reported(c.pc.usage) else 0
  {
    hide Reported;
    hide Cap;
  }

  lemma OtherCounterStays(s: State, a: Action, m: nat, k: Counter)
    requires Enabled(s, a) && !a.Begin? && m < |s.meters| && Agrees(s, m, k) && s.calls[a.i].meter != m
    ensures Agrees(Step(s, a), m, k)
  {
    hide Sum; hide Share; hide NextPc; hide NextMeter; hide Reported; hide Wrap; hide Meter.Get;
    SumUpdate(s.calls, a.i, s.calls[a.i].(pc := NextPc(s, a)), Of(m, k));
  }

  lemma SumMoves(calls: seq<Call>, i: nat, next: Call, f: Call -> nat, y: nat)
    requires i < |calls| && f(next) == f(calls[i]) + y
    ensures Wrap(Sum(calls[i := next], f)) == Wrap(Wrap(Sum(calls, f)) + y)
  {
    SumUpdate(calls, i, next, f);
    WrapAdd(Sum(calls, f), y);
    hide Sum; hide Wrap;
  }

  lemma OwnCounterMoves(s: State, a: Action, k: Counter)
    requires Enabled(s, a) && !a.Begin? && Agrees(s, s.calls[a.i].meter, k)
    ensures Agrees(Step(s, a), s.calls[a.i].meter, k)
  {
    var c := s.calls[a.i];
    assert c.meter < |s.meters| && EnabledAt(c.pc, a);
    hide *;
    var next := c.(pc := NextPc(s, a));
    OfMeans(c.meter, k, c);
    OfMeans(c.meter, k, next);
    ShareMoves(s, a, k);
    SumMoves(s.calls, a.i, next, Of(c.meter, k), Added(c.pc, a, k));
    MeterMoves(s.meters[c.meter], c.pc, a, k);
    StepCalls(s, a);
    AgreesMeans(s, c.meter, k);
    AgreesMeans(Step(s, a), c.meter, k);
  }

  lemma StepCalls(s: State, a: Action)
    requires Enabled(s, a) && !a.Begin?
    ensures
      var c := s.calls[a.i];
      && Step(s, a).calls == s.calls[a.i := c.(pc := NextPc(s, a))]
      && Step(s, a).meters == s.meters[c.meter := NextMeter(s.meters[c.meter], c.pc, a)]
  {
    hide NextPc; hide NextMeter; hide Reported;
  }

  lemma AgreesMeans(s: State, m: nat, k: Counter)
    requires m < |s.meters|
    ensures Agrees(s, m, k) <==> s.meters[m].Get(k) == Wrap(Sum(s.calls, Of(m, k)))
  {
  }

  lemma OfMeans(m: nat, k: Counter, c: Call)
    ensures Of(m, k)(c) == if c.meter == m then Share(c.pc, k) else 0
  {
  }

  lemma AdmittedMoves(s: State, a: Action)
    requires Enabled(s, a) && !a.Begin?
    requires s.admitted == Admissions(s.calls) <= s.limits.maxRequests
    ensures var t := Step(s, a); t.admitted == Admissions(t.calls) <= t.limits.maxRequests
  {
    var c := s.calls[a.i];
    var next := c.(pc := NextPc(s, a));
    hide NextPc; hide NextMeter; hide Reported; hide Wrap; hide PastAdmission; hide Sum;
    AdmissionMoves(s, a);
    SumUpdate(s.calls, a.i, next, Admission);
  }

  lemma TokensMove(s: State, a: Action)
    requires Enabled(s, a) && !a.Begin?
    requires s.tokens == Wrap(Recordings(s.calls))
    ensures var t := Step(s, a); t.tokens == Wrap(Recordings(t.calls))
  {
    var c := s.calls[a.i];
    var next := c.(pc := NextPc(s, a));
    hide NextPc; hide NextMeter; hide Reported; hide Wrap; hide Recording; hide Sum;
    RecordingMoves(s, a);
    SumUpdate(s.calls, a.i, next, Recording);
    WrapAdd(Recordings(s.calls), if a.Record? then Reported(c.pc.usage) else 0);
  }

  lemma BeginKeepsBalance(s: State, m: nat)
    requires Balanced(s) && m < |s.meters|
    ensures Balanced(Step(s, Begin(m)))
  {
    var c := Call(m, Starting);
    forall j: nat, k | j < |s.meters| ensures Agrees(Step(s, Begin(m)), j, k) {
      assert Agrees(s, j, k);
      SumAppend(s.calls, c, Of(j, k));
    }
    SumAppend(s.calls, c, Admission);
    SumAppend(s.calls, c, Recording);
    hide Sum; hide Wrap; hide Meter.Get; hide Agrees;
  }

  /** Every step of every interleaving keeps all counters balanced. */
  lemma StepKeepsBalance(s: State, a: Action)
    requires Balanced(s)
    ensures Balanced(Step(s, a))
  {
    if Enabled(s, a) {
      if a.Begin? {
        BeginKeepsBalance(s, a.meter);
      } else {
        AdmittedMoves(s, a);
        TokensMove(s, a);
        forall m: nat, k | m < |s.meters| ensures Agrees(Step(s, a), m, k) {
          if s.calls[a.i].meter == m { OwnCounterMoves(s, a, k); } else { OtherCounterStays(s, a, m, k); }
        }
        hide Sum; hide NextPc; hide NextMeter; hide Reported; hide Wrap; hide Agrees; hide Admissions; hide Recordings;
      }
    }
  }

  lemma {:induction false} RunKeepsBalance(s: State, actions: seq<Action>)
    requires Balanced(s)
    ensures Balanced(Run(s, actions))
    decreases |actions|
  {
    hide Step;
    hide Balanced;
    if actions != [] {
      StepKeepsBalance(s, actions[0]);
      RunKeepsBalance(Step(s, actions[0]), actions[1..]);
    }
  }

  lemma FreshIsBalanced(limits: Limits, meters: nat)
    ensures Balanced(Fresh(limits, meters))
  {
    var s := Fresh(limits, meters);
    forall m: nat, k | m < |s.meters| ensures Agrees(s, m, k) {
      assert Sum(s.calls, Of(m, k)) == 0;
    }
  }
}
