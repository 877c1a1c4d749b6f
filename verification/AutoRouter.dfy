/** The automatic router of zhongshu-orb/src/auto_delegation_service.rs on top of the admission
    gate of the organization controller: an accepted objective is handed to exactly one place. */
module AutoRouter {
  import opened Wrappers
  import Gate = AdmissionGate

  datatype Strategy = SingleAgent | MultiAgent

  datatype Place = Inbox | Organization

  datatype SubmitPc = Claimed | Spawned | Stored | Returned

  /** `Tail` begins when planning returns: from there the job runs to its end in one poll. */
  datatype JobPc =
    | Unborn | Gated | Planning
    | Tail(strategy: Strategy) | HandleTaken(strategy: Strategy) | Routing(strategy: Strategy)
    | FallingBack | Delivered(place: Place) | Aborted

  datatype CancelPc = NoCancel | TookHandle | SentAbort | Released

  datatype Job = Job(submit: SubmitPc, pc: JobPc, cancel: CancelPc)

  /** The router's cells, the organization's gate, the inbox, and for every job the organization
      admitted the router job it came from, if any. */
  datatype State = State(busy: bool, slot: Option<nat>, jobs: seq<Job>, org: Gate.State,
                         inbox: seq<nat>, origins: seq<Option<nat>>)

  const INIT := State(false, None, [], Gate.INIT, [], [])

  datatype Action =
    | Claim | Spawn(j: nat) | StoreHandle(j: nat) | OpenGate(j: nat)
    | Start(j: nat) | Decide(j: nat, strategy: Strategy)
    | TakeHandle(j: nat) | Release(j: nat)
    | Deliver(j: nat)             // the inbox, or the organization's compare-exchange
    | FallBack(j: nat)            // the inbox, after the organization's gate was lost
    | CancelTake | CancelAbort(j: nat) | CancelRelease(j: nat)
    | Other(a: Gate.Action)       // any step of the organization's own users

  function Update(s: State, j: nat, x: Job): State
    requires j < |s.jobs|
  {
    s.(jobs := s.jobs[j := x])
  }

  predicate Enabled(s: State, a: Action) {
    match a
    case Claim => !s.busy
    case Spawn(j) => j < |s.jobs| && s.jobs[j].submit == Claimed
    case StoreHandle(j) => j < |s.jobs| && s.jobs[j].submit == Spawned
    case OpenGate(j) => j < |s.jobs| && s.jobs[j].submit == Stored
    case Start(j) => j < |s.jobs| && s.jobs[j].submit == Returned && s.jobs[j].pc == Gated
    case Decide(j, _) => j < |s.jobs| && s.jobs[j].pc == Planning
    case TakeHandle(j) => j < |s.jobs| && s.jobs[j].pc.Tail?
    case Release(j) => j < |s.jobs| && s.jobs[j].pc.HandleTaken?
    case Deliver(j) => j < |s.jobs| && s.jobs[j].pc.Routing?
    case FallBack(j) => j < |s.jobs| && s.jobs[j].pc == FallingBack
    case CancelTake => s.slot.Some? && s.slot.value < |s.jobs|
    case CancelAbort(j) => j < |s.jobs| && s.jobs[j].cancel == TookHandle
    case CancelRelease(j) => j < |s.jobs| && s.jobs[j].cancel == SentAbort
    case Other(b) => true
  }

  function DeliverStep(s: State, j: nat): State
    requires j < |s.jobs| && s.jobs[j].pc.Routing?
  {
    if s.jobs[j].pc.strategy == SingleAgent then
      Update(s, j, s.jobs[j].(pc := Delivered(Inbox))).(inbox := s.inbox + [j])
    else if s.org.busy then
      Update(s, j, s.jobs[j].(pc := FallingBack))
    else
      Update(s, j, s.jobs[j].(pc := Delivered(Organization)))
        .(org := Gate.Step(s.org, Gate.Claim), origins := s.origins + [Some(j)])
  }

  function Step(s: State, a: Action): State {
    if !Enabled(s, a) then s else
    match a
    case Claim => s.(busy := true, jobs := s.jobs + [Job(Claimed, Unborn, NoCancel)])
    case Spawn(j) => Update(s, j, s.jobs[j].(submit := Spawned, pc := Gated))
    case StoreHandle(j) => Update(s, j, s.jobs[j].(submit := Stored)).(slot := Some(j))
    case OpenGate(j) => Update(s, j, s.jobs[j].(submit := Returned))
    case Start(j) => Update(s, j, s.jobs[j].(pc := Planning))
    case Decide(j, strategy) => Update(s, j, s.jobs[j].(pc := Tail(strategy)))
    case TakeHandle(j) => Update(s, j, s.jobs[j].(pc := HandleTaken(s.jobs[j].pc.strategy))).(slot := None)
    case Release(j) => Update(s, j, s.jobs[j].(pc := Routing(s.jobs[j].pc.strategy))).(busy := false)
    case Deliver(j) => DeliverStep(s, j)
    case FallBack(j) => Update(s, j, s.jobs[j].(pc := Delivered(Inbox))).(inbox := s.inbox + [j])
    case CancelTake => Update(s, s.slot.value, s.jobs[s.slot.value].(cancel := TookHandle)).(slot := None)
    case CancelAbort(j) =>
      var x := s.jobs[j].(cancel := SentAbort);
      Update(s, j, if x.pc == Gated || x.pc == Planning then x.(pc := Aborted) else x)
    case CancelRelease(j) => Update(s, j, s.jobs[j].(cancel := Released)).(busy := false)
    case Other(b) =>
      s.(org := Gate.Step(s.org, b),
         origins := if b == Gate.Claim && !s.org.busy then s.origins + [None] else s.origins)
  }

  function Run(s: State, actions: seq<Action>): State
    decreases |actions|
  {
    if actions == [] then s else Run(Step(s, actions[0]), actions[1..])
  }

  /** How often objective `j` arrived at a place. */
  function Arrivals(s: State, j: nat, place: Place): nat {
    if place == Inbox then multiset(s.inbox)[j] else multiset(s.origins)[Some(j)]
  }

  /** An objective is at a place once if its job delivered it there, and otherwise not at all. */
  ghost predicate ExactlyOnce(s: State) {
    && (forall j: nat, place :: j < |s.jobs| ==>
          Arrivals(s, j, place) == if s.jobs[j].pc == Delivered(place) then 1 else 0)
    && (forall j: nat, place :: j >= |s.jobs| ==> Arrivals(s, j, place) == 0)
    && |s.origins| == |s.org.jobs|
    && forall j :: 0 <= j < |s.jobs| ==> Coherent(s.jobs[j])
  }

  /** A job exists once its submitter has spawned it. */
  predicate Coherent(x: Job) { x.submit == Claimed <==> x.pc == Unborn }

  lemma OrgJobsGrowOnlyByClaim(g: Gate.State, a: Gate.Action)
    ensures |Gate.Step(g, a).jobs| == |g.jobs| + if a == Gate.Claim && !g.busy then 1 else 0
  {
  }

  lemma ArrivalsAfterInbox(s: State, t: State, j: nat)
    requires t.inbox == s.inbox + [j] && t.origins == s.origins
    ensures forall i: nat, place :: Arrivals(t, i, place)
              == Arrivals(s, i, place) + if i == j && place == Inbox then 1 else 0
  {
  }

  lemma ArrivalsAfterOrigin(s: State, t: State, origin: Option<nat>)
    requires t.inbox == s.inbox && t.origins == s.origins + [origin]
    ensures forall i: nat, place :: Arrivals(t, i, place)
              == Arrivals(s, i, place) + if Some(i) == origin && place == Organization then 1 else 0
  {
  }

  lemma SameArrivals(s: State, t: State)
    requires t.inbox == s.inbox && t.origins == s.origins
    ensures forall i: nat, place :: Arrivals(t, i, place) == Arrivals(s, i, place)
  {
  }

  lemma DeliverKeepsExactlyOnce(s: State, j: nat)
    requires ExactlyOnce(s) && j < |s.jobs| && s.jobs[j].pc.Routing?
    ensures ExactlyOnce(DeliverStep(s, j))
  {
    var t := DeliverStep(s, j);
    if s.jobs[j].pc.strategy == SingleAgent {
      ArrivalsAfterInbox(s, t, j);
    } else if s.org.busy {
      SameArrivals(s, t);
    } else {
      OrgJobsGrowOnlyByClaim(s.org, Gate.Claim);
      ArrivalsAfterOrigin(s, t, Some(j));
    }
    hide Arrivals;
  }

  /** A step that hands nothing over and delivers no job keeps the books balanced. */
  lemma QuietKeepsExactlyOnce(s: State, t: State)
    requires ExactlyOnce(s) && |s.jobs| <= |t.jobs| && |t.origins| == |t.org.jobs|
    requires forall j: nat, place :: Arrivals(t, j, place) == Arrivals(s, j, place)
    requires forall j :: 0 <= j < |t.jobs| ==> Coherent(t.jobs[j])
    requires forall j :: 0 <= j < |s.jobs| ==> SameDelivery(s.jobs[j].pc, t.jobs[j].pc)
    requires forall j :: |s.jobs| <= j < |t.jobs| ==> t.jobs[j].pc == Unborn
    ensures ExactlyOnce(t)
  {
    hide Arrivals;
    hide Coherent;
    forall j: nat, place | j < |t.jobs|
      ensures Arrivals(t, j, place) == if t.jobs[j].pc == Delivered(place) then 1 else 0
    {
      assert j < |s.jobs| ==> SameDelivery(s.jobs[j].pc, t.jobs[j].pc);
    }
  }

  predicate SameDelivery(a: JobPc, b: JobPc) {
    a == b || (!a.Delivered? && !b.Delivered?)
  }

  /** Steps that deliver nothing touch the jobs only, and no delivery. */
  lemma QuietJobs(s: State, a: Action)
    requires !a.Deliver? && !a.FallBack? && !a.Other? && forall j :: 0 <= j < |s.jobs| ==> Coherent(s.jobs[j])
    ensures
      var t := Step(s, a);
      && t.inbox == s.inbox && t.origins == s.origins && t.org == s.org && |s.jobs| <= |t.jobs|
      && (forall j :: 0 <= j < |t.jobs| ==> Coherent(t.jobs[j]))
      && (forall j :: 0 <= j < |s.jobs| ==> SameDelivery(s.jobs[j].pc, t.jobs[j].pc))
      && forall j :: |s.jobs| <= j < |t.jobs| ==> t.jobs[j].pc == Unborn
  {
    var t := Step(s, a);
    forall j | 0 <= j < |t.jobs|
      ensures Coherent(t.jobs[j]) && (j < |s.jobs| ==> SameDelivery(s.jobs[j].pc, t.jobs[j].pc))
    {
      if j < |s.jobs| { assert Coherent(s.jobs[j]); }
    }
  }

  lemma QuietStep(s: State, a: Action)
    requires ExactlyOnce(s) && !a.Deliver? && !a.FallBack? && !a.Other?
    ensures ExactlyOnce(Step(s, a))
  {
    hide Arrivals; hide Step; hide Coherent; hide SameDelivery;
    QuietJobs(s, a);
    SameArrivals(s, Step(s, a));
    QuietKeepsExactlyOnce(s, Step(s, a));
  }

  lemma OtherStep(s: State, b: Gate.Action)
    requires ExactlyOnce(s)
    ensures ExactlyOnce(Step(s, Other(b)))
  {
    var t := Step(s, Other(b));
    OrgJobsGrowOnlyByClaim(s.org, b);
    if b == Gate.Claim && !s.org.busy { ArrivalsAfterOrigin(s, t, None); } else { SameArrivals(s, t); }
    hide Gate.Step;
    hide Arrivals;
    QuietKeepsExactlyOnce(s, t);
  }

  lemma FallBackStep(s: State, j: nat)
    requires ExactlyOnce(s)
    ensures ExactlyOnce(Step(s, FallBack(j)))
  {
    if Enabled(s, FallBack(j)) {
      ArrivalsAfterInbox(s, Step(s, FallBack(j)), j);
      hide Arrivals;
      assert Coherent(s.jobs[j]);
    }
  }

  lemma StepKeepsExactlyOnce(s: State, a: Action)
    requires ExactlyOnce(s)
    ensures ExactlyOnce(Step(s, a))
  {
    hide ExactlyOnce;
    if a.Deliver? {
      if Enabled(s, a) { DeliverKeepsExactlyOnce(s, a.j); }
    } else if a.FallBack? {
      FallBackStep(s, a.j);
    } else if a.Other? {
      OtherStep(s, a.a);
    } else {
      QuietStep(s, a);
    }
  }

  /** Over every interleaving, races included: whatever the cancels and the organization's other
      users do, no objective is ever handed over twice, and a stopped one not at all. */
  lemma {:induction false} RoutedExactlyOnce(s: State, actions: seq<Action>)
    requires ExactlyOnce(s)
    ensures ExactlyOnce(Run(s, actions))
    decreases |actions|
  {
    if actions != [] {
      StepKeepsExactlyOnce(s, actions[0]);
      RoutedExactlyOnce(Step(s, actions[0]), actions[1..]);
    }
  }

  lemma InitExactlyOnce()
    ensures ExactlyOnce(INIT)
  {
  }

  // -- Where objectives arrive ----------------------------------------

  /** What happened to one objective in a run: what the planner decided, whether the organization's gate was
      taken when the objective was handed over, and whether it fell back to the inbox. */
  datatype Route = Route(decided: Option<Strategy>, taken: Option<bool>, fellBack: bool)

  const NOWHERE := Route(None, None, false)

  function Watch(s: State, a: Action, j: nat, r: Route): Route {
    if !Enabled(s, a) then r
    else if a.Decide? && a.j == j then r.(decided := Some(a.strategy))
    else if a.Deliver? && a.j == j then r.(taken := Some(s.org.busy))
    else if a.FallBack? && a.j == j then r.(fellBack := true)
    else r
  }

  /** That of the whole run. */
  function RouteOf(s: State, actions: seq<Action>, j: nat, r: Route): Route
    decreases |actions|
  {
    if actions == [] then r else RouteOf(Step(s, actions[0]), actions[1..], j, Watch(s, actions[0], j, r))
  }

  /** Where the job of the objective is, and what has happened to it. */
  predicate Tracks(s: State, j: nat, r: Route) {
    if j >= |s.jobs| then r == NOWHERE
    else
      match s.jobs[j].pc
      case Tail(strategy) => r == Route(Some(strategy), None, false)
      case HandleTaken(strategy) => r == Route(Some(strategy), None, false)
      case Routing(strategy) => r == Route(Some(strategy), None, false)
      case FallingBack => r == Route(Some(MultiAgent), Some(true), false)
      case Delivered(place) =>
        if place == Organization then r == Route(Some(MultiAgent), Some(false), false)
        else r == Route(Some(MultiAgent), Some(true), true)
             || (r.decided == Some(SingleAgent) && r.taken.Some? && !r.fellBack)
      case _ => r == NOWHERE
  }

  predicate ByJob(a: Action) { a.Start? || a.Decide? || a.TakeHandle? || a.Release? || a.FallBack? }

  lemma JobStepTracks(s: State, a: Action, j: nat, r: Route)
    requires Tracks(s, j, r) && ByJob(a)
    ensures Tracks(Step(s, a), j, Watch(s, a, j, r))
  {
    hide Gate.Step;
  }

  lemma DeliverTracks(s: State, a: Action, j: nat, r: Route)
    requires Tracks(s, j, r) && a.Deliver?
    ensures Tracks(Step(s, a), j, Watch(s, a, j, r))
  {
    hide Gate.Step;
  }

  /** The steps of submitters, cancellers and the organization's users move no job along its route. */
  lemma OtherStepTracks(s: State, a: Action, j: nat, r: Route)
    requires Tracks(s, j, r) && (j < |s.jobs| ==> Coherent(s.jobs[j])) && !ByJob(a) && !a.Deliver?
    ensures Tracks(Step(s, a), j, Watch(s, a, j, r))
  {
    hide Gate.Step;
  }

  lemma StepTracks(s: State, a: Action, j: nat, r: Route)
    requires Tracks(s, j, r) && (j < |s.jobs| ==> Coherent(s.jobs[j]))
    ensures Tracks(Step(s, a), j, Watch(s, a, j, r))
  {
    hide Step; hide Watch; hide Tracks; hide Coherent;
    if ByJob(a) {
      JobStepTracks(s, a, j, r);
    } else if a.Deliver? {
      DeliverTracks(s, a, j, r);
    } else {
      OtherStepTracks(s, a, j, r);
    }
  }

  lemma CoherentAt(s: State, j: nat)
    requires ExactlyOnce(s)
    ensures j < |s.jobs| ==> Coherent(s.jobs[j])
  {
    hide Arrivals;
  }

  lemma {:induction false} RunTracks(s: State, actions: seq<Action>, j: nat, r: Route)
    requires ExactlyOnce(s) && Tracks(s, j, r)
    ensures Tracks(Run(s, actions), j, RouteOf(s, actions, j, r))
    decreases |actions|
  {
    hide ExactlyOnce; hide Step; hide Watch; hide Tracks;
    if actions != [] {
      CoherentAt(s, j);
      StepTracks(s, actions[0], j, r);
      StepKeepsExactlyOnce(s, actions[0]);
      RunTracks(Step(s, actions[0]), actions[1..], j, Watch(s, actions[0], j, r));
    }
  }

  /** An objective has arrived at a place as its route says. */
  ghost predicate ArrivedAsDecided(s: State, j: nat, r: Route) {
    && Arrivals(s, j, Organization) == (if r.decided == Some(MultiAgent) && r.taken == Some(false) then 1 else 0)
    && Arrivals(s, j, Inbox)
       == (if (r.decided == Some(SingleAgent) && r.taken.Some?) || (r.decided == Some(MultiAgent) && r.fellBack)
           then 1 else 0)
    && (r.fellBack ==> r.decided == Some(MultiAgent) && r.taken == Some(true))
  }

  lemma TracksMeans(s: State, j: nat, r: Route)
    requires ExactlyOnce(s) && Tracks(s, j, r)
    ensures ArrivedAsDecided(s, j, r)
  {
    hide Arrivals; hide Coherent;
    assert forall place :: j < |s.jobs| ==> Arrivals(s, j, place) == if s.jobs[j].pc == Delivered(place) then 1 else 0;
    assert forall place :: j >= |s.jobs| ==> Arrivals(s, j, place) == 0;
  }

  /** Over every interleaving: an objective for a single agent arrives at the inbox only. One for several agents
      arrives at the organization if its gate was free when the objective was handed over, and otherwise at the
      inbox, once it has fallen back. */
  lemma RoutedAsDecided(actions: seq<Action>, j: nat)
    ensures ArrivedAsDecided(Run(INIT, actions), j, RouteOf(INIT, actions, j, NOWHERE))
  {
    InitExactlyOnce();
    assert Tracks(INIT, j, NOWHERE);
    hide ExactlyOnce; hide Tracks; hide ArrivedAsDecided; hide Run; hide RouteOf;
    RunTracks(INIT, actions, j, NOWHERE);
    RoutedExactlyOnce(INIT, actions);
    TracksMeans(Run(INIT, actions), j, RouteOf(INIT, actions, j, NOWHERE));
  }

  // -- Delivery -------------------------------------------------------

  /** The `k`-th step that the submitter and the job of `j` perform. */
  function OwnAction(j: nat, strategy: Strategy, k: nat): Action
    requires k < 9
  {
    [Spawn(j), StoreHandle(j), OpenGate(j), Start(j), Decide(j, strategy),
     TakeHandle(j), Release(j), Deliver(j), FallBack(j)][k]
  }

  function OwnActions(j: nat, strategy: Strategy, k: nat): seq<Action>
    requires k <= 9
    decreases 9 - k
  {
    if k == 9 then [] else [OwnAction(j, strategy, k)] + OwnActions(j, strategy, k + 1)
  }

  /** The first `k` of those steps lie behind, and the job was not stopped. */
  predicate Past(x: Job, k: nat) {
    && x.pc != Aborted
    && (k >= 1 ==> x.submit != Claimed)
    && (k >= 2 ==> x.submit != Spawned)
    && (k >= 3 ==> x.submit != Stored)
    && (k >= 4 ==> x.pc != Gated)
    && (k >= 5 ==> x.pc != Planning)
    && (k >= 6 ==> !x.pc.Tail?)
    && (k >= 7 ==> !x.pc.HandleTaken?)
    && (k >= 8 ==> !x.pc.Routing?)
    && (k >= 9 ==> x.pc != FallingBack)
  }

  lemma OwnStepAdvances(s: State, j: nat, strategy: Strategy, k: nat)
    requires j < |s.jobs| && k < 9 && Coherent(s.jobs[j]) && Past(s.jobs[j], k)
    ensures
      var t := Step(s, OwnAction(j, strategy, k));
      |t.jobs| == |s.jobs| && Coherent(t.jobs[j]) && Past(t.jobs[j], k + 1)
  {
  }

  lemma RunCons(s: State, a: Action, rest: seq<Action>)
    ensures Run(s, [a] + rest) == Run(Step(s, a), rest)
  {
    hide Step;
    assert ([a] + rest)[0] == a && ([a] + rest)[1..] == rest;
  }

  /** The place to which an objective that is not stopped goes if its own steps come next: by what the planner
      decided, or would decide now, and by the organization's gate when it was handed over, or now. */
  function Destination(s: State, r: Route, strategy: Strategy): Place {
    var decided := if r.decided.Some? then r.decided.value else strategy;
    var taken := if r.taken.Some? then r.taken.value else s.org.busy;
    if decided == MultiAgent && !taken then Organization else Inbox
  }

  lemma OwnStepKeepsDestination(s: State, j: nat, strategy: Strategy, k: nat, r: Route)
    requires j < |s.jobs| && k < 9 && Tracks(s, j, r)
    ensures
      var a := OwnAction(j, strategy, k);
      Destination(Step(s, a), Watch(s, a, j, r), strategy) == Destination(s, r, strategy)
  {
    if k != 7 {
      OwnStepLeavesGate(s, j, strategy, k);
      hide Step;
    }
  }

  lemma OwnStepLeavesGate(s: State, j: nat, strategy: Strategy, k: nat)
    requires j < |s.jobs| && k < 9 && k != 7
    ensures Step(s, OwnAction(j, strategy, k)).org == s.org
  {
  }

  lemma DeliveredThere(s: State, j: nat, strategy: Strategy, r: Route)
    requires ExactlyOnce(s) && j < |s.jobs| && Past(s.jobs[j], 9) && Tracks(s, j, r)
    ensures
      var place := Destination(s, r, strategy);
      Arrivals(s, j, place) == 1 && forall other :: other != place ==> Arrivals(s, j, other) == 0
  {
    TracksMeans(s, j, r);
    hide Arrivals;
    assert Coherent(s.jobs[j]) && s.jobs[j].pc.Delivered?;
    assert Arrivals(s, j, Inbox) == if s.jobs[j].pc == Delivered(Inbox) then 1 else 0;
    assert Arrivals(s, j, Organization) == if s.jobs[j].pc == Delivered(Organization) then 1 else 0;
  }

  lemma {:induction false} OwnStepsDeliver(s: State, j: nat, strategy: Strategy, k: nat, r: Route)
    requires ExactlyOnce(s) && j < |s.jobs| && k <= 9 && Past(s.jobs[j], k) && Tracks(s, j, r)
    ensures
      var t, place := Run(s, OwnActions(j, strategy, k)), Destination(s, r, strategy);
      Arrivals(t, j, place) == 1 && forall other :: other != place ==> Arrivals(t, j, other) == 0
    decreases 9 - k
  {
    if k == 9 {
      DeliveredThere(s, j, strategy, r);
    } else {
      var a, rest := OwnAction(j, strategy, k), OwnActions(j, strategy, k + 1);
      assert OwnActions(j, strategy, k) == [a] + rest && Coherent(s.jobs[j]);
      hide *;
      OwnStepAdvances(s, j, strategy, k);
      StepKeepsExactlyOnce(s, a);
      StepTracks(s, a, j, r);
      OwnStepKeepsDestination(s, j, strategy, k, r);
      RunCons(s, a, rest);
      OwnStepsDeliver(Step(s, a), j, strategy, k + 1, Watch(s, a, j, r));
    }
  }

  /** Every accepted objective whose job was not stopped arrives, once, at the place that belongs to the planner's
      decision and the state of the organization's gate, and nowhere else, once its own remaining steps are
      taken. */
  lemma AcceptedObjectiveIsDelivered(actions: seq<Action>, j: nat, strategy: Strategy)
    requires j < |Run(INIT, actions).jobs| && Run(INIT, actions).jobs[j].pc != Aborted
    ensures
      var s := Run(INIT, actions);
      var t, place := Run(s, OwnActions(j, strategy, 0)), Destination(s, RouteOf(INIT, actions, j, NOWHERE), strategy);
      Arrivals(t, j, place) == 1 && forall other :: other != place ==> Arrivals(t, j, other) == 0
  {
    InitExactlyOnce();
    assert Tracks(INIT, j, NOWHERE);
    RunTracks(INIT, actions, j, NOWHERE);
    RoutedExactlyOnce(INIT, actions);
    OwnStepsDeliver(Run(INIT, actions), j, strategy, 0, RouteOf(INIT, actions, j, NOWHERE));
  }

  /** The job still holds its handle, or it has given up the handle, or handle and claim. */
  predicate Clears(s: State, j: nat) {
    && j < |s.jobs|
    && match s.jobs[j].pc
       case Unborn => true
       case Gated => true
       case Planning => true
       case Tail(_) => true
       case HandleTaken(_) => s.slot == None
       case _ => s.slot == None && !s.busy
  }

  lemma OwnStepClears(s: State, j: nat, strategy: Strategy, k: nat)
    requires k < 9 && Clears(s, j) && Coherent(s.jobs[j]) && Past(s.jobs[j], k)
    requires k < 6 ==> !s.jobs[j].pc.HandleTaken? && !s.jobs[j].pc.Routing? && s.jobs[j].pc != FallingBack
                       && !s.jobs[j].pc.Delivered?
    ensures
      var t := Step(s, OwnAction(j, strategy, k));
      && Clears(t, j) && Coherent(t.jobs[j]) && Past(t.jobs[j], k + 1)
      && (k + 1 < 6 ==> !t.jobs[j].pc.HandleTaken? && !t.jobs[j].pc.Routing? && t.jobs[j].pc != FallingBack
                        && !t.jobs[j].pc.Delivered?)
  {
    hide Gate.Step;
  }

  lemma {:induction false} OwnStepsClear(s: State, j: nat, strategy: Strategy, k: nat)
    requires k <= 9 && Clears(s, j) && Coherent(s.jobs[j]) && Past(s.jobs[j], k)
    requires k < 6 ==> !s.jobs[j].pc.HandleTaken? && !s.jobs[j].pc.Routing? && s.jobs[j].pc != FallingBack
                       && !s.jobs[j].pc.Delivered?
    ensures var t := Run(s, OwnActions(j, strategy, k)); t.slot == None && !t.busy
    decreases 9 - k
  {
    if k < 9 {
      var a, rest := OwnAction(j, strategy, k), OwnActions(j, strategy, k + 1);
      assert OwnActions(j, strategy, k) == [a] + rest;
      hide *;
      OwnStepClears(s, j, strategy, k);
      RunCons(s, a, rest);
      OwnStepsClear(Step(s, a), j, strategy, k + 1);
    }
  }

  /** Once a job that has not come to its last poll has taken its own remaining steps, the router is free again
      and holds no handle, whatever the planner decides. */
  lemma JobFreesTheRouter(actions: seq<Action>, j: nat, strategy: Strategy)
    requires
      var s := Run(INIT, actions);
      j < |s.jobs| && (s.jobs[j].pc == Unborn || s.jobs[j].pc == Gated || s.jobs[j].pc == Planning)
    ensures var t := Run(Run(INIT, actions), OwnActions(j, strategy, 0)); t.slot == None && !t.busy
  {
    InitExactlyOnce();
    RoutedExactlyOnce(INIT, actions);
    CoherentAt(Run(INIT, actions), j);
    hide ExactlyOnce; hide Run; hide OwnActions;
    OwnStepsClear(Run(INIT, actions), j, strategy, 0);
  }

  // -- One objective at a time ----------------------------------------

  /** Accepted, and not yet past the release of the router's claim. */
  predicate InPlanning(x: Job) { x.pc.Unborn? || x.pc.Gated? || x.pc.Planning? || x.pc.Tail? || x.pc.HandleTaken? }

  /** Neither the job nor a cancel has released the claim for it. */
  predicate Holds(x: Job) { (InPlanning(x) || x.pc.Aborted?) && x.cancel != Released }

  /** A cancel takes the handle of a job that is still to be planned, and stops it before the plan is there. */
  predicate Orderly(x: Job) {
    && (x.pc.Unborn? <==> x.submit.Claimed?)
    && (!x.pc.Unborn? && !x.submit.Returned? ==> x.pc.Gated? || x.pc.Aborted?)
    && (!x.cancel.NoCancel? ==> x.submit.Stored? || x.submit.Returned?)
    && (x.cancel.TookHandle? ==> x.pc.Gated? || x.pc.Planning?)
    && (x.cancel.SentAbort? || x.cancel.Released? <==> x.pc.Aborted?)
  }

  /** The job's handle is stored. */
  predicate OnHand(x: Job) {
    && x.cancel.NoCancel? && (x.submit.Stored? || x.submit.Returned?)
    && (x.pc.Gated? || x.pc.Planning? || x.pc.Tail?)
  }

  ghost predicate OneAtATime(s: State) {
    && (forall j :: 0 <= j < |s.jobs| ==> Orderly(s.jobs[j]))
    && (forall i, j :: 0 <= i < |s.jobs| && 0 <= j < |s.jobs| && Holds(s.jobs[i]) && Holds(s.jobs[j]) ==> i == j)
    && (s.busy <==> exists j :: 0 <= j < |s.jobs| && Holds(s.jobs[j]))
    && (s.slot.Some? ==> s.slot.value < |s.jobs| && OnHand(s.jobs[s.slot.value]))
  }

  /** A cancel that takes the handle when the plan is there already, or a plan that comes after it. */
  predicate Race(s: State, a: Action) {
    || (a.CancelTake? && s.slot.Some? && s.slot.value < |s.jobs| && s.jobs[s.slot.value].pc.Tail?)
    || (a.Decide? && a.j < |s.jobs| && s.jobs[a.j].pc.Planning? && !s.jobs[a.j].cancel.NoCancel?)
  }

  ghost predicate RaceFree(s: State, actions: seq<Action>)
    decreases |actions|
  {
    actions == [] || (!Race(s, actions[0]) && RaceFree(Step(s, actions[0]), actions[1..]))
  }

  /** One job moves on, and holds the claim afterwards if it did before and the router is still busy. */
  ghost predicate MovesOne(s: State, t: State, j: nat) {
    && j < |s.jobs| == |t.jobs| && (forall i :: 0 <= i < |s.jobs| && i != j ==> t.jobs[i] == s.jobs[i])
    && Orderly(t.jobs[j])
    && (if Holds(t.jobs[j]) then Holds(s.jobs[j]) && t.busy else t.busy == (s.busy && !Holds(s.jobs[j])))
    && (t.slot == None || (t.slot == Some(j) && OnHand(t.jobs[j])) || (t.slot == s.slot && t.slot != Some(j)))
  }

  lemma OneJobMoves(s: State, t: State, j: nat)
    requires OneAtATime(s) && MovesOne(s, t, j)
    ensures OneAtATime(t)
  {
    hide Holds; hide Orderly; hide InPlanning;
    if t.busy && !Holds(t.jobs[j]) {
      var i :| 0 <= i < |s.jobs| && Holds(s.jobs[i]);
      assert Holds(t.jobs[i]);
    }
  }

  lemma ClaimKeepsOneAtATime(s: State)
    requires OneAtATime(s) && !s.busy
    ensures OneAtATime(Step(s, Claim))
  {
    var t := Step(s, Claim);
    assert Holds(t.jobs[|s.jobs|]);
    assert forall i :: 0 <= i < |s.jobs| ==> t.jobs[i] == s.jobs[i];
    hide Holds; hide InPlanning;
  }

  /** A step keeps this exactly when no cancel races with the end of the planning. */
  lemma StepKeepsOneAtATimeIff(s: State, a: Action)
    requires OneAtATime(s)
    ensures OneAtATime(Step(s, a)) <==> !Race(s, a)
  {
    if !Enabled(s, a) || a.Other? { return; }
    if a.Claim? {
      ClaimKeepsOneAtATime(s);
    } else {
      var j := if a.CancelTake? then s.slot.value else a.j;
      assert Orderly(s.jobs[j]);
      if Race(s, a) {
        RaceIsDisorderly(s, a, j);
      } else {
        assert (s.slot == Some(j) ==> OnHand(s.jobs[j])) && (Holds(s.jobs[j]) ==> s.busy);
        hide Step; hide OneAtATime; hide Orderly; hide OnHand; hide Holds; hide MovesOne;
        if a.Spawn? || a.StoreHandle? || a.OpenGate? { SubmitStepMovesOne(s, a); }
        else if a.CancelTake? || a.CancelAbort? || a.CancelRelease? { CancelStepMovesOne(s, a, j); }
        else { OwnStepMovesOne(s, a); }
        OneJobMoves(s, Step(s, a), j);
      }
    }
  }

  lemma RaceIsDisorderly(s: State, a: Action, j: nat)
    requires OneAtATime(s) && Race(s, a) && j < |s.jobs| && j == if a.CancelTake? then s.slot.value else a.j
    ensures !OneAtATime(Step(s, a))
  {
    assert !Orderly(Step(s, a).jobs[j]);
  }

  lemma SubmitStepMovesOne(s: State, a: Action)
    requires (a.Spawn? || a.StoreHandle? || a.OpenGate?) && Enabled(s, a)
    requires Orderly(s.jobs[a.j]) && (s.slot == Some(a.j) ==> OnHand(s.jobs[a.j])) && (Holds(s.jobs[a.j]) ==> s.busy)
    ensures MovesOne(s, Step(s, a), a.j)
  {
  }

  lemma OwnStepMovesOne(s: State, a: Action)
    requires a.Start? || a.Decide? || a.TakeHandle? || a.Release? || a.Deliver? || a.FallBack?
    requires Enabled(s, a) && !Race(s, a)
    requires Orderly(s.jobs[a.j]) && (s.slot == Some(a.j) ==> OnHand(s.jobs[a.j])) && (Holds(s.jobs[a.j]) ==> s.busy)
    ensures MovesOne(s, Step(s, a), a.j)
  {
    hide Gate.Step;
  }

  lemma CancelStepMovesOne(s: State, a: Action, j: nat)
    requires (a.CancelTake? && s.slot == Some(j)) || ((a.CancelAbort? || a.CancelRelease?) && a.j == j)
    requires Enabled(s, a) && !Race(s, a) && j < |s.jobs|
    requires Orderly(s.jobs[j]) && (s.slot == Some(j) ==> OnHand(s.jobs[j])) && (Holds(s.jobs[j]) ==> s.busy)
    ensures MovesOne(s, Step(s, a), j)
  {
  }

  lemma {:induction false} RunKeepsOneAtATime(s: State, actions: seq<Action>)
    requires OneAtATime(s) && RaceFree(s, actions)
    ensures OneAtATime(Run(s, actions))
    decreases |actions|
  {
    if actions != [] {
      StepKeepsOneAtATimeIff(s, actions[0]);
      hide Step; hide OneAtATime; hide Race;
      RunKeepsOneAtATime(Step(s, actions[0]), actions[1..]);
    }
  }

  /** In every interleaving without such a race at most one objective is on its way to a decision, the router is busy
      as long as there is one, and otherwise accepts the next. */
  lemma OneObjectiveAtATime(actions: seq<Action>)
    requires RaceFree(INIT, actions)
    ensures
      var s := Run(INIT, actions);
      && (forall i, j :: 0 <= i < |s.jobs| && 0 <= j < |s.jobs| && InPlanning(s.jobs[i]) && InPlanning(s.jobs[j]) ==>
            i == j)
      && (forall j :: 0 <= j < |s.jobs| && InPlanning(s.jobs[j]) ==> s.busy)
      && (if s.busy then Step(s, Claim) == s else |Step(s, Claim).jobs| == |s.jobs| + 1)
  {
    RunKeepsOneAtATime(INIT, actions);
    var s := Run(INIT, actions);
    hide Run; hide RaceFree;
    forall j | 0 <= j < |s.jobs| && InPlanning(s.jobs[j]) ensures Holds(s.jobs[j]) { assert Orderly(s.jobs[j]); }
  }

  // -- Cancelling -----------------------------------------------------

  predicate HandleStored(x: Job) { x.submit.Stored? || x.submit.Returned? }

  /** Only a job whose handle was stored can be cancelled, and the handle on hand is that of a job that was not. */
  predicate Cancellable(s: State) {
    && (forall j :: 0 <= j < |s.jobs| && !s.jobs[j].cancel.NoCancel? ==> HandleStored(s.jobs[j]))
    && (s.slot.Some? ==> s.slot.value < |s.jobs| && UncancelledAt(s, s.slot.value))
  }

  predicate UncancelledAt(s: State, j: nat)
    requires j < |s.jobs|
  {
    s.jobs[j].cancel.NoCancel? && HandleStored(s.jobs[j])
  }

  lemma StepKeepsCancellable(s: State, a: Action)
    requires Cancellable(s)
    ensures Cancellable(Step(s, a))
  {
    if Enabled(s, a) && !a.Claim? && !a.Other? {
      var j := if a.CancelTake? then s.slot.value else a.j;
      JobStepIsCancellable(s, a, j);
      hide Step; hide HandleStored;
    }
  }

  /** Of the one job that moves: its handle stays stored, and a cancel begins with taking it. */
  lemma JobStepIsCancellable(s: State, a: Action, j: nat)
    requires Cancellable(s) && Enabled(s, a) && !a.Claim? && !a.Other?
    requires j == if a.CancelTake? then s.slot.value else a.j
    ensures
      var t := Step(s, a);
      && |t.jobs| == |s.jobs| && (forall i :: 0 <= i < |s.jobs| && i != j ==> t.jobs[i] == s.jobs[i])
      && (t.jobs[j].cancel.NoCancel? || HandleStored(t.jobs[j]))
      && (t.slot == None || (t.slot == Some(j) && UncancelledAt(t, j)) || (t.slot == s.slot && t.slot != Some(j)))
  {
    assert s.jobs[j].cancel.NoCancel? || HandleStored(s.jobs[j]);
    assert s.slot == Some(j) ==> UncancelledAt(s, j);
    hide Gate.Step; hide Cancellable;
  }

  lemma {:induction false} RunKeepsCancellable(s: State, actions: seq<Action>)
    requires Cancellable(s)
    ensures Cancellable(Run(s, actions))
    decreases |actions|
  {
    if actions != [] {
      StepKeepsCancellable(s, actions[0]);
      hide Step; hide Cancellable;
      RunKeepsCancellable(Step(s, actions[0]), actions[1..]);
    }
  }

  function CancelOf(j: nat): seq<Action> { [CancelTake, CancelAbort(j), CancelRelease(j)] }

  lemma RunThree(s: State, a: Action, b: Action, c: Action)
    ensures Run(s, [a, b, c]) == Step(Step(Step(s, a), b), c)
  {
    hide Step;
    RunCons(s, a, [b, c]);
    RunCons(Step(s, a), b, [c]);
    RunCons(Step(Step(s, a), b), c, []);
    assert [a] + [b, c] == [a, b, c] && [b] + [c] == [b, c] && [c] + [] == [c];
  }

  /** Whatever came before: a cancel that hits an objective before it is planned to the end stops it, and all it
      changes besides is that the router is free and holds no handle. */
  lemma CancelStopsTheObjective(actions: seq<Action>, j: nat)
    requires
      var s := Run(INIT, actions);
      s.slot == Some(j) && j < |s.jobs| && (s.jobs[j].pc == Gated || s.jobs[j].pc == Planning)
    ensures
      var s := Run(INIT, actions);
      Run(s, CancelOf(j))
      == s.(jobs := s.jobs[j := Job(s.jobs[j].submit, Aborted, Released)], busy := false, slot := None)
  {
    var s := Run(INIT, actions);
    RunKeepsCancellable(INIT, actions);
    hide Run; hide Gate.Step; hide DeliverStep;
    RunThree(s, CancelTake, CancelAbort(j), CancelRelease(j));
    assert s.jobs[j].cancel == NoCancel;
    var x := s.jobs[j];
    var t := Step(s, CancelTake);
    assert t == s.(jobs := s.jobs[j := x.(cancel := TookHandle)], slot := None);
    var u := Step(t, CancelAbort(j));
    assert t.jobs[j := x.(cancel := SentAbort, pc := Aborted)] == s.jobs[j := x.(cancel := SentAbort, pc := Aborted)];
    assert u == s.(jobs := s.jobs[j := x.(cancel := SentAbort, pc := Aborted)], slot := None);
    assert u.jobs[j := Job(x.submit, Aborted, Released)] == s.jobs[j := Job(x.submit, Aborted, Released)];
  }

  /** An accepted objective can be cancelled at once: its handle is stored when the submitter returns. */
  lemma SubmittedCanBeCancelled(s: State, started: bool)
    requires !s.busy
    ensures
      var j := |s.jobs|;
      var submit := [Claim, Spawn(j), StoreHandle(j), OpenGate(j)] + if started then [Start(j)] else [];
      Run(s, submit)
      == s.(busy := true, slot := Some(j),
            jobs := s.jobs + [Job(Returned, if started then Planning else Gated, NoCancel)])
  {
    hide Gate.Step; hide DeliverStep;
    var j := |s.jobs|;
    var rest := if started then [Start(j)] else [];
    RunCons(s, Claim, [Spawn(j), StoreHandle(j), OpenGate(j)] + rest);
    var t := s.(busy := true, jobs := s.jobs + [Job(Claimed, Unborn, NoCancel)]);
    RunCons(t, Spawn(j), [StoreHandle(j), OpenGate(j)] + rest);
    var u := s.(busy := true, jobs := s.jobs + [Job(Spawned, Gated, NoCancel)]);
    assert t.jobs[j := Job(Spawned, Gated, NoCancel)] == u.jobs;
    RunCons(u, StoreHandle(j), [OpenGate(j)] + rest);
    var v := u.(jobs := s.jobs + [Job(Stored, Gated, NoCancel)], slot := Some(j));
    assert u.jobs[j := Job(Stored, Gated, NoCancel)] == v.jobs;
    RunCons(v, OpenGate(j), rest);
    var w := v.(jobs := s.jobs + [Job(Returned, Gated, NoCancel)]);
    assert v.jobs[j := Job(Returned, Gated, NoCancel)] == w.jobs;
    assert w.jobs[j := Job(Returned, Planning, NoCancel)] == s.jobs + [Job(Returned, Planning, NoCancel)];
    if started { RunCons(w, Start(j), []); }
    assert [Start(j)] + [] == [Start(j)];
    assert [Claim] + ([Spawn(j), StoreHandle(j), OpenGate(j)] + rest)
        == [Claim, Spawn(j), StoreHandle(j), OpenGate(j)] + rest;
    assert [Spawn(j)] + ([StoreHandle(j), OpenGate(j)] + rest) == [Spawn(j), StoreHandle(j), OpenGate(j)] + rest;
    assert [StoreHandle(j)] + ([OpenGate(j)] + rest) == [StoreHandle(j), OpenGate(j)] + rest;
  }

  lemma StaysStopped(s: State, a: Action, j: nat)
    requires ExactlyOnce(s) && j < |s.jobs| && s.jobs[j].pc == Aborted
    ensures j < |Step(s, a).jobs| && Step(s, a).jobs[j].pc == Aborted
  {
    hide Arrivals;
    assert Coherent(s.jobs[j]);
  }

  /** A stopped objective has arrived nowhere, and never will. */
  lemma {:induction false} StoppedObjectiveArrivesNowhere(s: State, actions: seq<Action>, j: nat)
    requires ExactlyOnce(s) && j < |s.jobs| && s.jobs[j].pc == Aborted
    ensures
      var t := Run(s, actions);
      j < |t.jobs| && t.jobs[j].pc == Aborted && forall place :: Arrivals(t, j, place) == 0
    decreases |actions|
  {
    if actions != [] {
      StaysStopped(s, actions[0], j);
      StepKeepsExactlyOnce(s, actions[0]);
      hide Step;
      hide ExactlyOnce;
      StoppedObjectiveArrivesNowhere(Step(s, actions[0]), actions[1..], j);
    }
  }
}
