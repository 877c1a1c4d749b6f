/** The admission protocol shared by the delegation, organization and auto-delegation
    controllers (zhongshu-orb/src/delegation_service.rs and its siblings) as a state machine
    over the atomic steps of any number of submitters, jobs and cancels. */
module AdmissionGate {
  import opened Wrappers

  /** How far the submitter of a job is, from winning the compare-exchange to returning. */
  datatype SubmitPc = Claimed | SessionSet | Spawned | Stored | Returned

  /** How far the spawned job is. `Running` jobs wait at a suspension point, where an abort ends them;
      `Polling` ones execute up to the next one. `Tail` is the last poll, which no abort reaches: it still has
      to take the handle, then the session, then release the gate. */
  datatype JobPc = Unborn | Gated | Running | Polling | Tail | HandleTaken | SessionTaken | Finished | Aborted

  /** How far a cancel that took this job's handle is. */
  datatype CancelPc = NoCancel | TookHandle | SentAbort | TookSession | Released

  datatype Job = Job(submit: SubmitPc, pc: JobPc, cancel: CancelPc)

  /** The shared cells, and every job ever admitted, in admission order. */
  datatype State = State(busy: bool, slot: Option<nat>, session: Option<nat>, jobs: seq<Job>)

  const INIT := State(false, None, None, [])

  datatype Action =
    | Claim                       // a submitter's compare-exchange
    | SetSession(j: nat) | Spawn(j: nat) | StoreHandle(j: nat) | OpenGate(j: nat)
    | Start(j: nat) | Poll(j: nat) | Suspend(j: nat)
    | EnterTail(j: nat) | TakeHandle(j: nat) | TakeSession(j: nat) | Release(j: nat)
    | CancelTake                  // a canceller takes whatever handle is stored
    | CancelAbort(j: nat) | CancelSession(j: nat) | CancelRelease(j: nat)

  function Submitted(s: State, j: nat, pc: SubmitPc): State
    requires j < |s.jobs|
  {
    s.(jobs := s.jobs[j := s.jobs[j].(submit := pc)])
  }

  function Moved(s: State, j: nat, pc: JobPc): State
    requires j < |s.jobs|
  {
    s.(jobs := s.jobs[j := s.jobs[j].(pc := pc)])
  }

  function Cancelling(s: State, j: nat, pc: CancelPc): State
    requires j < |s.jobs|
  {
    s.(jobs := s.jobs[j := s.jobs[j].(cancel := pc)])
  }

  /** The abort has been sent. */
  predicate AbortSent(x: Job) { x.cancel == SentAbort || x.cancel == TookSession || x.cancel == Released }

  /** Whether the actor named by `a` is at the point where it performs `a`. */
  predicate Enabled(s: State, a: Action) {
    match a
    case Claim => !s.busy
    case SetSession(j) => j < |s.jobs| && s.jobs[j].submit == Claimed
    case Spawn(j) => j < |s.jobs| && s.jobs[j].submit == SessionSet
    case StoreHandle(j) => j < |s.jobs| && s.jobs[j].submit == Spawned
    case OpenGate(j) => j < |s.jobs| && s.jobs[j].submit == Stored
    case Start(j) => j < |s.jobs| && s.jobs[j].submit == Returned && s.jobs[j].pc == Gated
    case Poll(j) => j < |s.jobs| && s.jobs[j].pc == Running
    case Suspend(j) => j < |s.jobs| && s.jobs[j].pc == Polling
    case EnterTail(j) => j < |s.jobs| && s.jobs[j].pc == Running
    case TakeHandle(j) => j < |s.jobs| && s.jobs[j].pc == Tail
    case TakeSession(j) => j < |s.jobs| && s.jobs[j].pc == HandleTaken
    case Release(j) => j < |s.jobs| && s.jobs[j].pc == JobPc.SessionTaken
    case CancelTake => s.slot.Some? && s.slot.value < |s.jobs|
    case CancelAbort(j) => j < |s.jobs| && s.jobs[j].cancel == TookHandle
    case CancelSession(j) => j < |s.jobs| && s.jobs[j].cancel == SentAbort
    case CancelRelease(j) => j < |s.jobs| && s.jobs[j].cancel == TookSession
  }

  /** One atomic step; an action whose actor is elsewhere changes nothing. */
  function Step(s: State, a: Action): State {
    if !Enabled(s, a) then s else
    match a
    case Claim => s.(busy := true, jobs := s.jobs + [Job(Claimed, Unborn, NoCancel)])
    case SetSession(j) => Submitted(s, j, SessionSet).(session := Some(j))
    case Spawn(j) => Moved(Submitted(s, j, Spawned), j, Gated)
    case StoreHandle(j) => Submitted(s, j, Stored).(slot := Some(j))
    case OpenGate(j) => Submitted(s, j, Returned)
    case Start(j) => Moved(s, j, Running)
    case Poll(j) => Moved(s, j, Polling)
    case Suspend(j) => Moved(s, j, if AbortSent(s.jobs[j]) then Aborted else Running)
    case EnterTail(j) => Moved(s, j, Tail)
    case TakeHandle(j) => Moved(s, j, HandleTaken).(slot := None)
    case TakeSession(j) => Moved(s, j, JobPc.SessionTaken).(session := None)
    case Release(j) => Moved(s, j, Finished).(busy := false)
    case CancelTake => Cancelling(s, s.slot.value, TookHandle).(slot := None)
    case CancelAbort(j) =>
      var hit := s.jobs[j].pc == Gated || s.jobs[j].pc == Running;
      Cancelling(if hit then Moved(s, j, Aborted) else s, j, SentAbort)
    case CancelSession(j) => Cancelling(s, j, TookSession).(session := None)
    case CancelRelease(j) => Cancelling(s, j, Released).(busy := false)
  }

  function Run(s: State, actions: seq<Action>): State
    decreases |actions|
  {
    if actions == [] then s else Run(Step(s, actions[0]), actions[1..])
  }

  // -- The invariant --------------------------------------------------

  /** The job executes the rest of a poll, and ends with it. */
  predicate Stopping(x: Job) { x.pc == Polling && AbortSent(x) }

  /** The job can still execute code beyond its current poll. */
  predicate Live(x: Job) { x.pc != Finished && x.pc != Aborted && !Stopping(x) }

  /** Admitted, and neither the job nor a cancel has released the gate for it. */
  predicate Holds(x: Job) { x.pc != Finished && x.cancel != Released }

  predicate OwnsSlot(x: Job) {
    && (x.submit == Stored || x.submit == Returned)
    && (x.pc == Gated || x.pc == Running || x.pc == Polling || x.pc == Tail)
    && x.cancel == NoCancel
  }

  predicate OwnsSession(x: Job) {
    && x.submit != Claimed
    && x.pc != JobPc.SessionTaken && x.pc != Finished
    && x.cancel != TookSession && x.cancel != Released
  }

  /** The program counters of one job fit together; no cancel races with its tail. */
  predicate Coherent(x: Job) {
    && (x.pc == Unborn <==> x.submit == Claimed || x.submit == SessionSet)
    && (x.pc != Unborn && x.pc != Gated && x.pc != Aborted ==> x.submit == Returned)
    && (x.cancel != NoCancel ==> x.submit == Stored || x.submit == Returned)
    && (x.cancel == TookHandle ==> x.pc == Gated || x.pc == Running || x.pc == Polling)
    && (x.pc == Aborted ==> AbortSent(x)) && (AbortSent(x) ==> x.pc == Aborted || x.pc == Polling)
  }

  ghost predicate Inv(s: State) {
    && (forall j :: 0 <= j < |s.jobs| ==> Coherent(s.jobs[j]))
    && (forall i, j :: 0 <= i < |s.jobs| && 0 <= j < |s.jobs| && Holds(s.jobs[i]) && Holds(s.jobs[j]) ==> i == j)
    && (s.busy <==> exists j :: 0 <= j < |s.jobs| && Holds(s.jobs[j]))
    && (s.slot.Some? ==> s.slot.value < |s.jobs|)
    && (s.session.Some? ==> s.session.value < |s.jobs|)
    && (forall j :: 0 <= j < |s.jobs| ==> (s.slot == Some(j) <==> OwnsSlot(s.jobs[j])))
    && (forall j :: 0 <= j < |s.jobs| ==> (s.session == Some(j) <==> OwnsSession(s.jobs[j])))
  }

  /** A cancel meets a job in its tail: it takes the handle then, or the job gets there before
      the abort is sent. */
  predicate Race(s: State, a: Action) {
    Enabled(s, a) &&
    match a
    case CancelTake => s.jobs[s.slot.value].pc == Tail
    case EnterTail(j) => s.jobs[j].cancel == TookHandle
    case _ => false
  }

  ghost predicate RaceFree(s: State, actions: seq<Action>)
    decreases |actions|
  {
    actions == [] || (!Race(s, actions[0]) && RaceFree(Step(s, actions[0]), actions[1..]))
  }

  /** At most one admitted job can execute code beyond its current poll. */
  ghost predicate Exclusive(s: State) {
    forall i, j :: 0 <= i < |s.jobs| && 0 <= j < |s.jobs| && Live(s.jobs[i]) && Live(s.jobs[j]) ==> i == j
  }

  /** `j` is the one job that holds the gate. */
  predicate OnlyHolder(s: State, j: nat) {
    j < |s.jobs| && Holds(s.jobs[j]) && forall i :: 0 <= i < |s.jobs| && i != j ==> !Holds(s.jobs[i])
  }

  /** Changing the holder only, in step with the three cells, keeps the invariant. */
  lemma InvAfterHolderMoves(s: State, t: State, j: nat)
    requires Inv(s) && OnlyHolder(s, j)
    requires |t.jobs| == |s.jobs| && forall i :: 0 <= i < |s.jobs| && i != j ==> t.jobs[i] == s.jobs[i]
    requires Coherent(t.jobs[j])
    requires t.busy == Holds(t.jobs[j])
    requires t.slot == if OwnsSlot(t.jobs[j]) then Some(j) else None
    requires t.session == if OwnsSession(t.jobs[j]) then Some(j) else None
    ensures Inv(t)
  {
    forall i | 0 <= i < |s.jobs| && i != j
      ensures !OwnsSlot(s.jobs[i]) && !OwnsSession(s.jobs[i]) && Coherent(s.jobs[i])
    {
      assert !Holds(s.jobs[i]);
    }
  }

  lemma HolderOwnsCells(s: State, j: nat)
    requires Inv(s) && j < |s.jobs| && Holds(s.jobs[j])
    ensures OnlyHolder(s, j) && s.busy
    ensures s.slot == if OwnsSlot(s.jobs[j]) then Some(j) else None
    ensures s.session == if OwnsSession(s.jobs[j]) then Some(j) else None
  {
    if s.slot.Some? {
      assert OwnsSlot(s.jobs[s.slot.value]) && Holds(s.jobs[s.slot.value]);
    }
    if s.session.Some? {
      var k := s.session.value;
      assert OwnsSession(s.jobs[k]) && Coherent(s.jobs[k]) && Holds(s.jobs[k]);
    }
  }

  lemma ClaimKeepsInv(s: State)
    requires Inv(s) && !s.busy
    ensures Inv(Step(s, Claim))
  {
    var t := Step(s, Claim);
    var n := |s.jobs|;
    assert forall j :: 0 <= j < n ==> t.jobs[j] == s.jobs[j] && !Holds(s.jobs[j]);
    assert Holds(t.jobs[n]) && !OwnsSlot(t.jobs[n]) && !OwnsSession(t.jobs[n]) && Coherent(t.jobs[n]);
  }

  /** The job an enabled action acts on. */
  function Subject(s: State, a: Action): nat
    requires Enabled(s, a) && a != Claim
  {
    match a
    case SetSession(j) => j
    case Spawn(j) => j
    case StoreHandle(j) => j
    case OpenGate(j) => j
    case Start(j) => j
    case Poll(j) => j
    case Suspend(j) => j
    case EnterTail(j) => j
    case TakeHandle(j) => j
    case TakeSession(j) => j
    case Release(j) => j
    case CancelTake => s.slot.value
    case CancelAbort(j) => j
    case CancelSession(j) => j
    case CancelRelease(j) => j
  }

  predicate BySubmitter(a: Action) {
    a.SetSession? || a.Spawn? || a.StoreHandle? || a.OpenGate?
  }

  predicate ByCanceller(a: Action) {
    a.CancelTake? || a.CancelAbort? || a.CancelSession? || a.CancelRelease?
  }

  lemma SubmitterKeepsInv(s: State, a: Action)
    requires Inv(s) && BySubmitter(a) && Enabled(s, a) && Holds(s.jobs[Subject(s, a)])
    ensures Inv(Step(s, a))
  {
    var j := Subject(s, a);
    assert Coherent(s.jobs[j]);
    HolderOwnsCells(s, j);
    hide Inv;
    InvAfterHolderMoves(s, Step(s, a), j);
  }

  lemma JobKeepsInv(s: State, a: Action)
    requires Inv(s) && a != Claim && !BySubmitter(a) && !ByCanceller(a) && Enabled(s, a) && !Race(s, a)
    requires Holds(s.jobs[Subject(s, a)])
    ensures Inv(Step(s, a))
  {
    var j := Subject(s, a);
    assert Coherent(s.jobs[j]);
    HolderOwnsCells(s, j);
    hide Inv;
    InvAfterHolderMoves(s, Step(s, a), j);
  }

  lemma CancellerKeepsInv(s: State, a: Action)
    requires Inv(s) && ByCanceller(a) && Enabled(s, a) && !Race(s, a)
    ensures Inv(Step(s, a))
  {
    var j := Subject(s, a);
    assert Coherent(s.jobs[j]) && (a == CancelTake ==> OwnsSlot(s.jobs[j])) && Holds(s.jobs[j]);
    HolderOwnsCells(s, j);
    hide Inv;
    InvAfterHolderMoves(s, Step(s, a), j);
  }

  /** Every step that is not a race keeps the invariant. */
  lemma StepKeepsInv(s: State, a: Action)
    requires Inv(s) && !Race(s, a)
    ensures Inv(Step(s, a))
  {
    hide Inv;
    if a == Claim {
      if !s.busy { ClaimKeepsInv(s); }
    } else if Enabled(s, a) {
      var j := Subject(s, a);
      if ByCanceller(a) {
        CancellerKeepsInv(s, a);
      } else if !Holds(s.jobs[j]) {
        LatecomerKeepsInv(s, a, j);
      } else if BySubmitter(a) {
        SubmitterKeepsInv(s, a);
      } else {
        JobKeepsInv(s, a);
      }
    }
  }

  /** A submitter that opens the gate of an already cancelled job disturbs nothing, and neither does such a job
      that comes to the end of its poll. */
  lemma LatecomerKeepsInv(s: State, a: Action, j: nat)
    requires Inv(s) && a != Claim && !ByCanceller(a) && Enabled(s, a) && j == Subject(s, a) && !Holds(s.jobs[j])
    ensures Inv(Step(s, a))
  {
    var t := Step(s, a);
    assert Coherent(s.jobs[j]);
    assert a == OpenGate(j) || a == Suspend(j);
    assert !Holds(t.jobs[j]) && Coherent(t.jobs[j]) && t.busy == s.busy && t.slot == s.slot && t.session == s.session;
    assert !OwnsSlot(s.jobs[j]) && !OwnsSlot(t.jobs[j]) && !OwnsSession(s.jobs[j]) && !OwnsSession(t.jobs[j]);
    hide Step; hide Coherent; hide Holds; hide OwnsSlot; hide OwnsSession; hide Enabled;
    BystanderMoves(s, t, j);
  }

  lemma BystanderMoves(s: State, t: State, j: nat)
    requires Inv(s) && j < |s.jobs| == |t.jobs| && forall i :: 0 <= i < |s.jobs| && i != j ==> t.jobs[i] == s.jobs[i]
    requires t.busy == s.busy && t.slot == s.slot && t.session == s.session
    requires !Holds(s.jobs[j]) && !Holds(t.jobs[j]) && Coherent(t.jobs[j])
    requires !OwnsSlot(s.jobs[j]) && !OwnsSlot(t.jobs[j]) && !OwnsSession(s.jobs[j]) && !OwnsSession(t.jobs[j])
    ensures Inv(t)
  {
    hide Coherent; hide Holds; hide OwnsSlot; hide OwnsSession;
    if s.busy {
      var h :| 0 <= h < |s.jobs| && Holds(s.jobs[h]);
      assert Holds(t.jobs[h]);
    }
  }

  /** Over every interleaving of any number of submitters, jobs and cancels without a race. */
  lemma {:induction false} RunKeepsInv(s: State, actions: seq<Action>)
    requires Inv(s) && RaceFree(s, actions)
    ensures Inv(Run(s, actions))
    decreases |actions|
  {
    if actions != [] {
      StepKeepsInv(s, actions[0]);
      RunKeepsInv(Step(s, actions[0]), actions[1..]);
    }
  }

  /** What the invariant gives at every point of such a run: one job at a time; a stored handle
      is the live job's own; a job in its tail finds its own handle; a free gate is clean. */
  lemma InvMeans(s: State)
    requires Inv(s)
    ensures Exclusive(s)
    ensures s.slot.Some? ==> s.slot.value < |s.jobs| && Live(s.jobs[s.slot.value])
    ensures forall j :: 0 <= j < |s.jobs| && s.jobs[j].pc == Tail ==> s.slot == Some(j) && s.session == Some(j)
    ensures forall j :: 0 <= j < |s.jobs| && Live(s.jobs[j]) ==> s.busy
    ensures !s.busy ==> s.slot == None && s.session == None
  {
    forall j | 0 <= j < |s.jobs| && Live(s.jobs[j]) ensures Holds(s.jobs[j]) {
      assert Coherent(s.jobs[j]);
    }
    forall j | 0 <= j < |s.jobs| && s.jobs[j].pc == Tail ensures OwnsSlot(s.jobs[j]) && OwnsSession(s.jobs[j]) {
      assert Coherent(s.jobs[j]);
    }
    if s.slot.Some? { HolderOwnsCells(s, s.slot.value); }
    if s.session.Some? {
      var k := s.session.value;
      assert OwnsSession(s.jobs[k]) && Coherent(s.jobs[k]);
      HolderOwnsCells(s, k);
    }
  }

  lemma AdmissionIsSafe(actions: seq<Action>)
    requires RaceFree(INIT, actions)
    ensures
      var s := Run(INIT, actions);
      && Exclusive(s)
      && (s.slot.Some? ==> s.slot.value < |s.jobs| && Live(s.jobs[s.slot.value]))
      && (forall j :: 0 <= j < |s.jobs| && s.jobs[j].pc == Tail ==> s.slot == Some(j))
      && (!s.busy ==> s.slot == None && s.session == None)
  {
    RunKeepsInv(INIT, actions);
    InvMeans(Run(INIT, actions));
  }

  // -- Cancelling -----------------------------------------------------

  function CancelOf(j: nat): seq<Action> {
    [CancelTake, CancelAbort(j), CancelSession(j), CancelRelease(j)]
  }

  lemma RunCons(s: State, a: Action, rest: seq<Action>)
    ensures Run(s, [a] + rest) == Run(Step(s, a), rest)
  {
    hide Step;
    assert ([a] + rest)[0] == a && ([a] + rest)[1..] == rest;
  }

  lemma RunFour(s: State, a: Action, b: Action, c: Action, d: Action)
    ensures Run(s, [a, b, c, d]) == Step(Step(Step(Step(s, a), b), c), d)
  {
    hide Step;
    assert [a, b, c, d] == [a] + ([b] + ([c] + ([d] + [])));
    RunCons(s, a, [b] + ([c] + ([d] + [])));
    RunCons(Step(s, a), b, [c] + ([d] + []));
    RunCons(Step(Step(s, a), b), c, [d] + []);
    RunCons(Step(Step(Step(s, a), b), c), d, []);
  }

  lemma CancelStep(s: State, a: Action)
    requires Inv(s) && ByCanceller(a) && Enabled(s, a) && !Race(s, a)
    ensures Inv(Step(s, a)) && |Step(s, a).jobs| == |s.jobs|
    ensures
      var x := s.jobs[Subject(s, a)];
      Step(s, a).jobs[Subject(s, a)] ==
        match a
        case CancelTake => x.(cancel := TookHandle)
        case CancelAbort(_) => x.(pc := if x.pc == Polling then Polling else Aborted, cancel := SentAbort)
        case CancelSession(_) => x.(cancel := TookSession)
        case _ => x.(cancel := Released)
    ensures a.CancelRelease? ==> !Step(s, a).busy
  {
    CancellerKeepsInv(s, a);
    assert Coherent(s.jobs[Subject(s, a)]);
  }

  /** A job that was told to stop in the middle of a poll can only come to the end of it, and is ended there:
      it touches none of the shared cells. */
  lemma StoppingJobOnlyEnds(s: State, a: Action)
    requires Enabled(s, a) && a != Claim && !ByCanceller(a) && Coherent(s.jobs[Subject(s, a)])
    requires Stopping(s.jobs[Subject(s, a)])
    ensures !BySubmitter(a) ==> a == Suspend(Subject(s, a)) && Step(s, a) == Moved(s, Subject(s, a), Aborted)
    ensures Step(s, a).busy == s.busy && Step(s, a).slot == s.slot && Step(s, a).session == s.session
  {
  }

  /** A cancel that hits a job before its tail stops it, at the latest at its next suspension point, and leaves
      the gate free and clean. */
  lemma CancelStopsTheJob(s: State, j: nat)
    requires Inv(s) && s.slot == Some(j) && s.jobs[j].pc != Tail
    ensures
      var t := Run(s, CancelOf(j));
      && Inv(t) && j < |t.jobs|
      && (if s.jobs[j].pc == Polling then Stopping(t.jobs[j]) else t.jobs[j].pc == Aborted)
      && Step(t, Suspend(j)).jobs[j].pc == Aborted
      && !t.busy && t.slot == None && t.session == None
  {
    assert j < |s.jobs|;
    hide Inv; hide Step; hide Run; hide Stopping;
    RunFour(s, CancelTake, CancelAbort(j), CancelSession(j), CancelRelease(j));
    CancelIsSent(s, j);
    var t := Step(Step(s, CancelTake), CancelAbort(j));
    CancelIsFinished(t, j);
    var u := Step(Step(t, CancelSession(j)), CancelRelease(j));
    InvMeans(u);
    StopsAtTheLatest(s.jobs[j], u, j);
  }

  lemma CancelIsSent(s: State, j: nat)
    requires Inv(s) && s.slot == Some(j) && s.jobs[j].pc != Tail
    ensures
      var t := Step(Step(s, CancelTake), CancelAbort(j));
      && Inv(t) && j < |t.jobs|
      && t.jobs[j] == s.jobs[j].(pc := if s.jobs[j].pc == Polling then Polling else Aborted, cancel := SentAbort)
  {
    assert Enabled(s, CancelTake) && !Race(s, CancelTake);
    hide Inv; hide Step;
    CancelStep(s, CancelTake);
    CancelStep(Step(s, CancelTake), CancelAbort(j));
  }

  lemma CancelIsFinished(s: State, j: nat)
    requires Inv(s) && j < |s.jobs| && s.jobs[j].cancel == SentAbort
    ensures
      var t := Step(Step(s, CancelSession(j)), CancelRelease(j));
      Inv(t) && j < |t.jobs| && t.jobs[j] == s.jobs[j].(cancel := Released) && !t.busy
  {
    hide Inv; hide Step;
    CancelStep(s, CancelSession(j));
    CancelStep(Step(s, CancelSession(j)), CancelRelease(j));
  }

  lemma StopsAtTheLatest(x: Job, t: State, j: nat)
    requires j < |t.jobs|
    requires t.jobs[j] == x.(pc := if x.pc == Polling then Polling else Aborted, cancel := Released)
    ensures if x.pc == Polling then Stopping(t.jobs[j]) else t.jobs[j].pc == Aborted
    ensures Step(t, Suspend(j)).jobs[j].pc == Aborted
  {
  }

  // -- A job that is not cancelled ------------------------------------

  /** The `k`-th step that the submitter and the job of `j` perform; waiting in between changes nothing. */
  function OwnAction(j: nat, k: nat): Action
    requires k < 10
  {
    [SetSession(j), Spawn(j), StoreHandle(j), OpenGate(j), Start(j), Suspend(j), EnterTail(j), TakeHandle(j),
     TakeSession(j), Release(j)][k]
  }

  function OwnActions(j: nat, k: nat): seq<Action>
    requires k <= 10
    decreases 10 - k
  {
    if k == 10 then [] else [OwnAction(j, k)] + OwnActions(j, k + 1)
  }

  /** The job is not cancelled, and the first `k` of its steps lie behind. */
  predicate Past(x: Job, k: nat) {
    && x.cancel == NoCancel && x.pc != Aborted
    && (k >= 1 ==> x.submit != Claimed) && (k >= 2 ==> x.submit != SessionSet)
    && (k >= 3 ==> x.submit != Spawned) && (k >= 4 ==> x.submit != Stored)
    && (k >= 5 ==> x.pc != Gated) && (k >= 6 ==> x.pc != Polling) && (k >= 7 ==> x.pc != Running)
    && (k >= 8 ==> x.pc != Tail) && (k >= 9 ==> x.pc != HandleTaken) && (k >= 10 ==> x.pc != JobPc.SessionTaken)
  }

  /** No other job holds the gate. */
  predicate Alone(s: State, j: nat) {
    j < |s.jobs| && forall i :: 0 <= i < |s.jobs| && i != j ==> !Holds(s.jobs[i])
  }

  lemma OwnStepAdvances(s: State, j: nat, k: nat)
    requires Alone(s, j) && k < 10 && Coherent(s.jobs[j]) && Past(s.jobs[j], k)
    ensures
      var a := OwnAction(j, k);
      var t := Step(s, a);
      !Race(s, a) && |t.jobs| == |s.jobs| && Past(t.jobs[j], k + 1) && Alone(t, j)
  {
    hide Holds;
  }

  lemma CoherentAt(s: State, j: nat)
    requires Inv(s) && j < |s.jobs|
    ensures Coherent(s.jobs[j])
  {
  }

  lemma OthersHoldNothing(s: State, j: nat)
    requires Inv(s) && Alone(s, j) && Past(s.jobs[j], 10)
    ensures s.jobs[j].pc == Finished && !s.busy
  {
    assert Coherent(s.jobs[j]);
  }

  lemma {:induction false} OwnStepsEnd(s: State, j: nat, k: nat)
    requires Inv(s) && Alone(s, j) && k <= 10 && Past(s.jobs[j], k)
    ensures
      var t := Run(s, OwnActions(j, k));
      Inv(t) && |t.jobs| == |s.jobs| && t.jobs[j].pc == Finished && !t.busy
    decreases 10 - k
  {
    if k == 10 {
      OthersHoldNothing(s, j);
    } else {
      var a, rest := OwnAction(j, k), OwnActions(j, k + 1);
      assert OwnActions(j, k) == [a] + rest;
      hide *;
      CoherentAt(s, j);
      OwnStepAdvances(s, j, k);
      StepKeepsInv(s, a);
      RunCons(s, a, rest);
      OwnStepsEnd(Step(s, a), j, k + 1);
    }
  }

  lemma HoldsAlone(s: State, j: nat)
    requires Inv(s) && j < |s.jobs| && Holds(s.jobs[j])
    ensures Alone(s, j)
  {
  }

  /** In every race-free run: once an admitted job that no cancel has hit has taken its own remaining steps, it has
      ended, the gate is free and clean, and the next claim gets in. */
  lemma JobEndsAndFreesTheGate(actions: seq<Action>, j: nat)
    requires RaceFree(INIT, actions) && j < |Run(INIT, actions).jobs|
    requires var x := Run(INIT, actions).jobs[j]; x.pc != Finished && x.pc != Aborted && x.cancel == NoCancel
    ensures
      var s := Run(INIT, actions);
      var t := Run(s, OwnActions(j, 0));
      && |t.jobs| == |s.jobs| && t.jobs[j].pc == Finished && !t.busy && t.slot == None && t.session == None
      && Step(t, Claim).busy && |Step(t, Claim).jobs| == |s.jobs| + 1
  {
    var s := Run(INIT, actions);
    AdmissionIsSafe(actions);
    InitIsFine(actions);
    HoldsAlone(s, j);
    hide Inv; hide Run; hide OwnActions; hide Holds; hide Alone;
    OwnStepsEnd(s, j, 0);
    InvMeans(Run(s, OwnActions(j, 0)));
  }

  lemma InitIsFine(actions: seq<Action>)
    requires RaceFree(INIT, actions)
    ensures Inv(Run(INIT, actions))
  {
    RunKeepsInv(INIT, actions);
  }

  /** What may follow a race: the cancel goes on and another submitter gets in. */
  function AfterRace(j: nat): seq<Action> {
    [CancelAbort(j), CancelSession(j), CancelRelease(j), Claim]
  }

  /** In the middle of a race: the handle is taken and the job is in its tail. */
  predicate Racing(t: State, j: nat, cancel: CancelPc) {
    j < |t.jobs| && t.jobs[j].pc == Tail && t.jobs[j].cancel == cancel
  }

  lemma RaceContinues(t: State, j: nat)
    requires Racing(t, j, TookHandle)
    ensures
      var u := Step(Step(Step(t, CancelAbort(j)), CancelSession(j)), CancelRelease(j));
      Racing(u, j, Released) && !u.busy
  {
    var t1 := Step(t, CancelAbort(j));
    assert Racing(t1, j, SentAbort);
    var t2 := Step(t1, CancelSession(j));
    assert Racing(t2, j, TookSession);
  }

  lemma RaceLetsAnotherIn(t: State, j: nat)
    requires Racing(t, j, TookHandle)
    ensures RaceFree(t, AfterRace(j)) && !Exclusive(Run(t, AfterRace(j)))
  {
    var u := Step(Step(Step(t, CancelAbort(j)), CancelSession(j)), CancelRelease(j));
    RunFour(t, CancelAbort(j), CancelSession(j), CancelRelease(j), Claim);
    RaceContinues(t, j);
    var v := Step(u, Claim);
    assert Live(v.jobs[j]) && Live(v.jobs[|u.jobs|]) && j < |u.jobs|;
    hide Step;
    assert AfterRace(j)[1..] == [CancelSession(j), CancelRelease(j), Claim];
    assert AfterRace(j)[1..][1..] == [CancelRelease(j), Claim] && AfterRace(j)[1..][1..][1..] == [Claim];
    RaceFreeCons(u, Claim, []);
    RaceFreeCons(Step(Step(t, CancelAbort(j)), CancelSession(j)), CancelRelease(j), [Claim]);
    RaceFreeCons(Step(t, CancelAbort(j)), CancelSession(j), [CancelRelease(j), Claim]);
    RaceFreeCons(t, CancelAbort(j), [CancelSession(j), CancelRelease(j), Claim]);
  }

  lemma RaceFreeCons(s: State, a: Action, rest: seq<Action>)
    requires !a.CancelTake? && !a.EnterTail? && RaceFree(Step(s, a), rest)
    ensures RaceFree(s, [a] + rest)
  {
    hide Step;
    assert ([a] + rest)[0] == a && ([a] + rest)[1..] == rest;
  }

  /** From a state satisfying the invariant a step is safe, in that no later run without a race
      ever has two jobs executing, if and only if the step is not itself a race. */
  lemma StepIsSafeIff(s: State, a: Action)
    requires Inv(s)
    ensures (forall actions :: RaceFree(Step(s, a), actions) ==> Exclusive(Run(Step(s, a), actions)))
        <==> !Race(s, a)
  {
    if Race(s, a) {
      assert Racing(Step(s, a), Subject(s, a), TookHandle);
      RaceLetsAnotherIn(Step(s, a), Subject(s, a));
    } else {
      StepKeepsInv(s, a);
      forall actions | RaceFree(Step(s, a), actions) ensures Exclusive(Run(Step(s, a), actions)) {
        RunKeepsInv(Step(s, a), actions);
        InvMeans(Run(Step(s, a), actions));
      }
    }
  }

  /** One job admitted, from the claim to its last poll. */
  function ToTail(): seq<Action> {
    [Claim, SetSession(0), Spawn(0), StoreHandle(0), OpenGate(0), Start(0), EnterTail(0)]
  }

  /** The gate with one job admitted. */
  function OneJob(slot: Option<nat>, session: Option<nat>, submit: SubmitPc, pc: JobPc): State {
    State(true, slot, session, [Job(submit, pc, NoCancel)])
  }

  lemma OneJobSteps()
    ensures Step(INIT, Claim) == OneJob(None, None, Claimed, Unborn)
    ensures Step(OneJob(None, None, Claimed, Unborn), SetSession(0)) == OneJob(None, Some(0), SessionSet, Unborn)
    ensures Step(OneJob(None, Some(0), SessionSet, Unborn), Spawn(0)) == OneJob(None, Some(0), Spawned, Gated)
    ensures Step(OneJob(None, Some(0), Spawned, Gated), StoreHandle(0)) == OneJob(Some(0), Some(0), Stored, Gated)
  {
  }

  lemma MoreOneJobSteps()
    ensures Step(OneJob(Some(0), Some(0), Stored, Gated), OpenGate(0)) == OneJob(Some(0), Some(0), Returned, Gated)
    ensures Step(OneJob(Some(0), Some(0), Returned, Gated), Start(0)) == OneJob(Some(0), Some(0), Returned, Running)
    ensures Step(OneJob(Some(0), Some(0), Returned, Running), EnterTail(0)) == OneJob(Some(0), Some(0), Returned, Tail)
  {
  }

  lemma RaceFreeStep(s: State, a: Action, rest: seq<Action>)
    requires !Race(s, a)
    ensures RaceFree(s, [a] + rest) == RaceFree(Step(s, a), rest)
  {
    hide Step; hide Race;
    assert ([a] + rest)[0] == a && ([a] + rest)[1..] == rest;
  }

  lemma NextOneJob(s: State, a: Action, rest: seq<Action>, t: State)
    requires s.jobs == [] || s.jobs[0].cancel == NoCancel
    requires Step(s, a) == t && a != CancelTake && (a.EnterTail? ==> a.j == 0)
    ensures Run(s, [a] + rest) == Run(t, rest) && RaceFree(s, [a] + rest) == RaceFree(t, rest)
  {
    RunCons(s, a, rest);
    RaceFreeStep(s, a, rest);
  }

  lemma ReachesTail()
    ensures RaceFree(INIT, ToTail()) && Run(INIT, ToTail()) == OneJob(Some(0), Some(0), Returned, Tail)
  {
    OneJobSteps();
    MoreOneJobSteps();
    hide Step; hide Run; hide RaceFree;
    var r6 := [EnterTail(0)];
    var r5 := [Start(0)] + r6;
    var r4 := [OpenGate(0)] + r5;
    var r3 := [StoreHandle(0)] + r4;
    var r2 := [Spawn(0)] + r3;
    var r1 := [SetSession(0)] + r2;
    assert ToTail() == [Claim] + r1 && r6 == r6 + [];
    NextOneJob(INIT, Claim, r1, OneJob(None, None, Claimed, Unborn));
    NextOneJob(OneJob(None, None, Claimed, Unborn), SetSession(0), r2, OneJob(None, Some(0), SessionSet, Unborn));
    NextOneJob(OneJob(None, Some(0), SessionSet, Unborn), Spawn(0), r3, OneJob(None, Some(0), Spawned, Gated));
    NextOneJob(OneJob(None, Some(0), Spawned, Gated), StoreHandle(0), r4, OneJob(Some(0), Some(0), Stored, Gated));
    NextOneJob(OneJob(Some(0), Some(0), Stored, Gated), OpenGate(0), r5, OneJob(Some(0), Some(0), Returned, Gated));
    NextOneJob(OneJob(Some(0), Some(0), Returned, Gated), Start(0), r6, OneJob(Some(0), Some(0), Returned, Running));
    NextOneJob(OneJob(Some(0), Some(0), Returned, Running), EnterTail(0), [], OneJob(Some(0), Some(0), Returned, Tail));
    NothingRun(OneJob(Some(0), Some(0), Returned, Tail));
  }

  lemma NothingRun(s: State)
    ensures Run(s, []) == s && RaceFree(s, [])
  {
  }

  lemma {:induction false} RunConcat(s: State, a: seq<Action>, b: seq<Action>)
    ensures Run(s, a + b) == Run(Run(s, a), b)
    decreases |a|
  {
    hide Step;
    if a == [] {
      assert a + b == b;
    } else {
      assert (a + b)[1..] == a[1..] + b;
      RunConcat(Step(s, a[0]), a[1..], b);
    }
  }

  lemma TailRaces(s: State)
    requires s == OneJob(Some(0), Some(0), Returned, Tail)
    ensures Race(s, CancelTake) && Racing(Step(s, CancelTake), 0, TookHandle)
  {
  }

  lemma CancelGoesOn(actions: seq<Action>, s: State, j: nat)
    requires Run(INIT, actions) == s && Racing(Step(s, CancelTake), j, TookHandle)
    ensures !Exclusive(Run(INIT, actions + ([CancelTake] + AfterRace(j))))
  {
    hide Step; hide Exclusive; hide AfterRace; hide Run; hide RaceFree; hide Racing;
    RaceLetsAnotherIn(Step(s, CancelTake), j);
    RunCons(s, CancelTake, AfterRace(j));
    RunConcat(INIT, actions, [CancelTake] + AfterRace(j));
  }

  /** The race does happen: a run without any race leads from the start to where a cancel is one, and if the
      cancel goes on from there two jobs execute. */
  lemma RaceIsReachable()
    ensures RaceFree(INIT, ToTail()) && Race(Run(INIT, ToTail()), CancelTake)
    ensures !Exclusive(Run(INIT, ToTail() + ([CancelTake] + AfterRace(0))))
  {
    hide *;
    ReachesTail();
    TailRaces(OneJob(Some(0), Some(0), Returned, Tail));
    CancelGoesOn(ToTail(), OneJob(Some(0), Some(0), Returned, Tail), 0);
  }
}
