/** The heartbeat source of zhongshu-core/src/source.rs:39-69 on a clock that never goes back. */
module TimerSource {
  import opened Arithmetic
  import opened Wrappers

  /** One poll: when the elapsed time is read, and when the new tick time is. */
  datatype Poll = Poll(read: nat, stamp: nat)

  predicate Fires(interval: nat, last: Option<nat>, p: Poll) {
    last.None? || p.read - last.value >= interval
  }

  class Timer {
    const interval: nat
    var last: Option<nat>

    constructor (interval: nat)
      ensures this.interval == interval && last == None
    {
      this.interval, last := interval, None;
    }

    method PollOnce(p: Poll) returns (tick: bool)
      modifies this
      ensures tick <==> Fires(interval, old(last), p)
      ensures last == if tick then Some(p.stamp) else old(last)
    {
      var shouldFire := match last case Some(t) => p.read - t >= interval case None => true;
      if shouldFire {
        last := Some(p.stamp);
        tick := true;
      } else {
        tick := false;
      }
    }

    /** The source manager polls again and again. */
    method PollAll(polls: seq<Poll>) returns (ticks: seq<nat>)
      modifies this
      ensures ticks == Ticks(interval, old(last), polls)
    {
      ticks := [];
      for i := 0 to |polls|
        invariant ticks + Ticks(interval, last, polls[i..]) == Ticks(interval, old(last), polls)
      {
        assert polls[i..][0] == polls[i] && polls[i..][1..] == polls[i + 1..];
        var tick := PollOnce(polls[i]);
        if tick { ticks := ticks + [polls[i].stamp]; }
      }
      assert ticks + [] == ticks;
    }
  }

  /** The times of the ticks. */
  function Ticks(interval: nat, last: Option<nat>, polls: seq<Poll>): seq<nat>
    decreases |polls|
  {
    if polls == [] then []
    else if Fires(interval, last, polls[0]) then
      [polls[0].stamp] + Ticks(interval, Some(polls[0].stamp), polls[1..])
    else Ticks(interval, last, polls[1..])
  }

  /** The ticks of a new timer, poll by poll: the first poll ticks, and each later one exactly when it reads at least
      one interval after the tick before it. */
  lemma TickOrNot(interval: nat, polls: seq<Poll>, p: Poll)
    ensures
      var before := Ticks(interval, None, polls);
      && (before == [] <==> polls == [])
      && Ticks(interval, None, polls + [p])
         == before + if polls == [] || p.read - before[|before| - 1] >= interval then [p.stamp] else []
  {
    TickOrNotAfter(interval, None, polls, p);
  }

  lemma {:induction false} TickOrNotAfter(interval: nat, last: Option<nat>, polls: seq<Poll>, p: Poll)
    ensures last.None? && polls != [] ==> Ticks(interval, last, polls) != []
    ensures
      var before := Ticks(interval, last, polls);
      var latest := if before == [] then last else Some(before[|before| - 1]);
      Ticks(interval, last, polls + [p])
      == before + if latest.None? || p.read - latest.value >= interval then [p.stamp] else []
    decreases |polls|
  {
    if polls == [] {
      assert polls + [p] == [p] && [p][1..] == [];
    } else {
      assert (polls + [p])[0] == polls[0] && (polls + [p])[1..] == polls[1..] + [p];
      TickOrNotAfter(interval, if Fires(interval, last, polls[0]) then Some(polls[0].stamp) else last, polls[1..], p);
    }
  }

  /** All readings, in order, never go back. */
  predicate Monotone(from: nat, polls: seq<Poll>)
    decreases |polls|
  {
    polls == [] || (from <= polls[0].read <= polls[0].stamp && Monotone(polls[0].stamp, polls[1..]))
  }

  function End(from: nat, polls: seq<Poll>): nat { if polls == [] then from else polls[|polls| - 1].stamp }

  lemma {:induction false} LaterStart(from: nat, later: nat, polls: seq<Poll>)
    requires Monotone(later, polls) && from <= later
    ensures Monotone(from, polls) && later <= End(later, polls)
    decreases |polls|
  {
    if polls != [] {
      LaterStart(polls[0].stamp, polls[0].stamp, polls[1..]);
    }
  }

  lemma {:induction false} TicksAreSpaced(interval: nat, last: Option<nat>, from: nat, polls: seq<Poll>)
    requires Monotone(from, polls)
    ensures
      var ticks := Ticks(interval, last, polls);
      && (forall i :: 0 <= i < |ticks| ==> from <= ticks[i] <= End(from, polls))
      && (last.Some? && ticks != [] ==> ticks[0] - last.value >= interval)
      && forall i :: 0 < i < |ticks| ==> ticks[i] - ticks[i - 1] >= interval
    decreases |polls|
  {
    if polls != [] {
      var p := polls[0];
      LaterStart(p.stamp, p.stamp, polls[1..]);
      if Fires(interval, last, p) {
        TicksAreSpaced(interval, Some(p.stamp), p.stamp, polls[1..]);
        var rest := Ticks(interval, Some(p.stamp), polls[1..]);
        var ticks := [p.stamp] + rest;
        forall i | 0 < i < |ticks| ensures ticks[i] - ticks[i - 1] >= interval {
          if i > 1 { assert ticks[i] == rest[i - 1] && ticks[i - 1] == rest[i - 2]; }
        }
      } else {
        TicksAreSpaced(interval, last, p.stamp, polls[1..]);
      }
    }
  }

  lemma {:induction false} SpacedTicksTakeTime(interval: nat, ticks: seq<nat>, n: nat)
    requires n < |ticks| && forall i :: 0 < i < |ticks| ==> ticks[i] - ticks[i - 1] >= interval
    ensures ticks[0] + n * interval <= ticks[n]
  {
    if n > 0 {
      SpacedTicksTakeTime(interval, ticks, n - 1);
      assert n * interval == (n - 1) * interval + interval;
    }
  }

  /** `n` ticks take at least `n - 1` intervals, so within any stretch of polling there are at most one
      more tick than whole intervals. */
  lemma TickRateIsBounded(interval: nat, last: Option<nat>, from: nat, polls: seq<Poll>)
    requires Monotone(from, polls)
    ensures
      var ticks := Ticks(interval, last, polls);
      ticks != [] ==> ticks[0] + (|ticks| - 1) * interval <= ticks[|ticks| - 1] <= End(from, polls)
    ensures interval > 0 ==> |Ticks(interval, last, polls)| <= (End(from, polls) - from) / interval + 1
  {
    var ticks := Ticks(interval, last, polls);
    TicksAreSpaced(interval, last, from, polls);
    if ticks != [] {
      SpacedTicksTakeTime(interval, ticks, |ticks| - 1);
      if interval > 0 { QuotientBound(interval, |ticks| - 1, End(from, polls) - from); }
    } else {
      LaterStart(from, from, polls);
      if interval > 0 { QuotientBound(interval, 0, End(from, polls) - from); }
    }
  }

  lemma QuotientBound(d: nat, n: nat, x: nat)
    requires d > 0 && n * d <= x
    ensures n <= x / d
  {
    var q := x / d;
    assert x < q * d + d;
    if n > q { MulMonotone(q + 1, n, d); }
  }

  /** When polls are never further apart than `gap`, a tick comes at most two gaps after it was due. */
  lemma {:induction false} TicksKeepComing(interval: nat, last: nat, from: nat, polls: seq<Poll>, gap: nat)
    requires Monotone(from, polls) && last <= from < last + interval + gap
    requires Dense(from, polls, gap) && polls != [] && End(from, polls) >= last + interval + gap
    ensures
      var ticks := Ticks(interval, Some(last), polls);
      ticks != [] && ticks[0] <= last + interval + 2 * gap
    decreases |polls|
  {
    var p := polls[0];
    if !Fires(interval, Some(last), p) {
      TicksKeepComing(interval, last, p.stamp, polls[1..], gap);
    }
  }

  /** Each poll is over at most `gap` after the one before. */
  predicate Dense(from: nat, polls: seq<Poll>, gap: nat)
    decreases |polls|
  {
    polls == [] || (polls[0].stamp - from <= gap && Dense(polls[0].stamp, polls[1..], gap))
  }
}
