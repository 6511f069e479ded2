/**
 * Value-level semantics of one software timer (pwiTimer).
 *
 * The millisecond clock and every duration are `unsigned long`, 32 bits on
 * the target: values are `u32` here and every subtraction goes through
 * `Sub32`, which wraps modulo 2^32 exactly as the C++ unsigned arithmetic does.
 *
 * A timer is described by its delay, its one-shot flag and its start stamp;
 * a start stamp of 0 is the "stopped" sentinel. The class `Scheduler.Timer`
 * is proved against the functions of this module.
 */
module TimerSpec {

  import opened Uint

  /** A reading of the wrapping millisecond clock, or a duration. */
  type Ms = u32

  /** The part of a timer that decides when it fires. */
  datatype TimerState = TimerState(delayMs: Ms, once: bool, startMs: Ms)

  /** `isStarted`: any non-zero start stamp means the timer is running. */
  predicate Running(t: TimerState) {
    t.startMs > 0
  }

  /** The stamp a start at clock reading `now` records: a reading of 0 is
      bumped to 1 so that a real start never looks stopped. */
  function StartStamp(now: Ms): (r: Ms)
    ensures r != 0
    ensures now != 0 ==> r == now
  {
    if now == 0 then 1 else now
  }

  /** `objStart` (and so `start` and `restart`): with a non-zero delay the
      timer is (re)based on `now`; with a zero delay nothing changes. */
  function Started(t: TimerState, now: Ms): (r: TimerState)
    ensures r.delayMs == t.delayMs && r.once == t.once
    ensures Running(r) <==> Running(t) || t.delayMs != 0
    ensures t.delayMs != 0 ==> r.startMs == StartStamp(now)
    ensures t.delayMs == 0 ==> r == t
  {
    if t.delayMs != 0 then t.(startMs := StartStamp(now)) else t
  }

  /** `stop`. */
  function Stopped(t: TimerState): (r: TimerState)
    ensures !Running(r)
    ensures r.delayMs == t.delayMs && r.once == t.once
  {
    t.(startMs := 0)
  }

  /** Wraparound-safe elapsed time since the start stamp. */
  function Elapsed(t: TimerState, now: Ms): Ms {
    Sub32(now, t.startMs)
  }

  /** The test of `objLoop`: running, and at least `delayMs` elapsed. */
  predicate Expired(t: TimerState, now: Ms) {
    Running(t) && Elapsed(t, now) >= t.delayMs
  }

  /** What `objLoop` does to the timer after the callback: a one-shot timer
      stops, a repeating one restarts at `now`. */
  function Rearmed(t: TimerState, now: Ms): TimerState {
    if t.once then Stopped(t) else Started(t, now)
  }

  /** One `objLoop` call, as far as the timer itself is concerned. */
  function Ticked(t: TimerState, now: Ms): (r: TimerState)
    ensures r.delayMs == t.delayMs && r.once == t.once
    ensures !Expired(t, now) ==> r == t
    ensures Expired(t, now) && t.once ==> !Running(r)
    ensures Expired(t, now) && !t.once ==> Running(r)
    ensures Expired(t, now) && !t.once && t.delayMs != 0 ==> r.startMs == StartStamp(now)
  {
    if Expired(t, now) then Rearmed(t, now) else t
  }

  /** `setDelay`: store the delay, then stop (delay 0) or restart. */
  function WithDelay(t: TimerState, d: Ms, now: Ms): (r: TimerState)
    ensures r.delayMs == d && r.once == t.once
    ensures d == 0 ==> !Running(r)
    ensures d != 0 ==> Running(r) && r.startMs == StartStamp(now)
  {
    var t' := t.(delayMs := d);
    if d == 0 then Stopped(t') else Started(t', now)
  }

  /** `getRemaining` as written: 0 for a disabled timer, otherwise the delay
      minus the elapsed time, in wrapping unsigned arithmetic. */
  function Remaining(t: TimerState, now: Ms): (r: Ms)
    ensures t.delayMs == 0 ==> r == 0
    ensures Running(t) && !Expired(t, now) ==> 0 < r <= t.delayMs && r + Elapsed(t, now) == t.delayMs
  {
    if t.delayMs != 0 then Sub32(t.delayMs, Elapsed(t, now)) else 0
  }

  /** An overdue timer that no loop has serviced yet does not report 0: the
      subtraction wraps and the result exceeds the whole delay. */
  lemma RemainingWhenOverdue(t: TimerState, now: Ms)
    requires t.delayMs != 0 && Elapsed(t, now) > t.delayMs
    ensures Remaining(t, now) > t.delayMs
    ensures Remaining(t, now) == TWO_TO_THE_32 - (Elapsed(t, now) - t.delayMs)
  {
  }

  /** `getRemaining` as its documentation describes it: the milliseconds
      still to wait, so 0 once the timer is overdue rather than a wrapped
      value larger than the delay, and the whole delay while stopped. */
  function RemainingClamped(t: TimerState, now: Ms): (r: Ms)
    ensures r <= t.delayMs
    ensures Expired(t, now) ==> r == 0
    ensures !Running(t) ==> r == t.delayMs
    ensures Running(t) && !Expired(t, now) ==> r == Remaining(t, now)
    ensures Running(t) && !Expired(t, now) ==> r + Elapsed(t, now) == t.delayMs
  {
    if t.delayMs == 0 || Expired(t, now) then 0
    else if Running(t) then Remaining(t, now)
    else t.delayMs
  }

  /** On a stopped timer with a delay, the stamp 0 is subtracted like any
      other: the result is the delay minus the clock reading. */
  lemma RemainingWhenStopped(t: TimerState, now: Ms)
    requires t.delayMs != 0 && !Running(t)
    ensures Remaining(t, now) == Sub32(t.delayMs, now)
  {
  }

  /** Wraparound safety: expiry depends only on the true time since the
      start, wherever the start stamp sits, even when `start + k` wraps. */
  lemma ExpiryAcrossWrap(t: TimerState, k: Ms)
    requires Running(t)
    ensures Expired(t, Add32(t.startMs, k)) <==> k >= t.delayMs
  {
  }

  /** A timer (re)started at `t0` does not expire before `delayMs` has
      passed since `t0` -- except at the clock reading 0 itself when `t0`
      was 0: the stamp was bumped to 1, and 0 - 1 wraps to the largest
      elapsed time. */
  lemma NotExpiredBeforeDelay(t: TimerState, t0: Ms, now: Ms)
    requires t.delayMs != 0
    requires Sub32(now, t0) < t.delayMs
    requires t0 != 0 || now != 0
    ensures !Expired(Started(t, t0), now)
  {
  }

  /** The exception above, exhibited: started at clock 0, polled in the
      same millisecond, the timer fires at once whatever its delay. */
  lemma StartAtZeroExpiresInSameMillisecond(t: TimerState)
    requires t.delayMs != 0
    ensures Expired(Started(t, 0), 0)
  {
  }

  /** A timer whose running state is a flag of its own, so that the start
      stamp can hold any clock reading, 0 included. */
  datatype FlaggedTimer = FlaggedTimer(delayMs: Ms, once: bool, running: bool, startMs: Ms)

  /** The expiry test of the flagged timer. */
  predicate FlaggedExpired(t: FlaggedTimer, now: Ms) {
    t.running && Sub32(now, t.startMs) >= t.delayMs
  }

  /** `objStart` as its documentation describes it ("started from now"),
      with a running flag in place of the 0 sentinel: the stamp is the
      reading itself, and the timer expires exactly when its delay has
      passed since then, the reading 0 included. */
  function FlaggedStarted(t: FlaggedTimer, now: Ms): (r: FlaggedTimer)
    ensures r.delayMs == t.delayMs && r.once == t.once
    ensures r.running <==> t.running || t.delayMs != 0
    ensures t.delayMs == 0 ==> r == t
    ensures t.delayMs != 0 ==> forall n: Ms :: FlaggedExpired(r, n) <==> Sub32(n, now) >= t.delayMs
  {
    if t.delayMs != 0 then t.(running := true, startMs := now) else t
  }

  /** The flagged timer started at any `t0`, polled `k` ms later, is expired
      iff `k` reaches its delay: there is no exception at clock 0. */
  lemma FlaggedStartNeverEarly(t: FlaggedTimer, t0: Ms, k: Ms)
    requires t.delayMs != 0
    ensures FlaggedExpired(FlaggedStarted(t, t0), Add32(t0, k)) <==> k >= t.delayMs
  {
    SubAfterAdd(t0, k);
  }

  /** A timer (re)started at `t0 != 0` expires as soon as `delayMs` has passed. */
  lemma ExpiredOnceDelayPassed(t: TimerState, t0: Ms, now: Ms)
    requires t0 != 0 && Sub32(now, t0) >= t.delayMs
    ensures t.delayMs != 0 ==> Expired(Started(t, t0), now)
  {
  }

  /** Polling a timer at the clock readings `nows`, one `objLoop` each:
      the final state and how many of the calls fired. */
  function Run(t: TimerState, nows: seq<Ms>): (r: (TimerState, nat))
    ensures r.1 <= |nows|
    ensures r.0.delayMs == t.delayMs && r.0.once == t.once
    decreases |nows|
  {
    if nows == [] then (t, 0)
    else
      var rest := Run(Ticked(t, nows[0]), nows[1..]);
      (rest.0, rest.1 + if Expired(t, nows[0]) then 1 else 0)
  }

  /** A stopped timer never fires and stays stopped, however often it is polled. */
  lemma {:induction false} StoppedNeverFires(t: TimerState, nows: seq<Ms>)
    requires !Running(t)
    ensures Run(t, nows) == (t, 0)
    decreases |nows|
  {
    if nows != [] {
      StoppedNeverFires(t, nows[1..]);
    }
  }

  /** A running timer polled only while less than its delay has elapsed
      fires no callback and keeps its state. */
  lemma {:induction false} QuietUntilDue(t: TimerState, nows: seq<Ms>)
    requires Running(t)
    requires forall j :: 0 <= j < |nows| ==> Elapsed(t, nows[j]) < t.delayMs
    ensures Run(t, nows) == (t, 0)
    decreases |nows|
  {
    if nows != [] {
      QuietUntilDue(t, nows[1..]);
    }
  }

  /** Polled every tick, a running timer fires exactly at the first tick
      where the elapsed time reaches its delay, and not before. */
  lemma FiresAtFirstDueTick(t: TimerState, nows: seq<Ms>)
    requires Running(t) && |nows| > 0
    requires forall j :: 0 <= j < |nows| - 1 ==> Elapsed(t, nows[j]) < t.delayMs
    requires Elapsed(t, nows[|nows| - 1]) >= t.delayMs
    ensures Run(t, nows) == (Rearmed(t, nows[|nows| - 1]), 1)
  {
    var n := |nows| - 1;
    QuietUntilDue(t, nows[..n]);
    RunSplit(t, nows[..n], [nows[n]]);
    assert nows[..n] + [nows[n]] == nows;
  }

  /** Running a timer over two batches of ticks is running it over both. */
  lemma {:induction false} RunSplit(t: TimerState, a: seq<Ms>, b: seq<Ms>)
    ensures Run(t, a + b).0 == Run(Run(t, a).0, b).0
    ensures Run(t, a + b).1 == Run(t, a).1 + Run(Run(t, a).0, b).1
    decreases |a|
  {
    if a == [] {
      assert a + b == b;
    } else {
      assert (a + b)[0] == a[0] && (a + b)[1..] == a[1..] + b;
      RunSplit(Ticked(t, a[0]), a[1..], b);
    }
  }

  /** A one-shot timer fires at most once, however long it is polled. */
  lemma {:induction false} OneShotFiresAtMostOnce(t: TimerState, nows: seq<Ms>)
    requires t.once
    ensures Run(t, nows).1 <= 1
    decreases |nows|
  {
    if nows != [] {
      if Expired(t, nows[0]) {
        StoppedNeverFires(Ticked(t, nows[0]), nows[1..]);
      } else {
        OneShotFiresAtMostOnce(t, nows[1..]);
      }
    }
  }

  /** Stopping a timer before it is due guarantees it does not fire. */
  lemma StopPreventsFiring(t: TimerState, nows: seq<Ms>)
    ensures Run(Stopped(t), nows).1 == 0
  {
    StoppedNeverFires(Stopped(t), nows);
  }

  /** A repeating timer with a delay is rebased on the tick that fired it,
      so it fires again only once a whole further delay has passed. */
  lemma RepeatingRebasesOnFire(t: TimerState, now: Ms, later: Ms)
    requires Expired(t, now) && !t.once && t.delayMs != 0
    requires Sub32(later, now) < t.delayMs && now != 0
    ensures Running(Ticked(t, now)) && !Expired(Ticked(t, now), later)
  {
  }
}
