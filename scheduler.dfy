/**
 * The software timers (pwiTimer), their fixed-capacity registry, and the
 * sensor (pwiSensor) that drives two of them.
 *
 * Timer and sensor live in one module because they refer to each other: a
 * sensor owns its two timers, and a timer's callback may be one of the
 * sensor's two static callbacks bound to that sensor.
 *
 * The clock is not read here: every operation that calls `millis()` in the
 * source takes the reading `now` as a parameter. The measure callback is
 * abstract: what it returns is a parameter (`changed`), and the send
 * callback is counted in the ghost field `sends`.
 */
module Scheduler {

  import opened Uint
  import opened TimerSpec
  import SensorSpec
  import opened Pointers

  /** `PWITIMER_MAX`: the capacity of the registry. */
  const PWITIMER_MAX: nat := 15

  /** The callback of a timer: none, a user function, or one of the sensor's
      static callbacks (`OnMinPeriodCb`, `OnMaxPeriodCb`) bound to its sensor. */
  datatype TimerCb = NoCb | UserCb(fn: nat) | SensorMin(sensor: Sensor) | SensorMax(sensor: Sensor)

  /** The labels the sensor gives its timers (the id suffix is not modelled). */
  const MIN_TIMER_LABEL: string := "MinTimer #"
  const MAX_TIMER_LABEL: string := "MaxTimer #"

  class Timer {
    var name: string
    var delayMs: Ms
    var once: bool
    var cb: TimerCb
    var userData: object?
    var startMs: Ms
    /** How many times this timer has invoked its callback. */
    ghost var calls: nat
    /** How many times `objLoop` has run on this timer. */
    ghost var ticks: nat

    ghost function State(): TimerState
      reads this
    {
      TimerState(delayMs, once, startMs)
    }

    /** A sensor callback is only ever installed, by the sensor itself, on
        the matching timer of that sensor. */
    ghost predicate CbBound()
      reads this`cb
    {
      match cb
      case SensorMin(s) => s.minTimer == this && s.Valid()
      case SensorMax(s) => s.maxTimer == this && s.Valid()
      case _ => true
    }

    /** The sensor the callback acts on, if any. */
    ghost function CbSensors(): set<Sensor>
      reads this`cb
    {
      match cb
      case SensorMin(s) => {s}
      case SensorMax(s) => {s}
      case _ => {}
    }

    /** The timers the callback may restart. */
    ghost function CbTimers(): set<Timer>
      reads this`cb
    {
      match cb
      case SensorMin(s) => {s.minTimer, s.maxTimer}
      case SensorMax(s) => {s.minTimer, s.maxTimer}
      case _ => {}
    }

    /** The constructor: a stopped one-shot timer without delay or callback,
        appended to the registry while it has room. */
    constructor (reg: Registry)
      requires reg.Valid()
      modifies reg, reg.timers
      ensures State() == TimerState(0, true, 0)
      ensures cb == NoCb && userData == null && name == "" && calls == 0 && ticks == 0
      ensures reg.Valid() && reg.trace == old(reg.trace)
      ensures reg.Entries() == Registry.Appended(old(reg.Entries()), this)
    {
      delayMs := 0;
      once := true;
      cb := NoCb;
      userData := null;
      startMs := 0;
      name := "";
      calls, ticks := 0, 0;
      new;
      if reg.count == 0 {
        forall i | 0 <= i < reg.timers.Length {
          reg.timers[i] := null;
        }
      }
      if reg.count < PWITIMER_MAX {
        reg.timers[reg.count] := this;
        reg.count := reg.count + 1;
      }
    }

    /** `getDelay`. */
    method GetDelay() returns (d: Ms)
      ensures d == State().delayMs
    {
      d := delayMs;
    }

    /** `getRemaining`, read at clock `now`. */
    method GetRemaining(now: Ms) returns (remaining: Ms)
      ensures remaining == Remaining(State(), now)
      ensures delayMs == 0 ==> remaining == 0
      ensures Running(State()) && !Expired(State(), now) ==> remaining + Elapsed(State(), now) == delayMs
    {
      var duration := Sub32(now, startMs);
      remaining := 0;
      if delayMs != 0 {
        remaining := Sub32(delayMs, duration);
      }
    }

    /** `isStarted`. */
    method IsStarted() returns (started: bool)
      ensures started <==> startMs != 0
      ensures started == Running(State())
    {
      started := startMs > 0;
    }

    /** `restart`: the same as `start`. */
    method Restart(now: Ms)
      modifies this`startMs
      ensures State() == Started(old(State()), now)
    {
      ObjStart(now, true);
    }

    /** `start`. */
    method Start(now: Ms)
      modifies this`startMs
      ensures State() == Started(old(State()), now)
      ensures old(delayMs) != 0 ==> Running(State()) && startMs == StartStamp(now)
      ensures old(delayMs) == 0 ==> startMs == old(startMs)
    {
      ObjStart(now, false);
    }

    /** `stop`. */
    method Stop()
      modifies this`startMs
      ensures State() == Stopped(old(State()))
      ensures !Running(State())
    {
      startMs := 0;
    }

    /** `setDelay`: a zero delay stops the timer, any other restarts it. */
    method SetDelay(d: Ms, now: Ms)
      modifies this`delayMs, this`startMs
      ensures State() == WithDelay(old(State()), d, now)
    {
      delayMs := d;
      if d == 0 {
        Stop();
      } else {
        Restart(now);
      }
    }

    /** `setup`: replaces the configuration, keeps the name when the new one
        is empty, and never touches the running state. */
    method Setup(newLabel: string, d: Ms, newOnce: bool, newCb: TimerCb, newUserData: object?)
      requires newCb.SensorMin? ==> newCb.sensor.minTimer == this && newCb.sensor.Valid()
      requires newCb.SensorMax? ==> newCb.sensor.maxTimer == this && newCb.sensor.Valid()
      modifies this`name, this`delayMs, this`once, this`cb, this`userData
      ensures name == (if |newLabel| > 0 then newLabel else old(name))
      ensures State() == TimerState(d, newOnce, old(startMs))
      ensures cb == newCb && userData == newUserData && CbBound()
    {
      if |newLabel| > 0 {
        name := newLabel;
      }
      delayMs := d;
      once := newOnce;
      cb := newCb;
      userData := newUserData;
    }

    /** `objLoop`: when running and expired, invoke the callback, then stop
        (one-shot) or restart (repeating). `changed` is what the sensor's
        measure callback reports, should this timer's callback measure. */
    method ObjLoop(now: Ms, changed: bool)
      requires CbBound()
      modifies this`startMs, this`calls, this`ticks, CbSensors()`sends, CbTimers()`startMs
      ensures ticks == old(ticks) + 1
      ensures calls == old(calls) + (if old(Expired(State(), now)) && cb != NoCb then 1 else 0)
      ensures State() == Ticked(old(State()), now)
      ensures cb.SensorMin? ==>
        cb.sensor.Abstract() == SensorSpec.CadenceTick(old(cb.sensor.Abstract()), now, changed)
      ensures cb.SensorMax? ==>
        cb.sensor.Abstract() == SensorSpec.HeartbeatTick(old(cb.sensor.Abstract()), now)
    {
      ticks := ticks + 1;
      if startMs > 0 {
        var duration := Sub32(now, startMs);
        if duration >= delayMs {
          if cb != NoCb {
            calls := calls + 1;
          }
          match cb {
            case NoCb =>
            case UserCb(_) =>
            case SensorMin(s) => s.OnMinPeriodCb(now, changed);
            case SensorMax(s) => s.OnMaxPeriodCb(now);
          }
          if once {
            Stop();
          } else {
            Restart(now);
          }
        }
      }
    }

    /** `objStart`: `restart` only says which public method asked. */
    method ObjStart(now: Ms, restart: bool)
      modifies this`startMs
      ensures State() == Started(old(State()), now)
    {
      if delayMs != 0 {
        startMs := now;
        if startMs == 0 {
          startMs := startMs + 1;
        }
      }
    }
  }

  /** The registry of all constructed timers (`st_timers`, `st_count`),
      an explicit object rather than file-level statics. */
  class Registry {
    const timers: array<Timer?>
    var count: nat
    /** The timers `Loop` has ticked, in call order. */
    ghost var trace: seq<Timer?>

    ghost predicate Valid()
      reads this, timers
    {
      && timers.Length == PWITIMER_MAX
      && count <= PWITIMER_MAX
      && (forall i :: 0 <= i < count ==> timers[i] != null)
      && (forall i :: count <= i < PWITIMER_MAX ==> timers[i] == null)
      && (forall i, j :: 0 <= i < j < count ==> timers[i] != timers[j])
    }

    /** The registered timers, in registration order. */
    ghost function Entries(): seq<Timer?>
      reads this, timers
      requires Valid()
    {
      timers[..count]
    }

    /** What registering `t` does to the entries: appended while there is room. */
    static ghost function Appended(entries: seq<Timer?>, t: Timer): (r: seq<Timer?>)
      requires |entries| <= PWITIMER_MAX
      ensures |entries| <= |r| <= PWITIMER_MAX
      ensures r[..|entries|] == entries
      ensures t in r <==> t in entries || |entries| < PWITIMER_MAX
    {
      if |entries| < PWITIMER_MAX then entries + [t] else entries
    }

    /** `timers` and `sensors` hold every registered timer and everything
        a registered timer's callback may touch. */
    ghost predicate Covers(timers': set<Timer>, sensors: set<Sensor>)
      reads this, timers, timers[..]
      requires Valid()
    {
      forall i :: 0 <= i < count ==>
        timers[i] in timers' && timers[i].CbTimers() <= timers' && timers[i].CbSensors() <= sensors
    }

    /** No registered timer's callback can restart `u`. */
    ghost predicate NotRestartable(u: Timer)
      reads this, timers, timers[..]
      requires Valid()
    {
      forall i :: 0 <= i < count ==> u !in timers[i].CbTimers()
    }

    ghost predicate AllBound()
      reads this, timers, timers[..]
      requires Valid()
    {
      forall i :: 0 <= i < count ==> timers[i] != null && timers[i].CbBound()
    }

    constructor ()
      ensures Valid() && fresh(timers) && count == 0 && trace == []
    {
      timers := new Timer?[PWITIMER_MAX](_ => null);
      count := 0;
      trace := [];
    }

    /** `Loop`: `objLoop` on each registered timer, once, in registration
        order. `measured(i)` is what a measure made by the i-th timer's
        callback reports. */
    method Loop(now: Ms, measured: nat -> bool, ghost world: set<Timer>, ghost sensors: set<Sensor>)
      requires Valid() && AllBound() && Covers(world, sensors)
      modifies this`trace, world`ticks, world`calls, world`startMs, sensors`sends
      ensures trace == old(trace) + old(Entries())
      ensures forall i :: 0 <= i < count ==> timers[i].ticks == old(timers[i].ticks) + 1
      ensures forall i :: 0 <= i < count && old(NotRestartable(timers[i])) ==>
        timers[i].State() == Ticked(old(timers[i].State()), now)
    {
      var i := 0;
      while i < count
        invariant 0 <= i <= count
        invariant trace == old(trace) + timers[..i]
        invariant forall j :: 0 <= j < count ==> timers[j].ticks == old(timers[j].ticks) + (if j < i then 1 else 0)
        invariant forall j :: 0 <= j < count && old(NotRestartable(timers[j])) ==>
          timers[j].State() == (if j < i then Ticked(old(timers[j].State()), now) else old(timers[j].State()))
      {
        var t := timers[i];
        assert t.cb == old(t.cb);
        Step(t, now, measured(i));
        i := i + 1;
      }
    }

    /** One pass of `Loop`'s body: `objLoop` on the registered timer `t`. */
    method Step(t: Timer, now: Ms, changed: bool)
      requires t.CbBound()
      modifies this`trace, t`ticks, t`calls, t`startMs, t.CbTimers()`startMs, t.CbSensors()`sends
      ensures trace == old(trace) + [t]
      ensures t.ticks == old(t.ticks) + 1
      ensures t.State() == Ticked(old(t.State()), now)
    {
      trace := trace + [t];
      t.ObjLoop(now, changed);
    }
  }

  class Sensor {
    var id: u8
    var pin: u8
    var sensorType: u8
    var sendCb: FnPtr
    var measureCb: FnPtr
    var userData: object?
    const minTimer: Timer
    const maxTimer: Timer
    /** How many times the send callback has run. */
    ghost var sends: nat

    ghost predicate Valid() {
      minTimer != maxTimer
    }

    ghost function Abstract(): SensorSpec.SensorState
      reads this, minTimer, maxTimer
    {
      SensorSpec.SensorState(minTimer.State(), maxTimer.State(), measureCb != NullFn, sendCb != NullFn, sends)
    }

    /** The constructor: the member timers are constructed (and so
        registered) first, in declaration order, then `init`, then the id
        and pin are stored. */
    constructor (reg: Registry, id: u8, pin: u8)
      requires reg.Valid()
      modifies reg, reg.timers
      ensures Valid() && fresh(minTimer) && fresh(maxTimer)
      ensures this.id == id && this.pin == pin && sensorType == 0
      ensures sendCb == NullFn && measureCb == NullFn && userData == null && sends == 0
      ensures minTimer.State() == TimerState(0, true, 0) && minTimer.cb == NoCb
      ensures maxTimer.State() == TimerState(0, true, 0) && maxTimer.cb == NoCb
      ensures reg.Valid() && reg.trace == old(reg.trace)
      ensures reg.Entries() == Registry.Appended(Registry.Appended(old(reg.Entries()), maxTimer), minTimer)
    {
      maxTimer := new Timer(reg);
      minTimer := new Timer(reg);
      new;
      Init();
      this.id := id;
      this.pin := pin;
    }

    /** `init`. */
    method Init()
      modifies this`id, this`pin, this`sensorType, this`sendCb, this`measureCb, this`userData, this`sends
      ensures id == 0 && pin == 0 && sensorType == 0
      ensures sendCb == NullFn && measureCb == NullFn && userData == null && sends == 0
    {
      id := 0;
      pin := 0;
      sensorType := 0;
      sendCb := NullFn;
      measureCb := NullFn;
      userData := null;
      sends := 0;
    }

    /** `getId`. */
    method GetId() returns (r: u8)
      ensures r == id
    {
      r := id;
    }

    /** `getPin`. */
    method GetPin() returns (r: u8)
      ensures r == pin
    {
      r := pin;
    }

    /** `send`: with a send callback, invoke it once and restart the min timer. */
    method Send(now: Ms)
      requires Valid()
      modifies this`sends, minTimer`startMs
      ensures Abstract() == SensorSpec.Send(old(Abstract()), now)
    {
      if sendCb != NullFn {
        sends := sends + 1;
        minTimer.Restart(now);
      }
    }

    /** `measureAndSend`: `changed` is what the measure callback returns. */
    method MeasureAndSend(force: bool, changed: bool, now: Ms)
      requires Valid()
      modifies this`sends, minTimer`startMs, maxTimer`startMs
      ensures Abstract() == SensorSpec.MeasureAndSend(old(Abstract()), force, changed, now)
    {
      if measureCb != NullFn {
        if changed || force {
          Send(now);
          maxTimer.Restart(now);
        }
      }
    }

    /** `setMaxPeriod`: on success the max timer calls `OnMaxPeriodCb` on this sensor. */
    method SetMaxPeriod(d: Ms, now: Ms) returns (status: SensorSpec.Status)
      requires Valid()
      modifies maxTimer`name, maxTimer`delayMs, maxTimer`once, maxTimer`cb, maxTimer`userData, maxTimer`startMs
      ensures (status, Abstract()) == SensorSpec.SetMaxPeriod(old(Abstract()), d, now)
      ensures status == SensorSpec.Ok ==> maxTimer.cb == SensorMax(this) && maxTimer.userData == this
      ensures status == SensorSpec.Ok ==> maxTimer.name == MAX_TIMER_LABEL
      ensures status != SensorSpec.Ok ==> unchanged(maxTimer)
      ensures maxTimer.CbBound() || unchanged(maxTimer)
    {
      var minPeriod := minTimer.GetDelay();
      if d != 0 && d < minPeriod {
        return SensorSpec.Err01;
      }
      maxTimer.Setup(MAX_TIMER_LABEL, d, false, SensorMax(this), this);
      maxTimer.Start(now);
      return SensorSpec.Ok;
    }

    /** `setMinPeriod`: on success the min timer calls `OnMinPeriodCb` on this sensor. */
    method SetMinPeriod(d: Ms, now: Ms) returns (status: SensorSpec.Status)
      requires Valid()
      modifies minTimer`name, minTimer`delayMs, minTimer`once, minTimer`cb, minTimer`userData, minTimer`startMs
      ensures (status, Abstract()) == SensorSpec.SetMinPeriod(old(Abstract()), d, now)
      ensures status == SensorSpec.Ok ==> minTimer.cb == SensorMin(this) && minTimer.userData == this
      ensures status == SensorSpec.Ok ==> minTimer.name == MIN_TIMER_LABEL
      ensures status != SensorSpec.Ok ==> unchanged(minTimer)
      ensures minTimer.CbBound() || unchanged(minTimer)
    {
      var maxPeriod := maxTimer.GetDelay();
      if maxPeriod != 0 && maxPeriod < d {
        return SensorSpec.Err02;
      }
      minTimer.Setup(MIN_TIMER_LABEL, d, false, SensorMin(this), this);
      minTimer.Start(now);
      return SensorSpec.Ok;
    }

    /** `setup`: both periods (status codes ignored), then the callbacks. */
    method Setup(minPeriod: Ms, maxPeriod: Ms, newMeasureCb: FnPtr, newSendCb: FnPtr, newUserData: object?, now: Ms)
      requires Valid()
      modifies this`measureCb, this`sendCb, this`userData
      modifies minTimer`name, minTimer`delayMs, minTimer`once, minTimer`cb, minTimer`userData, minTimer`startMs
      modifies maxTimer`name, maxTimer`delayMs, maxTimer`once, maxTimer`cb, maxTimer`userData, maxTimer`startMs
      ensures Abstract() == SensorSpec.Setup(old(Abstract()), minPeriod, maxPeriod, newMeasureCb != NullFn, newSendCb != NullFn, now)
      ensures measureCb == newMeasureCb && sendCb == newSendCb && userData == newUserData
      ensures minTimer.cb == SensorMin(this) || minTimer.cb == old(minTimer.cb)
      ensures maxTimer.cb == SensorMax(this) || maxTimer.cb == old(maxTimer.cb)
      ensures old(minTimer.CbBound()) ==> minTimer.CbBound()
      ensures old(maxTimer.CbBound()) ==> maxTimer.CbBound()
    {
      var _ := SetMinPeriod(minPeriod, now);
      var _ := SetMaxPeriod(maxPeriod, now);
      measureCb := newMeasureCb;
      sendCb := newSendCb;
      userData := newUserData;
    }

    /** `OnMaxPeriodCb`, the heartbeat: send unconditionally. */
    method OnMaxPeriodCb(now: Ms)
      requires Valid()
      modifies this`sends, minTimer`startMs
      ensures Abstract() == SensorSpec.Send(old(Abstract()), now)
    {
      Send(now);
    }

    /** `OnMinPeriodCb`, the cadence: measure, and send if it changed. */
    method OnMinPeriodCb(now: Ms, changed: bool)
      requires Valid()
      modifies this`sends, minTimer`startMs, maxTimer`startMs
      ensures Abstract() == SensorSpec.MeasureAndSend(old(Abstract()), false, changed, now)
    {
      MeasureAndSend(false, changed, now);
    }
  }
}
