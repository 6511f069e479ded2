/**
 * The pulse counter (pwiPulseSensor): counts falling or rising edges seen
 * on an input pin when the main loop polls it, with a debounce window of
 * `lengthMs` after each counted edge during which the pin is not read.
 *
 * The clock reading and the level `digitalRead` returns are parameters.
 */
module Pulse {

  import opened Uint

  /** The Arduino pin levels and interrupt-edge modes. */
  const LOW: u8 := 0
  const HIGH: u8 := 1
  const FALLING: u8 := 2
  const RISING: u8 := 3

  /** What `loopInput` reads and writes. */
  datatype PulseState = PulseState(edge: u8, lengthMs: u8, lastState: u8, impCount: u32, lastMs: u32)

  /** The end of the debounce window, `last_ms + length_ms` in 32-bit
      unsigned arithmetic. */
  function GateEnd(p: PulseState): u32 {
    Add32(p.lastMs, p.lengthMs)
  }

  /** The pin is read only once the clock is past the debounce window. */
  predicate GateOpen(p: PulseState, now: u32) {
    now > GateEnd(p)
  }

  /** The edge test: the configured transition between the previous and
      the current level. Any mode other than FALLING and RISING never matches. */
  predicate IsEdge(edge: u8, level: u8, lastState: u8) {
    || (edge == FALLING && level == LOW && lastState == HIGH)
    || (edge == RISING && level == HIGH && lastState == LOW)
  }

  /** One `loopInput` poll at clock `now`, the pin reading `level`: whether
      a pulse was counted, and the new state. */
  function Sample(p: PulseState, now: u32, level: u8): (r: (bool, PulseState))
    ensures !GateOpen(p, now) ==> r == (false, p)
    ensures GateOpen(p, now) ==> r.1.lastState == level
    ensures r.0 <==> GateOpen(p, now) && IsEdge(p.edge, level, p.lastState)
    ensures r.0 <==> r.1.impCount != p.impCount
    ensures r.0 ==> r.1.impCount == (p.impCount + 1) % TWO_TO_THE_32 && r.1.lastMs == now
    ensures !r.0 ==> r.1.impCount == p.impCount && r.1.lastMs == p.lastMs
    ensures r.1.edge == p.edge && r.1.lengthMs == p.lengthMs
  {
    if !GateOpen(p, now) then (false, p)
    else
      var counted := IsEdge(p.edge, level, p.lastState);
      var p' := if counted then p.(impCount := Add32(p.impCount, 1), lastMs := now) else p;
      (counted, p'.(lastState := level))
  }

  /** Polling at the (clock, level) readings `samples`, in order: the final
      state and how many pulses were counted. The counter wraps modulo 2^32. */
  function Polls(p: PulseState, samples: seq<(u32, u8)>): (r: (PulseState, nat))
    ensures r.1 <= |samples|
    ensures r.0.impCount == (p.impCount + r.1) % TWO_TO_THE_32
    ensures r.0.edge == p.edge && r.0.lengthMs == p.lengthMs
    decreases |samples|
  {
    if samples == [] then (p, 0)
    else
      var step := Sample(p, samples[0].0, samples[0].1);
      var rest := Polls(step.1, samples[1..]);
      (rest.0, rest.1 + if step.0 then 1 else 0)
  }

  /** During the debounce window nothing changes, however often the pin is polled. */
  lemma {:induction false} DebounceWindowSilent(p: PulseState, samples: seq<(u32, u8)>)
    requires forall j :: 0 <= j < |samples| ==> samples[j].0 <= GateEnd(p)
    ensures Polls(p, samples) == (p, 0)
    decreases |samples|
  {
    if samples != [] {
      DebounceWindowSilent(p, samples[1..]);
    }
  }

  /** A mode other than FALLING or RISING never counts a pulse. */
  lemma {:induction false} OtherEdgeNeverCounts(p: PulseState, samples: seq<(u32, u8)>)
    requires p.edge != FALLING && p.edge != RISING
    ensures Polls(p, samples).1 == 0
    ensures Polls(p, samples).0.impCount == p.impCount
    decreases |samples|
  {
    if samples != [] {
      OtherEdgeNeverCounts(Sample(p, samples[0].0, samples[0].1).1, samples[1..]);
    }
  }

  /** Debouncing: after a pulse counted at `now`, polls up to
      `now + lengthMs` count nothing and leave the state as it is. */
  lemma DebounceSpacing(p: PulseState, now: u32, level: u8, samples: seq<(u32, u8)>)
    requires Sample(p, now, level).0
    requires forall j :: 0 <= j < |samples| ==> samples[j].0 <= Add32(now, p.lengthMs)
    ensures Polls(Sample(p, now, level).1, samples) == (Sample(p, now, level).1, 0)
  {
    DebounceWindowSilent(Sample(p, now, level).1, samples);
  }

  /** The poll right after a counted pulse never counts another: the level
      it recorded is the far side of the edge, so the opposite transition
      has to be seen first. */
  lemma NoTwoPulsesInARow(p: PulseState, now: u32, level: u8, later: u32, level': u8)
    requires Sample(p, now, level).0
    ensures !Sample(Sample(p, now, level).1, later, level').0
  {
  }

  /** A level equal to the previous one is never a pulse: only transitions count. */
  lemma SteadyLevelNeverCounts(p: PulseState, now: u32)
    ensures !Sample(p, now, p.lastState).0
  {
  }

  /** A falling-edge counter with a 20 ms window, polled at 100..131 ms: the
      bounce at 104-106 ms falls inside the window opened at 101 ms, so the
      six readings count two pulses. */
  lemma BouncyFallingEdges()
    ensures
      var p := PulseState(FALLING, 20, HIGH, 0, 0);
      Polls(p, [(100, HIGH), (101, LOW), (104, HIGH), (106, LOW), (128, HIGH), (131, LOW)]).1 == 2
  {
    var p0 := PulseState(FALLING, 20, HIGH, 0, 0);
    var samples := [(100, HIGH), (101, LOW), (104, HIGH), (106, LOW), (128, HIGH), (131, LOW)];
    var p1 := PulseState(FALLING, 20, LOW, 1, 101);
    var p2 := PulseState(FALLING, 20, HIGH, 1, 101);
    assert Sample(p0, 100, HIGH) == (false, p0);
    assert Sample(p0, 101, LOW) == (true, p1);
    assert Polls(p1, samples[2..]) == Polls(p1, samples[4..]) by {
      assert GateEnd(p1) == 121;
      assert Sample(p1, 104, HIGH) == (false, p1);
      assert Sample(p1, 106, LOW) == (false, p1);
    }
    assert Sample(p1, 128, HIGH) == (false, p2);
    assert Sample(p2, 131, LOW).0;
    assert Polls(p2, samples[5..]).1 == 1;
  }

  // ---------------------------------------------------------------------
  // Finding: the debounce gate compares clock readings, not elapsed time.
  // ---------------------------------------------------------------------

  /** As written, the gate compares `now` with `last_ms + length_ms`, a sum
      that wraps. A pulse counted 30 ms before the clock rolls over keeps the
      gate shut at 130 ms after it (and for about 49.7 days); a pulse counted
      6 ms before the roll-over opens the gate 1 ms later. */
  lemma GateAcrossRollOver()
    ensures var p := PulseState(FALLING, 20, HIGH, 0, 0xFFFF_FFE2);
            Sub32(100, p.lastMs) == 130 && !GateOpen(p, 100) && Sample(p, 100, LOW) == (false, p)
    ensures var p := PulseState(FALLING, 20, LOW, 0, 0xFFFF_FFFA);
            Sub32(0xFFFF_FFFB, p.lastMs) == 1 && GateOpen(p, 0xFFFF_FFFB)
  {
  }

  /** The debounce gate on elapsed time, wrap-safe like the timers'. */
  predicate ElapsedGateOpen(p: PulseState, now: u32) {
    Sub32(now, p.lastMs) > p.lengthMs
  }

  /** `loopInput` with the gate on elapsed time: the pin is read exactly
      when more than `lengthMs` has passed since the last counted pulse,
      wherever the clock wraps; the rest is as written. */
  function SampleElapsed(p: PulseState, now: u32, level: u8): (r: (bool, PulseState))
    ensures !ElapsedGateOpen(p, now) ==> r == (false, p)
    ensures ElapsedGateOpen(p, now) ==> r.1.lastState == level
    ensures r.0 <==> ElapsedGateOpen(p, now) && IsEdge(p.edge, level, p.lastState)
    ensures r.0 ==> r.1.impCount == (p.impCount + 1) % TWO_TO_THE_32 && r.1.lastMs == now
    ensures !r.0 ==> r.1.impCount == p.impCount && r.1.lastMs == p.lastMs
    ensures r.1.edge == p.edge && r.1.lengthMs == p.lengthMs
    ensures forall k: u32 {:trigger Add32(p.lastMs, k)} ::
      ElapsedGateOpen(p, Add32(p.lastMs, k)) <==> k > p.lengthMs
  {
    forall k: u32 ensures Sub32(Add32(p.lastMs, k), p.lastMs) == k {
      SubAfterAdd(p.lastMs, k);
    }
    if !ElapsedGateOpen(p, now) then (false, p)
    else
      var counted := IsEdge(p.edge, level, p.lastState);
      var p' := if counted then p.(impCount := Add32(p.impCount, 1), lastMs := now) else p;
      (counted, p'.(lastState := level))
  }

  /** With the elapsed-time gate, the two readings above behave as intended:
      the first reads the pin and counts the edge, the second does not. */
  lemma ElapsedGateAcrossRollOver()
    ensures SampleElapsed(PulseState(FALLING, 20, HIGH, 0, 0xFFFF_FFE2), 100, LOW).0
    ensures !ElapsedGateOpen(PulseState(FALLING, 20, LOW, 0, 0xFFFF_FFFA), 0xFFFF_FFFB)
  {
  }

  /** The pulse sensor's own fields, and the id its constructor stores.
      The inherited sensor part (timers, callbacks) is not included: the
      default sensor constructor it relies on is only declared. */
  class PulseSensor {
    var id: u8
    var inputPin: u8
    var edge: u8
    var lengthMs: u8
    var lastState: u8
    var impCount: u32
    var lastMs: u32
    /** How many times the input pin has been read. */
    ghost var pinReads: nat

    ghost function State(): PulseState
      reads this
    {
      PulseState(edge, lengthMs, lastState, impCount, lastMs)
    }

    /** The default constructor: only `init`, so `lengthMs` keeps whatever
        value it had (it is never initialised). */
    constructor ()
      ensures inputPin == 0 && edge == 0 && lastState == 0 && impCount == 0 && lastMs == 0
      ensures pinReads == 0
    {
      new;
      Init();
      pinReads := 0;
    }

    /** The constructor with id, input pin and edge mode. */
    constructor WithPin(id: u8, inputPin: u8, edge: u8)
      ensures this.id == id && this.inputPin == inputPin && this.edge == edge
      ensures lastState == 0 && impCount == 0 && lastMs == 0
      ensures pinReads == 0
    {
      new;
      Init();
      this.id := id;
      SetInputPin(inputPin);
      SetEdge(edge);
      pinReads := 0;
    }

    /** `init`: clears everything but `lengthMs`. */
    method Init()
      modifies this`inputPin, this`edge, this`lastState, this`impCount, this`lastMs
      ensures inputPin == 0 && edge == 0 && lastState == 0 && impCount == 0 && lastMs == 0
    {
      inputPin := 0;
      edge := 0;
      lastState := 0;
      impCount := 0;
      lastMs := 0;
    }

    /** `getEdge`. */
    method GetEdge() returns (r: u8)
      ensures r == edge
    {
      r := edge;
    }

    /** `getInputPin`. */
    method GetInputPin() returns (r: u8)
      ensures r == inputPin
    {
      r := inputPin;
    }

    /** `getPulsesCount`. */
    method GetPulsesCount() returns (r: u32)
      ensures r == impCount
    {
      r := impCount;
    }

    /** `setEdge`. */
    method SetEdge(e: u8)
      modifies this`edge
      ensures edge == e
    {
      edge := e;
    }

    /** `setInputPin`, without the pin configuration. */
    method SetInputPin(pin: u8)
      modifies this`inputPin
      ensures inputPin == pin
    {
      inputPin := pin;
    }

    /** `setPulseLength`. */
    method SetPulseLength(len: u8)
      modifies this`lengthMs
      ensures lengthMs == len
    {
      lengthMs := len;
    }

    /** `loopInput` at clock `now`; `level` is what the pin reads, and it is
        read only when the debounce window is over. */
    method LoopInput(now: u32, level: u8) returns (isEdge: bool)
      modifies this`lastState, this`impCount, this`lastMs, this`pinReads
      ensures (isEdge, State()) == Sample(old(State()), now, level)
      ensures pinReads == old(pinReads) + (if GateOpen(old(State()), now) then 1 else 0)
    {
      isEdge := false;
      var startMs := Add32(lastMs, lengthMs);
      if now > startMs {
        var state := level;
        pinReads := pinReads + 1;
        isEdge := (edge == FALLING && state == LOW && lastState == HIGH)
          || (edge == RISING && state == HIGH && lastState == LOW);
        if isEdge {
          impCount := Add32(impCount, 1);
          lastMs := now;
        }
        lastState := state;
      }
    }
  }
}
