/**
 * The two execution contexts of `closetlight.c` over one shared state: the
 * compare-A interrupt handler and the `main` polling loop. Each context's
 * step is one atomic transition; an `Event` sequence is an arbitrary
 * interleaving of the two.
 */
module Scheduler {
  import opened Platform
  import opened Fade
  import Sensor
  import Arith

  /**
   * Where the `main` loop is: `Polling` at the `if (!_tick)` test, or
   * `Clearing` after `setLightLevel` has returned and before `_tick = 0`.
   */
  datatype Phase = Polling | Clearing

  /** `_tick`, the ISR's `timerTick`, the fade controller and the loop's position. */
  datatype State = State(tick: uint8, timerTick: int16, ctrl: Controller, phase: Phase)

  /** One step of either context; a main-loop step sees the current `PINB`. */
  datatype Event = Interrupt | Main(pinb: bv8)

  /** The state at power-on, with `DDRB` as left by the setup code. */
  function Start(cfg: Config, ddrb: bv8): (s: State)
    requires cfg.Valid()
    ensures Inv(cfg, s)
    ensures Pending(s) == 0
  {
    State(0, 0, Fade.Initial(cfg, ddrb), Polling)
  }

  /**
   * The invariant of every reachable state: `_tick` is 0 or 1 and is still
   * set while the loop has yet to clear it, `timerTick` lies in
   * `[0, TICKS_MS]`, the step delay is below `FADE_STEP_MS`, and the
   * controller's outputs agree with its fade index.
   */
  predicate Inv(cfg: Config, s: State) {
    && cfg.Valid()
    && s.tick <= 1
    && (s.phase == Clearing ==> s.tick == 1)
    && 0 <= s.timerTick <= cfg.ticksMs
    && s.ctrl.stepDelay < cfg.fadeStepMs
    && Gated(cfg, s.ctrl)
  }

  /** This invocation of the ISR takes the branch that raises `_tick`. */
  predicate IsrRaises(cfg: Config, s: State) {
    !(s.timerTick < cfg.ticksMs)
  }

  /**
   * One invocation of the compare-A ISR. The post-increment compares the old
   * value of `timerTick`, so the flag is raised on the invocation that finds
   * `timerTick == TICKS_MS`, once every `TICKS_MS+1` invocations.
   */
  function Isr(cfg: Config, s: State): (r: State)
    requires s.timerTick < INT16_MAX
    ensures r.ctrl == s.ctrl && r.phase == s.phase
    ensures r.tick == 1 || r.tick == s.tick
    ensures IsrRaises(cfg, s) ==> r.tick == 1 && r.timerTick == 0
    ensures !IsrRaises(cfg, s) ==> r.tick == s.tick && r.timerTick == s.timerTick + 1
    ensures 0 <= s.timerTick <= cfg.ticksMs ==>
      r.timerTick == (s.timerTick + 1) % (cfg.ticksMs + 1)
    ensures 0 <= s.timerTick <= cfg.ticksMs ==>
      (IsrRaises(cfg, s) <==> (s.timerTick + 1) % (cfg.ticksMs + 1) == 0)
  {
    if s.timerTick < cfg.ticksMs then
      s.(timerTick := s.timerTick + 1)
    else
      s.(timerTick := 0, tick := 1)
  }

  /** This main-loop step finds `_tick` set and calls `setLightLevel`. */
  predicate Consumes(s: State, e: Event) {
    e.Main? && s.phase == Polling && s.tick != 0
  }

  /**
   * One atomic step of the `main` loop: at the flag test it does nothing
   * while `_tick` is 0 and otherwise calls `setLightLevel(isDoorOpen())`;
   * the following step clears `_tick`. The loop never touches `timerTick`.
   */
  function MainStep(cfg: Config, s: State, pinb: bv8): (r: State)
    requires cfg.Valid()
    requires s.ctrl.fadePtr < cfg.fadeTableLen
    ensures r.timerTick == s.timerTick
    ensures s.phase == Polling && s.tick == 0 ==> r == s
    ensures s.phase == Polling && s.tick != 0 ==>
      && r.ctrl == SetLightLevel(cfg, s.ctrl, Sensor.IsDoorOpen(pinb, cfg.doorPin))
      && r.tick == s.tick
      && r.phase == Clearing
    ensures s.phase == Clearing ==> r.tick == 0 && r.ctrl == s.ctrl && r.phase == Polling
  {
    match s.phase
    case Polling =>
      if s.tick == 0 then s
      else s.(ctrl := SetLightLevel(cfg, s.ctrl, Sensor.IsDoorOpen(pinb, cfg.doorPin)), phase := Clearing)
    case Clearing =>
      s.(tick := 0, phase := Polling)
  }

  /**
   * One whole iteration of the `while(1)` loop with no interrupt inside it:
   * with `_tick` clear it changes nothing; with `_tick` set it calls
   * `setLightLevel` exactly once, with 1 iff the `DOOR_PIN` bit of `PINB` is
   * set, and leaves `_tick` clear.
   */
  function LoopIteration(cfg: Config, s: State, pinb: bv8): (r: State)
    requires cfg.Valid()
    requires s.ctrl.fadePtr < cfg.fadeTableLen
    requires s.phase == Polling
    ensures r.phase == Polling && r.timerTick == s.timerTick
    ensures s.tick == 0 ==> r == s
    ensures s.tick != 0 ==>
      && r.tick == 0
      && r.ctrl == SetLightLevel(cfg, s.ctrl, if BitSet(pinb, cfg.doorPin) then 1 else 0)
  {
    var s1 := MainStep(cfg, s, pinb);
    if s1.phase == Clearing then MainStep(cfg, s1, pinb) else s1
  }

  /** One event of an interleaving; it preserves the invariant. */
  function Step(cfg: Config, s: State, e: Event): (r: State)
    requires Inv(cfg, s)
    ensures Inv(cfg, r)
    ensures !Consumes(s, e) ==> r.ctrl == s.ctrl
  {
    match e
    case Interrupt => Isr(cfg, s)
    case Main(pinb) => MainStep(cfg, s, pinb)
  }

  /** The state after the interleaving `evs`. */
  function Run(cfg: Config, s: State, evs: seq<Event>): (r: State)
    requires Inv(cfg, s)
    ensures Inv(cfg, r)
    decreases |evs|
  {
    if evs == [] then s else Run(cfg, Step(cfg, s, evs[0]), evs[1..])
  }

  /** The door states `setLightLevel` receives during `evs`, in order. */
  function Readings(cfg: Config, s: State, evs: seq<Event>): seq<uint8>
    requires Inv(cfg, s)
    decreases |evs|
  {
    if evs == [] then []
    else
      (if Consumes(s, evs[0]) then [Sensor.IsDoorOpen(evs[0].pinb, cfg.doorPin)] else [])
      + Readings(cfg, Step(cfg, s, evs[0]), evs[1..])
  }

  /** How many ISR invocations in `evs` raise `_tick`. */
  function Raises(cfg: Config, s: State, evs: seq<Event>): nat
    requires Inv(cfg, s)
    decreases |evs|
  {
    if evs == [] then 0
    else
      (if evs[0].Interrupt? && IsrRaises(cfg, s) then 1 else 0)
      + Raises(cfg, Step(cfg, s, evs[0]), evs[1..])
  }

  /** How many events of `evs` are ISR invocations. */
  function Interrupts(evs: seq<Event>): nat {
    if evs == [] then 0 else (if evs[0].Interrupt? then 1 else 0) + Interrupts(evs[1..])
  }

  /** 1 when a raised `_tick` is waiting at the loop's flag test. */
  function Pending(s: State): nat {
    if s.tick != 0 && s.phase == Polling then 1 else 0
  }

  /**
   * Whatever the interleaving, the controller evolves exactly as if
   * `setLightLevel` had been called with the door states read at the steps
   * that consume a tick; the door at any other moment does not matter.
   */
  lemma {:induction false} RunFeedsController(cfg: Config, s: State, evs: seq<Event>)
    requires Inv(cfg, s)
    ensures Run(cfg, s, evs).ctrl == Feed(cfg, s.ctrl, Readings(cfg, s, evs))
    decreases |evs|
  {
    if evs != [] {
      var s' := Step(cfg, s, evs[0]);
      RunFeedsController(cfg, s', evs[1..]);
      if Consumes(s, evs[0]) {
        var d := Sensor.IsDoorOpen(evs[0].pinb, cfg.doorPin);
        var ds := [d] + Readings(cfg, s', evs[1..]);
        assert ds[0] == d && ds[1..] == Readings(cfg, s', evs[1..]);
      } else {
        assert Readings(cfg, s, evs) == Readings(cfg, s', evs[1..]);
      }
    }
  }

  /**
   * Coalescing: the loop consumes no more ticks than the ISR raises. Each
   * consumed tick was raised by an ISR invocation in `evs` or was already
   * pending at the start; raised ticks that find `_tick` set are lost.
   */
  lemma {:induction false} NoMoreCallsThanRaises(cfg: Config, s: State, evs: seq<Event>)
    requires Inv(cfg, s)
    ensures |Readings(cfg, s, evs)| + Pending(Run(cfg, s, evs)) <= Raises(cfg, s, evs) + Pending(s)
    decreases |evs|
  {
    if evs != [] {
      NoMoreCallsThanRaises(cfg, Step(cfg, s, evs[0]), evs[1..]);
    }
  }

  /**
   * ISR cadence as a count: across any interleaving, the raises of `_tick`
   * times `TICKS_MS+1`, plus the final `timerTick`, add up to the initial
   * `timerTick` plus the number of ISR invocations. The main loop never
   * touches `timerTick`.
   */
  lemma {:induction false} IsrCadenceCount(cfg: Config, s: State, evs: seq<Event>)
    requires Inv(cfg, s)
    ensures Raises(cfg, s, evs) * (cfg.ticksMs + 1) + Run(cfg, s, evs).timerTick == s.timerTick + Interrupts(evs)
    decreases |evs|
  {
    if evs != [] {
      var s' := Step(cfg, s, evs[0]);
      IsrCadenceCount(cfg, s', evs[1..]);
      if evs[0].Interrupt? && IsrRaises(cfg, s) {
        assert (Raises(cfg, s', evs[1..]) + 1) * (cfg.ticksMs + 1)
            == Raises(cfg, s', evs[1..]) * (cfg.ticksMs + 1) + (cfg.ticksMs + 1);
      }
    }
  }

  /**
   * ISR cadence: after `n` ISR invocations, interleaved with anything,
   * `timerTick` is `(timerTick + n) mod (TICKS_MS+1)` and exactly
   * `(timerTick + n) / (TICKS_MS+1)` of them raised `_tick`, one in every
   * `TICKS_MS+1`.
   */
  lemma IsrCadence(cfg: Config, s: State, evs: seq<Event>)
    requires Inv(cfg, s)
    ensures Raises(cfg, s, evs) == (s.timerTick + Interrupts(evs)) / (cfg.ticksMs + 1)
    ensures Run(cfg, s, evs).timerTick == (s.timerTick + Interrupts(evs)) % (cfg.ticksMs + 1)
  {
    IsrCadenceCount(cfg, s, evs);
    Arith.DivModUnique(s.timerTick + Interrupts(evs), cfg.ticksMs + 1, Raises(cfg, s, evs), Run(cfg, s, evs).timerTick);
  }

  /**
   * The fade index moves no faster than the ISR allows: over any
   * interleaving it changes by at most one per `FADE_STEP_MS` consumed ticks,
   * and the consumed ticks are bounded by the raised ones.
   */
  lemma FadeBoundedByRaises(cfg: Config, s: State, evs: seq<Event>)
    requires Inv(cfg, s)
    ensures var moved := Run(cfg, s, evs).ctrl.fadePtr - s.ctrl.fadePtr;
      var bound := (s.ctrl.stepDelay + Raises(cfg, s, evs) + Pending(s)) / cfg.fadeStepMs;
      -bound <= moved <= bound
  {
    var ds := Readings(cfg, s, evs);
    RunFeedsController(cfg, s, evs);
    NoMoreCallsThanRaises(cfg, s, evs);
    IndexMovesAtMostSteps(cfg, s.ctrl, ds);
    Pacing(cfg, s.ctrl, ds);
    Arith.DivMonotone(s.ctrl.stepDelay + |ds|, s.ctrl.stepDelay + Raises(cfg, s, evs) + Pending(s), cfg.fadeStepMs);
  }

  /**
   * Clamping for every interleaving and every door input: the fade index
   * stays in `[0, FADE_TABLE_LEN-1]`, the step delay below `FADE_STEP_MS`,
   * `timerTick` in `[0, TICKS_MS]`, and the output stays gated by the
   * brightness.
   */
  lemma Clamped(cfg: Config, ddrb: bv8, evs: seq<Event>)
    requires cfg.Valid()
    ensures var r := Run(cfg, Start(cfg, ddrb), evs);
      && 0 <= r.ctrl.fadePtr <= cfg.fadeTableLen - 1
      && r.ctrl.stepDelay < cfg.fadeStepMs
      && 0 <= r.timerTick <= cfg.ticksMs
      && r.ctrl.ocr0b == r.ctrl.brightness
      && (BitSet(r.ctrl.ddrb, cfg.pwmOut) <==> r.ctrl.brightness > 0)
  {}

  /**
   * `_tick` is cleared after `setLightLevel` returns, so an ISR invocation
   * that raises `_tick` while the loop is between the call and the clear is
   * lost: the flag ends clear and no further call follows from it.
   */
  lemma TickRaisedDuringStepIsLost(cfg: Config, s: State, pinb: bv8)
    requires Inv(cfg, s)
    requires s.phase == Clearing
    requires IsrRaises(cfg, s)
    ensures MainStep(cfg, Isr(cfg, s), pinb).tick == 0
    ensures Pending(MainStep(cfg, Isr(cfg, s), pinb)) == 0
  {}
}
