/**
 * `setLightLevel`: the fade controller. Its three statics and the two
 * registers it writes form one immutable record; one call is one function
 * application.
 */
module Fade {
  import opened Platform
  import Arith

  /** The statics of `setLightLevel` together with the `DDRB` and `OCR0B` registers. */
  datatype Controller = Controller(
    stepDelay: uint8,
    fadePtr: uint8,
    brightness: uint8,
    ddrb: bv8,
    ocr0b: uint8)

  function Min(a: int, b: int): int { if a <= b then a else b }
  function Max(a: int, b: int): int { if a >= b then a else b }

  /**
   * The controller after power-on and `init`: the statics are zero,
   * `configurePWM` has set `OCR0B` to 0 and cleared the `PWM_OUT` direction
   * bit; the other bits of `DDRB` are whatever the setup code left there.
   */
  function Initial(cfg: Config, ddrb: bv8): (c: Controller)
    requires cfg.Valid()
    ensures Gated(cfg, c)
    ensures c.stepDelay < cfg.fadeStepMs
  {
    Controller(0, 0, 0, ClearBit(ddrb, cfg.pwmOut), 0)
  }

  /**
   * The output is consistent with the fade index: `OCR0B` holds `brightness`,
   * the `PWM_OUT` pin is driven exactly when `brightness` is nonzero, and
   * `brightness` is the table entry at `fadePtr` (or still the power-on 0
   * before the first fade step).
   */
  predicate Gated(cfg: Config, c: Controller)
    requires cfg.Valid()
  {
    && c.fadePtr < cfg.fadeTableLen
    && c.ocr0b == c.brightness
    && (BitSet(c.ddrb, cfg.pwmOut) <==> c.brightness > 0)
    && (c.brightness == cfg.fadeTable[c.fadePtr] || (c.fadePtr == 0 && c.brightness == 0))
  }

  /** The outputs and the fade index are those of `c`. */
  predicate SameOutputs(c: Controller, d: Controller) {
    c.fadePtr == d.fadePtr && c.brightness == d.brightness && c.ddrb == d.ddrb && c.ocr0b == d.ocr0b
  }

  /** This call of `setLightLevel` gets past the `++stepDelay < FADE_STEP_MS` guard. */
  predicate StepDue(cfg: Config, c: Controller) {
    Increment(c.stepDelay) >= cfg.fadeStepMs
  }

  /**
   * The fade index after one fade step: one entry up while the door reads
   * open, one entry down while it reads closed, clamped to the table.
   */
  function NextIndex(cfg: Config, fadePtr: uint8, doorState: uint8): (p: uint8)
    requires cfg.Valid()
    requires fadePtr < cfg.fadeTableLen
    ensures p < cfg.fadeTableLen
    ensures doorState != 0 ==> p == Min(fadePtr + 1, cfg.fadeTableLen - 1)
    ensures doorState == 0 ==> p == Max(fadePtr - 1, 0)
  {
    if doorState != 0 then
      (if fadePtr < cfg.fadeTableLen - 1 then fadePtr + 1 else fadePtr)
    else
      (if fadePtr > 0 then fadePtr - 1 else fadePtr)
  }

  /**
   * The outputs for fade index `ptr`: the table entry becomes `brightness` and
   * `OCR0B`, and the `PWM_OUT` direction bit is set exactly when it is
   * nonzero; no other bit of `DDRB` changes.
   */
  function Drive(cfg: Config, ddrb: bv8, ptr: uint8): (r: Controller)
    requires cfg.Valid()
    requires ptr < cfg.fadeTableLen
    ensures r.stepDelay == 0 && r.fadePtr == ptr
    ensures r.brightness == cfg.fadeTable[ptr]
    ensures r.ocr0b == r.brightness
    ensures BitSet(r.ddrb, cfg.pwmOut) <==> r.brightness > 0
    ensures OtherBitsEqual(ddrb, r.ddrb, cfg.pwmOut)
    ensures Gated(cfg, r)
  {
    var level := cfg.fadeTable[ptr];
    var reg := if level > 0 then SetBit(ddrb, cfg.pwmOut) else ClearBit(ddrb, cfg.pwmOut);
    Controller(0, ptr, level, reg, level)
  }

  /**
   * One call of `setLightLevel(doorState)`. The pre-increment of the 8-bit
   * `stepDelay` wraps modulo 256; under the pacing invariant
   * `stepDelay < FADE_STEP_MS` it never does.
   */
  function SetLightLevel(cfg: Config, c: Controller, doorState: uint8): (r: Controller)
    requires cfg.Valid()
    requires c.fadePtr < cfg.fadeTableLen
    ensures r.fadePtr < cfg.fadeTableLen
    ensures c.stepDelay < cfg.fadeStepMs ==> r.stepDelay < cfg.fadeStepMs
    ensures c.stepDelay < cfg.fadeStepMs ==> (StepDue(cfg, c) <==> c.stepDelay == cfg.fadeStepMs - 1)
    // an early return moves only the step delay
    ensures !StepDue(cfg, c) ==> r.stepDelay == Increment(c.stepDelay) && SameOutputs(c, r)
    // a fade step moves the index by one, clamped, and drives the output from the table
    ensures StepDue(cfg, c) ==>
      && r.stepDelay == 0
      && r.fadePtr == (if doorState != 0 then Min(c.fadePtr + 1, cfg.fadeTableLen - 1) else Max(c.fadePtr - 1, 0))
      && r.brightness == cfg.fadeTable[r.fadePtr]
      && r.ocr0b == r.brightness
      && (BitSet(r.ddrb, cfg.pwmOut) <==> r.brightness > 0)
      && OtherBitsEqual(c.ddrb, r.ddrb, cfg.pwmOut)
    ensures Gated(cfg, c) ==> Gated(cfg, r)
  {
    var delay := Increment(c.stepDelay);
    if delay < cfg.fadeStepMs then
      c.(stepDelay := delay)
    else
      Drive(cfg, c.ddrb, NextIndex(cfg, c.fadePtr, doorState))
  }

  /** Successive calls of `setLightLevel` with the door states `ds`, in order. */
  function Feed(cfg: Config, c: Controller, ds: seq<uint8>): (r: Controller)
    requires cfg.Valid()
    requires c.fadePtr < cfg.fadeTableLen
    ensures r.fadePtr < cfg.fadeTableLen
    ensures c.stepDelay < cfg.fadeStepMs ==> r.stepDelay < cfg.fadeStepMs
    ensures Gated(cfg, c) ==> Gated(cfg, r)
    decreases |ds|
  {
    if ds == [] then c else Feed(cfg, SetLightLevel(cfg, c, ds[0]), ds[1..])
  }

  /** How many of the calls in `Feed(cfg, c, ds)` get past the step-delay guard. */
  function FadeSteps(cfg: Config, c: Controller, ds: seq<uint8>): nat
    requires cfg.Valid()
    requires c.fadePtr < cfg.fadeTableLen
    decreases |ds|
  {
    if ds == [] then 0
    else (if StepDue(cfg, c) then 1 else 0) + FadeSteps(cfg, SetLightLevel(cfg, c, ds[0]), ds[1..])
  }

  /**
   * Pacing, as a count: from any step delay below `FADE_STEP_MS`, the fade
   * steps of `n` calls, times `FADE_STEP_MS`, plus the final step delay, add
   * up to `stepDelay + n`.
   */
  lemma {:induction false} PacingCount(cfg: Config, c: Controller, ds: seq<uint8>)
    requires cfg.Valid()
    requires c.fadePtr < cfg.fadeTableLen
    requires c.stepDelay < cfg.fadeStepMs
    ensures FadeSteps(cfg, c, ds) * cfg.fadeStepMs + Feed(cfg, c, ds).stepDelay == c.stepDelay + |ds|
    decreases |ds|
  {
    if ds != [] {
      var c' := SetLightLevel(cfg, c, ds[0]);
      PacingCount(cfg, c', ds[1..]);
      if StepDue(cfg, c) {
        assert FadeSteps(cfg, c, ds) == 1 + FadeSteps(cfg, c', ds[1..]);
        assert (FadeSteps(cfg, c', ds[1..]) + 1) * cfg.fadeStepMs
            == FadeSteps(cfg, c', ds[1..]) * cfg.fadeStepMs + cfg.fadeStepMs;
      }
    }
  }

  /**
   * Pacing: from any step delay below `FADE_STEP_MS`, `n` calls perform
   * exactly `(stepDelay + n) / FADE_STEP_MS` fade steps and leave the step
   * delay at `(stepDelay + n) % FADE_STEP_MS`.
   */
  lemma Pacing(cfg: Config, c: Controller, ds: seq<uint8>)
    requires cfg.Valid()
    requires c.fadePtr < cfg.fadeTableLen
    requires c.stepDelay < cfg.fadeStepMs
    ensures FadeSteps(cfg, c, ds) == (c.stepDelay + |ds|) / cfg.fadeStepMs
    ensures Feed(cfg, c, ds).stepDelay == (c.stepDelay + |ds|) % cfg.fadeStepMs
  {
    PacingCount(cfg, c, ds);
    Arith.DivModUnique(c.stepDelay + |ds|, cfg.fadeStepMs, FadeSteps(cfg, c, ds), Feed(cfg, c, ds).stepDelay);
  }

  /**
   * One fade step per window: any `FADE_STEP_MS` consecutive calls contain
   * exactly one fade step, and fewer calls contain at most one.
   */
  lemma OneStepPerWindow(cfg: Config, c: Controller, ds: seq<uint8>)
    requires cfg.Valid()
    requires c.fadePtr < cfg.fadeTableLen
    requires c.stepDelay < cfg.fadeStepMs
    requires |ds| <= cfg.fadeStepMs
    ensures FadeSteps(cfg, c, ds) <= 1
    ensures |ds| == cfg.fadeStepMs ==> FadeSteps(cfg, c, ds) == 1
  {
    var f := cfg.fadeStepMs;
    Pacing(cfg, c, ds);
    Arith.DivModUnique(2 * f - 1, f, 1, f - 1);
    Arith.DivMonotone(c.stepDelay + |ds|, 2 * f - 1, f);
    if |ds| == f {
      Arith.DivModUnique(c.stepDelay + f, f, 1, c.stepDelay);
    }
  }

  /** The fade index moves by at most one per fade step, and not at all without one. */
  lemma {:induction false} IndexMovesAtMostSteps(cfg: Config, c: Controller, ds: seq<uint8>)
    requires cfg.Valid()
    requires c.fadePtr < cfg.fadeTableLen
    ensures c.fadePtr - FadeSteps(cfg, c, ds) <= Feed(cfg, c, ds).fadePtr <= c.fadePtr + FadeSteps(cfg, c, ds)
    decreases |ds|
  {
    if ds != [] {
      IndexMovesAtMostSteps(cfg, SetLightLevel(cfg, c, ds[0]), ds[1..]);
    }
  }

  /** Every door state in `ds` is `open` (nonzero) when `open`, zero otherwise. */
  predicate HeldDoor(ds: seq<uint8>, open: bool) {
    forall i :: 0 <= i < |ds| ==> (ds[i] != 0) == open
  }

  /**
   * Holding the door: with the door held open the index climbs one entry per
   * fade step and sticks at `FADE_TABLE_LEN-1`; held closed it falls one
   * entry per fade step and sticks at 0. It never wraps.
   */
  lemma {:induction false} HeldDoorTrajectory(cfg: Config, c: Controller, ds: seq<uint8>, open: bool)
    requires cfg.Valid()
    requires c.fadePtr < cfg.fadeTableLen
    requires HeldDoor(ds, open)
    ensures open ==> Feed(cfg, c, ds).fadePtr == Min(c.fadePtr + FadeSteps(cfg, c, ds), cfg.fadeTableLen - 1)
    ensures !open ==> Feed(cfg, c, ds).fadePtr == Max(c.fadePtr - FadeSteps(cfg, c, ds), 0)
    ensures FadeSteps(cfg, c, ds) > 0 ==> Feed(cfg, c, ds).brightness == cfg.fadeTable[Feed(cfg, c, ds).fadePtr]
    decreases |ds|
  {
    if ds != [] {
      assert (ds[0] != 0) == open;
      assert HeldDoor(ds[1..], open) by {
        forall i | 0 <= i < |ds[1..]| ensures (ds[1..][i] != 0) == open {
          assert ds[1..][i] == ds[i + 1];
        }
      }
      HeldDoorTrajectory(cfg, SetLightLevel(cfg, c, ds[0]), ds[1..], open);
      BrightnessFollowsTable(cfg, SetLightLevel(cfg, c, ds[0]), ds[1..]);
    }
  }

  /**
   * After a fade step, the brightness is the table entry at the index, and
   * later calls keep it so.
   */
  lemma {:induction false} BrightnessFollowsTable(cfg: Config, c: Controller, ds: seq<uint8>)
    requires cfg.Valid()
    requires c.fadePtr < cfg.fadeTableLen
    ensures c.brightness == cfg.fadeTable[c.fadePtr] ==> Feed(cfg, c, ds).brightness == cfg.fadeTable[Feed(cfg, c, ds).fadePtr]
    decreases |ds|
  {
    if ds != [] {
      BrightnessFollowsTable(cfg, SetLightLevel(cfg, c, ds[0]), ds[1..]);
    }
  }

  /** Once the index is at the end the held door drives it to, it stays there. */
  lemma StaysAtEnd(cfg: Config, d: Controller, more: seq<uint8>, open: bool)
    requires cfg.Valid()
    requires d.fadePtr < cfg.fadeTableLen
    requires HeldDoor(more, open)
    requires d.fadePtr == (if open then cfg.fadeTableLen - 1 else 0)
    ensures Feed(cfg, d, more).fadePtr == d.fadePtr
  {
    HeldDoorTrajectory(cfg, d, more, open);
  }

  /**
   * Convergence: `FADE_TABLE_LEN-1` fade steps with the door held open reach
   * the top of the table, and held closed they reach index 0; after at least
   * one fade step the light shows that table entry, with the pin driven
   * exactly when it is nonzero. Further calls with the same door state stay
   * there.
   */
  lemma Converges(cfg: Config, c: Controller, ds: seq<uint8>, more: seq<uint8>, open: bool)
    requires cfg.Valid()
    requires Gated(cfg, c)
    requires HeldDoor(ds, open) && HeldDoor(more, open)
    requires FadeSteps(cfg, c, ds) >= cfg.fadeTableLen - 1
    ensures Feed(cfg, c, ds).fadePtr == (if open then cfg.fadeTableLen - 1 else 0)
    ensures Feed(cfg, Feed(cfg, c, ds), more).fadePtr == Feed(cfg, c, ds).fadePtr
    ensures FadeSteps(cfg, c, ds) > 0 ==>
      && Feed(cfg, c, ds).brightness == cfg.fadeTable[Feed(cfg, c, ds).fadePtr]
      && Feed(cfg, c, ds).ocr0b == Feed(cfg, c, ds).brightness
      && (BitSet(Feed(cfg, c, ds).ddrb, cfg.pwmOut) <==> Feed(cfg, c, ds).brightness > 0)
  {
    HeldDoorTrajectory(cfg, c, ds, open);
    StaysAtEnd(cfg, Feed(cfg, c, ds), more, open);
  }

  /**
   * The open-then-close scenario with an eight-entry table and
   * `FADE_STEP_MS == 1`: seven calls with the door open reach index 7 with
   * the pin driven at `FADE_TABLE[7]`; seven more with it closed return to
   * index 0 with the pin released.
   */
  lemma OpenThenCloseScenario(ddrb: bv8)
    ensures var cfg := Config(1, [0, 1, 3, 7, 15, 31, 63, 127], 8, 47, 3, 1);
      var lit := Feed(cfg, Initial(cfg, ddrb), seq(7, _ => 1));
      var dark := Feed(cfg, lit, seq(7, _ => 0));
      && lit.fadePtr == 7 && lit.ocr0b == 127 && BitSet(lit.ddrb, 1)
      && dark.fadePtr == 0 && dark.ocr0b == 0 && !BitSet(dark.ddrb, 1)
  {
    var cfg := Config(1, [0, 1, 3, 7, 15, 31, 63, 127], 8, 47, 3, 1);
    var c := Initial(cfg, ddrb);
    var open: seq<uint8> := seq(7, _ => 1);
    var closed: seq<uint8> := seq(7, _ => 0);
    Pacing(cfg, c, open);
    Converges(cfg, c, open, [], true);
    var lit := Feed(cfg, c, open);
    Pacing(cfg, lit, closed);
    Converges(cfg, lit, closed, [], false);
  }
}
