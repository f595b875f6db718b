/**
 * Machine types of the ATtiny firmware and the build-time constants of the
 * closet light. The constants come from `closetlight.h`; they are carried in
 * a `Config` value so that every property holds for every admissible header.
 */
module Platform {

  /** `uint8_t`: the width of the statics, of `_tick` and of `OCR0B`. */
  type uint8 = x: int | 0 <= x < 256

  /** `int` on AVR is 16 bits wide; the ISR's `timerTick` has this type. */
  type int16 = x: int | -32768 <= x < 32768

  const INT16_MAX: int := 32767

  /** `++x` on a `uint8_t`: wraps from 255 to 0. */
  function Increment(x: uint8): (r: uint8)
    ensures r == (x + 1) % 256
    ensures x < 255 ==> r == x + 1
  {
    if x == 255 then 0 else x + 1
  }

  /** The mask `1<<pin` for one pin of an 8-bit I/O port. */
  function Mask(pin: int): bv8
    requires 0 <= pin < 8
  {
    (1 as bv8) << pin
  }

  /** The port bit of `pin` reads high. */
  predicate BitSet(b: bv8, pin: int)
    requires 0 <= pin < 8
  {
    b & Mask(pin) != 0
  }

  /** `a` and `b` agree on every bit except that of `pin`. */
  predicate OtherBitsEqual(a: bv8, b: bv8, pin: int)
    requires 0 <= pin < 8
  {
    a & !Mask(pin) == b & !Mask(pin)
  }

  /** `reg |= (1<<pin)` */
  function SetBit(reg: bv8, pin: int): (r: bv8)
    requires 0 <= pin < 8
    ensures BitSet(r, pin)
    ensures OtherBitsEqual(reg, r, pin)
  {
    reg | Mask(pin)
  }

  /** `reg &= ~(1<<pin)` */
  function ClearBit(reg: bv8, pin: int): (r: bv8)
    requires 0 <= pin < 8
    ensures !BitSet(r, pin)
    ensures OtherBitsEqual(reg, r, pin)
  {
    reg & !Mask(pin)
  }

  /**
   * The constants of `closetlight.h`: `FADE_STEP_MS`, `FADE_TABLE`,
   * `FADE_TABLE_LEN`, `TICKS_MS` and the pin numbers `DOOR_PIN` and `PWM_OUT`.
   */
  datatype Config = Config(
    fadeStepMs: int,
    fadeTable: seq<uint8>,
    fadeTableLen: int,
    ticksMs: int,
    doorPin: int,
    pwmOut: int)
  {
    /**
     * An admissible header: the step delay and the fade index fit their
     * `uint8_t` statics, the table holds at least `FADE_TABLE_LEN` bytes, the
     * ISR counter can be incremented past `TICKS_MS` without overflowing a
     * 16-bit `int`, and both pins are pins of port B.
     */
    predicate Valid() {
      && 1 <= fadeStepMs <= 255
      && 1 <= fadeTableLen <= 256
      && fadeTableLen <= |fadeTable|
      && 0 <= ticksMs < INT16_MAX
      && 0 <= doorPin < 8
      && 0 <= pwmOut < 8
    }
  }
}
