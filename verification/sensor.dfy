/** The door switch, read from the `PINB` input register. */
module Sensor {
  import opened Platform

  /**
   * `isDoorOpen` as written: 1 exactly when the `DOOR_PIN` bit of `PINB`
   * reads high, otherwise 0.
   */
  function IsDoorOpen(pinb: bv8, doorPin: int): (r: uint8)
    requires 0 <= doorPin < 8
    ensures r == 0 || r == 1
    ensures r == 1 <==> BitSet(pinb, doorPin)
    ensures (r == 0) == !BitSet(pinb, doorPin)
  {
    if pinb & Mask(doorPin) != 0 then 1 else 0
  }

  /**
   * The reading the wiring comment describes: the switch is normally open and
   * the pin has a pull-up, so the pin reads high when the door is closed and
   * low when it is open.
   */
  function IsDoorOpenPerWiring(pinb: bv8, doorPin: int): (r: uint8)
    requires 0 <= doorPin < 8
    ensures r == 0 || r == 1
    ensures r == 1 <==> !BitSet(pinb, doorPin)
  {
    if pinb & Mask(doorPin) == 0 then 1 else 0
  }

  /**
   * The two readings disagree on every input: with the wiring the comment
   * describes, the code as written reports an open door exactly when the
   * door is closed.
   */
  lemma PolarityInverted(pinb: bv8, doorPin: int)
    requires 0 <= doorPin < 8
    ensures IsDoorOpen(pinb, doorPin) != IsDoorOpenPerWiring(pinb, doorPin)
    ensures IsDoorOpen(pinb, doorPin) == 1 - IsDoorOpenPerWiring(pinb, doorPin)
  {}

  /** A concrete input: `DOOR_PIN` 3 pulled high (door closed by the comment) reads as open. */
  lemma ClosedDoorReadsOpen()
    ensures IsDoorOpen(0x08, 3) == 1
    ensures IsDoorOpenPerWiring(0x08, 3) == 0
  {}
}
