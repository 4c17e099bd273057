/**
  An abstract model of the three GPIO ports the firmware drives.

  A pin mask is a 32-bit word with one bit per pin of a port: the vendor
  header's constant for pin n is taken to be the single-bit word `1 << n`, so
  OR-ing pin constants together forms the set of those pins.

  Each port's output register is modelled as the set of pins currently driven
  high, again as one bit per pin. Writing a mask to the output-set call adds
  those pins, writing one to the output-clear call removes them; nothing else
  about the register changes.
 */
module Gpio {

  /** A pin number within a 32-bit GPIO port, 0 to 31. */
  type Pin = bv5

  /** A pin mask, or a register's set of pins: bit n stands for pin n. */
  type Mask = bv32

  /** The single-pin mask for pin `n` (the vendor constant for pin `n`). */
  function PinMask(n: Pin): Mask
  {
    (1 as bv32) << n
  }

  /** Whether pin `p` belongs to mask `m`. */
  predicate HasPin(m: Mask, p: Pin)
  {
    m & PinMask(p) != 0
  }

  /** The three ports the board uses for LEDs and the button. */
  datatype Port = Port0 | Port1 | Port2

  /** The output registers of the three ports: which pins are driven high. */
  datatype Outputs = Outputs(p0: Mask, p1: Mask, p2: Mask)

  /** The pins driven high on `port`. */
  function Out(g: Outputs, port: Port): Mask
  {
    match port
    case Port0 => g.p0
    case Port1 => g.p1
    case Port2 => g.p2
  }

  /** `g` with the output register of `port` replaced by `m`. */
  function WithOut(g: Outputs, port: Port, m: Mask): (r: Outputs)
    ensures Out(r, port) == m
    ensures forall q :: q != port ==> Out(r, q) == Out(g, q)
  {
    match port
    case Port0 => g.(p0 := m)
    case Port1 => g.(p1 := m)
    case Port2 => g.(p2 := m)
  }

  /** The output-clear call: drives every pin of `mask` on `port` low and leaves
      every other pin of every port as it was. */
  function OutClr(g: Outputs, port: Port, mask: Mask): (r: Outputs)
    ensures Out(r, port) & mask == 0
    ensures Out(r, port) & !mask == Out(g, port) & !mask
    ensures forall q :: q != port ==> Out(r, q) == Out(g, q)
  {
    WithOut(g, port, Out(g, port) & !mask)
  }

  /** The output-set call: drives every pin of `mask` on `port` high and leaves
      every other pin of every port as it was. */
  function OutSet(g: Outputs, port: Port, mask: Mask): (r: Outputs)
    ensures Out(r, port) & mask == mask
    ensures Out(r, port) & !mask == Out(g, port) & !mask
    ensures forall q :: q != port ==> Out(r, q) == Out(g, q)
  {
    WithOut(g, port, Out(g, port) | mask)
  }
}
