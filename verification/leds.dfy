/**
  The LED pattern driver: the fixed map from the eight bits of a pattern to
  (port, pin) pairs, the decoder that turns a pattern into one mask per port,
  and the clear-then-set sequence that applies it to the output registers.
 */
module Leds {
  import opened Gpio

  /* The first four LEDs are on port 2, the next three on port 0, the last one
     on port 1. */
  const LED_PORT_A: Port := Port2
  const LED_PORT_B: Port := Port0
  const LED_PORT_C: Port := Port1

  const LED0_PIN: Mask := PinMask(3)   // P2_3
  const LED1_PIN: Mask := PinMask(4)   // P2_4
  const LED2_PIN: Mask := PinMask(6)   // P2_6
  const LED3_PIN: Mask := PinMask(7)   // P2_7
  const LED4_PIN: Mask := PinMask(7)   // P0_7
  const LED5_PIN: Mask := PinMask(5)   // P0_5
  const LED6_PIN: Mask := PinMask(6)   // P0_6
  const LED7_PIN: Mask := PinMask(6)   // P1_6

  const LED_MASK_A: Mask := LED0_PIN | LED1_PIN | LED2_PIN | LED3_PIN
  const LED_MASK_B: Mask := LED4_PIN | LED5_PIN | LED6_PIN
  const LED_MASK_C: Mask := LED7_PIN

  /* The button shares port 0 with the B LEDs. */
  const BTN_PORT: Port := Port0
  const BTN_PIN: Pin := 2              // P0_2

  /** One LED: the port and pin it is wired to. */
  datatype Led = Led(port: Port, pin: Pin)

  /** The documented wiring: bit k of a pattern drives LED k, wired to `LedOf(k)`. */
  function LedOf(k: nat): Led
    requires k < 8
  {
    if k == 0 then Led(Port2, 3)
    else if k == 1 then Led(Port2, 4)
    else if k == 2 then Led(Port2, 6)
    else if k == 3 then Led(Port2, 7)
    else if k == 4 then Led(Port0, 7)
    else if k == 5 then Led(Port0, 5)
    else if k == 6 then Led(Port0, 6)
    else Led(Port1, 6)
  }

  /** The single-bit pattern for LED `k`: the constants `0x01` to `0x80` the
      decoder tests, in bit order. */
  function Bit(k: nat): bv8
    requires k < 8
  {
    if k == 0 then 0x01
    else if k == 1 then 0x02
    else if k == 2 then 0x04
    else if k == 3 then 0x08
    else if k == 4 then 0x10
    else if k == 5 then 0x20
    else if k == 6 then 0x40
    else 0x80
  }

  /** Whether bit `k` of `pat` is set, i.e. whether the pattern lights LED `k`. */
  predicate Lit(pat: bv8, k: nat)
    requires k < 8
  {
    pat & Bit(k) != 0
  }

  /** Whether `pat` lights exactly one LED. */
  predicate SingleLed(pat: bv8)
  {
    exists k: nat :: k < 8 && pat == Bit(k)
  }

  /** All LED pins of `port`. */
  function LedMask(port: Port): Mask
  {
    match port
    case Port2 => LED_MASK_A
    case Port0 => LED_MASK_B
    case Port1 => LED_MASK_C
  }

  /** The three masks a pattern decodes to, one per LED port. */
  datatype PortMasks = PortMasks(maskA: Mask, maskB: Mask, maskC: Mask)

  /** The decoded mask meant for `port`. */
  function MaskOn(m: PortMasks, port: Port): Mask
  {
    match port
    case Port2 => m.maskA
    case Port0 => m.maskB
    case Port1 => m.maskC
  }

  /** The pin constants as words, given that pin n's constant is `1 << n`. */
  lemma LedPinValues()
    ensures LED0_PIN == 0x08 && LED1_PIN == 0x10 && LED2_PIN == 0x40 && LED3_PIN == 0x80
    ensures LED4_PIN == 0x80 && LED5_PIN == 0x20 && LED6_PIN == 0x40 && LED7_PIN == 0x40
    ensures LED_MASK_A == 0xD8 && LED_MASK_B == 0xE0 && LED_MASK_C == 0x40
  {
  }

  /** No mask names a pin outside its port's LED mask. */
  predicate WithinLeds(m: PortMasks)
  {
    m.maskA & !LED_MASK_A == 0 && m.maskB & !LED_MASK_B == 0 && m.maskC & !LED_MASK_C == 0
  }

  /** `mask` if `cond` holds, otherwise the empty mask (`if (cond) m |= mask`). */
  function When(cond: bool, mask: Mask): Mask
  {
    if cond then mask else 0
  }

  /** The decoding half of `set_led_pattern`: one mask per port, built bit by
      bit; no decoded mask names a pin outside its port's LED mask. */
  function Decode(pat: bv8): (m: PortMasks)
    ensures WithinLeds(m)
  {
    LedPinValues();
    var maskA := When(pat & 0x01 != 0, LED0_PIN) | When(pat & 0x02 != 0, LED1_PIN)
               | When(pat & 0x04 != 0, LED2_PIN) | When(pat & 0x08 != 0, LED3_PIN);
    var maskB := When(pat & 0x10 != 0, LED4_PIN) | When(pat & 0x20 != 0, LED5_PIN)
               | When(pat & 0x40 != 0, LED6_PIN);
    var maskC := When(pat & 0x80 != 0, LED7_PIN);
    PortMasks(maskA, maskB, maskC)
  }

  /** The empty pattern decodes to no pins and the full pattern to every LED pin,
      and no other pattern does either. */
  lemma {:induction false} DecodeExtremes(pat: bv8)
    ensures pat == 0 <==> Decode(pat) == PortMasks(0, 0, 0)
    ensures pat == 0xFF <==> Decode(pat) == PortMasks(LED_MASK_A, LED_MASK_B, LED_MASK_C)
  {
    LedPinValues();
  }

  /** A bit index is one of the eight literal positions. */
  lemma {:induction false} BitIndexCases(k: nat)
    requires k < 8
    ensures k == 0 || k == 1 || k == 2 || k == 3 || k == 4 || k == 5 || k == 6 || k == 7
  {
  }

  /** A bit of `a | b` is set exactly when it is set in `a` or in `b`. */
  lemma {:induction false} LitOr(a: bv8, b: bv8, j: nat)
    requires j < 8
    ensures Lit(a | b, j) <==> Lit(a, j) || Lit(b, j)
  {
    BitIndexCases(j);
  }

  /** The single-bit pattern for LED `k` lights LED `k` and no other. */
  lemma {:induction false} LitBit(k: nat, j: nat)
    requires k < 8 && j < 8
    ensures Lit(Bit(k), j) <==> j == k
  {
    BitIndexCases(j);
    BitIndexCases(k);
  }

  /** Two patterns that light the same LEDs are equal. */
  lemma {:induction false} BitsDetermine(x: bv8, y: bv8)
    requires forall k :: 0 <= k < 8 ==> (Lit(x, k) <==> Lit(y, k))
    ensures x == y
  {
    assert Lit(x, 0) == Lit(y, 0) && Lit(x, 1) == Lit(y, 1);
    assert Lit(x, 2) == Lit(y, 2) && Lit(x, 3) == Lit(y, 3);
    assert Lit(x, 4) == Lit(y, 4) && Lit(x, 5) == Lit(y, 5);
    assert Lit(x, 6) == Lit(y, 6) && Lit(x, 7) == Lit(y, 7);
  }

  /** The LED that LED pin `p` of `port` belongs to. */
  function MapIndex(port: Port, p: Pin): (k: nat)
    requires HasPin(LedMask(port), p)
    ensures k < 8 && LedOf(k) == Led(port, p)
  {
    LedPinValues();
    match port
    case Port2 => if p == 3 then 0 else if p == 4 then 1 else if p == 6 then 2 else 3
    case Port0 => if p == 7 then 4 else if p == 5 then 5 else 6
    case Port1 => 7
  }

  /** Every port's LED mask holds exactly the pins the wiring map puts on that
      port, and no two LEDs share a pin. */
  lemma LedMasksFollowMap()
    ensures forall port, p: Pin :: HasPin(LedMask(port), p) <==>
      exists k :: 0 <= k < 8 && LedOf(k) == Led(port, p)
    ensures forall i, j :: 0 <= i < j < 8 ==> LedOf(i) != LedOf(j)
  {
    forall port, p: Pin | HasPin(LedMask(port), p)
      ensures exists k :: 0 <= k < 8 && LedOf(k) == Led(port, p)
    {
      var k := MapIndex(port, p);
    }
    forall k | 0 <= k < 8 ensures HasPin(LedMask(LedOf(k).port), LedOf(k).pin) {
      LedPinValues();
      BitIndexCases(k);
    }
  }

  /** The decoded mask holds LED k's pin on LED k's port exactly when bit k is set. */
  lemma {:induction false} DecodeBit(pat: bv8, k: nat)
    requires k < 8
    ensures HasPin(MaskOn(Decode(pat), LedOf(k).port), LedOf(k).pin) <==> Lit(pat, k)
  {
    LedPinValues();
    BitIndexCases(k);
  }

  /** For every pattern, the decoded masks hold LED k's pin on LED k's port
      exactly when bit k of the pattern is set, and hold no other pin. */
  lemma {:induction false} DecodeFollowsMap(pat: bv8)
    ensures forall k :: 0 <= k < 8 ==>
      (HasPin(MaskOn(Decode(pat), LedOf(k).port), LedOf(k).pin) <==> Lit(pat, k))
    ensures forall port, p: Pin :: HasPin(MaskOn(Decode(pat), port), p) ==>
      exists k :: 0 <= k < 8 && LedOf(k) == Led(port, p) && Lit(pat, k)
  {
    forall k | 0 <= k < 8
      ensures HasPin(MaskOn(Decode(pat), LedOf(k).port), LedOf(k).pin) <==> Lit(pat, k)
    {
      DecodeBit(pat, k);
    }
    forall port, p: Pin | HasPin(MaskOn(Decode(pat), port), p)
      ensures exists k :: 0 <= k < 8 && LedOf(k) == Led(port, p) && Lit(pat, k)
    {
      var m := MaskOn(Decode(pat), port);
      assert m & !LedMask(port) == 0;
      assert HasPin(LedMask(port), p);
      var k := MapIndex(port, p);
      DecodeBit(pat, k);
    }
  }

  /** A pin of `a & b` is a pin of both. */
  lemma {:induction false} HasPinAnd(a: Mask, b: Mask, p: Pin)
    ensures HasPin(a & b, p) <==> HasPin(a, p) && HasPin(b, p)
  {
  }

  /** Two masks within a port's LED mask are equal when they agree on each LED
      pin of that port. */
  lemma {:induction false} MasksAgree(port: Port, x: Mask, y: Mask)
    requires x & !LedMask(port) == 0 && y & !LedMask(port) == 0
    requires forall k :: 0 <= k < 8 && LedOf(k).port == port ==>
      (HasPin(x, LedOf(k).pin) <==> HasPin(y, LedOf(k).pin))
    ensures x == y
  {
    LedPinValues();
    match port
    case Port2 =>
      assert HasPin(x, 3) == HasPin(y, 3) && HasPin(x, 4) == HasPin(y, 4) by {
        assert LedOf(0).port == port && LedOf(1).port == port;
      }
      assert HasPin(x, 6) == HasPin(y, 6) && HasPin(x, 7) == HasPin(y, 7) by {
        assert LedOf(2).port == port && LedOf(3).port == port;
      }
    case Port0 =>
      assert HasPin(x, 7) == HasPin(y, 7) && HasPin(x, 5) == HasPin(y, 5) by {
        assert LedOf(4).port == port && LedOf(5).port == port;
      }
      assert HasPin(x, 6) == HasPin(y, 6) by {
        assert LedOf(6).port == port;
      }
    case Port1 =>
      assert HasPin(x, 6) == HasPin(y, 6) by {
        assert LedOf(7).port == port;
      }
  }

  /** The output-register state of the LED pins only, one mask per LED port. */
  function LedView(g: Outputs): (v: PortMasks)
    ensures WithinLeds(v)
  {
    PortMasks(Out(g, LED_PORT_A) & LED_MASK_A, Out(g, LED_PORT_B) & LED_MASK_B,
              Out(g, LED_PORT_C) & LED_MASK_C)
  }

  /** Whether LED `k`'s pin is driven high. */
  predicate IsOn(g: Outputs, k: nat)
    requires k < 8
  {
    HasPin(Out(g, LedOf(k).port), LedOf(k).pin)
  }

  /** The pattern shown by LEDs `k` to 7, read back from the output registers
      through the wiring map. */
  function ShownFrom(g: Outputs, k: nat): bv8
    requires k <= 8
    decreases 8 - k
  {
    if k == 8 then 0
    else (if IsOn(g, k) then Bit(k) else 0) | ShownFrom(g, k + 1)
  }

  /** Bit `j` of `ShownFrom(g, k)` is set exactly when `j` is at least `k` and
      LED `j` is on. */
  lemma {:induction false} ShownFromBit(g: Outputs, k: nat, j: nat)
    requires k <= 8 && j < 8
    ensures Lit(ShownFrom(g, k), j) <==> k <= j && IsOn(g, j)
    decreases 8 - k
  {
    if k < 8 {
      var here: bv8 := if IsOn(g, k) then Bit(k) else 0;
      var rest := ShownFrom(g, k + 1);
      assert ShownFrom(g, k) == here | rest;
      LitOr(here, rest, j);
      ShownFromBit(g, k + 1, j);
      if IsOn(g, k) {
        LitBit(k, j);
      } else {
        assert !Lit(here, j);
      }
    }
  }

  /** The pattern the eight LEDs currently show: bit k is set exactly when LED
      k's pin is driven high. */
  function Shown(g: Outputs): (r: bv8)
    ensures forall k :: 0 <= k < 8 ==> (Lit(r, k) <==> IsOn(g, k))
  {
    forall k | 0 <= k < 8 ensures Lit(ShownFrom(g, 0), k) <==> IsOn(g, k) {
      ShownFromBit(g, 0, k);
    }
    ShownFrom(g, 0)
  }

  /** LED `k` is on exactly when its pin is in the LED view of its port. */
  lemma {:induction false} LedOnInView(g: Outputs, k: nat)
    requires k < 8
    ensures IsOn(g, k) <==> HasPin(MaskOn(LedView(g), LedOf(k).port), LedOf(k).pin)
  {
    var port, p := LedOf(k).port, LedOf(k).pin;
    assert MaskOn(LedView(g), port) == Out(g, port) & LedMask(port);
    assert HasPin(LedMask(port), p) by {
      LedPinValues();
      BitIndexCases(k);
    }
    HasPinAnd(Out(g, port), LedMask(port), p);
  }

  /** Whenever the LED pins hold the decoding of `pat`, the LEDs show `pat`. */
  lemma {:induction false} ShownInvertsDecode(g: Outputs, pat: bv8)
    requires LedView(g) == Decode(pat)
    ensures Shown(g) == pat
  {
    forall k | 0 <= k < 8 ensures Lit(Shown(g), k) <==> Lit(pat, k) {
      LedOnInView(g, k);
      DecodeBit(pat, k);
    }
    BitsDetermine(Shown(g), pat);
  }

  /** Decoding what the LEDs show gives back the state of the LED pins: with
      `ShownInvertsDecode`, the decoder is a bijection between patterns and
      LED states. */
  lemma {:induction false} DecodeInvertsShown(g: Outputs)
    ensures Decode(Shown(g)) == LedView(g)
  {
    DecodeInvertsShownOn(g, Port0);
    DecodeInvertsShownOn(g, Port1);
    DecodeInvertsShownOn(g, Port2);
  }

  /** `DecodeInvertsShown` on one port. */
  lemma {:induction false} DecodeInvertsShownOn(g: Outputs, port: Port)
    ensures MaskOn(Decode(Shown(g)), port) == MaskOn(LedView(g), port)
  {
    var pat := Shown(g);
    forall k | 0 <= k < 8 && LedOf(k).port == port
      ensures HasPin(MaskOn(Decode(pat), port), LedOf(k).pin)
          <==> HasPin(MaskOn(LedView(g), port), LedOf(k).pin)
    {
      DecodeBit(pat, k);
      LedOnInView(g, k);
    }
    MasksAgree(port, MaskOn(Decode(pat), port), MaskOn(LedView(g), port));
  }

  /** Every pin outside the LED masks holds the same level in `g` and `r`. */
  predicate SameOtherPins(g: Outputs, r: Outputs)
  {
    && g.p0 & !LED_MASK_B == r.p0 & !LED_MASK_B
    && g.p1 & !LED_MASK_C == r.p1 & !LED_MASK_C
    && g.p2 & !LED_MASK_A == r.p2 & !LED_MASK_A
  }

  lemma {:induction false} SameOtherPinsTransitive(g1: Outputs, g2: Outputs, g3: Outputs)
    requires SameOtherPins(g1, g2) && SameOtherPins(g2, g3)
    ensures SameOtherPins(g1, g3)
  {
  }

  /** The three output-clear calls: every LED pin of every port driven low,
      every other pin unchanged. */
  function ClearLeds(g: Outputs): (r: Outputs)
    ensures LedView(r) == PortMasks(0, 0, 0)
    ensures SameOtherPins(g, r)
  {
    LedPinValues();
    var g1 := OutClr(g, LED_PORT_A, LED_MASK_A);
    var g2 := OutClr(g1, LED_PORT_B, LED_MASK_B);
    OutClr(g2, LED_PORT_C, LED_MASK_C)
  }

  /** The three output-set calls: starting from dark LEDs, the LED pins end up
      holding exactly the given masks, every other pin unchanged. */
  function SetMasks(g: Outputs, m: PortMasks): (r: Outputs)
    requires LedView(g) == PortMasks(0, 0, 0)
    requires WithinLeds(m)
    ensures LedView(r) == m
    ensures SameOtherPins(g, r)
  {
    var g1 := OutSet(g, LED_PORT_A, m.maskA);
    var g2 := OutSet(g1, LED_PORT_B, m.maskB);
    OutSet(g2, LED_PORT_C, m.maskC)
  }

  /** `set_led_pattern`: decode, clear every LED pin on all three ports, then set
      only the decoded pins. Afterwards the LED pins hold exactly the decoded
      masks, so the LEDs show `pat`, and no other pin of any port has changed. */
  function SetLedPattern(g: Outputs, pat: bv8): (r: Outputs)
    ensures LedView(r) == Decode(pat)
    ensures SameOtherPins(g, r)
    ensures Shown(r) == pat
  {
    var r := SetMasks(ClearLeds(g), Decode(pat));
    ShownInvertsDecode(r, pat);
    r
  }

  /** The LEDs after `set_led_pattern` depend only on the pattern, not on what
      was lit before. */
  lemma {:induction false} SetLedPatternForgetsHistory(g1: Outputs, g2: Outputs, pat: bv8)
    ensures LedView(SetLedPattern(g1, pat)) == LedView(SetLedPattern(g2, pat))
  {
  }

  /** `set_led_pattern` never changes the output register of the button pin,
      which shares port 0 with three of the LEDs. */
  lemma {:induction false} SetLedPatternKeepsButtonPin(g: Outputs, pat: bv8)
    ensures HasPin(Out(SetLedPattern(g, pat), BTN_PORT), BTN_PIN) <==> HasPin(Out(g, BTN_PORT), BTN_PIN)
  {
    OtherPinsKeepButton(g, SetLedPattern(g, pat));
  }

  /** Two output states that agree outside the LED masks agree on the button pin. */
  lemma {:induction false} OtherPinsKeepButton(g: Outputs, r: Outputs)
    requires SameOtherPins(g, r)
    ensures HasPin(Out(r, BTN_PORT), BTN_PIN) <==> HasPin(Out(g, BTN_PORT), BTN_PIN)
  {
    ButtonOutsideLeds(r.p0);
    ButtonOutsideLeds(g.p0);
  }

  /** The button pin is not among port 0's LED pins, so whether a port 0 word
      drives it depends only on the word's non-LED pins. */
  lemma {:induction false} ButtonOutsideLeds(x: Mask)
    ensures HasPin(x, BTN_PIN) <==> HasPin(x & !LED_MASK_B, BTN_PIN)
  {
    LedPinValues();
    assert PinMask(BTN_PIN) == 4;
  }

  /** The start-up step before the loop: every LED pin cleared, all LEDs dark,
      every other pin unchanged. */
  function AllLedsOff(g: Outputs): (r: Outputs)
    ensures Shown(r) == 0
    ensures SameOtherPins(g, r)
  {
    var r := ClearLeds(g);
    DecodeExtremes(0);
    ShownInvertsDecode(r, 0);
    r
  }
}
