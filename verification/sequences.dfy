/**
  The two constant pattern tables the main loop steps through, and the shape
  their comments describe: sequence A lights LED groups one after another until
  all eight are on and then turns the groups off in reverse order; sequence B
  flashes all eight and then lights each LED alone, once each.
 */
module Sequences {
  import opened Gpio
  import opened Leds

  /** Sequence A (mode 0): fill, then drain. */
  const SeqA: seq<bv8> := [0x02, 0x13, 0xB3, 0xFB, 0xFF, 0xFB, 0xB3, 0x13, 0x02, 0x00]

  /** Sequence B (mode 1): all on, then one LED at a time. */
  const SeqB: seq<bv8> := [0xFF, 0x80, 0x08, 0x04, 0x40, 0x20, 0x10, 0x02, 0x01]

  /** `lenA` and `lenB`: the table lengths the cursors wrap at. */
  const LenA: nat := |SeqA|
  const LenB: nat := |SeqB|

  /** The LED groups sequence A turns on, in order, as its comment lists them. */
  const SeqAGroups: seq<set<Led>> := [
    {Led(Port2, 4)},
    {Led(Port2, 3), Led(Port0, 7)},
    {Led(Port1, 6), Led(Port0, 5)},
    {Led(Port2, 7), Led(Port0, 6)},
    {Led(Port2, 6)}
  ]

  /** The single-LED order of sequence B after its all-on step, as its comment
      lists it. */
  const SeqBOrder: seq<Led> := [
    Led(Port1, 6), Led(Port2, 7), Led(Port2, 6), Led(Port0, 6),
    Led(Port0, 5), Led(Port0, 7), Led(Port2, 4), Led(Port2, 3)
  ]

  /** The LEDs step `i` of sequence A's fill phase adds to the previous step. */
  function Added(i: nat): bv8
    requires i < 5
  {
    if i == 0 then SeqA[0] else SeqA[i] & !SeqA[i - 1]
  }

  /** Sequence A has ten steps. The first five only ever add LEDs, each step
      strictly more than the one before, ending with all eight lit; the next
      four replay the fill steps backwards; the last turns everything off. */
  lemma SeqAFillsThenDrains()
    ensures LenA == 10
    ensures forall i :: 0 <= i < 4 ==> SeqA[i] & SeqA[i + 1] == SeqA[i] && SeqA[i] != SeqA[i + 1]
    ensures SeqA[4] == 0xFF
    ensures forall j :: 5 <= j < 9 ==> SeqA[j] == SeqA[8 - j]
    ensures SeqA[9] == 0x00
  {
  }

  /** Each fill step of sequence A lights exactly the LED group its comment
      names, so the groups come one, two, two, two and one LED at a time. */
  lemma {:induction false} SeqAAddsDocumentedGroups(i: nat, k: nat)
    requires i < 5 && k < 8
    ensures Lit(Added(i), k) <==> LedOf(k) in SeqAGroups[i]
  {
    BitIndexCases(k);
  }

  /** The LED that step `i` of sequence B lights alone. */
  function SeqBLed(i: nat): (k: nat)
    requires 1 <= i < 9
    ensures k < 8 && SeqB[i] == Bit(k)
  {
    [7, 3, 2, 6, 5, 4, 1, 0][i - 1]
  }

  /** The step of sequence B that lights LED `k` alone. */
  function SeqBStep(k: nat): (i: nat)
    requires k < 8
    ensures 1 <= i < 9 && SeqB[i] == Bit(k)
  {
    BitIndexCases(k);
    [8, 7, 3, 2, 6, 5, 4, 1][k]
  }

  /** Sequence B has nine steps: all eight LEDs, then eight single-LED steps
      that are pairwise different and light every LED exactly once: a
      permutation of the eight single-LED patterns. */
  lemma SeqBFlashesThenVisitsEach()
    ensures LenB == 9
    ensures SeqB[0] == 0xFF
    ensures forall i :: 1 <= i < 9 ==> SingleLed(SeqB[i])
    ensures forall k :: 0 <= k < 8 ==> Bit(k) in SeqB[1..]
    ensures forall i, j :: 1 <= i < j < 9 ==> SeqB[i] != SeqB[j]
  {
    forall i | 1 <= i < 9 ensures SingleLed(SeqB[i]) {
      var k := SeqBLed(i);
      assert k < 8 && SeqB[i] == Bit(k);
    }
    forall k | 0 <= k < 8 ensures Bit(k) in SeqB[1..] {
      var i := SeqBStep(k);
      assert SeqB[1..][i - 1] == Bit(k);
    }
    forall i, j | 1 <= i < j < 9 ensures SeqB[i] != SeqB[j] {
      var ki, kj := SeqBLed(i), SeqBLed(j);
      SeqBStepInvertsLed(i);
      SeqBStepInvertsLed(j);
      LitBit(ki, kj);
      LitBit(kj, kj);
    }
  }

  /** `SeqBStep` undoes `SeqBLed`. */
  lemma {:induction false} SeqBStepInvertsLed(i: nat)
    requires 1 <= i < 9
    ensures SeqBStep(SeqBLed(i)) == i
  {
    assert i == 1 || i == 2 || i == 3 || i == 4 || i == 5 || i == 6 || i == 7 || i == 8;
  }

  /** Each single-LED step of sequence B lights exactly the LED its comment
      names, in the listed order. */
  lemma {:induction false} SeqBFollowsDocumentedOrder(i: nat, k: nat)
    requires 1 <= i < 9 && k < 8
    ensures Lit(SeqB[i], k) <==> LedOf(k) == SeqBOrder[i - 1]
  {
    BitIndexCases(k);
  }
}
