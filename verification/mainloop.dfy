/**
  The body of the firmware's endless loop as a state machine.

  The loop keeps four variables: the last button level sampled, the mode
  (0 runs sequence A, 1 runs sequence B) and one cursor into each sequence.
  Each pass samples the button, toggles the mode on a falling edge (released
  to pressed), shows the active sequence's current pattern and advances only
  that sequence's cursor, wrapping at its length.

  The button sample is an input of each step: whether the button pin reads
  high (released, with the pull-up) or low (pressed). The endless loop becomes
  a run over a finite list of such samples.

  The pattern tables are a parameter of the loop: every property of the loop
  below holds for any tables of the firmware's lengths, and `Firmware` holds
  the firmware's own two tables, which the concrete scenarios use.
 */
module MainLoop {
  import opened Gpio
  import opened Leds
  import opened Sequences

  /** The loop's variables `last_btn`, `mode`, `idxA` and `idxB`. */
  datatype State = State(lastBtn: int, mode: int, idxA: int, idxB: int)

  /** The values before the first pass: button released, mode 0, both cursors 0. */
  const Init: State := State(1, 0, 0, 0)

  /** The two pattern tables the loop steps through: `seqA` in mode 0 and
      `seqB` in mode 1. */
  datatype Tables = Tables(seqA: seq<bv8>, seqB: seq<bv8>)

  /** The firmware's tables. */
  const Firmware: Tables := Tables(SeqA, SeqB)

  /** Tables of the firmware's lengths, so that the cursors wrap at `lenA`
      and `lenB` as they do in the firmware. */
  predicate Fits(t: Tables)
  {
    |t.seqA| == LenA && |t.seqB| == LenB
  }

  /** The states the loop can be in: levels and modes are 0 or 1, and each
      cursor indexes its table. */
  predicate Valid(s: State)
  {
    && (s.lastBtn == 0 || s.lastBtn == 1)
    && (s.mode == 0 || s.mode == 1)
    && 0 <= s.idxA < LenA
    && 0 <= s.idxB < LenB
  }

  /** `btn_now`: 1 when the button pin reads high (released), 0 when it reads
      low (pressed). */
  function Level(pinHigh: bool): int
  {
    if pinHigh then 1 else 0
  }

  /** `mode ^= 1` on the two values the mode takes. */
  function Toggle(mode: int): int
    requires mode == 0 || mode == 1
  {
    1 - mode
  }

  /** Whether a pass that samples `pinHigh` after `lastBtn` sees a press. */
  predicate FallingEdge(lastBtn: int, pinHigh: bool)
  {
    lastBtn == 1 && Level(pinHigh) == 0
  }

  /** One pass: the next state and the pattern handed to `set_led_pattern`. */
  datatype Step = Step(next: State, applied: bv8)

  /** One pass of the loop body. The mode flips exactly on a falling edge, the
      last level becomes the sample, the active table's current pattern is
      shown and only the active cursor advances, wrapping at the table length. */
  function LoopStep(t: Tables, s: State, pinHigh: bool): (r: Step)
    requires Fits(t) && Valid(s)
    ensures Valid(r.next)
    ensures r.next.lastBtn == Level(pinHigh)
    ensures r.next.mode != s.mode <==> FallingEdge(s.lastBtn, pinHigh)
    ensures r.next.mode == 0 ==>
      r.applied == t.seqA[s.idxA] && r.next.idxA == (s.idxA + 1) % LenA && r.next.idxB == s.idxB
    ensures r.next.mode == 1 ==>
      r.applied == t.seqB[s.idxB] && r.next.idxB == (s.idxB + 1) % LenB && r.next.idxA == s.idxA
  {
    var btnNow := Level(pinHigh);
    var mode := if s.lastBtn == 1 && btnNow == 0 then Toggle(s.mode) else s.mode;
    var lastBtn := btnNow;
    if mode == 0 then
      Step(State(lastBtn, mode, (s.idxA + 1) % LenA, s.idxB), t.seqA[s.idxA])
    else
      Step(State(lastBtn, mode, s.idxA, (s.idxB + 1) % LenB), t.seqB[s.idxB])
  }

  /** The outcome of several passes: the final state and the pattern each pass
      showed, in order. */
  datatype Run = Run(final: State, shown: seq<bv8>)

  /** Runs the loop body once per button sample. */
  function RunLoop(t: Tables, s: State, samples: seq<bool>): (r: Run)
    requires Fits(t) && Valid(s)
    ensures Valid(r.final)
    ensures |r.shown| == |samples|
    decreases |samples|
  {
    if samples == [] then Run(s, [])
    else
      var st := LoopStep(t, s, samples[0]);
      var rest := RunLoop(t, st.next, samples[1..]);
      Run(rest.final, [st.applied] + rest.shown)
  }

  /** The output registers after `set_led_pattern` has been called with each of
      `pats` in turn: the LEDs show the last pattern, and no pin outside the
      LED masks has changed. */
  function ApplyAll(g: Outputs, pats: seq<bv8>): (r: Outputs)
    ensures |pats| > 0 ==> LedView(r) == Decode(pats[|pats| - 1])
    ensures |pats| > 0 ==> Shown(r) == pats[|pats| - 1]
    ensures SameOtherPins(g, r)
    decreases |pats|
  {
    if pats == [] then g
    else
      var before := ApplyAll(g, pats[..|pats| - 1]);
      var r := SetLedPattern(before, pats[|pats| - 1]);
      SameOtherPinsTransitive(g, before, r);
      r
  }

  /** Whether every sample of `samples` reads `high`: the button left
      released throughout (`true`) or held down throughout (`false`). */
  predicate Steady(samples: seq<bool>, high: bool)
  {
    forall i :: 0 <= i < |samples| ==> samples[i] == high
  }

  /** A steady run's first sample reads the steady level, and the samples
      after it are steady too. */
  lemma {:induction false} SteadyTail(samples: seq<bool>, high: bool)
    requires Steady(samples, high) && samples != []
    ensures samples[0] == high && Steady(samples[1..], high)
  {
    forall i | 0 <= i < |samples| - 1 ensures samples[1..][i] == high {
      assert samples[1..][i] == samples[i + 1];
    }
  }

  /** The firmware's tables have the firmware's lengths: ten and nine steps. */
  lemma FirmwareFits()
    ensures Fits(Firmware) && LenA == 10 && LenB == 9
  {
  }

  /** A cursor inside its table is its own remainder. */
  lemma {:induction false} ModInRange(x: nat, m: nat)
    requires m == LenA || m == LenB
    requires x < m
    ensures x % m == x
  {
    FirmwareFits();
  }

  /** Advancing a cursor once and then `c` more times lands where advancing
      it `total = c + 1` times does. */
  lemma {:induction false} AdvanceThenMore(a: nat, c: nat, total: nat, m: nat)
    requires m == LenA || m == LenB
    requires total == c + 1
    ensures ((a + 1) % m + c) % m == (a + total) % m
  {
    FirmwareFits();
    if m == 10 {
      AdvanceWrapsTen(a, c, total);
    } else {
      AdvanceWrapsNine(a, c, total);
    }
  }

  /** `AdvanceThenMore` for sequence A's ten steps. */
  lemma {:induction false} AdvanceWrapsTen(a: nat, c: nat, total: nat)
    requires total == c + 1
    ensures ((a + 1) % 10 + c) % 10 == (a + total) % 10
  {
  }

  /** `AdvanceThenMore` for sequence B's nine steps. */
  lemma {:induction false} AdvanceWrapsNine(a: nat, c: nat, total: nat)
    requires total == c + 1
    ensures ((a + 1) % 9 + c) % 9 == (a + total) % 9
  {
  }

  /** A run's first pass, then the rest of the run from the state it leaves. */
  lemma {:induction false} RunUnfolds(t: Tables, s: State, samples: seq<bool>)
    requires Fits(t) && Valid(s) && |samples| > 0
    ensures var st := LoopStep(t, s, samples[0]);
      && RunLoop(t, s, samples).final == RunLoop(t, st.next, samples[1..]).final
      && RunLoop(t, s, samples).shown == [st.applied] + RunLoop(t, st.next, samples[1..]).shown
  {
  }

  /** A released pass in mode 0 sees no edge, whatever the level before it:
      it shows sequence A's current step and advances only its cursor. */
  lemma {:induction false} ReleasedStepInSeqA(t: Tables, s: State)
    requires Fits(t) && Valid(s) && s.mode == 0
    ensures LoopStep(t, s, true) == Step(State(1, 0, (s.idxA + 1) % LenA, s.idxB), t.seqA[s.idxA])
  {
  }

  /** A released pass in mode 1 sees no edge, whatever the level before it:
      it shows sequence B's current step and advances only its cursor. */
  lemma {:induction false} ReleasedStepInSeqB(t: Tables, s: State)
    requires Fits(t) && Valid(s) && s.mode == 1
    ensures LoopStep(t, s, true) == Step(State(1, 1, s.idxA, (s.idxB + 1) % LenB), t.seqB[s.idxB])
  {
  }

  /** With the button left released from a state in mode 0, the loop stays in
      mode 0 and only sequence A's cursor moves, once per pass, wrapping after
      its last step. */
  lemma {:induction false} ReleasedKeepsModeA(t: Tables, s: State, samples: seq<bool>)
    requires Fits(t) && Valid(s) && s.mode == 0
    requires Steady(samples, true)
    ensures RunLoop(t, s, samples).final ==
      State(if samples == [] then s.lastBtn else 1, 0, (s.idxA + |samples|) % LenA, s.idxB)
    decreases |samples|
  {
    if samples == [] {
      ModInRange(s.idxA, LenA);
    } else {
      SteadyTail(samples, true);
      RunUnfolds(t, s, samples);
      ReleasedStepInSeqA(t, s);
      ReleasedKeepsModeA(t, LoopStep(t, s, true).next, samples[1..]);
      AdvanceThenMore(s.idxA, |samples| - 1, |samples|, LenA);
    }
  }

  /** With the button left released from a state in mode 1, the loop stays in
      mode 1 and only sequence B's cursor moves, once per pass, wrapping after
      its last step. */
  lemma {:induction false} ReleasedKeepsModeB(t: Tables, s: State, samples: seq<bool>)
    requires Fits(t) && Valid(s) && s.mode == 1
    requires Steady(samples, true)
    ensures RunLoop(t, s, samples).final ==
      State(if samples == [] then s.lastBtn else 1, 1, s.idxA, (s.idxB + |samples|) % LenB)
    decreases |samples|
  {
    if samples == [] {
      ModInRange(s.idxB, LenB);
    } else {
      SteadyTail(samples, true);
      RunUnfolds(t, s, samples);
      ReleasedStepInSeqB(t, s);
      ReleasedKeepsModeB(t, LoopStep(t, s, true).next, samples[1..]);
      AdvanceThenMore(s.idxB, |samples| - 1, |samples|, LenB);
    }
  }

  /** A table of one of the firmware's lengths read for `n` steps from step
      `a`, wrapping after its last step. */
  function Cycle(table: seq<bv8>, a: nat, n: nat): (r: seq<bv8>)
    requires (|table| == LenA || |table| == LenB) && a < |table|
    ensures |r| == n
    decreases n
  {
    if n == 0 then [] else [table[a]] + Cycle(table, (a + 1) % |table|, n - 1)
  }

  /** Step `i` of a table read from step `a` is the entry `i` places further
      on, modulo the table length. */
  lemma {:induction false} CycleIndex(table: seq<bv8>, a: nat, n: nat, i: nat)
    requires (|table| == LenA || |table| == LenB) && a < |table| && i < n
    ensures Cycle(table, a, n)[i] == table[(a + i) % |table|]
    decreases n
  {
    if i == 0 {
      ModInRange(a, |table|);
    } else {
      CycleIndex(table, (a + 1) % |table|, n - 1, i - 1);
      AdvanceThenMore(a, i - 1, i, |table|);
    }
  }

  /** With the button left released from a state in mode 0, the passes show
      sequence A in order from its cursor. */
  lemma {:induction false} ReleasedShowsSeqA(t: Tables, s: State, samples: seq<bool>)
    requires Fits(t) && Valid(s) && s.mode == 0
    requires Steady(samples, true)
    ensures RunLoop(t, s, samples).shown == Cycle(t.seqA, s.idxA, |samples|)
    decreases |samples|
  {
    if samples != [] {
      SteadyTail(samples, true);
      RunUnfolds(t, s, samples);
      ReleasedStepInSeqA(t, s);
      ReleasedShowsSeqA(t, LoopStep(t, s, true).next, samples[1..]);
    }
  }

  /** With the button left released from a state in mode 1, the passes show
      sequence B in order from its cursor. */
  lemma {:induction false} ReleasedShowsSeqB(t: Tables, s: State, samples: seq<bool>)
    requires Fits(t) && Valid(s) && s.mode == 1
    requires Steady(samples, true)
    ensures RunLoop(t, s, samples).shown == Cycle(t.seqB, s.idxB, |samples|)
    decreases |samples|
  {
    if samples != [] {
      SteadyTail(samples, true);
      RunUnfolds(t, s, samples);
      ReleasedStepInSeqB(t, s);
      ReleasedShowsSeqB(t, LoopStep(t, s, true).next, samples[1..]);
    }
  }

  /** With the button left released from a state in mode 0, pass `i`
      (counting from 0) shows the step of sequence A `i` places after its
      cursor, wrapping after its last step. */
  lemma {:induction false} ReleasedPassA(t: Tables, s: State, samples: seq<bool>, i: nat)
    requires Fits(t) && Valid(s) && s.mode == 0
    requires Steady(samples, true) && i < |samples|
    ensures RunLoop(t, s, samples).shown[i] == t.seqA[(s.idxA + i) % LenA]
  {
    ReleasedShowsSeqA(t, s, samples);
    CycleIndex(t.seqA, s.idxA, |samples|, i);
  }

  /** With the button left released from a state in mode 1, pass `i`
      (counting from 0) shows the step of sequence B `i` places after its
      cursor, wrapping after its last step. */
  lemma {:induction false} ReleasedPassB(t: Tables, s: State, samples: seq<bool>, i: nat)
    requires Fits(t) && Valid(s) && s.mode == 1
    requires Steady(samples, true) && i < |samples|
    ensures RunLoop(t, s, samples).shown[i] == t.seqB[(s.idxB + i) % LenB]
  {
    ReleasedShowsSeqB(t, s, samples);
    CycleIndex(t.seqB, s.idxB, |samples|, i);
  }

  /** From power-up with the button never pressed the loop stays in mode 0,
      and after `n` passes sequence A's cursor is at step `n mod 10`. */
  lemma {:induction false} StartupStaysInModeA(samples: seq<bool>)
    requires Steady(samples, true)
    ensures RunLoop(Firmware, Init, samples).final == State(1, 0, |samples| % 10, 0)
  {
    FirmwareFits();
    ReleasedKeepsModeA(Firmware, Init, samples);
  }

  /** From power-up with the button never pressed, pass `i` (counting from 0)
      shows step `i mod 10` of sequence A. */
  lemma {:induction false} StartupPass(samples: seq<bool>, i: nat)
    requires Steady(samples, true) && i < |samples|
    ensures RunLoop(Firmware, Init, samples).shown[i] == SeqA[i % LenA]
  {
    FirmwareFits();
    ReleasedPassA(Firmware, Init, samples, i);
    assert Init.idxA + i == i;
  }

  /** The first three passes after power-up, button released, show 0x02, 0x13
      and 0xB3. */
  lemma FirstThreePasses()
    ensures RunLoop(Firmware, Init, [true, true, true]).shown == [0x02, 0x13, 0xB3]
  {
    FirmwareFits();
    ReleasedShowsSeqA(Firmware, Init, [true, true, true]);
  }

  /** With sequence B's cursor at its start, in mode 1 and the button then
      left released, pass `i` (counting from 0) shows step `i mod 9` of
      sequence B: 0xFF, 0x80, 0x08, 0x04, 0x40, 0x20, 0x10, 0x02, 0x01, and
      then the same again. */
  lemma {:induction false} SeqBFromStart(s: State, samples: seq<bool>, i: nat)
    requires Valid(s) && s.mode == 1 && s.idxB == 0
    requires Steady(samples, true) && i < |samples|
    ensures RunLoop(Firmware, s, samples).shown[i] == SeqB[i % LenB]
  {
    FirmwareFits();
    ReleasedPassB(Firmware, s, samples, i);
  }

  /** The number of falling edges (released to pressed) in `samples`, the
      level before the first sample being `lastBtn`. */
  function FallingEdges(lastBtn: int, samples: seq<bool>): nat
    decreases |samples|
  {
    if samples == [] then 0
    else (if FallingEdge(lastBtn, samples[0]) then 1 else 0) + FallingEdges(Level(samples[0]), samples[1..])
  }

  /** Over any run the mode flips once per falling edge and never otherwise. */
  lemma {:induction false} ModeFollowsEdges(t: Tables, s: State, samples: seq<bool>)
    requires Fits(t) && Valid(s)
    ensures RunLoop(t, s, samples).final.mode == (s.mode + FallingEdges(s.lastBtn, samples)) % 2
    decreases |samples|
  {
    if samples != [] {
      var st := LoopStep(t, s, samples[0]);
      RunUnfolds(t, s, samples);
      ModeFollowsEdges(t, st.next, samples[1..]);
    }
  }

  /** After a run the last level remembered is that of the run's last sample. */
  lemma {:induction false} LastLevelRemembered(t: Tables, s: State, samples: seq<bool>)
    requires Fits(t) && Valid(s)
    ensures RunLoop(t, s, samples).final.lastBtn ==
      if samples == [] then s.lastBtn else Level(samples[|samples| - 1])
    decreases |samples|
  {
    if samples != [] {
      var st := LoopStep(t, s, samples[0]);
      RunUnfolds(t, s, samples);
      LastLevelRemembered(t, st.next, samples[1..]);
      if |samples| > 1 {
        assert samples[1..][|samples| - 2] == samples[|samples| - 1];
      }
    }
  }

  /** Holding the button down produces at most one falling edge: one when it
      was released before, none when it was already held. */
  lemma {:induction false} HeldDownEdges(lastBtn: int, samples: seq<bool>)
    requires lastBtn == 0 || lastBtn == 1
    requires Steady(samples, false)
    ensures FallingEdges(lastBtn, samples) == if samples != [] && lastBtn == 1 then 1 else 0
    decreases |samples|
  {
    if samples != [] {
      SteadyTail(samples, false);
      HeldDownEdges(0, samples[1..]);
    }
  }

  /** Holding the button down for any number of passes toggles the mode at
      most once: exactly once if the button was released before, and not at
      all if it was already held. */
  lemma {:induction false} HeldDownTogglesOnce(t: Tables, s: State, samples: seq<bool>)
    requires Fits(t) && Valid(s)
    requires Steady(samples, false)
    ensures RunLoop(t, s, samples).final.mode ==
      if samples != [] && s.lastBtn == 1 then Toggle(s.mode) else s.mode
  {
    ModeFollowsEdges(t, s, samples);
    HeldDownEdges(s.lastBtn, samples);
  }

  /** The number of passes of a run that end in mode `m`, the mode whose
      sequence the pass shows. */
  function PassesIn(t: Tables, s: State, samples: seq<bool>, m: int): nat
    requires Fits(t) && Valid(s)
    decreases |samples|
  {
    if samples == [] then 0
    else
      var st := LoopStep(t, s, samples[0]);
      (if st.next.mode == m then 1 else 0) + PassesIn(t, st.next, samples[1..], m)
  }

  /** Every pass of a run is in exactly one of the two modes. */
  lemma {:induction false} PassesSplit(t: Tables, s: State, samples: seq<bool>)
    requires Fits(t) && Valid(s)
    ensures PassesIn(t, s, samples, 0) + PassesIn(t, s, samples, 1) == |samples|
    decreases |samples|
  {
    if samples != [] {
      PassesSplit(t, LoopStep(t, s, samples[0]).next, samples[1..]);
    }
  }

  /** One step of counting a cursor's advances: a cursor that ends `c`
      advances after `a1`, where `a1` is one advance after `a0` or `a0`
      itself, ends `total` advances after `a0`. */
  lemma {:induction false} CountStep(a0: nat, a1: nat, fin: int, c: nat, total: nat, m: nat, advanced: bool)
    requires m == LenA || m == LenB
    requires a0 < m
    requires fin == (a1 + c) % m
    requires advanced ==> a1 == (a0 + 1) % m && total == c + 1
    requires !advanced ==> a1 == a0 && total == c
    ensures fin == (a0 + total) % m
  {
    if advanced {
      AdvanceThenMore(a0, c, total, m);
    }
  }

  /** Over any run sequence A's cursor advances once per pass in mode 0 and
      never otherwise, wrapping at the table length. */
  lemma {:induction false} CursorACountsPasses(t: Tables, s: State, samples: seq<bool>)
    requires Fits(t) && Valid(s)
    ensures RunLoop(t, s, samples).final.idxA == (s.idxA + PassesIn(t, s, samples, 0)) % LenA
    decreases |samples|
  {
    if samples == [] {
      ModInRange(s.idxA, LenA);
    } else {
      var st := LoopStep(t, s, samples[0]);
      RunUnfolds(t, s, samples);
      CursorACountsPasses(t, st.next, samples[1..]);
      CountStep(s.idxA, st.next.idxA, RunLoop(t, s, samples).final.idxA, PassesIn(t, st.next, samples[1..], 0),
        PassesIn(t, s, samples, 0), LenA, st.next.mode == 0);
    }
  }

  /** Over any run sequence B's cursor advances once per pass in mode 1 and
      never otherwise, wrapping at the table length. */
  lemma {:induction false} CursorBCountsPasses(t: Tables, s: State, samples: seq<bool>)
    requires Fits(t) && Valid(s)
    ensures RunLoop(t, s, samples).final.idxB == (s.idxB + PassesIn(t, s, samples, 1)) % LenB
    decreases |samples|
  {
    if samples == [] {
      ModInRange(s.idxB, LenB);
    } else {
      var st := LoopStep(t, s, samples[0]);
      RunUnfolds(t, s, samples);
      CursorBCountsPasses(t, st.next, samples[1..]);
      CountStep(s.idxB, st.next.idxB, RunLoop(t, s, samples).final.idxB, PassesIn(t, st.next, samples[1..], 1),
        PassesIn(t, s, samples, 1), LenB, st.next.mode == 1);
    }
  }

  /** Running the loop over two lists of samples in turn is running it over
      their concatenation. */
  lemma {:induction false} RunSplits(t: Tables, s: State, first: seq<bool>, second: seq<bool>)
    requires Fits(t) && Valid(s)
    ensures var r1 := RunLoop(t, s, first);
      var r2 := RunLoop(t, r1.final, second);
      RunLoop(t, s, first + second) == Run(r2.final, r1.shown + r2.shown)
    decreases |first|
  {
    if first == [] {
      assert first + second == second;
    } else {
      var st := LoopStep(t, s, first[0]);
      var r1 := RunLoop(t, st.next, first[1..]);
      var r2 := RunLoop(t, r1.final, second);
      assert (first + second)[0] == first[0];
      assert (first + second)[1..] == first[1..] + second;
      RunUnfolds(t, s, first + second);
      RunSplits(t, st.next, first[1..], second);
      assert RunLoop(t, s, first + second) == Run(r2.final, [st.applied] + (r1.shown + r2.shown));
      RunUnfolds(t, s, first);
      assert [st.applied] + (r1.shown + r2.shown) == ([st.applied] + r1.shown) + r2.shown;
    }
  }

  /** Three released passes after power-up and then a press: sequence A's
      first three steps, then sequence B's all-on step. */
  lemma PressAfterThreePasses()
    ensures RunLoop(Firmware, Init, [true, true, true, false]) == Run(State(0, 1, 3, 1), [0x02, 0x13, 0xB3, 0xFF])
  {
    FirmwareFits();
    FirstThreePasses();
    StartupStaysInModeA([true, true, true]);
    assert RunLoop(Firmware, State(1, 0, 3, 0), [false]) == Run(State(0, 1, 3, 1), [0xFF]) by {
      RunUnfolds(Firmware, State(1, 0, 3, 0), [false]);
    }
    RunSplits(Firmware, Init, [true, true, true], [false]);
    assert [true, true, true] + [false] == [true, true, true, false];
  }

  /** From the state that press leaves, two released passes, a second press
      and a release: sequence B's next two steps, then sequence A resumed at
      index 3, where it stopped, showing 0xFB. */
  lemma SecondPressResumesSeqA()
    ensures RunLoop(Firmware, State(0, 1, 3, 1), [true, true, false, true]) == Run(State(1, 0, 5, 3), [0x80, 0x08, 0xFB, 0xFF])
  {
    FirmwareFits();
    assert RunLoop(Firmware, State(0, 0, 4, 3), [true]) == Run(State(1, 0, 5, 3), [0xFF]) by {
      RunUnfolds(Firmware, State(0, 0, 4, 3), [true]);
    }
    assert RunLoop(Firmware, State(1, 1, 3, 3), [false, true]) == Run(State(1, 0, 5, 3), [0xFB, 0xFF]) by {
      RunUnfolds(Firmware, State(1, 1, 3, 3), [false, true]);
    }
    assert RunLoop(Firmware, State(1, 1, 3, 2), [true, false, true]) == Run(State(1, 0, 5, 3), [0x08, 0xFB, 0xFF]) by {
      RunUnfolds(Firmware, State(1, 1, 3, 2), [true, false, true]);
    }
    assert RunLoop(Firmware, State(0, 1, 3, 1), [true, true, false, true]) == Run(State(1, 0, 5, 3), [0x80, 0x08, 0xFB, 0xFF]) by {
      RunUnfolds(Firmware, State(0, 1, 3, 1), [true, true, false, true]);
    }
  }

  /** Three released passes, a press, two released passes, another press and
      a release: the second press returns to sequence A where it left off
      (index 3, showing 0xFB) rather than at its start, and sequence B's
      cursor stays at index 3, where it stopped. */
  lemma ToggleKeepsCursors()
    ensures var r := RunLoop(Firmware, Init, [true, true, true, false, true, true, false, true]);
      && r.shown == [0x02, 0x13, 0xB3, 0xFF, 0x80, 0x08, 0xFB, 0xFF]
      && r.final == State(1, 0, 5, 3)
  {
    FirmwareFits();
    PressAfterThreePasses();
    SecondPressResumesSeqA();
    RunSplits(Firmware, Init, [true, true, true, false], [true, true, false, true]);
    assert [true, true, true, false] + [true, true, false, true] == [true, true, true, false, true, true, false, true];
  }
}
