# blink_p2_0: LED pattern firmware, modelled in Dafny

The `blink_p2_0` firmware drives eight LEDs spread over three GPIO ports of
the board: LEDs 0-3 on port 2, LEDs 4-6 on port 0 and LED 7 on port 1. A
push button on P0_2, pulled up, reads high while released.

The firmware's `main` steps forever through one of two constant 8-bit
pattern tables:
- sequence A, ten steps, fills the LEDs group by group and then drains them;
- sequence B, nine steps, flashes all eight and then lights each LED alone.

Each press of the button switches tables. The switch fires on a falling
edge, from released to pressed. Each table keeps its own cursor, so a
switch never resets either cursor. Each pattern goes to the board through
`set_led_pattern`. That function decodes the eight bits into one pin mask
per port, using a fixed bit-to-pin map. It then clears every LED pin of
all three ports and sets only the decoded pins.

The model has four modules:
- `Gpio` (gpio.dfy): pins, pin masks as 32-bit words, the three output
  registers, and the output-set and output-clear calls. Each call changes
  only the named pins of the named port.
- `Leds` (leds.dfy): the wiring constants and the bit-to-(port, pin) map,
  plus the decoder and `set_led_pattern`. A read-back function `Shown`
  recovers the pattern the LEDs display, and `Decode` and `Shown` are
  inverse to each other.
- `Sequences` (sequences.dfy): the two pattern tables, and the shape their
  comments describe.
- `MainLoop` (mainloop.dfy): the loop body as a pure step function over
  `(last_btn, mode, idxA, idxB)`, plus runs over a finite list of button
  samples and their properties. The runs cover edge detection, cursor
  bookkeeping, what the firmware shows from power-up, and the
  press-and-resume scenario.

The loop's properties are proved for any pair of tables of the firmware's
lengths (ten and nine). `MainLoop.Firmware` holds the firmware's own
tables, and the concrete scenarios are proved on those.

## Model

| member | source | states |
|---|---|---|
| Gpio.OutClr | blink_p2_0/main.c:60-63 | clearing a mask on a port drives exactly those pins low; every other pin of that port and every pin of the other ports keeps its level |
| Gpio.OutSet | blink_p2_0/main.c:65-68 | setting a mask on a port drives exactly those pins high; every other pin of that port and every pin of the other ports keeps its level |
| Leds.LedPinValues | blink_p2_0/main.c:10-27 | the LED pin constants and the three port LED masks, as words |
| Leds.LedMasksFollowMap | blink_p2_0/main.c:10-42 | each port's LED mask holds exactly the pins the documented bit map places on that port, and no two LEDs share a pin |
| Leds.MapIndex | blink_p2_0/main.c:33-42 | every LED pin of a port belongs to an LED whose mapped (port, pin) is that pin |
| Leds.Decode | blink_p2_0/main.c:43-58 | the decoded masks never name a pin outside their port's LED mask |
| Leds.DecodeBit | blink_p2_0/main.c:33-58 | the decoded mask of LED k's port holds LED k's pin exactly when bit k is set |
| Leds.DecodeFollowsMap | blink_p2_0/main.c:33-58 | for every pattern, both directions: bit k set iff LED k's mapped pin is in the decoded mask, and every decoded pin is the mapped pin of a set bit |
| Leds.DecodeExtremes | blink_p2_0/main.c:43-58 | the pattern decodes to no pins iff it is 0x00, and to every LED pin iff it is 0xFF |
| Leds.Shown | blink_p2_0/main.c:33-42 | the pattern read back from the registers has bit k set exactly when LED k's pin is driven high |
| Leds.ShownFromBit | blink_p2_0/main.c:33-42 | the read-back of LEDs k to 7 has bit j set exactly when j is at least k and LED j is on |
| Leds.LedOnInView | blink_p2_0/main.c:33-42 | LED k is on exactly when its pin is in the LED view of its port |
| Leds.ShownInvertsDecode | blink_p2_0/main.c:43-58 | LED pins that hold the decoding of a pattern show that pattern |
| Leds.DecodeInvertsShown | blink_p2_0/main.c:43-58 | decoding the shown pattern gives back the LED pins' state: with the previous row, the decoder is a bijection between patterns and LED states |
| Leds.DecodeInvertsShownOn | blink_p2_0/main.c:43-58 | the same, one port at a time |
| Leds.MasksAgree | blink_p2_0/main.c:10-27 | two masks inside a port's LED mask that agree on each of that port's LED pins are equal |
| Leds.ClearLeds | blink_p2_0/main.c:60-63 | after the three clear calls every LED pin is low and every non-LED pin keeps its level |
| Leds.SetMasks | blink_p2_0/main.c:65-68 | starting from dark LEDs, the three set calls leave the LED pins holding exactly the given masks and leave every non-LED pin alone |
| Leds.SetLedPattern | blink_p2_0/main.c:43-69 | afterwards the LED pins hold exactly the decoded masks, the LEDs show the pattern, and no pin outside the LED masks has changed |
| Leds.SetLedPatternForgetsHistory | blink_p2_0/main.c:60-68 | because of clear-then-set, the LEDs after the call depend only on the pattern and not on what was lit before |
| Leds.SetLedPatternKeepsButtonPin | blink_p2_0/main.c:18-31 | the call never changes the button pin P0_2, which shares port 0 with three LEDs |
| Leds.OtherPinsKeepButton | blink_p2_0/main.c:22-31 | output states that agree outside the LED masks agree on the button pin |
| Leds.ButtonOutsideLeds | blink_p2_0/main.c:22-31 | the button pin lies outside port 0's LED mask |
| Leds.AllLedsOff | blink_p2_0/main.c:101-104 | after the start-up clears the LEDs show the empty pattern and no other pin has changed |
| Sequences.SeqAFillsThenDrains | blink_p2_0/main.c:120-153 | sequence A has ten steps: four strictly growing fill steps reach 0xFF, the next four mirror the fill steps, and the last is 0x00 |
| Sequences.SeqAAddsDocumentedGroups | blink_p2_0/main.c:120-152 | each fill step lights exactly the LED group its comment names, in the listed order |
| Sequences.SeqBLed | blink_p2_0/main.c:168-179 | every step of sequence B after the first is a single-LED pattern |
| Sequences.SeqBStep | blink_p2_0/main.c:168-179 | every LED's single-LED pattern occurs among steps 1-8 of sequence B |
| Sequences.SeqBStepInvertsLed | blink_p2_0/main.c:168-179 | taking the LED that step i lights and then the step that lights that LED gives back i, so steps 1-8 and the eight LEDs correspond one to one |
| Sequences.SeqBFlashesThenVisitsEach | blink_p2_0/main.c:156-180 | sequence B has nine steps: 0xFF first, then a permutation of the eight single-LED patterns |
| Sequences.SeqBFollowsDocumentedOrder | blink_p2_0/main.c:156-179 | each single-LED step of sequence B lights exactly the LED its comment lists, in order |
| MainLoop.LoopStep | blink_p2_0/main.c:183-205 | one pass keeps the state valid (cursors in range); mode flips iff last_btn was 1 and the sample reads 0; last_btn becomes the sample; the active table's current step is applied; only the active cursor advances, modulo its length |
| MainLoop.RunLoop | blink_p2_0/main.c:183-205 | a run keeps the state valid and applies one pattern per pass |
| MainLoop.ApplyAll | blink_p2_0/main.c:197-200 | after a run's calls of set_led_pattern the LEDs show the last pattern and no non-LED pin has changed |
| MainLoop.FirmwareFits | blink_p2_0/main.c:141-181 | the firmware's tables have ten and nine steps |
| MainLoop.ReleasedStepInSeqA | blink_p2_0/main.c:185-200 | a released pass in mode 0, whatever the previous level, sees no edge, shows sequence A's current step and advances only its cursor |
| MainLoop.ReleasedStepInSeqB | blink_p2_0/main.c:185-205 | a released pass in mode 1, whatever the previous level, sees no edge, shows sequence B's current step and advances only its cursor |
| MainLoop.ReleasedKeepsModeA | blink_p2_0/main.c:185-205 | from any state in mode 0, including the one a press back to sequence A leaves, with the button released throughout, mode 0 is kept, last_btn becomes 1 and only sequence A's cursor moves, once per pass, wrapping at ten |
| MainLoop.ReleasedKeepsModeB | blink_p2_0/main.c:185-205 | from any state in mode 1 with the button released throughout, mode 1 is kept, last_btn becomes 1 and only sequence B's cursor moves, once per pass, wrapping at nine |
| MainLoop.Cycle | blink_p2_0/main.c:197-205 | reading a table of either sequence's length n times from a cursor yields n patterns |
| MainLoop.CycleIndex | blink_p2_0/main.c:197-205 | the i-th pattern read from cursor a is the entry (a + i) mod the length |
| MainLoop.ReleasedShowsSeqA | blink_p2_0/main.c:185-200 | from any state in mode 0, with the button released throughout, the passes show sequence A in order from its cursor, wrapping |
| MainLoop.ReleasedShowsSeqB | blink_p2_0/main.c:185-205 | from any state in mode 1, with the button released throughout, the passes show sequence B in order from its cursor, wrapping |
| MainLoop.ReleasedPassA | blink_p2_0/main.c:185-200 | from any state in mode 0, with the button released throughout, pass i shows the step of sequence A i places after its cursor, modulo ten |
| MainLoop.ReleasedPassB | blink_p2_0/main.c:185-205 | from any state in mode 1, with the button released throughout, pass i shows the step of sequence B i places after its cursor, modulo nine |
| MainLoop.StartupStaysInModeA | blink_p2_0/main.c:115-116 | from power-up with the button never pressed, mode stays 0 and after n passes sequence A's cursor is at n mod 10 while B's is at 0 |
| MainLoop.StartupPass | blink_p2_0/main.c:141-154 | from power-up with the button never pressed, pass n shows step n mod 10 of sequence A, so the table repeats identically |
| MainLoop.FirstThreePasses | blink_p2_0/main.c:141-154 | the first three passes after power-up show 0x02, 0x13, 0xB3 |
| MainLoop.SeqBFromStart | blink_p2_0/main.c:168-181 | in mode 1 with sequence B's cursor at its start and the button released, pass n shows step n mod 9 of sequence B, so the nine patterns repeat identically |
| MainLoop.ModeFollowsEdges | blink_p2_0/main.c:185-194 | over any run the final mode is the initial mode plus the number of falling edges, modulo 2: the mode flips on each falling edge and never otherwise |
| MainLoop.LastLevelRemembered | blink_p2_0/main.c:185-194 | after a run last_btn is the level of the last sample |
| MainLoop.HeldDownEdges | blink_p2_0/main.c:185-194 | a button held down throughout gives one falling edge if it was released before and none otherwise |
| MainLoop.HeldDownTogglesOnce | blink_p2_0/main.c:185-194 | holding the button down for any number of passes toggles the mode at most once |
| MainLoop.PassesSplit | blink_p2_0/main.c:197-205 | every pass is counted in exactly one of the two modes |
| MainLoop.CursorACountsPasses | blink_p2_0/main.c:197-201 | over any run sequence A's cursor advances once per pass in mode 0 and never otherwise, modulo ten |
| MainLoop.CursorBCountsPasses | blink_p2_0/main.c:201-205 | over any run sequence B's cursor advances once per pass in mode 1 and never otherwise, modulo nine |
| MainLoop.RunSplits | blink_p2_0/main.c:183-205 | running over two sample lists in turn equals running over their concatenation |
| MainLoop.PressAfterThreePasses | blink_p2_0/main.c:183-205 | three released passes and a press show 0x02, 0x13, 0xB3 and then 0xFF, the first step of sequence B |
| MainLoop.SecondPressResumesSeqA | blink_p2_0/main.c:183-205 | from there, two passes of sequence B and a second press resume sequence A at index 3, where it stopped, showing 0xFB |
| MainLoop.ToggleKeepsCursors | blink_p2_0/main.c:183-205 | across two presses neither cursor is reset: sequence A resumes where it stopped and sequence B's cursor stays at index 3, where it stopped |

## Left out

- Board initialisation, the GPIO configuration calls, the start-up `printf`
  banner and the button's pull-up configuration are left out. The model
  assumes that these vendor calls do not drive any output pin. The
  start-up clears that follow them are modelled by `AllLedsOff`.
- The loop's `printf` of the new mode is left out. It runs exactly on the
  passes where `FallingEdge` holds, right after the toggle, and changes no
  pin.
- The register semantics of the output-set and output-clear calls are an
  abstraction: each output register is a 32-bit set of pins driven high. The
  vendor constant for pin n is taken to be `1 << n`; the vendor header is
  not part of this model.
- Reading the button is a parameter. Each pass takes whether the pin reads
  high, so there is no input-register model.
- The two `MXC_Delay` calls are left out: the debounce delay after a
  toggle and the delay at the end of every pass. There is no clock, so
  debounce is not modelled and a bouncing contact appears as extra samples.
- The endless loop becomes a run over a finite list of button samples.
  Every property holds for runs of any length.
- MainLoop.Toggle: the source's `mode ^= 1` is modelled as `1 - mode`. The
  two agree on the only values the mode takes, 0 and 1, and the model's
  `Valid` invariant keeps the mode there.
- The pattern tables are a parameter of the loop. Its properties are stated
  for any tables of the firmware's lengths, and the firmware's own tables
  appear through `Firmware` in the concrete scenarios.
