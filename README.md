# Grain scrub effect and control surface, modelled in Dafny

This project models the core of a Teensy granular "freeze/scrub" audio effect and its control
surface. Each part follows the C++ code it comes from.

- **Double-buffered scrub engine.** `GrainScrubEffectCircular` comes from circular.h and
  circular.cpp. One `int16_t` bank is split into two halves:
  - While stopped, every input sample is written into both halves.
  - While running, new audio is recorded into one half and the other half is replayed as a grain.
  - The grain is read through a 16.16 unsigned phase accumulator, forward or in reverse, with a
    boundary fade.
  - Setters stage a pending parameter set (offset, length, rate, direction). It becomes active
    only in `start()` or at a grain boundary.
- **One-shot effect.** `GrainScrubEffect` comes from effect.cpp. It has a single buffer. After
  `start()`, capture begins at the first zero crossing. Playback begins once
  `offset + length` samples are in.
- **Wavetable LFO.** From lfo.cpp: the 16.16 `interpolate`, the `WavetableLFO` phase clock, and
  the constant tables `TBL_*`.
- **Control surface.** From control.cpp:
  - `ControlState`, a registry of components polled every 10 ms;
  - `Button`, with debounce, edges and click lengths;
  - `Potentiometer`, with a 32-slot ring, an in-place bubble sort, a trimmed mean and a clamp;
  - `DigitalLed`, a blink timer;
  - `GateTrigger`, a debounced gate input with an LED.

## How the model is built

- **Modules.** Each module follows one part of the program:

  | module | what it holds |
  |---|---|
  | `FixedPoint` | C integer semantics over unbounded `int`: `int16_t` narrowing, `uint32_t` wrap-around, truncating `/` and `%`, float-to-int truncation |
  | `Grain` | the accumulator step and grain-boundary commit shared by both engines |
  | `Staging` | the clamps and conversions of the circular.h setters |
  | `CircularSpec`, `EffectSpec` | the engines' state as values, with one function per operation |
  | `Circular`, `Effect` | the classes |
  | `Lfo`, `LfoTables` | the interpolator, the LFO clock and the tables |
  | `ControlSpec`, `Control` | the control logic as functions, and the control classes |

- **Classes prove themselves against the specification functions.** Every class keeps the C++
  fields and updates them in place.
  - Each method's postcondition ties the new state to a specification function of the old
    state, e.g. `State() == Started(old(State()))`.
  - `update` rewrites the bank and the block arrays sample by sample in a loop. It is proved
    equal to a fold (`RunBlock`) of the per-sample function.
  - The lemmas about the specification functions state what the source promises.
- **C semantics are written out.**
  - `uint32_t` arithmetic is reduction modulo 2^32.
  - Narrowing to `int16_t` keeps the low 16 bits.
  - C `/` and `%` truncate toward zero.
  - `float` values are `real`s, and conversions to integer truncate toward zero.
- **Inputs from the environment become parameters.** Pin readings, `millis()` and Arduino's
  `map` are passed in as parameters.

### Where the code differs from its documented design

The model follows the code.

- **Negative speeds.** `setSpeed` is documented as clamping to `[-4, 4]`, snapping
  `(-0.125, 0)` to `-0.125`, and storing `round(ratio * 65536)`. The code's third test has no
  lower bound, so every ratio in `[-4, -0.125)` is stored as the slow forward rate 8192. The
  surviving negative rates are one unit short (`-8191`, `-262143`) because of the `+ 0.499`
  truncation. See `Staging.NegativeSpeedsAsWritten`.
- **Fade divisor.** The design notes say circular.cpp's reverse fade divides by 20. Both of its
  branches divide by 32 (circular.cpp:100-107, 131-138). Only effect.cpp uses 20.
- **`setLengthMs(100)`.** The design notes say that with a 1000-sample half this stages 999. The
  millisecond clamp to `length_ms` converts back to exactly 1000 samples, which passes the
  minimum test, so the code stages 1000. Float rounding gives the same. See
  `Staging.LengthMsClampsToHalf`.
- **`start()` and the accumulator.** The design says `start()` resets the accumulator. The code
  resets only `read_head` (circular.cpp:25). `CircularSpec.Started` keeps the accumulator.
- **Read index range.** The physical read index is documented to lie always in
  `[0, 2 * max_sample_len)`. `CircularSpec.ReadIndex` proves this whenever
  `offset + read_head + read_head_offset >= 0`. A zero-length reverse grain reads index -1; see
  `CircularSpec.EmptyReverseGrainReadsBelowBank`.

Other behaviour of the code as written, each exhibited by a lemma:

- `CircularSpec.ReverseCommitOvershoots`: a reverse commit sets `read_head` from the length of
  the grain that ended. The end-window fade factor can then be negative, and the faded sample
  leaves the `int16_t` range.
- `EffectSpec.ReverseFadeAmplifies`: effect.cpp's reverse end window scales by `read_head / 20`,
  so it can amplify.
- `Grain.NegativeRateCommitsAtOnce`: a negative stored rate commits at every sample of a
  forward grain.
- `Lfo.PhaseWrapsForLongPeriods`: the 32-bit phase product wraps, so a 60-entry LFO with a
  2000 ms period jumps back to the start of its table at 1111 ms.
- `ControlSpec.PressedRepeatsDuringBounce`: `pressed` stays set through a bounce.
- `ControlSpec.BlinkFlipsEarlyNearWrap`: the LED flips early when `_last_ms + _period` wraps.
- `ControlSpec.SpuriousLowAtStart`: a gate input starts at the closed level, so an open input
  reports a falling edge.

## Model

| member | source | states |
|---|---|---|
| FixedPoint.Wrap16 | circular.h:180-189 | storing an int into an `int16_t` gives a value in `[-32768, 32768)`, congruent to it modulo 2^16, and equal to it when it already fits |
| FixedPoint.U32 | circular.h:179 | `uint32_t` arithmetic: the result is in `[0, 2^32)`, congruent modulo 2^32, and unchanged when already in range |
| FixedPoint.Elapsed | control.cpp:127 | `ms - last_ms` in unsigned long is the plain difference without wrap and `ms + 2^32 - last_ms` across the wrap of `millis()` |
| FixedPoint.CQuot | control.cpp:205 | C division by a positive divisor: the magnitude is the floor of the magnitude ratio, and the sign is the dividend's |
| FixedPoint.CRem | circular.cpp:94-96 | C `%` by a positive divisor: the floor remainder for a non-negative dividend, in `(-b, 0]` for a negative one |
| FixedPoint.TruncReal | circular.h:52 | float-to-integer conversion truncates toward zero: it lies within 1 of the value on its side of zero |
| FixedPoint.Scale | circular.cpp:100-107 | `(int16_t)(sample * num / den)` for a dyadic factor: never louder than the sample for `0 <= num <= den`, 0 at `num == 0`, the sample at `num == den` |
| FixedPoint.ScaleMonotone | circular.cpp:100-107 | a larger fade factor never gives a smaller magnitude |
| Grain.Advance | circular.cpp:79-122 | one accumulator step: the `uint32_t` accumulator stays in range; a commit happens exactly when the `int16_t` position leaves `[0, length)`; without a commit the active set is kept and the read head is the position; with one, the accumulator is 0, the pending set becomes active, and the read head is 0 (forward) or the old `length - 1` (reverse) |
| Grain.Position | circular.cpp:82 | the position is the accumulator's integer part (`accumulator >> 16`), counted from the start of the grain forward and from `length - 1` in reverse (circular.cpp:113) |
| Grain.PendingInvisibleMidGrain | circular.cpp:83-91 | the pending set neither decides whether a step commits nor affects a step that does not commit |
| Grain.ReverseMirrorsForward | circular.cpp:80-122 | for the same grain, rate and accumulator, reverse commits exactly when forward does and otherwise reads position `length - 1 - k` for forward's `k` |
| Grain.NegativeRateCommitsAtOnce | circular.cpp:81-91 | a negative rate wraps the unsigned accumulator, the `int16_t` position turns negative, and a forward grain commits at once with read head 0 |
| Staging.MsToSamplesOfLengthMs | circular.cpp:7 | `length_ms` converted back to samples is exactly `max_sample_len` |
| Staging.LengthMs | circular.cpp:7 | `length_ms` is the duration of the half: converted back to samples it is exactly `max_sample_len`, and it is non-negative |
| Staging.MsToSamples | circular.h:73 | `ms * AUDIO_SAMPLE_RATE_EXACT * 0.001` is the number of samples lasting `ms` milliseconds at 44100 Hz, non-negative for a non-negative duration |
| Staging.FractionOfHalf | circular.h:93 | `pos * max_sample_len` for a fraction in `[0, 1]` lies between 0 and `max_sample_len` |
| Staging.ClampSpeed | circular.h:44-51 | ratios above 4 become 4 and below -4 become -4; `[-0.125, 0)` becomes -0.125 and `[0, 0.125)` becomes 0.125; `[0.125, 4]` is kept; `[-4, -0.125)` becomes +0.125 |
| Staging.SpeedRate | circular.h:52 | the stored rate fits `int32_t`, is one of -262143, -8191 or in `[8192, 262144]`, and for kept ratios is within rounding of `ratio * 65536` |
| Staging.SlowSpeedSnapsToEighth | circular.h:48-52 | `setSpeed(0.05)` stores 8192 |
| Staging.NegativeSpeedsAsWritten | circular.h:44-52 | ratios in `[-4, -0.125)` store 8192, ratios in `[-0.125, 0)` store -8191, and ratios below -4 store -262143 |
| Staging.ClampStartMs | circular.h:68-72 | a negative start becomes 0, one beyond `length_ms` becomes `length_ms - 1`, and others are kept |
| Staging.StartOffsetMs | circular.h:73 | the new offset never passes the end of the half and is non-negative once a half holds 44 samples |
| Staging.ClampStartPos | circular.h:89-92 | the start fraction is clamped into `[0, 0.99]` and kept when inside |
| Staging.StartOffsetPos | circular.h:93 | the new offset lies in `[0, max_sample_len)` once `begin` has run |
| Staging.FitLength | circular.h:75-79 | the ideal length is kept when it fits after the offset, otherwise the room left less the margin, so the grain never runs past the half |
| Staging.StartMsFits | circular.h:67-80 | after `setStartMs` the staged grain ends inside the half, exactly at its end when the ideal length had to be cut |
| Staging.StartPosFits | circular.h:88-100 | after `setStartPos` the staged grain ends inside the half, one short of its end when cut, with a non-negative cut length |
| Staging.ClampLengthMs | circular.h:109-113 | a length below 1 ms becomes 1, one beyond `length_ms` becomes `length_ms`, and others are kept |
| Staging.ClampLengthPos | circular.h:131-134 | the length fraction is clamped into `[0.01, 1]` and kept when inside |
| Staging.StageLength | circular.h:115-117 | a length of at least 50 is kept, and a shorter one is replaced by `max_sample_len - offset - 1` |
| Staging.LengthSamplesMs | circular.h:114 | from an active offset inside the half, the requested length is at least `-offset` and never reaches past the half, except a request under 50 samples, which the minimum test replaces |
| Staging.LengthSamplesPos | circular.h:135 | from an active offset inside the half, the requested length is at least `-offset` and never reaches past the half |
| Staging.LengthMsFits | circular.h:108-122 | from an active offset inside the half, `setLengthMs` stages a non-negative length that ends inside the half |
| Staging.LengthPosFits | circular.h:130-141 | from an active offset inside the half, `setLengthPos` stages a non-negative length that ends inside the half |
| Staging.LengthMsClampsToHalf | circular.h:109-117 | with a 1000-sample half and offset 0, `setLengthMs(100)` stages 1000 |
| CircularSpec.NextWriteHead | circular.cpp:61-64 | the write head advances by one modulo `max_sample_len` and stays in the half |
| CircularSpec.PlayBase | circular.cpp:97-99 | the played half starts at 0 or at `max_sample_len`, and at `max_sample_len` exactly when `active_buffer` is 1 |
| CircularSpec.RecordBase | circular.cpp:69-73 | the recorded half is the other half: its start and the played half's start sum to `max_sample_len` |
| CircularSpec.Capture | circular.cpp:57-77 | while stopped the sample lands at `write_head` in both halves; while running it lands only in the recorded half; no other slot changes, and the played half is untouched |
| CircularSpec.ReadIndex | circular.cpp:94-99 | a non-negative position sum reads inside the half `active_buffer` selects; any sum gives an index in `(-max_sample_len, 2 * max_sample_len)` |
| CircularSpec.CircularFade | circular.cpp:100-110 | unity between the windows, never louder than the sample inside the grain, and silent at `read_head == length` and at `read_head == 0` of a grain of 20 or more |
| CircularSpec.FadeRampsUp | circular.cpp:104-107 | over the first 20 positions the fade is non-decreasing |
| CircularSpec.FadeRampsDown | circular.cpp:100-103 | over the last 20 positions the fade is non-increasing toward the end |
| CircularSpec.FadeProductFitsFloat | circular.cpp:100-107 | inside a grain the fade factor is in `[0, 32]` and, for an `int16_t` sample, the magnitude of `sample * k` is below 2^24, so float32 holds the product exactly |
| CircularSpec.SampleStep | circular.cpp:57-142 | one sample keeps the engine well formed and its setup unchanged and advances the write head; while stopped it passes the input through and changes only the write head; the active set stays or becomes the pending set with a zeroed accumulator |
| CircularSpec.StoppedStep | circular.cpp:57-65 | a stopped sample writes both halves, advances the write head and outputs the input |
| CircularSpec.RunningStep | circular.cpp:66-142 | a running sample records into the half not played, advances the cursor, reads at `read_index` and outputs the faded, narrowed sample |
| CircularSpec.RunBlock | circular.cpp:57-143 | a block keeps the engine well formed, keeps the bank size, yields one output per input, and never changes the half size, running flag, selected half, read alignment, pending set or ideal length |
| CircularSpec.WriteHeadAdvances | circular.cpp:57-77 | after a block of n samples the write head is `(write_head + n) mod max_sample_len` |
| CircularSpec.StoppedBlockMirrors | circular.cpp:57-65 | while stopped a block passes through unchanged, only the write head moves, and mirrored halves stay mirrored |
| CircularSpec.RunningBlockKeepsPlayedHalf | circular.cpp:66-77 | while running no slot of the played half changes during a block |
| CircularSpec.BlockActiveIsOldOrPending | circular.cpp:83-91 | at the end of a block the active set is the one it started with or the pending set |
| CircularSpec.Begun | circular.cpp:5-17 | `begin` makes each half `max_len_def / 2` long and both fit the bank, zeroes the heads and the accumulator, selects half 0, and resets both sets to forward at rate 65536; the flag, read offset and ideal length are kept |
| CircularSpec.StartMsStaged | circular.h:67-80 | `setStartMs` changes only the pending offset and length; the staged grain ends inside the half, keeps the ideal length when it fits, and ends at the half's end otherwise |
| CircularSpec.StartPosStaged | circular.h:88-100 | `setStartPos` changes only the pending offset and length; the offset is inside the half and the staged grain ends inside it, keeping the ideal length when it fits and ending one short of the end otherwise |
| CircularSpec.LengthMsStaged | circular.h:108-122 | `setLengthMs` changes only the pending length and the ideal length, which become equal; the length is at least 50 or the rest of the half after the active offset, and it fits after an active offset inside the half |
| CircularSpec.LengthPosStaged | circular.h:130-141 | `setLengthPos`: the same guarantees as `setLengthMs`, from a fraction |
| CircularSpec.Started | circular.cpp:19-33 | a no-op while running; otherwise the engine runs with the pending set active, read head 0 and `read_head_offset = write_head`; the accumulator, write head, pending set and ideal length are kept |
| CircularSpec.StartPlaysRecordedHalf | circular.cpp:24-26 | `start()` plays the half that was being recorded and records into the other; the grain starts at the oldest sample of that half |
| CircularSpec.StartIdempotent | circular.cpp:20-22 | `start()` twice equals `start()` once |
| CircularSpec.Stopped | circular.cpp:35-39 | `stop()` clears the running flag and nothing else |
| CircularSpec.StopIdempotent | circular.cpp:35-39 | `stop()` twice equals `stop()` once, and stopping keeps the committed set |
| CircularSpec.ReverseCommitOvershoots | circular.cpp:112-134 | a reverse commit into a shorter grain sets read head 999 in a 100-sample grain; a full-scale sample fades to -920547, outside `int16_t` |
| CircularSpec.EmptyReverseGrainReadsBelowBank | circular.cpp:112-130 | a zero-length reverse grain commits with read head -1 and read index -1 |
| Circular.GrainScrubEffectCircular.constructor | circular.h:27 | the object starts zeroed, with no bank |
| Circular.GrainScrubEffectCircular.Begin | circular.cpp:5-17 | the new state is `Begun` of the old one and the bank is attached |
| Circular.GrainScrubEffectCircular.Rewind | circular.cpp:8-15 | the heads, selector and accumulator are zeroed and both sets reset to forward at unit rate |
| Circular.GrainScrubEffectCircular.ResetRates | circular.cpp:11-15 | both rates become 65536 and both directions forward; nothing else changes |
| Circular.GrainScrubEffectCircular.Start | circular.cpp:19-33 | the new state is `Started` of the old one |
| Circular.GrainScrubEffectCircular.CommitPending | circular.cpp:28-31 | the active set becomes the pending set; nothing else changes |
| Circular.GrainScrubEffectCircular.Stop | circular.cpp:35-39 | the new state is `Stopped` of the old one |
| Circular.GrainScrubEffectCircular.SetSpeed | circular.h:43-53 | only the pending rate changes, to `SpeedRate(ratio)` |
| Circular.GrainScrubEffectCircular.Reverse | circular.h:58 | only the pending direction changes, to reverse |
| Circular.GrainScrubEffectCircular.Forward | circular.h:59 | only the pending direction changes, to forward |
| Circular.GrainScrubEffectCircular.SetStartMs | circular.h:67-80 | the new state is `StartMsStaged` of the old one |
| Circular.GrainScrubEffectCircular.SetStartPos | circular.h:88-100 | the new state is `StartPosStaged` of the old one |
| Circular.GrainScrubEffectCircular.SetLengthMs | circular.h:108-122 | the new state is `LengthMsStaged` of the old one |
| Circular.GrainScrubEffectCircular.SetLengthPos | circular.h:130-141 | the new state is `LengthPosStaged` of the old one |
| Circular.GrainScrubEffectCircular.Update | circular.cpp:41-148 | without a bank or a block nothing changes; otherwise the fields, the bank and the block end as `RunBlock` computes from their old values |
| Circular.GrainScrubEffectCircular.RecordBlock | circular.cpp:57-65 | the stopped loop over the block equals `RunBlock` |
| Circular.GrainScrubEffectCircular.RecordSample | circular.cpp:59-64 | one stopped iteration equals `SampleStep` |
| Circular.GrainScrubEffectCircular.ScrubBlock | circular.cpp:66-143 | the running loop, writing each output into the block in place, equals `RunBlock` |
| Circular.GrainScrubEffectCircular.ScrubSample | circular.cpp:67-142 | one running iteration equals `SampleStep` |
| Circular.GrainScrubEffectCircular.Play | circular.cpp:94-110 | the output is the narrowed fade of the bank sample at `ReadIndex` |
| Circular.GrainScrubEffectCircular.Step | circular.cpp:80-122 | the accumulator, read head and active set move as `Advance` says |
| Circular.GrainScrubEffectCircular.StepForward | circular.cpp:80-91 | the forward branch equals `Advance` |
| Circular.GrainScrubEffectCircular.StepReverse | circular.cpp:112-122 | the reverse branch equals `Advance` |
| EffectSpec.Detect | effect.cpp:66-77 | once found, nothing changes; a sign change against `prev_input` enables capture at slot 0 and latches `zero_found`; otherwise `prev_input` takes the sample |
| EffectSpec.CaptureStep | effect.cpp:80-88 | while enabled the sample goes to `bank[write_head]` and the head advances; only that slot, below `max_sample_len`, changes; the grain is loaded once `offset + length` samples are in; loading is kept, and capture never re-enables itself |
| EffectSpec.EffectFade | effect.cpp:106-141 | unity between the windows; forward is never louder than the sample and silent at the end; the start window never amplifies in either direction; silent at `read_head == 0` in reverse and in a forward grain of 20 or more |
| EffectSpec.PlayStep | effect.cpp:91-143 | before loading the input passes through unchanged; after loading only the cursor fields change, and the active set stays or becomes the pending set |
| EffectSpec.SampleStep | effect.cpp:64-144 | one running sample keeps the effect well formed, keeps `zero_found` and loading latched, passes the input through until loaded, and never writes at or past `max_sample_len` |
| EffectSpec.RunBlock | effect.cpp:64-144 | a block keeps the effect well formed, keeps the bank size, yields one output per input, and keeps the buffer size, flag and pending set |
| EffectSpec.Updated | effect.cpp:61-145 | while stopped only `prev_input` changes, to the last sample, and the block passes through |
| EffectSpec.ZeroFoundLatched | effect.cpp:66-77 | once a crossing is found it stays found through a block, and `prev_input` stops following the input |
| EffectSpec.CaptureStaysInBuffer | effect.cpp:80-88 | a block never writes at or beyond `max_sample_len` |
| EffectSpec.TransparentUntilLoaded | effect.cpp:82-91 | a block that ends unloaded comes out equal to its input, and a loaded grain stays loaded |
| EffectSpec.CrossingStartsCapture | effect.cpp:66-88 | the crossing sample lands in slot 0 with the write head at 1; a sample without a sign change is only remembered |
| EffectSpec.ReverseFadeAmplifies | effect.cpp:131-134 | at read head 99 of a 100-sample grain, reverse turns 1000 into 4950 where forward gives 50 |
| EffectSpec.Begun | effect.cpp:5-18 | `begin` uses the whole buffer; heads, accumulator and `prev_input` are zeroed; nothing is loaded; both sets are forward at 65536; the flags are kept |
| EffectSpec.Started | effect.cpp:20-34 | a no-op while running; otherwise the crossing search restarts with capture and loading cleared and the pending set committed; nothing else changes |
| EffectSpec.Stopped | effect.cpp:36-43 | the running, crossing, capture and loaded flags are cleared; nothing else changes |
| EffectSpec.StartStopIdempotent | effect.cpp:20-43 | `start()` and `stop()` are idempotent, and `stop()` leaves the latches consistent |
| Effect.GrainScrubEffect.Begin | effect.cpp:5-18 | the new state is `Begun` of the old one and the bank is attached |
| Effect.GrainScrubEffect.Rewind | effect.cpp:8-13 | heads, `prev_input` and the accumulator are zeroed and nothing is loaded |
| Effect.GrainScrubEffect.ResetRates | effect.cpp:11-15 | both rates become 65536 and both directions forward |
| Effect.GrainScrubEffect.Start | effect.cpp:20-34 | the new state is `Started` of the old one |
| Effect.GrainScrubEffect.CommitPending | effect.cpp:29-32 | the active set becomes the pending set |
| Effect.GrainScrubEffect.Stop | effect.cpp:36-43 | the new state is `Stopped` of the old one |
| Effect.GrainScrubEffect.Update | effect.cpp:45-149 | without a bank or a block nothing changes; otherwise fields, bank and block end as `Updated` computes |
| Effect.GrainScrubEffect.RunningBlock | effect.cpp:63-144 | the running loop, writing each output into the block in place, equals `RunBlock` |
| Effect.GrainScrubEffect.ProcessSample | effect.cpp:65-143 | one iteration equals `SampleStep` |
| Effect.GrainScrubEffect.DetectCrossing | effect.cpp:66-77 | step 1 equals `Detect` |
| Effect.GrainScrubEffect.CaptureSample | effect.cpp:80-88 | step 2 equals `CaptureStep` |
| Effect.GrainScrubEffect.PlaySample | effect.cpp:91-143 | step 3 equals `PlayStep` |
| Effect.GrainScrubEffect.Play | effect.cpp:106-141 | the output is the narrowed fade of `sample_bank[offset + read_head]` |
| Effect.GrainScrubEffect.StepForward | effect.cpp:93-103 | the forward branch equals `Advance` |
| Effect.GrainScrubEffect.StepReverse | effect.cpp:118-128 | the reverse branch equals `Advance` |
| Lfo.Interpolate | lfo.cpp:3-10 | at or past the last entry the result is the last entry; otherwise it is the floor of the 16.16-weighted mean of the two neighbours, lies between them, and is exactly the entry at a zero fraction |
| Lfo.WeightedMeanBetween | lfo.cpp:9 | the floor of a weighted mean with weights summing to 65536 lies between the two values |
| Lfo.InterpolateWithinTable | lfo.cpp:3-10 | for any index the result lies within any bounds of the table's entries |
| Lfo.PhaseIndex | lfo.cpp:24 | the `uint32_t` phase index is in range |
| Lfo.PhaseEndpoints | lfo.cpp:24 | without wrap, time 0 selects entry 0 and time `_time` selects the last entry |
| Lfo.PhaseWrapsForLongPeriods | lfo.cpp:24 | at 1110 ms of a 2000 ms period a 60-entry table is read at entry 32, and at 1111 ms at entry 0 |
| Lfo.WavetableLfo.constructor | lfo.cpp:12-16 | table, length and period are set, and the other fields start at zero |
| Lfo.WavetableLfo.SetTime | lfo.cpp:18 | only `_time` changes, to the `uint32_t` duration |
| Lfo.WavetableLfo.Reset | lfo.cpp:32 | only `_current_time` changes, to 0 |
| Lfo.WavetableLfo.Loop | lfo.cpp:20-30 | elapsed time advances the phase modulo 2^32; the increment is the wrapped phase index; the byte value interpolates the table there; the phase restarts at the period, so it stays below it; the value lies within the table's bounds |
| LfoTables.TableLengths | lfo.h:64-75 | the tables have the declared lengths 60, 6, 60, 11, 60 and 6 |
| LfoTables.TablesAreBytes | lfo.cpp:66-89 | every entry of every table is in `[0, 255]` |
| LfoTables.WobbleIsBytes | lfo.cpp:74-78 | every wobble entry is a byte |
| LfoTables.RevWobbleIsBytes | lfo.cpp:83-87 | every reversed-wobble entry is a byte |
| LfoTables.SquareHalves | lfo.cpp:66-70 | the square is 30 entries of 255, then 30 of 0 |
| LfoTables.ReverseAppend | lfo.cpp:74-87 | reversing a concatenation concatenates the reversed parts in swapped order |
| LfoTables.WobbleRowsMirrored | lfo.cpp:74-87 | each reversed-wobble row mirrors the opposite wobble row |
| LfoTables.WobbleMirrored | lfo.cpp:74-87 | `TBL_REV_WOBBLE` is exactly `TBL_WOBBLE` reversed |
| LfoTables.SawAndTriMirrored | lfo.cpp:72-89 | `TBL_SAW` is `TBL_RAMP` reversed, and `TBL_TRI` is a palindrome |
| ControlSpec.PollDue | control.cpp:27 | a poll is due exactly when at least 10 ms have passed, counted across the wrap of `millis()` |
| ControlSpec.Bounce | control.cpp:129 | a reading is ignored as bounce only if it differs from the state, is an opening (a closing reading is never ignored), and comes less than 50 ms after the press |
| ControlSpec.ButtonInit | control.cpp:117-121 | a new button is open, not down, and its flags are consistent |
| ControlSpec.ButtonStep | control.cpp:125-157 | a bounce changes nothing; otherwise the state takes the reading; `pressed` and `released` are the closing and opening edges; `_last_ms` changes only on a press; a release is exactly one of short (up to 500 ms), medium (up to 2000 ms) or long; consistency is preserved |
| ControlSpec.ClickOutlastsDebounce | control.cpp:129-148 | a reported release came at least 50 ms after the press and is a click |
| ControlSpec.PressedRepeatsDuringBounce | control.cpp:129-137 | a press followed by a bounce 10 ms later still reports `pressed` |
| ControlSpec.HeldButtonKeepsPressTime | control.cpp:133-141 | while held, no edge or click is reported and the press time is kept |
| ControlSpec.LedInit | control.cpp:214-220 | a new LED is off and not blinking |
| ControlSpec.LedLoop | control.cpp:224-236 | the level is written out; the state flips exactly when blinking and `_last_ms + _period` (wrapped) is before `ms`, and `_last_ms` records a flip |
| ControlSpec.LedOn | control.cpp:238-241 | steady on |
| ControlSpec.LedOff | control.cpp:243-246 | steady off |
| ControlSpec.LedToggle | control.cpp:248-251 | steady, at the other level |
| ControlSpec.LedBlink | control.cpp:253 | the period is half the blink time rounded down; the level is kept |
| ControlSpec.SteadyLedHolds | control.cpp:224-251 | after `on`/`off`/`toggle` the level holds through any number of loops and reaches the pin |
| ControlSpec.BlinkFlipsEarlyNearWrap | control.cpp:231 | near the wrap of `millis()` a 250 ms blink flips after 10 ms |
| ControlSpec.GateInit | control.cpp:255-265 | a new gate input is at the closed level with the LED override set and no edges |
| ControlSpec.GateStep | control.cpp:272-300 | a bounce changes nothing; otherwise the button's edges are reported as `high` (closing) and `low` (opening), never both, `gate` is true exactly when the input is closed, and `_last_ms` moves only on `high`; with the override set the LED takes its own loop step, and without it a closing edge turns it steady on and an opening edge steady off |
| ControlSpec.SpuriousLowAtStart | control.cpp:255-300 | an open input is bounce before 50 ms and a falling edge from 50 ms |
| ControlSpec.TrimWindow | control.cpp:195-196 | the mean uses sorted entries 6 through 25 |
| ControlSpec.TrimmedMean | control.cpp:195-205 | for sorted samples the truncated mean lies between the 7th smallest and 7th largest sample |
| ControlSpec.ClampAdc | control.cpp:207-211 | the result is the value in `[0, 4095]` nearest the input |
| ControlSpec.RingPush | control.cpp:175-176 | the slot advances modulo 32, the reading lands there, and no other slot changes |
| ControlSpec.RingHoldsLatest | control.cpp:175-176 | after up to 32 readings, reading `j` sits `j + 1` slots after the previous newest |
| ControlSpec.SteadyReadingsFillRing | control.cpp:175-176 | after 32 equal readings every slot holds that value |
| ControlSpec.Insert | control.cpp:182-193 | insertion into a sorted sequence keeps it sorted and adds one entry |
| ControlSpec.InsertPermutes | control.cpp:182-193 | insertion adds exactly that entry to the multiset |
| ControlSpec.SortSeq | control.cpp:182-193 | the reference sort is sorted and of the same length |
| ControlSpec.SortSeqPermutes | control.cpp:182-193 | the reference sort is a sorted permutation of its input |
| ControlSpec.SortedUnique | control.cpp:182-193 | two sorted arrangements of one multiset are equal |
| ControlSpec.PotValue | control.cpp:195-211 | the potentiometer value is always in `[0, 4095]` |
| ControlSpec.PotValueIgnoresOrder | control.cpp:175-211 | the value depends only on which readings the ring holds, not on their slots |
| ControlSpec.SteadyInputSettles | control.cpp:168-212 | after 32 equal readings `c`, the value is `c` mapped and clamped, with no smoothing error |
| ControlSpec.SteadyMean | control.cpp:195-205 | the trimmed mean of 32 equal readings is that reading |
| Control.BubbleSort | control.cpp:182-193 | the `while (!done)` loop leaves the array sorted and a permutation of its old contents |
| Control.BubblePass | control.cpp:184-192 | a pass permutes the array, reports `done` only if the array is sorted, reports `done` for a sorted array, and settles one more entry at the top |
| Control.SwapNext | control.cpp:187-189 | the two adjacent entries are exchanged |
| Control.Button.constructor | control.cpp:117-121 | the new button is `ButtonInit()` on the given pin |
| Control.Button.Loop | control.cpp:125-157 | the new state is `ButtonStep(old state, reading, ms)` |
| Control.Button.Classify | control.cpp:143-156 | `click` equals `released`; a release sets long above 2000 ms, medium above 500 ms, else short; nothing else changes |
| Control.DigitalLed.constructor | control.cpp:214-220 | the new LED is `LedInit()` on the given pin |
| Control.DigitalLed.Loop | control.cpp:224-236 | the new state is `LedLoop(old state, ms)` |
| Control.DigitalLed.On | control.cpp:238-241 | the new state is `LedOn(old state)` |
| Control.DigitalLed.Off | control.cpp:243-246 | the new state is `LedOff(old state)` |
| Control.DigitalLed.Toggle | control.cpp:248-251 | the new state is `LedToggle(old state)` |
| Control.DigitalLed.Blink | control.cpp:253 | the new state is `LedBlink(old state, ms)` |
| Control.GateTrigger.constructor | control.cpp:255-265 | the new gate input is `GateInit()` with a fresh LED on the given pin |
| Control.GateTrigger.Loop | control.cpp:272-300 | the new state, LED included, is `GateStep(old state, reading, ms)` |
| Control.Potentiometer.constructor | control.cpp:159-166 | value 0 and a ring of 32 zeros at slot 0 |
| Control.Potentiometer.Loop | control.cpp:168-212 | the ring takes one `RingPush`; the sorted copy is the sorted arrangement of the ring; `value` is `PotValue` of the ring |
| Control.Potentiometer.Smoothed | control.cpp:178-211 | sorting, averaging, mapping and clamping give the sorted ring and `PotValue` |
| Control.Potentiometer.SortedCopy | control.cpp:178-193 | the copy loop followed by the bubble sort yields `SortSeq` of the ring |
| Control.Potentiometer.TrimmedTotal | control.cpp:195-205 | the summing loop and the division give `TrimmedMean` of the sorted array |
| Control.ControlState.constructor | control.cpp:8-23 | both times are `now` and every slot of the four arrays is NULL |
| Control.ControlState.Loop | control.cpp:25-52 | returns whether a poll is due; if so `_last_ms` becomes `now`, every registered button, LED and gate input takes its step, and every potentiometer takes its ring step with `value` the smoothed `PotValue` of the new ring; otherwise no component changes |
| Control.ControlState.PollAll | control.cpp:29-48 | the four polling loops step every registered component: buttons by `ButtonStep`, potentiometers to `Polled` (ring step and `PotValue`), LEDs by `LedLoop`, gate inputs by `GateStep` |
| Control.ControlState.PollInputs | control.cpp:29-38 | every registered button takes `ButtonStep`, and every registered potentiometer takes its ring step and gets `value == PotValue` of the new ring |
| Control.ControlState.PollOutputs | control.cpp:39-48 | the LED and gate-input loops |
| Control.ControlState.PollButtons | control.cpp:29-33 | every registered button takes `ButtonStep` with its reading |
| Control.ControlState.PollPots | control.cpp:34-38 | every registered potentiometer takes its ring step and gets `value == PotValue` of the new ring |
| Control.ControlState.PollPot | control.cpp:36 | one potentiometer's `loop`: the reading enters the ring and `value` is `PotValue` of the new ring |
| Control.ControlState.PollLeds | control.cpp:39-43 | every registered LED takes `LedLoop` |
| Control.ControlState.PollGtls | control.cpp:44-48 | every registered gate input takes `GateStep` with its reading |
| Control.ControlState.RegisterButton | control.cpp:54-61 | past the last slot nothing changes; otherwise only that slot changes, to a new button in its initial state on the pin |
| Control.ControlState.RegisterPot | control.cpp:63-69 | past the last slot nothing changes; otherwise only that slot changes, to a new potentiometer with a zero ring and value 0 |
| Control.ControlState.RegisterLed | control.cpp:71-78 | past the last slot nothing changes; otherwise only that slot changes, to a new LED in its initial state |
| Control.ControlState.RegisterGtl | control.cpp:80-87 | past the last slot nothing changes; otherwise only that slot changes, to a new gate input in its initial state |
| Control.ControlState.GetButton | control.cpp:89-94 | NULL past the last slot, otherwise the slot's button, which is the one registered there |
| Control.ControlState.GetPotentiometer | control.cpp:96-101 | NULL past the last slot, otherwise the slot's potentiometer |
| Control.ControlState.GetLed | control.cpp:103-108 | NULL past the last slot, otherwise the slot's LED |
| Control.ControlState.GetGtl | control.cpp:110-115 | NULL past the last slot, otherwise the slot's gate input |

## Left out

- Audio library plumbing is not modelled: `receiveReadOnly`, `receiveWritable`, `transmit`,
  `release` and the `AudioStream` base. A block is an array parameter of `AUDIO_BLOCK_SAMPLES`
  (128) samples, and a missing block is `null`. Without a bank, the received block is
  discarded and no state changes.
- `__disable_irq`/`__enable_irq` are not modelled. `start()` and `stop()` are atomic sequential
  methods, and concurrency with the audio interrupt is not modelled.
- `debug()` is not modelled; it only prints to the serial port.
- effect.h is not part of this model. So `GrainScrubEffect`'s setters, its constructor and its
  field widths are not modelled:
  - the widths are taken to be those of the circular engine;
  - the pending set is whatever the object holds;
  - the Dafny constructor `Effect.GrainScrubEffect.constructor` zeroes every field and has no
    source lines to model, so it has no row.
- Floating point is modelled as exact real arithmetic:
  - float rounding in the ms and fraction conversions is not modelled;
  - `AUDIO_SAMPLE_RATE_EXACT` is taken as 44100;
  - `value = byte_value / 255.0` is a real division;
  - effect.cpp's `/ 20.0` fade is the exact truncated ratio, which float rounding can move by
    one;
  - circular.cpp's `sample * (k / 32.0)` is exact in float only while `|sample * k| < 2^24`.
    `CircularSpec.FadeProductFitsFloat` proves that bound for every position inside the grain.
- CircularSpec.CircularFade truncates the exact product. After a reverse commit into a shorter
  grain, `read_head` lies past the new length, and the factor `length - read_head` can be large
  and negative. Once `|sample * k|` reaches 2^24, float32 rounds the product before truncation,
  so the target's result can differ from the model's by one. Example: k = -609 on sample 32767
  gives -623597 on the target and -623596 in the model.
- Out-of-range float-to-`int16_t` conversions are modelled as truncation followed by taking the
  low 16 bits. That is the target's behaviour for magnitudes below 2^31.
- A read from an index outside the bank is undefined in C++. The model reads 0 there, and
  lemmas show when the index is in range.
- `WavetableMatrixLFO` and `set_shape` are not modelled. They blend LFO values in floating
  point, and the matrix class is not part of the core.
- `pinMode`, `digitalWrite` and the `setup()` methods are not modelled; they only configure pins.
  `digitalRead`, `analogRead` and `millis()` become parameters. `DigitalLed.lastState` records
  the level last written.
- Arduino's `map(value, 50, 4000, 0, 4095)` is the parameter `mapRange`. Its integer formula
  differs between Arduino cores, and the clamp after it is what the model verifies.
- Control.Potentiometer.Loop returns a fresh sorted array each call. The C++ reuses one
  `static` array shared by all potentiometers, which is overwritten before use. `_samples`, a
  member array embedded in the object, is a sequence field that the method reassigns.
- Control.ControlState.RegisterButton, RegisterPot, RegisterLed and RegisterGtl require a
  non-negative index. A negative index writes outside the array in the C++, which is undefined.
- Control.ControlState.GetButton, GetPotentiometer, GetLed and GetGtl require a non-negative
  index, for the same reason.
- `Button` and `GateTrigger` flags and `_last_ms` are not set by the C++ constructors. The model
  starts them at false and 0.
- Lfo.WavetableLfo.constructor starts `_last_ms`, `_current_time`, `_increment`, `byte_value`
  and `value` at zero. lfo.cpp:12-16 leaves them unassigned, so the C++ promises no initial
  value for them.
- `GrainScrubEffectCircular`'s fields that `begin` leaves unassigned are not set by it in the C++
  either. The model starts them at zero: `running`, `offset`, `length`, `next_offset`,
  `next_length`, `ideal_length` and `read_head_offset`. The C++ promises no initial value for
  them.
