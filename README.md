# alsa-playback in Dafny

A model of the small ALSA player in `main.c`. It plays single-channel,
signed 16-bit audio at 48000 frames per second. It either synthesizes one
second of a square (or sine) wave, or streams a raw PCM file to the device
one second at a time and fades it in and out in place. With the loop flag it
plays the same thing again and again.

The model covers:

- the argument parser (`parse_command_line`) and its decimal reader
  (`expect_int`);
- the square-wave generator (`square_wave`) and the range clamp (`clamp`);
- the fade envelope: the gain of each sample, and the normalize, scale,
  clamp and truncate store;
- the raw pass: the chunk loop over the file, and the inner loop that fades
  each chunk in place before it is written;
- the `do … while` playback loop of `main`.

The device is an abstract sink. Every write is recorded in a ghost trace,
together with the frames it carried.

Modules:

- `Pcm`: the format constants, the signed 16-bit range, `Clamp`, and the
  float-to-integer truncation.
- `RealArith`: small facts about products of reals.
- `Waveform`: `square_wave`, with its cycle lengths, periodicity and the
  number of high samples.
- `Envelope`:
  - the gain `Volume` and the store `ApplyGain`;
  - one pass over a buffer as the functions `Enveloped` and `IsEnvelope`;
  - repeated passes as `Faded`.
- `DecimalInt`: `expect_int`, its intended meaning `IntValue`, and the loop
  as written with 32-bit wrap-around.
- `CommandLine`:
  - the options record;
  - `ParseArgs`, a recursive reference definition of the argument loop;
  - `ParseCommandLine`, the imperative loop proved equal to it;
  - lemmas for overriding options and for the error cases.
- `Playback`:
  - the chunk plan of a raw pass;
  - `RawPass` and `FadeChunk` on an `array<int>`;
  - the loop over passes, `PlaybackLoop`.

Arithmetic of the original and its model:

- The envelope arithmetic is done in 32-bit floats in the original. Here it
  is exact (`real`).
- The final `(s16)` cast truncates toward zero after the clamp.
- Integer quotients on non-negative operands are written as Dafny's `/`,
  which agrees with C there.

Facts about the code that the model keeps:

- The gain tests the fade-in window first (main.c:255-258). Where the two
  windows overlap, the gains are not combined: the fade-in ramp applies
  (`Envelope.FadeInPrecedence`).
- So a one-second file faded over one second gives its last sample, index
  47999, the gain 47999/48000 (`Envelope.OneSecondBufferOneSecondFade`).
- `square_wave` sets its cycle counter to 0 on every call (main.c:41). A
  looped square wave therefore starts each pass at the top of a cycle
  (`Playback.LoopRestartsPhase`).

## Model

| member | source | states |
|---|---|---|
| Pcm.Clamp | main.c:32-36 | below `min` gives `min`; at least `min` and above `max` gives `max`; with `min <= max` the result lies in `[min, max]`; an in-range value is returned unchanged; the result is always `value`, `min` or `max` |
| Pcm.TruncTowardZero | main.c:265 | the cast to an integer keeps the sign and drops less than 1 in magnitude (truncation toward zero) |
| Waveform.FullCycle | main.c:39 | the samples per cycle are the quotient of 48000 by `freq`: they fit `n * freq <= 48000 < (n + 1) * freq`, at least 1, and at least 2 up to 20000 Hz |
| Waveform.HalfCycle | main.c:40 | the high half is floor(full / 2); it is empty exactly when a cycle is a single sample |
| Waveform.SquareSample | main.c:44-49 | sample `i` is +AMPLITUDE or -AMPLITUDE, high exactly when its position `i % full` in the cycle is below `half` |
| Waveform.SquareSeq | main.c:42-51 | the reference wave: `n` samples, sample `i` given by its position `i % full` within the cycle |
| Waveform.SquareWave | main.c:38-53 | writes exactly the first `sampleCount` entries: each is sample `i` of the reference wave, so +AMPLITUDE iff `i % full < half` and -AMPLITUDE otherwise; the rest of the buffer is unchanged |
| Waveform.ModSuccessor | main.c:49 | advancing the wrapped cycle counter keeps it equal to the sample index modulo the cycle length |
| Waveform.SquarePeriodic | main.c:39-50 | the wave repeats with period `full` |
| Waveform.SquareCycleShape | main.c:44-49 | within every cycle the first `half` samples are high and the rest low |
| Waveform.SquareHighCount | main.c:42-51 | among `n` samples the high ones number `(n / full) * half + min(n % full, half)` |
| Waveform.SquareStartsHigh | main.c:41-45 | the counter starts at 0 on each call, so the first sample is high whenever `half > 0` |
| Waveform.SquareDegenerate | main.c:39-48 | above 24000 Hz the high half is empty and every sample is -AMPLITUDE |
| Envelope.FadeSamples | main.c:226 | the fade window is `fade_ms * 48` samples: zero iff no fade, at most five seconds for `fade_ms <= 5000`, one second for 1000 ms |
| Envelope.Volume | main.c:254-261 | the gain lies in [0, 1]; it is 1 exactly outside both windows; it is 0 exactly at index 0 with a fade window |
| Envelope.FadeInPrecedence | main.c:255-258 | where both windows cover an index the fade-in ramp `index / fade` applies |
| Envelope.LongFadeOnlyFadesIn | main.c:255-258 | a window at least the buffer's length puts every sample on the fade-in ramp |
| Envelope.FadeOutMirrorsFadeIn | main.c:255-258 | without overlap, `k` samples from the start and `k` samples before the end get the same gain `k / fade` |
| Envelope.RampsAreMonotone | main.c:254-261 | the fade-in ramp strictly increases and the fade-out ramp strictly decreases |
| Envelope.OneSecondBufferOneSecondFade | main.c:226-261 | a one-second file faded over one second starts silent and ends at gain 47999/48000, on the fade-in ramp |
| Envelope.Store | main.c:265 | clamping then truncating always fits 16 bits and saturates: at least 32767 gives 32767, at most -32768 gives -32768; it keeps the sign, never grows the magnitude, loses less than 1 when in range, and is exact on in-range integers |
| Envelope.ApplyGain | main.c:262-265 | the stored sample fits 16 bits (saturation, no wrap-around); for a gain in [0, 1] it keeps the sign and never grows in magnitude; gain 1 keeps an in-range sample and gain 0 silences it |
| Envelope.ApplyGainBounds | main.c:263-265 | for an in-range sample and a gain in [0, 1] the stored magnitude is the sample's magnitude times the gain, rounded down |
| Envelope.EnvelopedPrefix | main.c:253-268 | the first `n` samples of a pass: `n` samples, each in 16-bit range and no larger in magnitude than before |
| Envelope.GainAt | main.c:254-265 | the stored value of sample `k` with the gain of position `k`; the per-sample value of a pass, by EnvelopedAt |
| Envelope.IsEnvelope | main.c:253-268 | a buffer of the same length whose every sample is its GainAt value; equivalent to Enveloped by EnvelopeCharacterized |
| Envelope.Enveloped | main.c:253-268 | one pass keeps the length, leaves every sample in 16-bit range, and never grows any sample's magnitude |
| Envelope.EnvelopedAt | main.c:253-268 | sample `k` after a pass is sample `k` before it, stored with the gain of global position `k` |
| Envelope.EnvelopeCharacterized | main.c:253-268 | the sample-by-sample statement of a pass holds of a buffer iff it is the pass's result |
| Envelope.EnvelopeWithoutFade | main.c:255-261 | with no fade window a pass leaves an in-range buffer unchanged |
| Envelope.EnvelopeSilencesFirstSample | main.c:255-256 | with a fade window the first sample of every pass becomes 0 |
| Envelope.Faded | main.c:235-273 | any number of passes keeps the buffer's length, and after at least one pass every sample is in 16-bit range |
| Envelope.FadedStep | main.c:235-273 | pass `p + 1` stores each sample of pass `p` with the same gain again |
| Envelope.FadedNonIncreasing | main.c:235-273 | magnitudes never grow from one looped pass to any later one |
| Envelope.TwoPassesSquareTheGain | main.c:235-273 | after two looped passes a sample's magnitude is its original magnitude times the gain squared, less at most `gain + 1` of truncation |
| DecimalInt.DecimalValue | main.c:79-88 | the value of a digit string, each digit taking `num` to `num * 10 + digit` without overflow; DecimalRoundTrip and LeadingZero are about it |
| DecimalInt.IntValue | main.c:77-93 | the accepted value exists iff every character is a digit and the decimal value fits in an `int`, and then lies in 0..INT_MAX |
| DecimalInt.ExpectInt | main.c:77-93 | succeeds iff every character is a digit and the value fits in an `int`; on success the out value is the decimal value, on failure it is unchanged; the empty string succeeds with 0 |
| DecimalInt.AcceptsEveryInt | main.c:77-93 | every value from 0 to INT_MAX is accepted in its decimal spelling |
| DecimalInt.DecimalRoundTrip | main.c:79-88 | the digit accumulation inverts the decimal spelling |
| DecimalInt.LeadingZero | main.c:79-88 | leading zeros do not change the value |
| DecimalInt.Wrap32 | main.c:83 | 32-bit two's-complement wrap-around stays in the `int` range, differs from its argument by a multiple of 2^32, and is the identity on the `int` range |
| DecimalInt.AccumulateAsWritten | main.c:78-88 | the loop as written, with a wrapping multiply and the `new_val < num` test, only succeeds on all-digit strings |
| DecimalInt.AsWrittenAgreesInRange | main.c:78-88 | while the value fits, each digit read as written moves the accumulator to the value of the digits read so far |
| DecimalInt.AsWrittenCorrectInRange | main.c:78-92 | as written, the loop returns the decimal value of every digit string whose value fits |
| DecimalInt.WrapAroundAccepted | main.c:83-85 | as written, "10000000000" is accepted as 1410065408 although its value does not fit |
| CommandLine.ParseArgs | main.c:113-159 | the reference definition of the argument loop: each option sets its flag or consumes its argument, and the first error ends the parse; ParseCommandLine is proved equal to it, and ParseArgsKeepsRange, ParseArgsAppend and the Later*Wins lemmas are about it |
| CommandLine.Parse | main.c:104-162 | the usage exit happens iff there are no arguments after the program name; parsed options always have a frequency in 20..20000 and a fade in 0..5000 |
| CommandLine.ParseCommandLine | main.c:104-162 | the index-walking loop returns exactly the result of the reference definition: usage, the options, or the first error met |
| CommandLine.ParseArgsKeepsRange | main.c:129-154 | the argument loop never yields the usage exit and never stores a frequency or fade outside its range |
| CommandLine.ParseArgsAppend | main.c:113-159 | arguments are processed left to right: unless the first part ends with a missing option argument, parsing a concatenation continues the parse of the first part |
| CommandLine.SingleOption | main.c:119-154 | each of `-t`, `-f`, `-r`, `--fade` with an argument sets its field or fails with its own error |
| CommandLine.LaterFrequencyWins | main.c:129-138 | a later `-f x` replaces only the frequency, or fails when `x` is not an integer in 20..20000 |
| CommandLine.LaterFadeWins | main.c:145-154 | a later `--fade x` replaces only the fade, or fails when `x` is not an integer in 0..5000 |
| CommandLine.LaterRawPathWins | main.c:139-144 | a later `-r x` replaces only the raw path |
| CommandLine.LaterWaveTypeWins | main.c:119-128 | a later `-t x` replaces only the wave type, and fails for anything but "sine" and "square" |
| CommandLine.MissingArgumentRejected | main.c:119-149 | an option that takes an argument but comes last fails with a missing-argument error |
| CommandLine.UnrecognizedRejected | main.c:155-158 | an unknown option fails, whatever follows it |
| CommandLine.FlagsStick | main.c:115-118 | the help and loop flags, once set, stay set |
| Playback.PlanFrom | main.c:245-250 | the chunks from byte `offset` on, one per second of bytes while `offset` is below the file size; PlanFromShape, PlanFromLength and PlanFromSum are about it |
| Playback.ChunkPlan | main.c:244-250 | the chunks of a whole pass, from offset 0; ChunkPlanShape and ChunkPlanCoversFile are about it |
| Playback.ChunkCount | main.c:246-250 | a chunk is a full second of frames unless fewer than a second of bytes remain, when it is the remaining whole samples |
| Playback.PlanFromShape | main.c:245-250 | chunk `k` starts `k` seconds of bytes further on, before the end of the file, and is full except possibly the last |
| Playback.ChunkPlanShape | main.c:245-250 | the writes of a raw pass are at byte offsets 0, 96000, 192000, … below the file size, all full seconds but the last |
| Playback.PlanFromLength | main.c:245 | from any offset there is one write per started second of bytes |
| Playback.PlanFromSum | main.c:246-250 | from any offset the frame counts add up to the whole samples after it |
| Playback.ChunkPlanCoversFile | main.c:232-250 | the frame counts of a pass add up to `file_size / 2`, the sample count, in `ceil(file_size / 96000)` writes |
| Playback.ChunkPlanExample | main.c:245-250 | 200000 bytes are written as 48000, 48000 and 4000 frames at offsets 0, 96000 and 192000 |
| Playback.OddByteEndsInEmptyWrite | main.c:248-249 | a file one byte longer than a second ends in a write of zero frames |
| Playback.RawPass | main.c:244-271 | after a pass the buffer is the envelope of its old contents; the writes follow the chunk plan exactly; each write carries exactly its own `count` faded samples from `offset / 2` on, and together they send the whole faded buffer |
| Playback.PassChunkBounds | main.c:246-252 | on entry to each chunk the running sample index is `offset / 2`, and the chunk fits in the buffer |
| Playback.PassStep | main.c:245-271 | fading a chunk and writing it keeps the pass invariant one chunk further on: faded prefix, untouched rest, trace equal to the plan so far |
| Playback.PassDone | main.c:244-271 | when the offset passes the file size the whole buffer is faded and the trace is the whole plan |
| Playback.ChunkAdvance | main.c:245-250 | the sample index after a chunk is the next chunk's `offset / 2`, or the sample count after the last chunk |
| Playback.FadeChunk | main.c:253-268 | fades exactly the `count` samples of its chunk to their enveloped values and returns the advanced index; samples before the chunk are unchanged and those after it still hold the original |
| Playback.StoreIsGain | main.c:263-265 | the three statements of the sample update compute the gain store |
| Playback.GeneratedPass | main.c:236-242 | a generated square pass carries 48000 samples, each ±AMPLITUDE |
| Playback.PlayPass | main.c:236-272 | one iteration of the playback loop: a generated pass leaves the file buffer alone and is the same every time; a raw pass fades the buffer once and sends it |
| Playback.PlayedStep | main.c:235-273 | each further pass extends the trace by that pass and fades a raw buffer once more |
| Playback.PlaybackLoop | main.c:203-273 | help plays nothing; otherwise one pass is played, or `passes` passes with the loop flag; generated passes repeat the same buffer; raw pass `p` sends the file faded `p + 1` times, and the buffer ends faded once per pass |
| Playback.LoopRestartsPhase | main.c:39-50 | at 450 Hz a second ends in the low half of a cycle, yet the next pass starts high: looping restarts the phase |

## Left out

- `sine_wave` (main.c:55-60) is floating-point `sinf` numerics. A sine pass is recorded only by its frequency (`Playback.SineBuffer`).
- The envelope multiply is modelled in exact real arithmetic. IEEE single-precision rounding of `/ 32768`, `* volume` and `* 32768` is not modelled.
- The ALSA calls are foreign device calls and are not modelled: `snd_pcm_open`, the `snd_pcm_hw_params_*` setup, `snd_pcm_drain` and `snd_pcm_close`, and `check`'s exit on error. Each `snd_pcm_writei` is an element of the ghost trace.
- The return value of the raw-path write (main.c:270) is not checked by the original. It is not modelled: the trace assumes every write delivers all its frames.
- `read_entire_file` (main.c:164-198) is file I/O. The raw pass takes the byte length and the decoded samples as inputs. The reinterpretation of the bytes as native-endian 16-bit samples is a pointer cast, and is not modelled.
- `print_usage` and the `fprintf`/`exit` plumbing are output only. The exits become `ShowUsage` and `Failed(...)` results.
- The endless `-l` loop is bounded by the `passes` parameter of `PlaybackLoop`. Non-termination is not modelled.
- `ExpectInt`: overflow is modelled as rejection of every value above INT_MAX, which is what the `new_val < num` test is meant to do. The test as written relies on signed overflow, which is undefined in C. Its wrap-around reading is the separate `AccumulateAsWritten` (see Findings).
- `ExpectInt` takes a Dafny string, which may contain a NUL character. A C string ends at its first NUL, so the two readings differ only on strings a C caller cannot pass.
- `RawPass` assumes a file below 2 GiB: `offset` and `sample_index` are C `int`s, and their overflow on larger files is not modelled.
- `RawPass` takes the faded result as a ghost parameter described sample by sample (`IsEnvelope`), which keeps the gain arithmetic out of the loop's proof. `PlayPass` passes it `Enveloped` of the buffer, and `EnvelopeCharacterized` shows the two agree.
- `FadeChunk` is the inner `for` loop of the raw pass (main.c:253-268), extracted into its own method. The statements are the original's.
- `RawPass` does not require the input samples to be in 16-bit range. It accepts any integers, and its result is always in range.
- `ParseCommandLine` with an empty argument vector (no program name) returns the defaults. C's `argc` is at least 1 in practice.
- The wave type is an enumeration, so the original's silent case of a type string other than "sine" and "square" (main.c:238-242) cannot arise. The parser rejects such strings.

## Findings

| source | as written | input that shows it | evidently intended | confidence | as-written member | corrected member |
|---|---|---|---|---|---|---|
| main.c:83-85 | the overflow test compares `num*10 + digit` with `num` after the multiply has wrapped; a wrapped product that is still at least `num` passes | `expect_int("10000000000", &x)` returns true with `x` = 1410065408, although 10^10 does not fit in an `int`; the range checks of `-f` and `--fade` then reject that value, so the options are not affected | reject every digit string whose value exceeds INT_MAX | not executed | DecimalInt.WrapAroundAccepted | DecimalInt.ExpectInt |
