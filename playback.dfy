/** The playback loop of main: one pass writes either a generated one-second
    wave or the whole raw file, chunk by chunk, faded in place; with the loop
    flag the pass repeats. The device is an abstract sink: every write is
    appended to a ghost trace. */
module Playback {
  import opened Wrappers
  import opened Pcm
  import opened Waveform
  import opened Envelope
  import opened CommandLine

  /** Samples per device write: one second. */
  const CHUNK_SAMPLES: int := SAMPLE_RATE
  /** The same chunk in bytes, two per signed 16-bit sample. */
  const CHUNK_BYTES: int := 2 * SAMPLE_RATE

  /** One write of the raw path: the byte offset into the file and the number
      of frames handed to the device. */
  datatype Chunk = Chunk(offset: nat, count: nat)

  /** Frames in the chunk at `offset`: a full second, or whatever whole
      samples remain when less than a second of bytes is left. */
  function ChunkCount(fileSize: nat, offset: nat): (c: nat)
    requires offset < fileSize
    ensures c <= CHUNK_SAMPLES
    ensures offset + CHUNK_BYTES <= fileSize ==> c == CHUNK_SAMPLES
    ensures fileSize < offset + CHUNK_BYTES ==> c == (fileSize - offset) / 2
  {
    if offset + CHUNK_BYTES > fileSize then (fileSize - offset) / 2 else CHUNK_SAMPLES
  }

  /** The writes of one raw pass from byte `offset` on. */
  function PlanFrom(fileSize: nat, offset: nat): seq<Chunk>
    decreases fileSize - offset
  {
    if offset < fileSize then [Chunk(offset, ChunkCount(fileSize, offset))] + PlanFrom(fileSize, offset + CHUNK_BYTES)
    else []
  }

  /** The writes of one raw pass over a file of `fileSize` bytes. */
  function ChunkPlan(fileSize: nat): seq<Chunk> {
    PlanFrom(fileSize, 0)
  }

  function SumCounts(chunks: seq<Chunk>): nat {
    if chunks == [] then 0 else chunks[0].count + SumCounts(chunks[1..])
  }

  /** Chunk `k` of a plan starting at byte `offset` starts `k` chunks
      further on, before the end of the file; it is a full second unless it
      is the last, which holds the remaining whole samples. */
  predicate ChunkInPlace(plan: seq<Chunk>, fileSize: nat, offset: nat, k: nat)
    requires k < |plan|
  {
    && plan[k].offset == offset + k * CHUNK_BYTES
    && plan[k].offset < fileSize
    && (k < |plan| - 1 ==> plan[k].count == CHUNK_SAMPLES)
    && (k == |plan| - 1 ==> plan[k].count == (fileSize - plan[k].offset) / 2)
  }

  lemma {:induction false} PlanFromShape(fileSize: nat, offset: nat)
    ensures forall k :: 0 <= k < |PlanFrom(fileSize, offset)| ==> ChunkInPlace(PlanFrom(fileSize, offset), fileSize, offset, k)
    decreases fileSize - offset
  {
    if offset < fileSize {
      PlanFromShape(fileSize, offset + CHUNK_BYTES);
      var plan := PlanFrom(fileSize, offset);
      var rest := PlanFrom(fileSize, offset + CHUNK_BYTES);
      assert plan == [Chunk(offset, ChunkCount(fileSize, offset))] + rest;
      forall k | 0 <= k < |plan|
        ensures ChunkInPlace(plan, fileSize, offset, k)
      {
        if k > 0 {
          assert plan[k] == rest[k - 1];
          assert ChunkInPlace(rest, fileSize, offset + CHUNK_BYTES, k - 1);
          assert offset + CHUNK_BYTES + (k - 1) * CHUNK_BYTES == offset + k * CHUNK_BYTES;
        } else if |plan| > 1 {
          assert ChunkInPlace(rest, fileSize, offset + CHUNK_BYTES, 0);
        }
      }
    }
  }

  /** The raw pass's writes are laid out as above from byte 0. */
  lemma ChunkPlanShape(fileSize: nat, k: nat)
    requires k < |ChunkPlan(fileSize)|
    ensures ChunkInPlace(ChunkPlan(fileSize), fileSize, 0, k)
  {
    PlanFromShape(fileSize, 0);
  }

  /** There is one write per started second of bytes. */
  lemma {:induction false} PlanFromLength(fileSize: nat, offset: nat)
    requires offset <= fileSize
    ensures |PlanFrom(fileSize, offset)| == (fileSize - offset + CHUNK_BYTES - 1) / CHUNK_BYTES
    decreases fileSize - offset
  {
    if offset < fileSize {
      if offset + CHUNK_BYTES <= fileSize {
        PlanFromLength(fileSize, offset + CHUNK_BYTES);
      }
    }
  }

  /** The frame counts from `offset` add up to the whole samples after it. */
  lemma {:induction false} PlanFromSum(fileSize: nat, offset: nat)
    requires offset <= fileSize
    ensures SumCounts(PlanFrom(fileSize, offset)) == (fileSize - offset) / 2
    decreases fileSize - offset
  {
    if offset < fileSize {
      var plan := PlanFrom(fileSize, offset);
      assert plan[1..] == PlanFrom(fileSize, offset + CHUNK_BYTES);
      if offset + CHUNK_BYTES <= fileSize {
        PlanFromSum(fileSize, offset + CHUNK_BYTES);
      }
    }
  }

  /** One raw pass sends every whole sample of the file exactly once: the
      counts add up to fileSize / 2. */
  lemma ChunkPlanCoversFile(fileSize: nat)
    ensures SumCounts(ChunkPlan(fileSize)) == fileSize / 2
    ensures |ChunkPlan(fileSize)| == (fileSize + CHUNK_BYTES - 1) / CHUNK_BYTES
  {
    PlanFromSum(fileSize, 0);
    PlanFromLength(fileSize, 0);
  }

  /** Two and a bit seconds: two full writes and one of 4000 frames. */
  lemma ChunkPlanExample()
    ensures ChunkPlan(200000) == [Chunk(0, 48000), Chunk(96000, 48000), Chunk(192000, 4000)]
  {
    assert PlanFrom(200000, 288000) == [];
    assert PlanFrom(200000, 192000) == [Chunk(192000, 4000)];
    assert PlanFrom(200000, 96000) == [Chunk(96000, 48000), Chunk(192000, 4000)];
  }

  /** A file one byte longer than a second ends in a write of zero frames. */
  lemma OddByteEndsInEmptyWrite()
    ensures ChunkPlan(96001) == [Chunk(0, 48000), Chunk(96000, 0)]
  {
    assert PlanFrom(96001, 192000) == [];
    assert PlanFrom(96001, 96000) == [Chunk(96000, 0)];
  }

  /** A device write of the raw path and the frames it carried. */
  datatype Write = Write(offset: nat, count: nat, frames: seq<int>)

  function ChunksOf(writes: seq<Write>): (chunks: seq<Chunk>)
    ensures |chunks| == |writes|
    ensures forall k :: 0 <= k < |writes| ==> chunks[k] == Chunk(writes[k].offset, writes[k].count)
  {
    if writes == [] then [] else ChunksOf(writes[..|writes| - 1]) + [Chunk(writes[|writes| - 1].offset, writes[|writes| - 1].count)]
  }

  /** Everything the writes carried, in order. */
  function Sent(writes: seq<Write>): seq<int> {
    if writes == [] then [] else Sent(writes[..|writes| - 1]) + writes[|writes| - 1].frames
  }

  /** The write `w` carries exactly the samples of `s` it covers: `count`
      frames from the sample at byte offset `offset`. */
  predicate CarriesChunk(w: Write, s: seq<int>) {
    w.offset / 2 + w.count <= |s| && w.frames == s[w.offset / 2 .. w.offset / 2 + w.count]
  }

  /** Every write carries its own span of `s`. */
  predicate Carries(writes: seq<Write>, s: seq<int>) {
    forall k :: 0 <= k < |writes| ==> CarriesChunk(writes[k], s)
  }

  lemma CarriesAppend(writes: seq<Write>, w: Write, s: seq<int>)
    requires Carries(writes, s) && CarriesChunk(w, s)
    ensures Carries(writes + [w], s)
  {
    forall k | 0 <= k < |writes| + 1
      ensures CarriesChunk((writes + [w])[k], s)
    {
      if k < |writes| {
        assert (writes + [w])[k] == writes[k];
      }
    }
  }

  /** One raw pass (main.c, the `else` branch of the playback loop): walks
      the file a second at a time, fades each chunk in place, the gain
      depending on the sample's position in the whole file, and hands the
      chunk to the device after fading it. `fade` is the fade length in
      samples. The ghost `target` names the faded file in advance: any
      sequence with IsEnvelope(target, samples[..], fade), which by
      EnvelopeCharacterized is Enveloped(samples[..], fade). Taking it as an
      argument keeps the gain arithmetic of Enveloped out of the loop's proof
      obligations, which with Enveloped in them are too costly to verify. */
  method RawPass(samples: array<int>, fileSize: nat, fade: int, ghost target: seq<int>) returns (ghost writes: seq<Write>)
    requires samples.Length == fileSize / 2
    requires IsEnvelope(target, samples[..], fade)
    modifies samples
    ensures samples[..] == target
    ensures IsEnvelope(samples[..], old(samples[..]), fade)
    ensures ChunksOf(writes) == ChunkPlan(fileSize)
    ensures Sent(writes) == samples[..]
    ensures Carries(writes, samples[..])
  {
    ghost var original := samples[..];
    var sampleCount := fileSize / 2;
    var sampleIndex := 0;
    var offset := 0;
    writes := [];
    while offset < fileSize
      invariant PassState(samples[..], original, target, writes, fileSize, offset, sampleIndex)
      decreases fileSize - offset
    {
      var chunkSampleCount := CHUNK_SAMPLES;
      var chunkSize := chunkSampleCount * 2;
      if offset + chunkSize > fileSize {
        chunkSampleCount := (fileSize - offset) / 2;
      }
      ghost var before := samples[..];
      var first := offset / 2;
      PassChunkBounds(before, original, target, writes, fileSize, offset, sampleIndex, chunkSampleCount);
      var nextIndex := FadeChunk(samples, first, chunkSampleCount, sampleIndex, sampleCount, fade, original, target);
      ghost var w := Write(offset, chunkSampleCount, samples[first..nextIndex]);
      PassStep(before, samples[..], original, target, writes, fileSize, offset, sampleIndex, nextIndex, w);
      sampleIndex := nextIndex;
      writes := writes + [w];
      offset := offset + CHUNK_BYTES;
    }
    PassDone(samples[..], original, target, writes, fileSize, offset, sampleIndex);
  }

  /** What holds between chunks of a raw pass that has reached byte
      `offset`: the samples before `sampleIndex` are faded, the rest are
      untouched, the trace has followed the plan so far and has sent exactly
      the faded prefix. */
  predicate PassState(s: seq<int>, original: seq<int>, target: seq<int>, writes: seq<Write>,
                      fileSize: nat, offset: nat, sampleIndex: nat)
  {
    && |s| == |original| == |target| == fileSize / 2
    && offset % 2 == 0
    && sampleIndex <= fileSize / 2
    && (offset <= fileSize ==> sampleIndex == offset / 2)
    && (fileSize < offset ==> sampleIndex == fileSize / 2)
    && s[..sampleIndex] == target[..sampleIndex]
    && s[sampleIndex..] == original[sampleIndex..]
    && ChunksOf(writes) + PlanFrom(fileSize, offset) == ChunkPlan(fileSize)
    && Sent(writes) == target[..sampleIndex]
    && Carries(writes, target)
  }

  /** The chunk at `offset` starts at the current sample and fits in the
      buffer. */
  lemma PassChunkBounds(s: seq<int>, original: seq<int>, target: seq<int>, writes: seq<Write>,
                        fileSize: nat, offset: nat, sampleIndex: nat, count: nat)
    requires PassState(s, original, target, writes, fileSize, offset, sampleIndex)
    requires offset < fileSize && count == ChunkCount(fileSize, offset)
    ensures sampleIndex == offset / 2 && sampleIndex + count <= fileSize / 2
  {
    ChunkAdvance(fileSize, offset, count);
  }

  /** Fading the chunk at `offset` and appending its write keeps PassState,
      one chunk further on. */
  lemma PassStep(s0: seq<int>, s1: seq<int>, original: seq<int>, target: seq<int>, writes: seq<Write>,
                 fileSize: nat, offset: nat, first: nat, next: nat, w: Write)
    requires PassState(s0, original, target, writes, fileSize, offset, first)
    requires offset < fileSize && first + w.count == next
    requires ChunkFaded(s0, s1, original, target, first, next)
    requires w == Write(offset, ChunkCount(fileSize, offset), s1[first..next])
    ensures PassState(s1, original, target, writes + [w], fileSize, offset + CHUNK_BYTES, next)
  {
    ChunkAdvance(fileSize, offset, w.count);
    assert s1[..next] == target[..next] by {
      forall k | 0 <= k < next
        ensures s1[k] == target[k]
      {
        if k < first {
          assert s0[..first][k] == target[..first][k];
        }
      }
    }
    assert s1[next..] == original[next..];
    assert w.frames == target[first..next];
    CarriesAppend(writes, w, target);
    TraceStep(writes, fileSize, offset, w.count, w.frames, target, first, next);
  }

  /** At the end of the file the buffer is the faded file and the trace has
      sent all of it. */
  lemma PassDone(s: seq<int>, original: seq<int>, target: seq<int>, writes: seq<Write>,
                 fileSize: nat, offset: nat, sampleIndex: nat)
    requires PassState(s, original, target, writes, fileSize, offset, sampleIndex)
    requires fileSize <= offset
    ensures s == target
    ensures ChunksOf(writes) == ChunkPlan(fileSize)
    ensures Sent(writes) == s
    ensures Carries(writes, s)
  {
    assert s == s[..sampleIndex];
    assert target == target[..sampleIndex];
    assert PlanFrom(fileSize, offset) == [];
    assert ChunksOf(writes) + [] == ChunksOf(writes);
  }

  /** The inner loop of the raw pass: fades the `count` samples from
      position `first` in place. `sampleIndex` is the running position in
      the file, which equals `first` on entry; the new position is returned.
      `original` is the buffer before the pass, which the samples from
      `first` on still hold, and `target` its faded form. */
  method FadeChunk(samples: array<int>, first: nat, count: nat, sampleIndex: nat, sampleCount: nat, fade: int,
                   ghost original: seq<int>, ghost target: seq<int>) returns (nextIndex: nat)
    requires sampleIndex == first && first + count <= sampleCount
    requires samples.Length == sampleCount == |original|
    requires IsEnvelope(target, original, fade)
    requires samples[first..] == original[first..]
    modifies samples
    ensures nextIndex == first + count
    ensures ChunkFaded(old(samples[..]), samples[..], original, target, first, nextIndex)
  {
    forall k | first <= k < sampleCount
      ensures samples[k] == original[k]
    {
      assert samples[first..][k - first] == original[first..][k - first];
    }
    nextIndex := sampleIndex;
    var i := 0;
    while i < count
      invariant 0 <= i <= count
      invariant nextIndex == first + i
      invariant forall k :: 0 <= k < first ==> samples[k] == old(samples[k])
      invariant forall k :: first <= k < nextIndex ==> samples[k] == target[k]
      invariant forall k :: nextIndex <= k < sampleCount ==> samples[k] == original[k]
    {
      var volume: real;
      if nextIndex < fade {
        volume := nextIndex as real / fade as real;
      } else if sampleCount - nextIndex < fade {
        volume := (sampleCount - nextIndex) as real / fade as real;
      } else {
        volume := 1.0;
      }
      ghost var before := samples[first + i];
      var normalizedSample := samples[first + i] as real / 32768.0;
      ghost var unscaled := normalizedSample;
      normalizedSample := normalizedSample * volume;
      samples[first + i] := TruncTowardZero(Clamp(normalizedSample * 32768.0, -32768.0, 32767.0));
      assert samples[nextIndex] == target[nextIndex] by {
        assert volume == Volume(nextIndex, sampleCount, fade);
        StoreIsGain(before, unscaled, volume, normalizedSample);
        assert target[nextIndex] == GainAt(original, fade, nextIndex);
      }
      nextIndex := nextIndex + 1;
      i := i + 1;
    }
  }

  /** `s1` is `s0` with positions `first` up to `next` faded and everything
      from `next` on still the original. */
  predicate ChunkFaded(s0: seq<int>, s1: seq<int>, original: seq<int>, target: seq<int>, first: nat, next: nat) {
    && first <= next <= |s1| == |s0| <= |target| && |s1| <= |original|
    && (forall k :: 0 <= k < first ==> s1[k] == s0[k])
    && (forall k :: first <= k < next ==> s1[k] == target[k])
    && (forall k :: next <= k < |s1| ==> s1[k] == original[k])
  }

  /** Where the sample position stands after the chunk at `offset`. */
  lemma ChunkAdvance(fileSize: nat, offset: nat, count: nat)
    requires offset % 2 == 0 && offset < fileSize
    requires count == ChunkCount(fileSize, offset)
    ensures offset / 2 + count <= fileSize / 2
    ensures offset + CHUNK_BYTES <= fileSize ==> offset / 2 + count == (offset + CHUNK_BYTES) / 2
    ensures fileSize < offset + CHUNK_BYTES ==> offset / 2 + count == fileSize / 2
  {
  }

  /** Appending the write of the chunk at `offset` keeps the trace in step
      with the plan and with the faded buffer. */
  lemma TraceStep(writes: seq<Write>, fileSize: nat, offset: nat, count: nat, frames: seq<int>,
                  target: seq<int>, first: nat, next: nat)
    requires offset < fileSize && count == ChunkCount(fileSize, offset)
    requires first <= next <= |target|
    requires ChunksOf(writes) + PlanFrom(fileSize, offset) == ChunkPlan(fileSize)
    requires Sent(writes) == target[..first]
    requires frames == target[first..next]
    ensures ChunksOf(writes + [Write(offset, count, frames)]) + PlanFrom(fileSize, offset + CHUNK_BYTES) == ChunkPlan(fileSize)
    ensures Sent(writes + [Write(offset, count, frames)]) == target[..next]
  {
    var w := Write(offset, count, frames);
    PlanStep(writes, fileSize, offset, w);
    SentStep(writes, w);
    assert target[..next] == target[..first] + target[first..next];
  }

  lemma PlanStep(writes: seq<Write>, fileSize: nat, offset: nat, w: Write)
    requires offset < fileSize && w.offset == offset && w.count == ChunkCount(fileSize, offset)
    ensures ChunksOf(writes + [w]) + PlanFrom(fileSize, offset + CHUNK_BYTES)
         == ChunksOf(writes) + PlanFrom(fileSize, offset)
  {
    var c, rest := Chunk(offset, w.count), PlanFrom(fileSize, offset + CHUNK_BYTES);
    ChunksStep(writes, w);
    assert PlanFrom(fileSize, offset) == [c] + rest;
    assert (ChunksOf(writes) + [c]) + rest == ChunksOf(writes) + ([c] + rest);
  }

  lemma SentStep(writes: seq<Write>, w: Write)
    ensures Sent(writes + [w]) == Sent(writes) + w.frames
  {
    assert (writes + [w])[..|writes|] == writes;
  }

  lemma ChunksStep(writes: seq<Write>, w: Write)
    ensures ChunksOf(writes + [w]) == ChunksOf(writes) + [Chunk(w.offset, w.count)]
  {
    assert (writes + [w])[..|writes|] == writes;
  }

  /** The three statements of the sample update are the gain store. */
  lemma StoreIsGain(sample: int, normalized: real, volume: real, scaled: real)
    requires normalized == sample as real / 32768.0 && scaled == normalized * volume
    ensures TruncTowardZero(Clamp(scaled * 32768.0, -32768.0, 32767.0)) == ApplyGain(sample, volume)
  {
    assert scaled == (sample as real / 32768.0) * volume;
    assert ApplyGain(sample, volume) == Store(((sample as real / 32768.0) * volume) * 32768.0);
    assert Store(scaled * 32768.0) == TruncTowardZero(Clamp(scaled * 32768.0, -32768.0, 32767.0));
  }

  /** What one pass of the playback loop hands to the device: a generated
      one-second buffer (its sine samples are not modelled, only its
      frequency), a one-second square wave, or the writes of a raw pass. */
  datatype Pass = SineBuffer(freq: int) | SquareBuffer(frames: seq<int>) | RawChunks(writes: seq<Write>)

  /** The pass written when no raw file is given: the same second of the
      chosen wave every time. */
  function GeneratedPass(options: Options): (p: Pass)
    requires ValidFrequency(options.freq)
    ensures p.SquareBuffer? ==> |p.frames| == SAMPLE_RATE
    ensures p.SquareBuffer? ==> forall i :: 0 <= i < SAMPLE_RATE ==> p.frames[i] == AMPLITUDE || p.frames[i] == -AMPLITUDE
  {
    if options.waveType == Sine then SineBuffer(options.freq) else SquareBuffer(SquareSeq(options.freq, SAMPLE_RATE))
  }

  /** `p` is a raw pass over a file of `fileSize` bytes that sent `sent`. */
  predicate RawPassOf(p: Pass, fileSize: nat, sent: seq<int>) {
    p.RawChunks? && ChunksOf(p.writes) == ChunkPlan(fileSize) && Sent(p.writes) == sent && Carries(p.writes, sent)
  }

  /** The playback loop of main after the options are parsed: with the help
      flag nothing is played; otherwise one pass is played, or `passes`
      passes with the loop flag, where `passes` bounds the otherwise endless
      loop. A raw file is faded in place on every pass, so pass `p` sends
      the file faded `p + 1` times. */
  method PlaybackLoop(options: Options, samples: array<int>, fileSize: nat, passes: nat) returns (ghost trace: seq<Pass>)
    requires InRange(options) && 1 <= passes
    requires samples.Length == fileSize / 2
    modifies samples
    ensures options.displayHelp ==> trace == []
    ensures !options.displayHelp ==> |trace| == if options.shouldLoop then passes else 1
    ensures options.rawPath.None? ==> samples[..] == old(samples[..])
    ensures options.rawPath.None? ==> forall p :: 0 <= p < |trace| ==> trace[p] == GeneratedPass(options)
    ensures options.rawPath.Some? ==> samples[..] == Faded(old(samples[..]), FadeSamples(options.fadeMs), |trace|)
    ensures options.rawPath.Some? ==>
      forall p :: 0 <= p < |trace| ==> RawPassOf(trace[p], fileSize, Faded(old(samples[..]), FadeSamples(options.fadeMs), p + 1))
  {
    trace := [];
    if options.displayHelp {
      return;
    }
    var fade := options.fadeMs * (SAMPLE_RATE / 1000);
    ghost var original := samples[..];
    var played := 0;
    var more := true;
    while more
      invariant 0 <= played <= passes && |trace| == played
      invariant more ==> played < passes
      invariant !more ==> played == if options.shouldLoop then passes else 1
      invariant more && !options.shouldLoop ==> played == 0
      invariant Played(options, fileSize, fade, original, samples[..], trace)
      decreases passes - played
    {
      ghost var before := samples[..];
      var pass := PlayPass(options, samples, fileSize, fade);
      PlayedStep(options, fileSize, fade, original, before, samples[..], trace, pass);
      trace := trace + [pass];
      played := played + 1;
      more := options.shouldLoop && played < passes;
    }
  }

  /** What `trace` and the buffer `s` are after the passes in `trace`,
      starting from the buffer `original`. */
  predicate Played(options: Options, fileSize: nat, fade: int, original: seq<int>, s: seq<int>, trace: seq<Pass>)
    requires ValidFrequency(options.freq)
  {
    && (options.rawPath.None? ==> s == original && forall p :: 0 <= p < |trace| ==> trace[p] == GeneratedPass(options))
    && (options.rawPath.Some? ==> s == Faded(original, fade, |trace|))
    && (options.rawPath.Some? ==> forall p :: 0 <= p < |trace| ==> RawPassOf(trace[p], fileSize, Faded(original, fade, p + 1)))
  }

  /** One more pass extends Played by that pass. */
  lemma PlayedStep(options: Options, fileSize: nat, fade: int, original: seq<int>, s0: seq<int>, s1: seq<int>,
                   trace: seq<Pass>, pass: Pass)
    requires ValidFrequency(options.freq)
    requires Played(options, fileSize, fade, original, s0, trace)
    requires options.rawPath.None? ==> s1 == s0 && pass == GeneratedPass(options)
    requires options.rawPath.Some? ==> s1 == Enveloped(s0, fade)
    requires options.rawPath.Some? ==> RawPassOf(pass, fileSize, s1)
    ensures Played(options, fileSize, fade, original, s1, trace + [pass])
  {
    if options.rawPath.Some? {
      assert s1 == Faded(original, fade, |trace| + 1);
      forall p | 0 <= p < |trace| + 1
        ensures RawPassOf((trace + [pass])[p], fileSize, Faded(original, fade, p + 1))
      {
        if p < |trace| {
          assert (trace + [pass])[p] == trace[p];
        }
      }
    }
  }

  /** The body of the playback loop: one pass of the generated wave, or
      one raw pass over the file with a fade of `fade` samples. */
  method PlayPass(options: Options, samples: array<int>, fileSize: nat, fade: int) returns (ghost pass: Pass)
    requires ValidFrequency(options.freq)
    requires samples.Length == fileSize / 2
    modifies samples
    ensures options.rawPath.None? ==> samples[..] == old(samples[..]) && pass == GeneratedPass(options)
    ensures options.rawPath.Some? ==> samples[..] == Enveloped(old(samples[..]), fade)
    ensures options.rawPath.Some? ==> RawPassOf(pass, fileSize, samples[..])
  {
    if options.rawPath.None? {
      if options.waveType == Sine {
        pass := SineBuffer(options.freq);
      } else {
        var buffer := new int[SAMPLE_RATE](_ => 0);
        SquareWave(buffer, SAMPLE_RATE, options.freq);
        assert buffer[..] == buffer[..SAMPLE_RATE];
        pass := SquareBuffer(buffer[..]);
      }
    } else {
      EnvelopeCharacterized(Enveloped(samples[..], fade), samples[..], fade);
      var writes := RawPass(samples, fileSize, fade, Enveloped(samples[..], fade));
      pass := RawChunks(writes);
    }
  }

  /** Looping restarts the square wave's phase every second instead of
      continuing it: at 450 Hz a cycle is 106 samples and a second ends 88
      samples into a cycle, in its low half, yet every pass starts high. */
  lemma LoopRestartsPhase()
    ensures FullCycle(450) == 106 && HalfCycle(450) == 53
    ensures SquareSample(450, SAMPLE_RATE) == -AMPLITUDE
    ensures GeneratedPass(Options(false, true, Square, None, 450, 0)).frames[0] == AMPLITUDE
  {
    DivModUnique(SAMPLE_RATE, 450, 106, 300);
    DivModUnique(SAMPLE_RATE, 106, 452, 88);
    SquareStartsHigh(450);
  }
}
