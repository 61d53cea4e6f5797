/** Square-wave synthesis: a buffer filled with +AMPLITUDE for the first
    half of every cycle and -AMPLITUDE for the rest, driven by a cycle
    counter that wraps modulo the full-cycle length. */
module Waveform {
  import opened Pcm

  /** Samples in one full cycle, floor(SAMPLE_RATE / freq). For 48000
      divided by a frequency in 1..48000 the float quotient rounded down is
      this integer quotient. */
  function FullCycle(freq: int): (n: int)
    requires 1 <= freq <= SAMPLE_RATE
    ensures 1 <= n <= SAMPLE_RATE
    ensures n * freq <= SAMPLE_RATE < (n + 1) * freq
    ensures 20 <= freq ==> n <= 2400
    ensures freq <= 20000 ==> 2 <= n
  {
    SampleRateDivision(freq);
    SAMPLE_RATE / freq
  }

  lemma SampleRateDivision(freq: int)
    requires 1 <= freq <= SAMPLE_RATE
    ensures (SAMPLE_RATE / freq) * freq <= SAMPLE_RATE < (SAMPLE_RATE / freq + 1) * freq
    ensures 1 <= SAMPLE_RATE / freq
    ensures 20 <= freq ==> SAMPLE_RATE / freq <= 2400
    ensures freq <= 20000 ==> 2 <= SAMPLE_RATE / freq
  {
    var q, m := SAMPLE_RATE / freq, SAMPLE_RATE % freq;
    assert SAMPLE_RATE == q * freq + m && 0 <= m < freq;
    MulLess(1, q + 1, freq);
    if 20 <= freq {
      MulMono(q, 20, freq);
    }
    if freq <= 20000 {
      MulMono(q + 1, freq, 20000);
    }
  }

  lemma MulMono(a: int, b: int, c: int)
    requires 0 <= a && b <= c
    ensures a * b <= a * c
  {
  }

  lemma MulLess(a: int, b: int, n: int)
    requires 0 < n && a * n < b * n
    ensures a < b
  {
  }

  lemma MulZero(d: int, n: int)
    requires 0 < n && -n < d * n < n
    ensures d == 0
  {
  }

  lemma MulSuccessor(c: int, x: int)
    ensures (c + 1) * x == c * x + x
  {
  }

  /** Quotient and remainder are unique: `q * n + r` with `0 <= r < n`
      divides by `n` into exactly `q` and `r`. */
  lemma DivModUnique(x: int, n: int, q: int, r: int)
    requires 0 < n && x == q * n + r && 0 <= r < n
    ensures x / n == q && x % n == r
  {
    var q', r' := x / n, x % n;
    assert (q' - q) * n == r - r';
    MulZero(q' - q, n);
  }

  /** Samples in the high half of a cycle, floor(FullCycle / 2). */
  function HalfCycle(freq: int): (h: int)
    requires 1 <= freq <= SAMPLE_RATE
    ensures 0 <= h && 2 * h <= FullCycle(freq) <= 2 * h + 1
    ensures h == 0 <==> FullCycle(freq) == 1
  {
    FullCycle(freq) / 2
  }

  /** Reference definition of sample `i` of a square wave whose phase starts
      at 0: high while the position within the cycle is in the first half. */
  function SquareSample(freq: int, i: nat): (x: int)
    requires 1 <= freq <= SAMPLE_RATE
    ensures x == AMPLITUDE || x == -AMPLITUDE
  {
    if i % FullCycle(freq) < HalfCycle(freq) then AMPLITUDE else -AMPLITUDE
  }

  /** The first `n` samples of that wave. */
  function SquareSeq(freq: int, n: nat): (s: seq<int>)
    requires 1 <= freq <= SAMPLE_RATE
    ensures |s| == n
    ensures forall i :: 0 <= i < n ==> s[i] == SquareSample(freq, i)
  {
    seq(n, i requires 0 <= i < n => SquareSample(freq, i))
  }

  /** square_wave: writes the first `sampleCount` entries of `buffer` with the
      square wave, the cycle counter starting at 0 on every call. */
  method SquareWave(buffer: array<int>, sampleCount: nat, freq: int)
    requires sampleCount <= buffer.Length
    requires 1 <= freq <= SAMPLE_RATE
    modifies buffer
    ensures buffer[..sampleCount] == SquareSeq(freq, sampleCount)
    ensures forall i :: 0 <= i < sampleCount ==> buffer[i] == AMPLITUDE || buffer[i] == -AMPLITUDE
    ensures buffer[sampleCount..] == old(buffer[sampleCount..])
  {
    var samplesFullCycle := SAMPLE_RATE / freq;
    var samplesHalfCycle := samplesFullCycle / 2;
    var cycleIndex := 0;
    var i := 0;
    while i < sampleCount
      invariant 0 <= i <= sampleCount
      invariant cycleIndex == i % samplesFullCycle
      invariant forall k :: 0 <= k < i ==> buffer[k] == SquareSample(freq, k)
      invariant buffer[sampleCount..] == old(buffer[sampleCount..])
    {
      var sample := 0;
      if cycleIndex < samplesHalfCycle {
        sample := AMPLITUDE;
      } else {
        sample := -AMPLITUDE;
      }
      ModSuccessor(i, samplesFullCycle);
      cycleIndex := (cycleIndex + 1) % samplesFullCycle;
      buffer[i] := sample;
      i := i + 1;
    }
  }

  lemma ModSuccessor(i: nat, n: int)
    requires 1 <= n
    ensures (i % n + 1) % n == (i + 1) % n
  {
    var q, m := i / n, i % n;
    if m + 1 < n {
      DivModUnique(i + 1, n, q, m + 1);
      DivModUnique(m + 1, n, 0, m + 1);
    } else {
      DivModUnique(i + 1, n, q + 1, 0);
      DivModUnique(m + 1, n, 1, 0);
    }
  }

  /** The wave repeats with period FullCycle(freq). */
  lemma SquarePeriodic(freq: int, i: nat)
    requires 1 <= freq <= SAMPLE_RATE
    ensures SquareSample(freq, i + FullCycle(freq)) == SquareSample(freq, i)
  {
    var n := FullCycle(freq);
    DivModUnique(i + n, n, i / n + 1, i % n);
  }

  /** Within cycle `c` the first HalfCycle samples are high and the remaining
      FullCycle - HalfCycle samples are low. */
  lemma SquareCycleShape(freq: int, c: nat, j: int)
    requires 1 <= freq <= SAMPLE_RATE
    requires 0 <= j < FullCycle(freq)
    ensures SquareSample(freq, c * FullCycle(freq) + j) == (if j < HalfCycle(freq) then AMPLITUDE else -AMPLITUDE)
  {
    DivModUnique(c * FullCycle(freq) + j, FullCycle(freq), c, j);
  }

  /** Number of high samples among the first `n` samples. */
  function HighCount(s: seq<int>): nat {
    if s == [] then 0
    else HighCount(s[..|s| - 1]) + (if s[|s| - 1] == AMPLITUDE then 1 else 0)
  }

  function Min(a: int, b: int): int {
    if a <= b then a else b
  }

  /** A buffer of `n` samples holds n / FullCycle complete cycles, each with
      HalfCycle high samples, plus a partial cycle whose high part is cut at
      n % FullCycle. */
  lemma {:induction false} SquareHighCount(freq: int, n: nat)
    requires 1 <= freq <= SAMPLE_RATE
    ensures HighCount(SquareSeq(freq, n)) == (n / FullCycle(freq)) * HalfCycle(freq) + Min(n % FullCycle(freq), HalfCycle(freq))
  {
    if n == 0 {
      DivModUnique(0, FullCycle(freq), 0, 0);
    } else {
      SquareHighCount(freq, n - 1);
      HighCountStep(freq, n - 1);
      CycleCountStep(FullCycle(freq), HalfCycle(freq), n - 1);
    }
  }

  lemma HighCountStep(freq: int, m: nat)
    requires 1 <= freq <= SAMPLE_RATE
    ensures HighCount(SquareSeq(freq, m + 1)) == HighCount(SquareSeq(freq, m)) + (if m % FullCycle(freq) < HalfCycle(freq) then 1 else 0)
  {
    assert SquareSeq(freq, m + 1)[..m] == SquareSeq(freq, m);
  }

  /** The closed form of the high count advances by one exactly when
      position `m` lies in the high half of its cycle. */
  lemma CycleCountStep(full: int, half: int, m: nat)
    requires 1 <= full && 0 <= half && 2 * half <= full
    ensures (m / full) * half + Min(m % full, half) + (if m % full < half then 1 else 0)
         == ((m + 1) / full) * half + Min((m + 1) % full, half)
  {
    var c, j := m / full, m % full;
    DivModUnique(m, full, c, j);
    if j + 1 < full {
      DivModUnique(m + 1, full, c, j + 1);
    } else {
      MulSuccessor(c, full);
      MulSuccessor(c, half);
      DivModUnique(m + 1, full, c + 1, 0);
    }
  }

  /** Every call restarts the phase: the first sample is high whenever the
      high half of the cycle is not empty (freq at most SAMPLE_RATE / 2). */
  lemma SquareStartsHigh(freq: int)
    requires 1 <= freq <= SAMPLE_RATE / 2
    ensures SquareSample(freq, 0) == AMPLITUDE
  {
    MulLess(2, FullCycle(freq) + 1, freq);
  }

  /** Above SAMPLE_RATE / 2 the cycle is a single sample with an empty high
      half, so the wave degenerates to a constant -AMPLITUDE. */
  lemma SquareDegenerate(freq: int, i: nat)
    requires SAMPLE_RATE / 2 < freq <= SAMPLE_RATE
    ensures SquareSample(freq, i) == -AMPLITUDE
  {
    MulLess(FullCycle(freq), 2, freq);
  }
}
