/** The fade envelope of raw-file playback: a linear gain computed from a
    sample's global index, and the saturating in-place store of the scaled
    sample. The float arithmetic of the original is modelled exactly, with
    `real`; the final conversion to a sample truncates toward zero. */
module Envelope {
  import opened Pcm
  import opened RealArith

  /** The fade length in samples: milliseconds times the integer factor
      SAMPLE_RATE / 1000, i.e. 48 samples per millisecond. */
  function FadeSamples(fadeMs: int): (f: int)
    ensures f == 0 <==> fadeMs == 0
    ensures 0 <= fadeMs <= 5000 ==> 0 <= f <= 5 * SAMPLE_RATE
    ensures fadeMs == 1000 ==> f == SAMPLE_RATE
  {
    fadeMs * (SAMPLE_RATE / 1000)
  }

  /** Gain of the sample at global position `index` of `total` samples, for a
      fade window of `fade` samples: a ramp up over the first `fade` samples,
      a ramp down over the last ones, and 1 elsewhere. The fade-in test comes
      first, so it wins where the two windows overlap. */
  function Volume(index: nat, total: nat, fade: int): (v: real)
    requires index < total
    ensures 0.0 <= v <= 1.0
    ensures v == 1.0 <==> fade <= index && fade <= total - index
    ensures v == 0.0 <==> 0 < fade && index == 0
  {
    if index < fade then
      RatioInUnit(index, fade);
      index as real / fade as real
    else if total - index < fade then
      RatioInUnit(total - index, fade);
      (total - index) as real / fade as real
    else 1.0
  }

  /** Where both windows cover a sample, the fade-in ramp gives its gain. */
  lemma FadeInPrecedence(index: nat, total: nat, fade: int)
    requires index < total
    requires index < fade && total - index < fade
    ensures Volume(index, total, fade) == index as real / fade as real
  {
  }

  /** A window at least as long as the whole buffer never reaches the
      fade-out branch: every gain is on the fade-in ramp. */
  lemma LongFadeOnlyFadesIn(index: nat, total: nat, fade: int)
    requires index < total <= fade
    ensures Volume(index, total, fade) == index as real / fade as real
  {
  }

  /** Without overlap, the fade-out mirrors the fade-in: `k` samples from
      the start and `k` samples before the end get the same gain k / fade. */
  lemma FadeOutMirrorsFadeIn(total: nat, fade: int, k: nat)
    requires 0 < k < fade && 2 * fade <= total
    ensures Volume(k, total, fade) == Volume(total - k, total, fade) == k as real / fade as real
  {
  }

  /** The fade-in ramp is strictly increasing, the fade-out ramp strictly
      decreasing. */
  lemma RampsAreMonotone(index: nat, total: nat, fade: int)
    requires index + 1 < total
    ensures index + 1 < fade ==> Volume(index, total, fade) < Volume(index + 1, total, fade)
    ensures fade <= index && total - index <= fade ==> Volume(index + 1, total, fade) < Volume(index, total, fade)
  {
  }

  /** A one-second buffer faded over one second: the first sample is silent
      and, because the fade-in test wins, the last sample is on the fade-in
      ramp at 47999/48000 rather than on the fade-out ramp. */
  lemma OneSecondBufferOneSecondFade()
    ensures FadeSamples(1000) == SAMPLE_RATE
    ensures Volume(0, SAMPLE_RATE, FadeSamples(1000)) == 0.0
    ensures Volume(SAMPLE_RATE - 1, SAMPLE_RATE, FadeSamples(1000)) == 47999.0 / 48000.0
  {
  }

  /** The cast `(s16)clamp(x, -32768, 32767)`: clamp to the 16-bit range,
      then truncate toward zero. The result fits in 16 bits, saturates at
      the nearer bound when `x` is outside the range, keeps the sign of `x`,
      is no larger than `x` in magnitude, loses less than 1 when `x` is
      already in range, and is `x` itself when `x` is an in-range integer. */
  function Store(x: real): (t: int)
    ensures IsS16(t)
    ensures S16_MAX as real <= x ==> t == S16_MAX
    ensures x <= S16_MIN as real ==> t == S16_MIN
    ensures Abs(t) as real <= AbsReal(x)
    ensures (0.0 <= x ==> 0 <= t) && (x <= 0.0 ==> t <= 0)
    ensures S16_MIN as real <= x <= S16_MAX as real ==> AbsReal(x) - 1.0 < Abs(t) as real
    ensures x == x.Floor as real && S16_MIN as real <= x <= S16_MAX as real ==> t == x.Floor
  {
    var c := Clamp(x, S16_MIN as real, S16_MAX as real);
    assert AbsReal(c) <= AbsReal(x);
    assert AbsReal(TruncTowardZero(c) as real) == Abs(TruncTowardZero(c)) as real;
    TruncTowardZero(c)
  }

  /** Normalizing by 32768, applying the gain and scaling back is exact in
      real arithmetic. */
  lemma ScaleExact(sample: int, volume: real)
    ensures (sample as real / 32768.0) * volume * 32768.0 == sample as real * volume
  {
  }

  /** The store of one sample (main.c:262-265): normalize by 32768, multiply by
      the gain, scale back, clamp to the 16-bit range and truncate. The
      result always fits in 16 bits (saturation, never wrap-around); for a
      gain in [0, 1] it keeps the sign and never grows in magnitude. */
  function ApplyGain(sample: int, volume: real): (r: int)
    ensures IsS16(r)
    ensures 0.0 <= volume <= 1.0 ==> Abs(r) <= Abs(sample)
    ensures 0.0 <= volume ==> (0 <= sample ==> 0 <= r) && (sample <= 0 ==> r <= 0)
    ensures volume == 1.0 && IsS16(sample) ==> r == sample
    ensures volume == 0.0 ==> r == 0
  {
    var normalized := (sample as real / 32768.0) * volume;
    ScaleExact(sample, volume);
    if 0.0 <= volume then
      GainMagnitude(sample, volume);
      Store(normalized * 32768.0)
    else
      Store(normalized * 32768.0)
  }

  lemma GainMagnitude(sample: int, volume: real)
    requires 0.0 <= volume
    ensures AbsReal(sample as real * volume) == Abs(sample) as real * volume
    ensures volume <= 1.0 ==> AbsReal(sample as real * volume) <= Abs(sample) as real
    ensures 0 <= sample ==> 0.0 <= sample as real * volume
    ensures sample <= 0 ==> sample as real * volume <= 0.0
    ensures volume == 1.0 ==> sample as real * volume == sample as real
    ensures volume == 0.0 ==> sample as real * volume == 0.0
  {
    ProductMagnitude(sample as real, volume);
    if volume <= 1.0 {
      ProductShrinks(sample as real, volume);
    }
    assert AbsReal(sample as real) == Abs(sample) as real;
  }

  /** `b` is magnitude `a` scaled by `v` and rounded down. */
  predicate ScaledDown(a: real, v: real, b: real) {
    a * v - 1.0 < b <= a * v
  }

  /** For an in-range sample and a gain in [0, 1] the clamp never bites: the
      stored magnitude is |sample| * volume rounded down. */
  lemma ApplyGainBounds(sample: int, volume: real, r: int)
    requires IsS16(sample) && 0.0 <= volume <= 1.0
    requires r == ApplyGain(sample, volume)
    ensures ScaledDown(Abs(sample) as real, volume, Abs(r) as real)
  {
    ScaleExact(sample, volume);
    GainMagnitude(sample, volume);
    var x := sample as real * volume;
    assert S16_MIN as real <= x <= S16_MAX as real;
  }

  /** The first `n` samples of one playback pass over buffer `s`: every
      sample is replaced by its gain-scaled value, the gain depending on its
      position in the whole buffer. */
  function EnvelopedPrefix(s: seq<int>, fade: int, n: nat): (r: seq<int>)
    requires n <= |s|
    ensures |r| == n
    ensures AllS16(r)
    ensures forall i :: 0 <= i < n ==> Abs(r[i]) <= Abs(s[i])
    decreases n
  {
    if n == 0 then []
    else EnvelopedPrefix(s, fade, n - 1) + [ApplyGain(s[n - 1], Volume(n - 1, |s|, fade))]
  }

  /** One playback pass over a whole buffer. */
  function Enveloped(s: seq<int>, fade: int): (r: seq<int>)
    ensures |r| == |s|
    ensures AllS16(r)
    ensures forall i :: 0 <= i < |s| ==> Abs(r[i]) <= Abs(s[i])
  {
    EnvelopedPrefix(s, fade, |s|)
  }

  lemma {:induction false} EnvelopedPrefixAt(s: seq<int>, fade: int, n: nat, k: nat)
    requires k < n <= |s|
    ensures EnvelopedPrefix(s, fade, n)[k] == ApplyGain(s[k], Volume(k, |s|, fade))
    decreases n
  {
    if k < n - 1 {
      EnvelopedPrefixAt(s, fade, n - 1, k);
    }
  }

  /** Sample `k` after a pass is sample `k` before it stored with the gain of
      position `k`. */
  lemma EnvelopedAt(s: seq<int>, fade: int, k: nat)
    requires k < |s|
    ensures Enveloped(s, fade)[k] == ApplyGain(s[k], Volume(k, |s|, fade))
  {
    EnvelopedPrefixAt(s, fade, |s|, k);
  }

  /** Sample `k` of `s` after one pass: stored with the gain of position `k`. */
  function GainAt(s: seq<int>, fade: int, k: nat): int
    requires k < |s|
  {
    ApplyGain(s[k], Volume(k, |s|, fade))
  }

  /** `t` is buffer `s` after one pass, stated sample by sample. */
  predicate IsEnvelope(t: seq<int>, s: seq<int>, fade: int) {
    |t| == |s| && forall k {:trigger GainAt(s, fade, k)} :: 0 <= k < |s| ==> t[k] == GainAt(s, fade, k)
  }

  /** The pass, as a whole-buffer function, agrees with its sample-by-sample
      statement, and that statement determines the result. */
  lemma EnvelopeCharacterized(t: seq<int>, s: seq<int>, fade: int)
    ensures IsEnvelope(t, s, fade) <==> t == Enveloped(s, fade)
  {
    forall k | 0 <= k < |s|
      ensures Enveloped(s, fade)[k] == GainAt(s, fade, k)
    {
      EnvelopedAt(s, fade, k);
    }
    if IsEnvelope(t, s, fade) {
      forall k | 0 <= k < |s|
        ensures t[k] == Enveloped(s, fade)[k]
      {
        assert t[k] == GainAt(s, fade, k);
      }
    }
  }

  /** With no fade window a pass leaves an in-range buffer unchanged. */
  lemma EnvelopeWithoutFade(s: seq<int>, fade: int)
    requires fade <= 0 && AllS16(s)
    ensures Enveloped(s, fade) == s
  {
    forall i | 0 <= i < |s|
      ensures Enveloped(s, fade)[i] == s[i]
    {
      EnvelopedAt(s, fade, i);
      assert Volume(i, |s|, fade) == 1.0;
    }
  }

  /** With a fade window the first sample of every pass is silenced. */
  lemma EnvelopeSilencesFirstSample(s: seq<int>, fade: int)
    requires 0 < fade && 0 < |s|
    ensures Enveloped(s, fade)[0] == 0
  {
    EnvelopedAt(s, fade, 0);
  }

  /** The buffer after `passes` passes of the same envelope: looped playback
      fades the already-faded buffer again. */
  function Faded(s: seq<int>, fade: int, passes: nat): (r: seq<int>)
    ensures |r| == |s|
    ensures 0 < passes ==> AllS16(r)
  {
    if passes == 0 then s else Enveloped(Faded(s, fade, passes - 1), fade)
  }

  /** Magnitudes never grow from one pass to a later one. */
  lemma {:induction false} FadedNonIncreasing(s: seq<int>, fade: int, p: nat, q: nat, i: nat)
    requires p <= q && i < |s|
    ensures Abs(Faded(s, fade, q)[i]) <= Abs(Faded(s, fade, p)[i])
  {
    if p < q {
      FadedNonIncreasing(s, fade, p, q - 1, i);
    }
  }

  /** `c` is what two truncating stores with gain `v` leave of magnitude `a`:
      at most a * v * v, less than v + 1 below it. */
  predicate TwiceScaled(a: real, v: real, c: real) {
    a * v * v - v - 1.0 < c <= a * v * v
  }

  /** The fade compounds: after two passes the magnitude is the original
      magnitude times the square of the gain, up to the truncation lost on
      each of the two stores. */
  lemma TwoPassesSquareTheGain(s: seq<int>, fade: int, i: nat)
    requires AllS16(s) && i < |s|
    ensures TwiceScaled(Abs(s[i]) as real, Volume(i, |s|, fade), Abs(Faded(s, fade, 2)[i]) as real)
  {
    var v := Volume(i, |s|, fade);
    var once := Faded(s, fade, 1)[i];
    var twice := Faded(s, fade, 2)[i];
    assert once == ApplyGain(s[i], v) by {
      FadedStep(s, fade, 0, i);
    }
    assert twice == ApplyGain(once, v) by {
      FadedStep(s, fade, 1, i);
    }
    ApplyGainBounds(s[i], v, once);
    ApplyGainBounds(once, v, twice);
    TwoStores(Abs(s[i]) as real, v, Abs(once) as real, Abs(twice) as real);
  }

  /** Pass `p + 1` stores sample `i` of pass `p` with the gain of position `i`. */
  lemma FadedStep(s: seq<int>, fade: int, p: nat, i: nat)
    requires i < |s|
    ensures Faded(s, fade, p + 1)[i] == ApplyGain(Faded(s, fade, p)[i], Volume(i, |s|, fade))
  {
    EnvelopedAt(Faded(s, fade, p), fade, i);
  }

  /** Two roundings down with the same gain: the second pass loses the
      first pass's truncation scaled by `v`, plus its own. */
  lemma TwoStores(a: real, v: real, b: real, c: real)
    requires 0.0 <= v
    requires ScaledDown(a, v, b) && ScaledDown(b, v, c)
    ensures TwiceScaled(a, v, c)
  {
    ScaleLower(a, b, c, v);
    ScaleUpper(a, b, c, v);
  }
}
