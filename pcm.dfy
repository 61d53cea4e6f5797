/** The fixed audio format of the player (mono, signed 16-bit, 48 kHz) and
    the sample-level arithmetic shared by the synthesizer and the envelope. */
module Pcm {

  /** Frames per second; one device write of a full chunk is one second. */
  const SAMPLE_RATE: int := 48000
  /** Peak of the synthesized waves, deliberately below full scale. */
  const AMPLITUDE: int := 10000
  const S16_MIN: int := -32768
  const S16_MAX: int := 32767

  /** A value that fits in a signed 16-bit sample. */
  predicate IsS16(x: int) {
    S16_MIN <= x <= S16_MAX
  }

  predicate AllS16(s: seq<int>) {
    forall i :: 0 <= i < |s| ==> IsS16(s[i])
  }

  function Abs(x: int): nat {
    if x < 0 then -x else x
  }

  function AbsReal(x: real): real {
    if x < 0.0 then -x else x
  }

  /** The three-way range clamp: below the range gives `min`, above it `max`,
      otherwise the value itself. The `min` test comes first. */
  function Clamp(value: real, min: real, max: real): (r: real)
    ensures value < min ==> r == min
    ensures min <= value && max < value ==> r == max
    ensures min <= max ==> min <= r <= max
    ensures min <= value <= max ==> r == value
    ensures r == value || r == min || r == max
  {
    if value < min then min
    else if value > max then max
    else value
  }

  /** The conversion of a float to an integer type: truncation toward zero.
      The result is the integer of largest magnitude not exceeding `x` in
      magnitude, and it keeps the sign of `x`. */
  function TruncTowardZero(x: real): (r: int)
    ensures AbsReal(r as real) <= AbsReal(x) < AbsReal(r as real) + 1.0
    ensures 0.0 <= x ==> 0 <= r
    ensures x <= 0.0 ==> r <= 0
  {
    if x >= 0.0 then x.Floor else -((-x).Floor)
  }
}
