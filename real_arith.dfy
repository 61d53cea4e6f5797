/** Facts about products of reals that the envelope proofs need, kept
    apart so that each is proved in a small context. */
module RealArith {
  import opened Pcm

  lemma ProductMagnitude(x: real, volume: real)
    requires 0.0 <= volume
    ensures AbsReal(x * volume) == AbsReal(x) * volume
    ensures 0.0 <= x ==> 0.0 <= x * volume
    ensures x <= 0.0 ==> x * volume <= 0.0
  {
    if x < 0.0 {
      assert x * volume == -((-x) * volume);
    }
  }

  lemma ProductShrinks(x: real, volume: real)
    requires 0.0 <= volume <= 1.0
    ensures AbsReal(x * volume) <= AbsReal(x)
  {
    var m := AbsReal(x);
    MulRight(0.0, volume, m);
    MulRight(volume, 1.0, m);
    assert AbsReal(x * volume) == volume * m by {
      ProductMagnitude(x, volume);
    }
  }

  lemma MulRight(x: real, y: real, v: real)
    requires x <= y && 0.0 <= v
    ensures x * v <= y * v
  {
  }

  lemma ScaleLower(a: real, b: real, c: real, v: real)
    requires 0.0 <= v
    requires a * v - 1.0 < b
    requires b * v - 1.0 < c
    ensures a * v * v - v - 1.0 < c
  {
    var w := a * v - 1.0;
    MulRight(w, b, v);
    assert w * v == a * v * v - v;
    assert a * v * v - v <= b * v;
  }

  lemma ScaleUpper(a: real, b: real, c: real, v: real)
    requires 0.0 <= v
    requires b <= a * v
    requires c <= b * v
    ensures c <= a * v * v
  {
    MulRight(b, a * v, v);
  }

  /** A proper fraction of naturals lies in [0, 1) and is 0 only for a zero
      numerator. */
  lemma RatioInUnit(p: int, q: int)
    requires 0 <= p < q
    ensures 0.0 <= p as real / q as real < 1.0
    ensures p as real / q as real == 0.0 <==> p == 0
  {
    var r := p as real / q as real;
    assert r * q as real == p as real;
    if r < 0.0 {
      MulRight(r, 0.0, q as real);
    }
    if 1.0 <= r {
      MulRight(1.0, r, q as real);
    }
  }
}
