/**
 * The saliency working-size policy of `process_image`: the floor of the
 * geometric mean of the image's sides, divided by four, never below 64.
 */
module ScalePolicy {

  /** The smallest working size the saliency engine is ever asked for. */
  const MinWorkingSize: nat := 64

  /** The geometric mean is divided by this (integer floor division). */
  const Divisor: nat := 4

  /** The integer square root: the largest r with r * r <= n. */
  function Isqrt(n: nat): (r: nat)
    ensures r * r <= n < (r + 1) * (r + 1)
  {
    if n < 4 then
      (if n == 0 then 0 else 1)
    else
      var t := Isqrt(n / 4);
      DoubledRoot(n, t);
      if (2 * t + 1) * (2 * t + 1) <= n then 2 * t + 1 else 2 * t
  }

  /** If t is the integer square root of n // 4, then 2t <= sqrt(n) < 2t + 2. */
  lemma DoubledRoot(n: nat, t: nat)
    requires t * t <= n / 4 < (t + 1) * (t + 1)
    ensures (2 * t) * (2 * t) <= n
    ensures n < (2 * t + 1 + 1) * (2 * t + 1 + 1)
    ensures n < (2 * t + 1) * (2 * t + 1) + 2 * (2 * t + 1) + 1
  {
    var q := n / 4;
    assert 4 * q <= n < 4 * q + 4;
    assert (2 * t) * (2 * t) == 4 * (t * t);
    assert (2 * t + 2) * (2 * t + 2) == 4 * ((t + 1) * (t + 1));
  }

  /**
   * The working size for a w-by-h image: max(64, isqrt(w * h) // 4).
   * The result is never below 64; above 64 it is the unique k with
   * (4k)^2 <= w * h < (4(k + 1))^2, and it is exactly 64 only when
   * w * h < (4 * 65)^2.
   */
  function SrSize(w: nat, h: nat): (r: nat)
    ensures r >= MinWorkingSize
    ensures r > MinWorkingSize ==> 16 * (r * r) <= w * h < 16 * ((r + 1) * (r + 1))
    ensures r == MinWorkingSize <==> w * h < 16 * ((MinWorkingSize + 1) * (MinWorkingSize + 1))
  {
    var g := Isqrt(w * h);
    var q := g / Divisor;
    QuarterOfRoot(w * h, g, q);
    if q > MinWorkingSize then q else MinWorkingSize
  }

  /** If g is the integer square root of n and q = g // 4, then 16 q^2 <= n < 16 (q + 1)^2. */
  lemma QuarterOfRoot(n: nat, g: nat, q: nat)
    requires g * g <= n < (g + 1) * (g + 1)
    requires q == g / 4
    ensures 16 * (q * q) <= n < 16 * ((q + 1) * (q + 1))
    ensures q <= MinWorkingSize <==> n < 16 * ((MinWorkingSize + 1) * (MinWorkingSize + 1))
  {
    assert 4 * q <= g < 4 * q + 4;
    SquareMonotone(4 * q, g);
    SquareMonotone(g + 1, 4 * q + 4);
    assert (4 * q) * (4 * q) == 16 * (q * q);
    assert (4 * q + 4) * (4 * q + 4) == 16 * ((q + 1) * (q + 1));
    if q <= MinWorkingSize {
      SquareMonotone(q + 1, MinWorkingSize + 1);
    } else {
      SquareMonotone(MinWorkingSize + 1, q);
    }
  }

  /** Squaring is monotone on naturals. */
  lemma SquareMonotone(a: nat, b: nat)
    requires a <= b
    ensures a * a <= b * b
  {
    var d := b - a;
    assert b * b == a * a + 2 * a * d + d * d;
  }

  /** The working size never shrinks when the pixel count grows. */
  lemma SrSizeMonotone(w1: nat, h1: nat, w2: nat, h2: nat)
    requires w1 * h1 <= w2 * h2
    ensures SrSize(w1, h1) <= SrSize(w2, h2)
  {
    var r1, r2 := SrSize(w1, h1), SrSize(w2, h2);
    if r1 > r2 {
      SquareMonotone(r2 + 1, r1);
      assert false;
    }
  }

  /** A 256-by-256 image gets the minimum working size 64 (isqrt(65536) = 256, 256 // 4 = 64). */
  lemma SrSizeOf256Square()
    ensures SrSize(256, 256) == 64
  {
  }
}
