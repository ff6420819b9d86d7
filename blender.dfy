/**
 * The equal-weight blend of the two inpainting results:
 * `cv2.addWeighted(telea, 0.5, ns, 1 - 0.5, 0)` on 8-bit images. Each output
 * sample is the real value 0.5 a + 0.5 b + 0, rounded to a nearby integer
 * and saturated to [0, 255]. How exactly a tie (x.5) is rounded is library
 * behaviour; the model takes the rounding as a parameter that is only
 * required to land within one half of its argument.
 */
module Blender {
  import opened Images

  /** The weight of the first (TELEA) result. */
  const Alpha: real := 0.5

  /** The weight of the second (Navier-Stokes) result. */
  const Beta: real := 1.0 - Alpha

  /** The offset added to every weighted sum. */
  const Gamma: real := 0.0

  /** round maps every real to an integer at most one half away from it. */
  ghost predicate IsNearestRounding(round: real -> int) {
    forall v: real :: -0.5 <= round(v) as real - v <= 0.5
  }

  function Abs(v: int): nat { if v < 0 then -v else v }

  /**
   * `saturate_cast<uchar>` of an already rounded value: the 8-bit sample
   * nearest to v.
   */
  function Saturate(v: int): (r: int)
    ensures IsSample(r)
    ensures forall s :: IsSample(s) ==> Abs(r - v) <= Abs(s - v)
    ensures IsSample(v) ==> r == v
  {
    if v < 0 then 0 else if v > MaxSample then MaxSample else v
  }

  function Min(a: int, b: int): int { if a <= b then a else b }
  function Max(a: int, b: int): int { if a <= b then b else a }

  /**
   * One output sample of the blend. It lies within one half of the mean of
   * the two input samples and between them, and equals them when they agree.
   */
  function BlendSample(a: int, b: int, round: real -> int): (r: int)
    requires IsNearestRounding(round)
    requires IsSample(a) && IsSample(b)
    ensures -0.5 <= r as real - (a + b) as real / 2.0 <= 0.5
    ensures Min(a, b) <= r <= Max(a, b)
    ensures a == b ==> r == a
  {
    var v := Alpha * a as real + Beta * b as real + Gamma;
    assert Min(a, b) as real <= v <= Max(a, b) as real;
    Saturate(round(v))
  }

  /** The blend of two pixels with the same number of 8-bit channels. */
  function BlendPixel(p: Pixel, q: Pixel, round: real -> int): (r: Pixel)
    requires IsNearestRounding(round)
    requires |p| == |q|
    requires forall k :: 0 <= k < |p| ==> IsSample(p[k]) && IsSample(q[k])
    ensures |r| == |p|
    ensures forall k :: 0 <= k < |p| ==> Min(p[k], q[k]) <= r[k] <= Max(p[k], q[k])
  {
    seq(|p|, k requires 0 <= k < |p| => BlendSample(p[k], q[k], round))
  }

  /** The blend of two rows of the same width. */
  function BlendRow(a: seq<Pixel>, b: seq<Pixel>, round: real -> int): (r: seq<Pixel>)
    requires IsNearestRounding(round)
    requires |a| == |b|
    requires forall c :: 0 <= c < |a| ==> |a[c]| == Channels && |b[c]| == Channels
    requires forall c, k :: 0 <= c < |a| && 0 <= k < Channels ==> IsSample(a[c][k]) && IsSample(b[c][k])
    ensures |r| == |a|
    ensures forall c :: 0 <= c < |a| ==> |r[c]| == Channels
    ensures forall c, k :: 0 <= c < |a| && 0 <= k < Channels ==>
              Min(a[c][k], b[c][k]) <= r[c][k] <= Max(a[c][k], b[c][k])
  {
    seq(|a|, c requires 0 <= c < |a| => BlendPixel(a[c], b[c], round))
  }

  /** Every sample of r lies between the corresponding samples of a and b. */
  predicate SamplesBetween(r: Image, a: Image, b: Image)
    requires WellFormed(r) && WellFormed(a) && WellFormed(b)
    requires SameDims(r, a) && SameDims(a, b)
  {
    forall y, x, k :: 0 <= y < |a| && 0 <= x < |a[y]| && 0 <= k < Channels ==>
      Min(a[y][x][k], b[y][x][k]) <= r[y][x][k] <= Max(a[y][x][k], b[y][x][k])
  }

  /**
   * `cv2.addWeighted(a, 0.5, b, 0.5, 0)` on two 8-bit colour images of the
   * same shape: an image of that shape whose every sample lies between the
   * corresponding samples of a and b.
   */
  function AddWeighted(a: Image, b: Image, round: real -> int): (r: Image)
    requires IsNearestRounding(round)
    requires WellFormed(a) && WellFormed(b) && SameDims(a, b)
    ensures WellFormed(r) && SameDims(r, a)
    ensures SamplesBetween(r, a, b)
  {
    seq(|a|, y requires 0 <= y < |a| => BlendRow(a[y], b[y], round))
  }

  /** Blending an image with itself returns that image unchanged. */
  lemma BlendIdentical(a: Image, round: real -> int)
    requires IsNearestRounding(round)
    requires WellFormed(a)
    ensures AddWeighted(a, a, round) == a
  {
    var r := AddWeighted(a, a, round);
    forall y | 0 <= y < |a|
      ensures r[y] == a[y]
    {
      forall x | 0 <= x < |a[y]|
        ensures r[y][x] == a[y][x]
      {
        assert |r[y][x]| == |a[y][x]| == Channels;
      }
    }
  }
}
