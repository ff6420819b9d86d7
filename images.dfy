/** Shapes of the grids the pipeline passes around, as numpy holds them. */
module Images {

  /** One colour pixel: its channel samples in BGR order. */
  type Pixel = seq<int>

  /** A colour image of shape (h, w, 3): rows of pixels. */
  type Image = seq<seq<Pixel>>

  /** A single-channel 8-bit grid, e.g. the binary inpainting mask. */
  type Grid = seq<seq<int>>

  /** A single-channel floating-point map (the saliency map); floats are modelled as reals. */
  type SalMap = seq<seq<real>>

  const Channels: nat := 3
  const MaxSample: int := 255

  /** A value an 8-bit unsigned sample can hold. */
  predicate IsSample(v: int) {
    0 <= v <= MaxSample
  }

  /** g has exactly h rows, each of exactly w columns. */
  predicate IsShape<T>(g: seq<seq<T>>, h: nat, w: nat) {
    |g| == h && forall r :: 0 <= r < h ==> |g[r]| == w
  }

  /** Every row of g holds at least one cell, and there is at least one row. */
  predicate NonEmptyRows<T>(g: seq<seq<T>>) {
    |g| > 0 && forall r :: 0 <= r < |g| ==> |g[r]| > 0
  }

  /** A decoded colour image: non-empty, rectangular, three 8-bit samples per pixel. */
  predicate WellFormed(img: Image) {
    && |img| > 0
    && |img[0]| > 0
    && IsShape(img, |img|, |img[0]|)
    && forall r, c :: 0 <= r < |img| && 0 <= c < |img[r]| ==>
         |img[r][c]| == Channels && forall k :: 0 <= k < Channels ==> IsSample(img[r][c][k])
  }

  /** The height of a well-formed image (`shape[0]`). */
  function Height(img: Image): nat {
    |img|
  }

  /** The width of a well-formed image (`shape[1]`). */
  function Width(img: Image): nat {
    if |img| == 0 then 0 else |img[0]|
  }

  /** a and b have the same height and width. */
  predicate SameDims(a: Image, b: Image) {
    Height(a) == Height(b) && Width(a) == Width(b)
  }

  /** The row-major concatenation of the rows of g (numpy's C-order ravel). */
  function Flatten<T>(g: seq<seq<T>>): seq<T> {
    if g == [] then [] else g[0] + Flatten(g[1..])
  }

  /** A row-major index into an h-by-w grid stays below h * w. */
  lemma RowMajorIndexInRange(h: nat, w: nat, r: nat, c: nat)
    requires r < h && c < w
    ensures r * w + c < h * w
  {
    calc {
      r * w + c;
    <
      r * w + w;
    ==
      (r + 1) * w;
    <=  { MulMonotone(r + 1, h, w); }
      h * w;
    }
  }

  /** Multiplying by a natural keeps the order of the multiplicands. */
  lemma MulMonotone(a: nat, b: nat, w: nat)
    requires a <= b
    ensures a * w <= b * w
  {
    var d := b - a;
    assert b * w == a * w + d * w;
  }

  /** Flattening an h-by-w grid yields h * w cells, and cell (r, c) lands at index r * w + c. */
  lemma {:induction false} FlattenAt<T>(g: seq<seq<T>>, h: nat, w: nat, r: nat, c: nat)
    requires IsShape(g, h, w)
    requires r < h && c < w
    ensures |Flatten(g)| == h * w
    ensures r * w + c < h * w
    ensures Flatten(g)[r * w + c] == g[r][c]
  {
    RowMajorIndexInRange(h, w, r, c);
    FlattenLength(g, h, w);
    if r > 0 {
      FlattenAt(g[1..], h - 1, w, r - 1, c);
      assert r * w + c == w + ((r - 1) * w + c);
    }
  }

  /** Flattening an h-by-w grid yields exactly h * w cells. */
  lemma {:induction false} FlattenLength<T>(g: seq<seq<T>>, h: nat, w: nat)
    requires IsShape(g, h, w)
    ensures |Flatten(g)| == h * w
  {
    if h > 0 {
      FlattenLength(g[1..], h - 1, w);
      assert h * w == w + (h - 1) * w;
    }
  }

  /**
   * numpy's C-order `reshape(h, w)` of a flat sequence of exactly h * w
   * elements: consecutive runs of w elements become the rows.
   */
  function Reshape<T>(flat: seq<T>, h: nat, w: nat): (g: seq<seq<T>>)
    requires |flat| == h * w
    ensures IsShape(g, h, w)
    ensures Flatten(g) == flat
    decreases h
  {
    if h == 0 then []
    else
      assert |flat| == w + (h - 1) * w;
      var rest := Reshape(flat[w..], h - 1, w);
      assert ([flat[..w]] + rest)[1..] == rest;
      [flat[..w]] + rest
  }

  /** Reshaping the flattening of an h-by-w grid gives the grid back. */
  lemma {:induction false} ReshapeOfFlatten<T>(g: seq<seq<T>>, h: nat, w: nat)
    requires IsShape(g, h, w)
    ensures |Flatten(g)| == h * w
    ensures Reshape(Flatten(g), h, w) == g
  {
    FlattenLength(g, h, w);
    if h > 0 {
      ReshapeOfFlatten(g[1..], h - 1, w);
      assert Flatten(g)[..w] == g[0];
      assert Flatten(g)[w..] == Flatten(g[1..]);
    }
  }
}
