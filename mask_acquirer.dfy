/**
 * Mask binarisation and reshape: the segmentation service's boolean mask,
 * as a flat row-major sequence, becomes an h-by-w 8-bit grid holding 255
 * where the mask is set and 0 elsewhere. The reshape raises when the mask
 * does not hold exactly h * w elements; nothing is ever resized.
 */
module MaskAcquirer {
  import opened Images

  /** The sample value of a foreground mask cell (`True * 255` as uint8). */
  const MaskOn: int := 255

  /** The sample value of a background mask cell. */
  const MaskOff: int := 0

  /** Why a reshape was refused: the element count and the requested shape. */
  datatype MaskError = ReshapeMismatch(count: nat, h: nat, w: nat)

  datatype Result<T> = Ok(value: T) | Err(error: MaskError)

  /** The uint8 value of one boolean mask element, multiplied by 255. */
  function MaskSample(b: bool): int {
    if b then MaskOn else MaskOff
  }

  /** `mask.astype(np.uint8) * 255`, element by element, still flat. */
  function MaskSamples(mask: seq<bool>): (s: seq<int>)
    ensures |s| == |mask|
    ensures forall k :: 0 <= k < |mask| ==> (s[k] == MaskOn <==> mask[k]) && (s[k] == MaskOn || s[k] == MaskOff)
  {
    seq(|mask|, k requires 0 <= k < |mask| => MaskSample(mask[k]))
  }

  /**
   * `(mask.astype(np.uint8) * 255).reshape(h, w)`: refused when the mask
   * does not hold exactly h * w elements; otherwise an h-by-w grid of 0 and
   * 255 whose row-major reading is the mask.
   */
  function BinarizeMask(mask: seq<bool>, h: nat, w: nat): (r: Result<Grid>)
    ensures r.Ok? <==> |mask| == h * w
    ensures r.Err? ==> r.error == ReshapeMismatch(|mask|, h, w)
    ensures r.Ok? ==> IsShape(r.value, h, w)
    ensures r.Ok? ==> |Flatten(r.value)| == |mask|
    ensures r.Ok? ==> forall k :: 0 <= k < |mask| ==> (Flatten(r.value)[k] == MaskOn <==> mask[k])
    ensures r.Ok? ==> forall y, x :: 0 <= y < h && 0 <= x < w ==>
              r.value[y][x] == MaskOn || r.value[y][x] == MaskOff
  {
    if |mask| != h * w then
      Err(ReshapeMismatch(|mask|, h, w))
    else
      var g := Reshape(MaskSamples(mask), h, w);
      assert forall y, x :: 0 <= y < h && 0 <= x < w ==> g[y][x] == MaskOn || g[y][x] == MaskOff by {
        forall y, x | 0 <= y < h && 0 <= x < w
          ensures g[y][x] == MaskOn || g[y][x] == MaskOff
        {
          FlattenAt(g, h, w, y, x);
        }
      }
      Ok(g)
  }

  /** Cell (y, x) of the binary mask is 255 exactly when element y * w + x of the segmentation mask is set. */
  lemma BinarizeCell(mask: seq<bool>, h: nat, w: nat, y: nat, x: nat)
    requires |mask| == h * w
    requires y < h && x < w
    ensures y * w + x < |mask|
    ensures BinarizeMask(mask, h, w).Ok?
    ensures BinarizeMask(mask, h, w).value[y][x] == MaskOn <==> mask[y * w + x]
  {
    FlattenAt(BinarizeMask(mask, h, w).value, h, w, y, x);
  }

  /** Reads a binary grid back as a flat row-major boolean mask: set where the cell is 255. */
  function Unbinarize(g: Grid): (mask: seq<bool>)
    ensures |mask| == |Flatten(g)|
    ensures forall k :: 0 <= k < |mask| ==> (mask[k] <==> Flatten(g)[k] == MaskOn)
  {
    var flat := Flatten(g);
    seq(|flat|, k requires 0 <= k < |flat| => flat[k] == MaskOn)
  }

  /**
   * Binarising loses nothing: reading the binary grid back in row-major
   * order gives the segmentation mask exactly.
   */
  lemma BinarizeRoundTrip(mask: seq<bool>, h: nat, w: nat)
    requires |mask| == h * w
    ensures BinarizeMask(mask, h, w).Ok?
    ensures Unbinarize(BinarizeMask(mask, h, w).value) == mask
  {
  }
}
