/**
 * Peak-point prompt selection: the global maximum of the full-resolution
 * saliency map, located as `cv2.minMaxLoc` reports it, i.e. as (x, y) =
 * (column, row), turned into one foreground point prompt.
 *
 * Which of several equal maxima is chosen is library behaviour; this model
 * fixes it to the first one in a row-major scan.
 */
module PromptSelector {
  import opened Images

  /** The label the segmentation service reads as "foreground". */
  const Foreground: int := 1

  /** A single point prompt: column x, row y and its label. */
  datatype Prompt = Prompt(x: nat, y: nat, pointLabel: int)

  /** Cell (r1, c1) comes strictly before cell (r2, c2) in a row-major scan. */
  predicate Before(r1: nat, c1: nat, r2: nat, c2: nat) {
    r1 < r2 || (r1 == r2 && c1 < c2)
  }

  /** Every cell of m is at most v. */
  predicate AtMost(m: SalMap, v: real) {
    forall r, c :: 0 <= r < |m| && 0 <= c < |m[r]| ==> m[r][c] <= v
  }

  /**
   * (x, y) is in bounds, holds the global maximum of m, and no earlier cell
   * in row-major order holds that maximum.
   */
  predicate IsFirstPeak(m: SalMap, x: nat, y: nat) {
    && y < |m| && x < |m[y]|
    && AtMost(m, m[y][x])
    && forall r, c :: 0 <= r < |m| && 0 <= c < |m[r]| && Before(r, c, y, x) ==> m[r][c] < m[y][x]
  }

  /** The index of the first maximum of a non-empty row. */
  function ArgMaxFirst(s: seq<real>): (k: nat)
    requires |s| > 0
    ensures k < |s|
    ensures forall j :: 0 <= j < |s| ==> s[j] <= s[k]
    ensures forall j :: 0 <= j < k ==> s[j] < s[k]
  {
    if |s| == 1 then 0
    else
      var k := ArgMaxFirst(s[..|s| - 1]);
      if s[|s| - 1] > s[k] then |s| - 1 else k
  }

  /**
   * The first global maximum of m, as (column, row), defined row by row:
   * the last row's first maximum replaces the earlier rows' only when it is
   * strictly larger.
   */
  function Peak(m: SalMap): (p: (nat, nat))
    requires NonEmptyRows(m)
    ensures IsFirstPeak(m, p.0, p.1)
  {
    var last := m[|m| - 1];
    var c := ArgMaxFirst(last);
    if |m| == 1 then (c, 0)
    else
      var p := Peak(m[..|m| - 1]);
      if last[c] > m[p.1][p.0] then (c, |m| - 1) else p
  }

  /** The first-peak property pins down a single cell. */
  lemma FirstPeakUnique(m: SalMap, x1: nat, y1: nat, x2: nat, y2: nat)
    requires IsFirstPeak(m, x1, y1) && IsFirstPeak(m, x2, y2)
    ensures x1 == x2 && y1 == y2
  {
  }

  /**
   * The scan `cv2.minMaxLoc` performs for the maximum: visit every cell in
   * row-major order, keep the location of the largest value seen, replace it
   * only on a strictly larger value. Returns (x, y) = (column, row).
   */
  method MinMaxLoc(m: SalMap) returns (x: nat, y: nat)
    requires NonEmptyRows(m)
    ensures IsFirstPeak(m, x, y)
    ensures (x, y) == Peak(m)
  {
    x, y := 0, 0;
    var r := 0;
    while r < |m|
      invariant 0 <= r <= |m|
      invariant y < |m| && x < |m[y]|
      invariant forall i, j :: 0 <= i < r && 0 <= j < |m[i]| ==> m[i][j] <= m[y][x]
      invariant forall i, j :: 0 <= i < |m| && 0 <= j < |m[i]| && Before(i, j, y, x) ==> m[i][j] < m[y][x]
    {
      var c := 0;
      while c < |m[r]|
        invariant 0 <= c <= |m[r]|
        invariant y < |m| && x < |m[y]|
        invariant forall i, j :: 0 <= i < |m| && 0 <= j < |m[i]| && Before(i, j, r, c) ==> m[i][j] <= m[y][x]
        invariant forall i, j :: 0 <= i < |m| && 0 <= j < |m[i]| && Before(i, j, y, x) ==> m[i][j] < m[y][x]
      {
        if m[r][c] > m[y][x] {
          x, y := c, r;
        }
        c := c + 1;
      }
      r := r + 1;
    }
    var p := Peak(m);
    FirstPeakUnique(m, x, y, p.0, p.1);
  }

  /** The prompt built from the saliency peak: the point [x, y] with label 1. */
  function PeakPrompt(m: SalMap): (p: Prompt)
    requires NonEmptyRows(m)
    ensures p.pointLabel == Foreground
    ensures p.y < |m| && p.x < |m[p.y]|
    ensures AtMost(m, m[p.y][p.x])
  {
    var (x, y) := Peak(m);
    Prompt(x, y, Foreground)
  }
}
