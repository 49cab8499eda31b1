/**
 * Image helpers: the foot position of a box, the binarisation that turns
 * the grey-scale court image into the field mask, and the in-field test
 * both post-filters apply to a box.
 */
module ImgUtils {
  import opened Geometry

  /**
   * The ground-contact point of a box: the bottom edge's midpoint.
   * It depends on x1, x2 and y2 only (see FootPosIgnoresTop).
   */
  function FootPos(b: BBox): (p: Point)
    ensures p.x == Center(b).x
    ensures p.y == b.y2
    ensures b.x1 <= b.x2 ==> b.x1 <= p.x <= b.x2
  {
    Point((b.x1 + b.x2) / 2.0, b.y2)
  }

  /** Moving a box's top edge does not move its foot position. */
  lemma FootPosIgnoresTop(b: BBox, y1: real)
    ensures FootPos(b.(y1 := y1)) == FootPos(b)
  {
  }

  /** An 8-bit grey-scale pixel. */
  type Pixel = v: int | 0 <= v <= 255

  /** A single-channel image as rows of pixels. */
  type Grid = seq<seq<Pixel>>

  /** The threshold and the value written above it (a binary threshold at 127 with maximum 255). */
  const Thresh: Pixel := 127
  const MaxVal: Pixel := 255

  /** Binary thresholding of one pixel. */
  function Threshold(v: Pixel): (r: Pixel)
    ensures r == 0 || r == MaxVal
    ensures r == MaxVal <==> v > Thresh
  {
    if v > Thresh then MaxVal else 0
  }

  /** Every pixel of the grid is 0 or 255. */
  predicate IsBinary(g: Grid) {
    forall i, j :: 0 <= i < |g| && 0 <= j < |g[i]| ==> g[i][j] == 0 || g[i][j] == MaxVal
  }

  /** The binarisation step of mask loading, applied pixel by pixel. */
  function Binarise(g: Grid): (b: Grid)
    ensures |b| == |g|
    ensures forall i :: 0 <= i < |g| ==> |b[i]| == |g[i]|
    ensures forall i, j :: 0 <= i < |g| && 0 <= j < |g[i]| ==> b[i][j] == Threshold(g[i][j])
    ensures IsBinary(b)
  {
    seq(|g|, i requires 0 <= i < |g| => seq(|g[i]|, j requires 0 <= j < |g[i]| => Threshold(g[i][j])))
  }

  /** Thresholding an image that is already binary leaves it unchanged. */
  lemma BinaryIsFixed(g: Grid)
    requires IsBinary(g)
    ensures Binarise(g) == g
  {
    var b := Binarise(g);
    forall i | 0 <= i < |g|
      ensures b[i] == g[i]
    {
      assert forall j :: 0 <= j < |g[i]| ==> b[i][j] == g[i][j];
    }
  }

  /** Binarising twice is binarising once. */
  lemma BinariseIdempotent(g: Grid)
    ensures Binarise(Binarise(g)) == Binarise(g)
  {
    BinaryIsFixed(Binarise(g));
  }

  /**
   * The field mask as a lookup from (row, column) to pixel value. What the
   * lookup yields for a negative or too-large index is left to the mask.
   */
  type Mask = (int, int) -> int

  /**
   * The in-field test of both post-filters: the mask pixel at row
   * int(foot_y - 1), column int(foot_x - 1) is non-zero.
   */
  predicate FootInField(mask: Mask, b: BBox) {
    var p := FootPos(b);
    mask(Trunc(p.y - 1.0), Trunc(p.x - 1.0)) != 0
  }
}
