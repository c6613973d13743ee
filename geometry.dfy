/**
 * The letterbox geometry of the gles2 video output: fitting the display
 * size into the window rectangle while keeping its aspect ratio.
 *
 * The plugin compares `double` ratios and truncates them to `unsigned`.
 * Here the ratios are compared exactly by cross-multiplication and the
 * scaled side is the floor of the exact rational value.
 */
module Geometry {

  /** The extent of the video as the VLC core configures it (cfg->display). */
  datatype Size = Size(width: nat, height: nat)

  /** rectangle_t: four unsigned fields. */
  datatype Rect = Rect(x: nat, y: nat, width: nat, height: nat)

  predicate PositiveSize(s: Size) { s.width > 0 && s.height > 0 }

  predicate PositiveRect(r: Rect) { r.width > 0 && r.height > 0 }

  /** width/height of the source is greater than that of the destination. */
  predicate SourceWider(src: Size, dst: Rect) {
    src.width * dst.height > dst.width * src.height
  }

  /** width/height of the source is smaller than that of the destination. */
  predicate SourceTaller(src: Size, dst: Rect) {
    src.width * dst.height < dst.width * src.height
  }

  /** compute_bounding_box: the viewport for `src` inside the window `dst`. */
  function ComputeBoundingBox(src: Size, dst: Rect): (res: Rect)
    requires PositiveSize(src) && PositiveRect(dst)
    // the viewport lies inside the window
    ensures res.x + res.width <= dst.width && res.y + res.height <= dst.height
    // it is centred on both axes
    ensures res.x == (dst.width - res.width) / 2 && res.y == (dst.height - res.height) / 2
    // it is pinned on the limiting axis
    ensures SourceWider(src, dst) ==> res.x == 0 && res.width == dst.width
    ensures SourceTaller(src, dst) ==> res.y == 0 && res.height == dst.height
    ensures !SourceWider(src, dst) && !SourceTaller(src, dst) ==> res == Rect(0, 0, dst.width, dst.height)
    // its aspect ratio is the source's, up to less than one pixel on the scaled side
    ensures res.height * src.width <= res.width * src.height < (res.height + 1) * src.width
            || res.width * src.height <= res.height * src.width < (res.width + 1) * src.height
  {
    if SourceWider(src, dst) then LetterBox(src, dst)
    else if SourceTaller(src, dst) then PillarBox(src, dst)
    else Rect(0, 0, dst.width, dst.height)
  }

  /** The first branch: full window width, the height scaled down and centred. */
  function LetterBox(src: Size, dst: Rect): (res: Rect)
    requires PositiveSize(src) && PositiveRect(dst) && SourceWider(src, dst)
    ensures res.x == 0 && res.width == dst.width && res.height <= dst.height
    ensures res.y == (dst.height - res.height) / 2
    ensures res.height * src.width <= res.width * src.height < (res.height + 1) * src.width
  {
    var h := dst.width * src.height / src.width;
    ScaledSide(dst.width, src.height, src.width, dst.height);
    Rect(0, (dst.height - h) / 2, dst.width, h)
  }

  /** The second branch: full window height, the width scaled down and centred. */
  function PillarBox(src: Size, dst: Rect): (res: Rect)
    requires PositiveSize(src) && PositiveRect(dst) && SourceTaller(src, dst)
    ensures res.y == 0 && res.height == dst.height && res.width <= dst.width
    ensures res.x == (dst.width - res.width) / 2
    ensures res.width * src.height <= res.height * src.width < (res.width + 1) * src.height
  {
    var w := dst.height * src.width / src.height;
    ScaledSide(dst.height, src.width, src.height, dst.width);
    Rect((dst.width - w) / 2, 0, w, dst.height)
  }

  /**
   * The side scaled by the ratio num/den: floor(full * num / den) stays
   * below `other` when full * num < other * den, and it brackets the
   * exact value.
   */
  lemma ScaledSide(full: nat, num: nat, den: nat, other: nat)
    requires den > 0 && full * num < other * den
    ensures full * num / den < other
    ensures (full * num / den) * den <= full * num < (full * num / den + 1) * den
  {
    FloorBelow(full * num, den, other);
    FloorBounds(full * num, den);
  }

  /** Euclidean division by a positive divisor brackets the dividend. */
  lemma FloorBounds(a: nat, b: nat)
    requires b > 0
    ensures (a / b) * b <= a < (a / b + 1) * b
  {
  }

  /** If a < c * b then the floor of a / b is below c. */
  lemma FloorBelow(a: nat, b: nat, c: nat)
    requires b > 0 && a < c * b
    ensures a / b < c
  {
    FloorBounds(a, b);
    if a / b >= c {
      MulMonotone(c, a / b, b);
    }
  }

  /** If a * b <= c then a is at most the floor of c / b. */
  lemma FloorAbove(a: nat, b: nat, c: nat)
    requires b > 0 && a * b <= c
    ensures a <= c / b
  {
    FloorBounds(c, b);
    if a > c / b {
      MulMonotone(c / b + 1, a, b);
    }
  }

  lemma MulMonotone(x: nat, y: nat, k: nat)
    requires x <= y
    ensures x * k <= y * k
  {
  }

  /**
   * No rectangle with exactly the source's aspect ratio that fits in the
   * window is larger than the computed viewport on either axis.
   */
  lemma BoundingBoxIsLargest(src: Size, dst: Rect, w: nat, h: nat)
    requires PositiveSize(src) && PositiveRect(dst)
    requires w * src.height == h * src.width
    requires w <= dst.width && h <= dst.height
    ensures w <= ComputeBoundingBox(src, dst).width
    ensures h <= ComputeBoundingBox(src, dst).height
  {
    var res := ComputeBoundingBox(src, dst);
    if SourceWider(src, dst) {
      MulMonotone(w, dst.width, src.height);
      FloorAbove(h, src.width, dst.width * src.height);
    } else if SourceTaller(src, dst) {
      MulMonotone(h, dst.height, src.width);
      FloorAbove(w, src.height, dst.height * src.width);
    }
  }

  /** A 4:3 display in a 100x100 window gets a 100x75 viewport 12 pixels down. */
  lemma FourByThreeInSquare()
    ensures ComputeBoundingBox(Size(4, 3), Rect(0, 0, 100, 100)) == Rect(0, 12, 100, 75)
  {
  }

  /** A 1920x1080 display in an 800x800 window gets an 800x450 viewport 175 pixels down. */
  lemma FullHdInSquare()
    ensures ComputeBoundingBox(Size(1920, 1080), Rect(0, 0, 800, 800)) == Rect(0, 175, 800, 450)
  {
  }
}
