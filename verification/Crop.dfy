// The integer crop around a signature (src/functions/signing/execute.ts, cropRegion).
// Coordinates are exact reals; the two axes are computed alike.
module Crop {
  import opened Collections
  import opened Documents

  const CROP_PADDING := 0.02

  datatype Rect = Rect(left: int, top: int, width: int, height: int)

  function Clamp01(n: real): real {
    var capped := if n < 1.0 then n else 1.0;
    if capped > 0.0 then capped else 0.0
  }

  function Ceil(x: real): (n: int)
    ensures n as real - 1.0 < x <= n as real
  {
    -((-x).Floor)
  }

  function Min(a: int, b: int): int { if a < b then a else b }

  function Max(a: int, b: int): int { if a > b then a else b }

  // From a fraction of the page to pixels.
  function Pixels(size: int): real -> real {
    (x: real) => x * size as real
  }

  // First pixel and pixel count of an interval given in pixels.
  function StartAt(from: real, size: int): int {
    Min(from.Floor, size - 1)
  }

  function ExtentAt(from: real, length: real, size: int): int {
    Max(1, Min(Ceil(length), size - StartAt(from, size)))
  }

  function Start(px: real -> real, lo: real, size: int): int {
    StartAt(px(Clamp01(lo - CROP_PADDING)), size)
  }

  function Extent(px: real -> real, lo: real, hi: real, size: int): int {
    var x0, x1 := Clamp01(lo - CROP_PADDING), Clamp01(hi + CROP_PADDING);
    ExtentAt(px(x0), px(x1 - x0), size)
  }

  // Throws (None) when the page has no dimensions.
  function CropRegion(width: nat, height: nat, b: Bbox): Option<Rect> {
    if width == 0 || height == 0 then None
    else
      var px, py := Pixels(width), Pixels(height);
      Some(Rect(Start(px, b.x0, width), Start(py, b.y0, height),
                Extent(px, b.x0, b.x1, width), Extent(py, b.y0, b.y1, height)))
  }

  predicate Subtracts(px: real -> real, x: real, y: real) {
    px(x - y) == px(x) - px(y)
  }

  predicate Increases(px: real -> real, x: real, y: real) {
    x < y ==> px(x) < px(y)
  }

  // All that the argument needs of multiplying by the page size.
  ghost predicate Scales(px: real -> real, size: int) {
    && (forall x, y :: Subtracts(px, x, y))
    && (forall x, y :: Increases(px, x, y))
    && px(1.0) == size as real
    && px(CROP_PADDING) == CROP_PADDING * size as real
  }

  lemma PixelsSubtract(size: int, x: real, y: real)
    ensures Subtracts(Pixels(size), x, y)
  {
  }

  lemma PixelsIncrease(size: int, x: real, y: real)
    requires size > 0
    ensures Increases(Pixels(size), x, y)
  {
  }

  lemma PixelsScale(size: int)
    requires size > 0
    ensures Scales(Pixels(size), size)
  {
    forall x, y { PixelsSubtract(size, x, y); }
    forall x, y { PixelsIncrease(size, x, y); }
  }

  lemma ScaledSum(px: real -> real, size: int, x: real, y: real)
    requires Scales(px, size)
    ensures px(0.0) == 0.0 && px(x + y) == px(x) + px(y)
  {
    assert Subtracts(px, x, x) && Subtracts(px, 0.0, y) && Subtracts(px, x, 0.0 - y);
    assert x - x == 0.0 && x - (0.0 - y) == x + y;
  }

  lemma Increasing(px: real -> real, size: int, x: real, y: real)
    requires Scales(px, size) && x <= y
    ensures px(x) <= px(y)
  {
    assert Increases(px, x, y);
  }

  lemma AxisInside(lo: real, hi: real, size: int)
    requires size > 0
    ensures 0 <= Start(Pixels(size), lo, size) && Extent(Pixels(size), lo, hi, size) >= 1
    ensures Start(Pixels(size), lo, size) + Extent(Pixels(size), lo, hi, size) <= size
  {
    PixelsScale(size);
    ScaledSum(Pixels(size), size, 0.0, 0.0);
    Increasing(Pixels(size), size, 0.0, Clamp01(lo - CROP_PADDING));
  }

  // Whatever the box, even inverted or off the page, the crop is a non-empty part of the image; it
  // fails exactly where there is no image.
  lemma CropInsideImage(width: nat, height: nat, b: Bbox)
    ensures CropRegion(width, height, b).Some? <==> width > 0 && height > 0
    ensures width > 0 && height > 0 ==>
      var r := CropRegion(width, height, b).value;
      && 0 <= r.left && r.width >= 1 && r.left + r.width <= width
      && 0 <= r.top && r.height >= 1 && r.top + r.height <= height
  {
    if width > 0 && height > 0 {
      AxisInside(b.x0, b.x1, width);
      AxisInside(b.y0, b.y1, height);
    }
  }

  predicate OrderedInUnit(lo: real, hi: real) {
    0.0 <= lo <= hi <= 1.0
  }

  // The crop contains the whole unpadded interval.
  predicate Covers(px: real -> real, lo: real, hi: real, size: int) {
    && Start(px, lo, size) as real <= px(lo)
    && px(hi) <= (Start(px, lo, size) + Extent(px, lo, hi, size)) as real
  }

  // Rounding loses less than a pixel, and nothing when the interval runs to the page edge.
  lemma RoundingCovers(from: real, to: real, hi: real, size: int)
    requires size > 0 && 0.0 <= from <= to <= size as real && from <= (size - 1) as real
    requires hi <= to - 1.0 || hi <= to == size as real
    ensures hi <= (StartAt(from, size) + ExtentAt(from, to - from, size)) as real
  {
  }

  lemma PaddedStart(px: real -> real, lo: real, size: int)
    requires Scales(px, size) && 0.0 <= lo <= 1.0
    ensures var x0 := Clamp01(lo - CROP_PADDING);
      0.0 <= px(x0) <= px(lo) && px(x0) <= size as real - CROP_PADDING * size as real
  {
    var x0 := Clamp01(lo - CROP_PADDING);
    ScaledSum(px, size, 0.0, 0.0);
    Increasing(px, size, 0.0, x0);
    Increasing(px, size, x0, lo);
    Increasing(px, size, x0, 1.0 - CROP_PADDING);
    assert Subtracts(px, 1.0, CROP_PADDING);
  }

  lemma PaddedEnd(px: real -> real, hi: real, size: int)
    requires Scales(px, size) && 0.0 <= hi <= 1.0
    ensures var x1 := Clamp01(hi + CROP_PADDING);
      && px(hi) <= px(x1) <= size as real
      && (px(hi) + CROP_PADDING * size as real == px(x1) || px(x1) == size as real)
  {
    var x1 := Clamp01(hi + CROP_PADDING);
    ScaledSum(px, size, hi, CROP_PADDING);
    Increasing(px, size, hi, x1);
    Increasing(px, size, x1, 1.0);
  }

  lemma LargePageCovers(px: real -> real, lo: real, hi: real, size: int)
    requires Scales(px, size) && OrderedInUnit(lo, hi) && size >= 50
    ensures Covers(px, lo, hi, size)
  {
    var x0, x1 := Clamp01(lo - CROP_PADDING), Clamp01(hi + CROP_PADDING);
    PaddedStart(px, lo, size);
    PaddedEnd(px, hi, size);
    Increasing(px, size, x0, x1);
    assert Subtracts(px, x1, x0);
    RoundingCovers(px(x0), px(x1), px(hi), size);
  }

  lemma RoundingCuts(from: real, length: real, size: int)
    requires 0.0 <= from < 1.0 && size >= 2 && length in {1.0, 2.0}
    ensures StartAt(from, size) == 0 && ExtentAt(from, length, size) as real <= length
  {
  }

  // On a page of 2 to 49 pixels some ordered box is cut: one that, padded, starts almost a pixel
  // late and runs for one or two whole pixels.
  lemma SmallPageCuts(px: real -> real, size: int, x0: real, x1: real, m: real)
    requires Scales(px, size) && 2 <= size < 50
    requires m == if size <= 25 then 1.0 else 2.0
    requires px(x0) == (1.0 + CROP_PADDING * size as real) / 2.0 && px(x1) == px(x0) + m
    ensures OrderedInUnit(x0 + CROP_PADDING, x1 - CROP_PADDING)
    ensures !Covers(px, x0 + CROP_PADDING, x1 - CROP_PADDING, size)
  {
    var lo, hi := x0 + CROP_PADDING, x1 - CROP_PADDING;
    ScaledSum(px, size, x0, CROP_PADDING);
    ScaledSum(px, size, CROP_PADDING, CROP_PADDING);
    assert Subtracts(px, x1, CROP_PADDING) && Subtracts(px, x1, x0);
    assert Increases(px, hi, lo) && Increases(px, 1.0, x1) && Increases(px, x0, 0.0);
    assert lo - CROP_PADDING == x0 && hi + CROP_PADDING == x1;
    RoundingCuts(px(x0), m, size);
  }

  ghost function PixelAt(at: real, size: int): (x: real)
    requires size > 0
    ensures Pixels(size)(x) == at
  {
    at / size as real
  }

  lemma OnePixelCovers(px: real -> real, lo: real, hi: real)
    requires Scales(px, 1) && OrderedInUnit(lo, hi)
    ensures Covers(px, lo, hi, 1)
  {
    ScaledSum(px, 1, 0.0, 0.0);
    Increasing(px, 1, 0.0, lo);
    Increasing(px, 1, hi, 1.0);
    Increasing(px, 1, 0.0, Clamp01(lo - CROP_PADDING));
  }

  // The padding absorbs every rounding exactly from 50 pixels on (or on a single pixel).
  lemma CoversIff(size: int)
    requires size > 0
    ensures (forall lo, hi :: OrderedInUnit(lo, hi) ==> Covers(Pixels(size), lo, hi, size)) <==> size == 1 || size >= 50
  {
    var px := Pixels(size);
    PixelsScale(size);
    if size == 1 {
      forall lo, hi | OrderedInUnit(lo, hi) ensures Covers(px, lo, hi, size) { OnePixelCovers(px, lo, hi); }
    } else if size >= 50 {
      forall lo, hi | OrderedInUnit(lo, hi) ensures Covers(px, lo, hi, size) { LargePageCovers(px, lo, hi, size); }
    } else {
      var m := if size <= 25 then 1.0 else 2.0;
      var from := (1.0 + CROP_PADDING * size as real) / 2.0;
      var x0, x1 := PixelAt(from, size), PixelAt(from + m, size);
      SmallPageCuts(px, size, x0, x1, m);
    }
  }

  // An ordered box on a page of at least 50 pixels each way lies wholly inside its crop.
  lemma CropContainsBox(width: nat, height: nat, b: Bbox)
    requires width >= 50 && height >= 50
    requires OrderedInUnit(b.x0, b.x1) && OrderedInUnit(b.y0, b.y1)
    ensures var r := CropRegion(width, height, b).value;
      && r.left as real <= Pixels(width)(b.x0) && Pixels(width)(b.x1) <= (r.left + r.width) as real
      && r.top as real <= Pixels(height)(b.y0) && Pixels(height)(b.y1) <= (r.top + r.height) as real
  {
    PixelsScale(width);
    PixelsScale(height);
    LargePageCovers(Pixels(width), b.x0, b.x1, width);
    LargePageCovers(Pixels(height), b.y0, b.y1, height);
  }

  lemma PaddedAxisTight(px: real -> real, lo: real, hi: real, size: int)
    requires Scales(px, size) && OrderedInUnit(lo, hi) && size >= 1
    ensures Start(px, lo, size) as real > px(lo) - 0.02 * size as real - 1.0
    ensures (Start(px, lo, size) + Extent(px, lo, hi, size)) as real <= px(hi) + 0.02 * size as real + 1.0
  {
    var x0, x1 := Clamp01(lo - CROP_PADDING), Clamp01(hi + CROP_PADDING);
    ScaledSum(px, size, hi, CROP_PADDING);
    assert Subtracts(px, lo, CROP_PADDING) && Subtracts(px, x1, x0);
    Increasing(px, size, lo - CROP_PADDING, x0);
    Increasing(px, size, x1, hi + CROP_PADDING);
    Increasing(px, size, x0, x1);
    PaddedStart(px, lo, size);
  }

  // The crop is no larger than it must be: the padding and less than a pixel on either side.
  lemma CropTight(width: nat, height: nat, b: Bbox)
    requires width > 0 && height > 0
    requires OrderedInUnit(b.x0, b.x1) && OrderedInUnit(b.y0, b.y1)
    ensures var r := CropRegion(width, height, b).value;
      && r.left as real > Pixels(width)(b.x0) - 0.02 * width as real - 1.0
      && (r.left + r.width) as real <= Pixels(width)(b.x1) + 0.02 * width as real + 1.0
      && r.top as real > Pixels(height)(b.y0) - 0.02 * height as real - 1.0
      && (r.top + r.height) as real <= Pixels(height)(b.y1) + 0.02 * height as real + 1.0
  {
    PixelsScale(width);
    PixelsScale(height);
    PaddedAxisTight(Pixels(width), b.x0, b.x1, width);
    PaddedAxisTight(Pixels(height), b.y0, b.y1, height);
  }
}
