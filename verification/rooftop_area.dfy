/** The rooftop area estimator (segment_rooftop_area): a fixed binary threshold
    of 180 on a grayscale image, a count of the pixels the threshold turns
    white, and a scale of 10000 pixels per square metre. */
module RooftopArea {
  import opened Outcomes

  /** Threshold value and maximum value passed to the binary threshold. */
  const Threshold: int := 180
  const MaxValue: int := 255
  /** Pixels per square metre: the placeholder calibration of the estimate. */
  const PixelsPerSquareMetre: real := 10000.0

  /** A grayscale image as the array NumPy builds from it: `height` rows of
      `width` intensities each. */
  datatype GrayImage = GrayImage(height: nat, width: nat, pixels: seq<seq<int>>)

  /** Well-formed 8-bit grayscale raster: rectangular, every value in [0, 255]. */
  predicate Valid(img: GrayImage) {
    && |img.pixels| == img.height
    && (forall i :: 0 <= i < |img.pixels| ==> |img.pixels[i]| == img.width)
    && (forall i, j :: 0 <= i < |img.pixels| && 0 <= j < |img.pixels[i]| ==>
          0 <= img.pixels[i][j] <= 255)
  }

  /** `shape[0] * shape[1]`: zero exactly when a dimension is zero. */
  function TotalPixels(img: GrayImage): (n: nat)
    ensures n == 0 <==> img.height == 0 || img.width == 0
  {
    NoPixelsIffEmptyDimension(img.height, img.width);
    img.height * img.width
  }

  // ---------------------------------------------------------------------
  // The binary threshold and the count of white pixels
  // ---------------------------------------------------------------------

  /** Binary thresholding of one value: above `thresh` becomes `maxval`,
      everything else 0. */
  function BinaryThreshold(p: int, thresh: int, maxval: int): int {
    if p > thresh then maxval else 0
  }

  function ThresholdRow(row: seq<int>, thresh: int, maxval: int): (r: seq<int>)
    ensures |r| == |row|
    ensures forall j :: 0 <= j < |row| ==> r[j] == BinaryThreshold(row[j], thresh, maxval)
  {
    seq(|row|, j requires 0 <= j < |row| => BinaryThreshold(row[j], thresh, maxval))
  }

  /** The thresholded array, of the same shape as the input. */
  function ThresholdGrid(g: seq<seq<int>>, thresh: int, maxval: int): (r: seq<seq<int>>)
    ensures |r| == |g|
    ensures forall i :: 0 <= i < |g| ==> r[i] == ThresholdRow(g[i], thresh, maxval)
  {
    seq(|g|, i requires 0 <= i < |g| => ThresholdRow(g[i], thresh, maxval))
  }

  /** Number of cells of a row equal to `v` (the sum of `row == v`). */
  function RowCountEqual(row: seq<int>, v: int): (r: nat)
    ensures r <= |row|
  {
    if row == [] then 0
    else (if row[0] == v then 1 else 0) + RowCountEqual(row[1..], v)
  }

  function CountEqual(g: seq<seq<int>>, v: int): nat {
    if g == [] then 0 else RowCountEqual(g[0], v) + CountEqual(g[1..], v)
  }

  /** Reference definition: the number of cells strictly above `t`. */
  function RowCountAbove(row: seq<int>, t: int): (r: nat)
    ensures r <= |row|
  {
    if row == [] then 0
    else (if row[0] > t then 1 else 0) + RowCountAbove(row[1..], t)
  }

  function CountAbove(g: seq<seq<int>>, t: int): nat {
    if g == [] then 0 else RowCountAbove(g[0], t) + CountAbove(g[1..], t)
  }

  /** `np.sum(thresh == 255)`: the number of white cells after thresholding. */
  function BrightPixels(img: GrayImage): (r: nat)
    ensures r == CountAbove(img.pixels, Threshold)
  {
    BrightPixelsAreAboveThreshold(img.pixels);
    CountEqual(ThresholdGrid(img.pixels, Threshold, MaxValue), MaxValue)
  }

  // ---------------------------------------------------------------------
  // The area estimate
  // ---------------------------------------------------------------------

  /** segment_rooftop_area: the bright fraction times the pixel total, over
      10000. With no pixels at all, NumPy's 0 / 0 gives NaN. */
  function SegmentRooftopArea(img: GrayImage): (r: Number)
    requires Valid(img)
    ensures r.NaN? <==> img.height == 0 || img.width == 0
    ensures r.Finite? ==> r.value == CountAbove(img.pixels, Threshold) as real / PixelsPerSquareMetre
    ensures r.Finite? ==> 0.0 <= r.value <= TotalPixels(img) as real / PixelsPerSquareMetre
  {
    var areaPixels := BrightPixels(img);
    var totalPixels := TotalPixels(img);
    if totalPixels == 0 then NaN
    else
      CountBounds(img);
      Finite(AreaOfRatio(areaPixels, totalPixels))
  }

  /** The usable ratio count / total, times total, over 10000: the ratio and
      the total cancel, leaving count / 10000, at most total / 10000. */
  function AreaOfRatio(count: nat, total: nat): (a: real)
    requires 0 < total && count <= total
    ensures a == count as real / PixelsPerSquareMetre
    ensures 0.0 <= a <= total as real / PixelsPerSquareMetre
  {
    var usableRatio := count as real / total as real;
    assert usableRatio * total as real == count as real;
    usableRatio * total as real / PixelsPerSquareMetre
  }

  // ---------------------------------------------------------------------
  // Lemmas
  // ---------------------------------------------------------------------

  /** A product of two naturals is zero exactly when a factor is zero. */
  lemma NoPixelsIffEmptyDimension(height: nat, width: nat)
    ensures height * width == 0 <==> height == 0 || width == 0
  {
  }

  lemma {:induction false} RowThresholdCount(row: seq<int>)
    ensures RowCountEqual(ThresholdRow(row, Threshold, MaxValue), MaxValue) == RowCountAbove(row, Threshold)
  {
    if row != [] {
      var tr := ThresholdRow(row, Threshold, MaxValue);
      assert tr[1..] == ThresholdRow(row[1..], Threshold, MaxValue);
      RowThresholdCount(row[1..]);
    }
  }

  /** After the binary threshold at 180 with maximum 255, the cells equal to
      255 are exactly the input cells strictly above 180. */
  lemma {:induction false} BrightPixelsAreAboveThreshold(g: seq<seq<int>>)
    ensures CountEqual(ThresholdGrid(g, Threshold, MaxValue), MaxValue) == CountAbove(g, Threshold)
  {
    if g != [] {
      var tg := ThresholdGrid(g, Threshold, MaxValue);
      assert tg[1..] == ThresholdGrid(g[1..], Threshold, MaxValue);
      RowThresholdCount(g[0]);
      BrightPixelsAreAboveThreshold(g[1..]);
    }
  }

  lemma {:induction false} CountAboveBound(g: seq<seq<int>>, w: nat)
    requires forall i :: 0 <= i < |g| ==> |g[i]| == w
    ensures CountAbove(g, Threshold) <= |g| * w
  {
    if g != [] {
      CountAboveBound(g[1..], w);
    }
  }

  /** The bright-pixel count never exceeds the number of pixels. */
  lemma CountBounds(img: GrayImage)
    requires Valid(img)
    ensures 0 <= BrightPixels(img) == CountAbove(img.pixels, Threshold) <= TotalPixels(img)
  {
    BrightPixelsAreAboveThreshold(img.pixels);
    CountAboveBound(img.pixels, img.width);
  }

  lemma {:induction false} AllDarkCount(g: seq<seq<int>>)
    requires forall i, j :: 0 <= i < |g| && 0 <= j < |g[i]| ==> g[i][j] <= Threshold
    ensures CountAbove(g, Threshold) == 0
  {
    if g != [] {
      AllDarkRow(g[0]);
      AllDarkCount(g[1..]);
    }
  }

  lemma {:induction false} AllDarkRow(row: seq<int>)
    requires forall j :: 0 <= j < |row| ==> row[j] <= Threshold
    ensures RowCountAbove(row, Threshold) == 0
  {
    if row != [] {
      AllDarkRow(row[1..]);
    }
  }

  lemma {:induction false} AllBrightRow(row: seq<int>)
    requires forall j :: 0 <= j < |row| ==> row[j] > Threshold
    ensures RowCountAbove(row, Threshold) == |row|
  {
    if row != [] {
      AllBrightRow(row[1..]);
    }
  }

  lemma {:induction false} AllBrightCount(g: seq<seq<int>>, w: nat)
    requires forall i :: 0 <= i < |g| ==> |g[i]| == w
    requires forall i, j :: 0 <= i < |g| && 0 <= j < |g[i]| ==> g[i][j] > Threshold
    ensures CountAbove(g, Threshold) == |g| * w
  {
    if g != [] {
      AllBrightRow(g[0]);
      AllBrightCount(g[1..], w);
    }
  }

  /** An image with no pixel above 180 has estimated area 0. */
  lemma AllDarkImageHasNoArea(img: GrayImage)
    requires Valid(img) && img.height >= 1 && img.width >= 1
    requires forall i, j :: 0 <= i < img.height && 0 <= j < img.width ==> img.pixels[i][j] <= Threshold
    ensures SegmentRooftopArea(img) == Finite(0.0)
  {
    AllDarkCount(img.pixels);
  }

  /** An image whose every pixel is above 180 has estimated area
      height * width / 10000. */
  lemma AllBrightImageIsFullArea(img: GrayImage)
    requires Valid(img) && img.height >= 1 && img.width >= 1
    requires forall i, j :: 0 <= i < img.height && 0 <= j < img.width ==> img.pixels[i][j] > Threshold
    ensures SegmentRooftopArea(img) == Finite((img.height * img.width) as real / PixelsPerSquareMetre)
  {
    AllBrightCount(img.pixels, img.width);
  }

  /** `b` is at least as bright as `a` at every pixel. */
  predicate PointwiseBrighter(a: seq<seq<int>>, b: seq<seq<int>>) {
    && |a| == |b|
    && (forall i :: 0 <= i < |a| ==> |a[i]| == |b[i]|)
    && (forall i, j :: 0 <= i < |a| && 0 <= j < |a[i]| && j < |b[i]| ==> a[i][j] <= b[i][j])
  }

  lemma {:induction false} RowCountAboveMonotone(a: seq<int>, b: seq<int>)
    requires |a| == |b|
    requires forall j :: 0 <= j < |a| ==> a[j] <= b[j]
    ensures RowCountAbove(a, Threshold) <= RowCountAbove(b, Threshold)
  {
    if a != [] {
      RowCountAboveMonotone(a[1..], b[1..]);
    }
  }

  lemma {:induction false} CountAboveMonotone(a: seq<seq<int>>, b: seq<seq<int>>)
    requires PointwiseBrighter(a, b)
    ensures CountAbove(a, Threshold) <= CountAbove(b, Threshold)
  {
    if a != [] {
      RowCountAboveMonotone(a[0], b[0]);
      CountAboveMonotone(a[1..], b[1..]);
    }
  }

  /** Raising the intensity of any set of pixels never decreases the
      estimated area. */
  lemma BrighterImageHasNoLessArea(a: GrayImage, b: GrayImage)
    requires Valid(a) && Valid(b) && a.height == b.height && a.width == b.width
    requires a.height >= 1 && a.width >= 1
    requires PointwiseBrighter(a.pixels, b.pixels)
    ensures SegmentRooftopArea(a).Finite? && SegmentRooftopArea(b).Finite?
    ensures SegmentRooftopArea(a).value <= SegmentRooftopArea(b).value
  {
    CountAboveMonotone(a.pixels, b.pixels);
  }

  /** The image with the single pixel (i, j) set to `v`. */
  function SetPixel(img: GrayImage, i: nat, j: nat, v: int): (r: GrayImage)
    requires i < |img.pixels| && j < |img.pixels[i]|
    ensures r.height == img.height && r.width == img.width
    ensures |r.pixels| == |img.pixels| && |r.pixels[i]| == |img.pixels[i]| && r.pixels[i][j] == v
    ensures forall k, l :: 0 <= k < |r.pixels| && 0 <= l < |r.pixels[k]| && (k, l) != (i, j) ==>
              l < |img.pixels[k]| && r.pixels[k][l] == img.pixels[k][l]
  {
    img.(pixels := img.pixels[i := img.pixels[i][j := v]])
  }

  /** Raising a single pixel never decreases the estimated area. */
  lemma RaisingOnePixelNeverShrinksArea(img: GrayImage, i: nat, j: nat, v: int)
    requires Valid(img) && i < img.height && j < img.width
    requires img.pixels[i][j] <= v <= 255
    ensures Valid(SetPixel(img, i, j, v))
    ensures SegmentRooftopArea(img).value <= SegmentRooftopArea(SetPixel(img, i, j, v)).value
  {
    BrighterImageHasNoLessArea(img, SetPixel(img, i, j, v));
  }

  /** For any two non-empty images, the area order is exactly the order of the
      bright-pixel counts. */
  lemma AreaOrderIsCountOrder(a: GrayImage, b: GrayImage)
    requires Valid(a) && Valid(b) && a.height >= 1 && a.width >= 1 && b.height >= 1 && b.width >= 1
    ensures SegmentRooftopArea(a).value <= SegmentRooftopArea(b).value
        <==> BrightPixels(a) <= BrightPixels(b)
  {
    CountBounds(a);
    CountBounds(b);
  }
}
