/**
 * prepareBitmapOptionsForSampling (app/src/main/java/com/lb/asynctaskex/Utils.kt): choose the
 * decode options that shrink a bitmap of outWidth x outHeight towards reqWidth x reqHeight.
 * inSampleSize gets the largest power of two not above the rounded size ratio, and the part
 * of the ratio a power of two cannot express is left to density scaling
 * (inTargetDensity / inDensity).
 */
module BitmapSampling {

  /** The fields of BitmapFactory.Options the operation reads or writes. */
  datatype Options = Options(
    inJustDecodeBounds: bool,
    inSampleSize: int,
    inDensity: int,
    inTargetDensity: int,
    outWidth: int,
    outHeight: int)

  predicate IsPowerOfTwo(n: int)
    decreases if n < 0 then 0 else n
  {
    n == 1 || (n >= 2 && n % 2 == 0 && IsPowerOfTwo(n / 2))
  }

  function Max(a: int, b: int): int {
    if a < b then b else a
  }

  /**
   * (actual.toFloat() / requested.toFloat()).roundToInt() for requested >= 1, with exact
   * arithmetic: the nearest integer to actual / requested, halves rounded up.
   */
  function RoundedRatio(actual: int, requested: int): int
    requires requested >= 1
  {
    (2 * actual + requested) / (2 * requested)
  }

  /** RoundedRatio is within one half of actual / requested, and a half rounds up. */
  lemma RoundedRatioIsNearest(actual: int, requested: int)
    requires requested >= 1
    ensures var r := RoundedRatio(actual, requested);
      2 * requested * r - requested <= 2 * actual < 2 * requested * r + requested
  {
    var q := (2 * actual + requested) / (2 * requested);
    var m := (2 * actual + requested) % (2 * requested);
    assert 2 * actual + requested == 2 * requested * q + m && 0 <= m < 2 * requested;
  }

  /** A power of two is at least 1, and a smaller power of two is at most half of a larger one. */
  lemma {:induction false} PowerOfTwoGap(p: int, q: int)
    requires IsPowerOfTwo(p) && IsPowerOfTwo(q) && p < q
    ensures 1 <= p && 2 * p <= q
  {
    if p != 1 {
      PowerOfTwoGap(p / 2, q / 2);
    }
  }

  /** The largest power of two not above `bound`, or 1 when `bound` is below 2. */
  function LargestPowerOfTwoAtMost(bound: int): (p: int)
    decreases if bound < 0 then 0 else bound
    ensures IsPowerOfTwo(p) && p <= Max(1, bound) && bound < 2 * p
  {
    if bound < 2 then 1 else 2 * LargestPowerOfTwoAtMost(bound / 2)
  }

  /** Only one power of two lies in (bound / 2, max(1, bound)]. */
  lemma {:induction false} PowerOfTwoBetweenIsLargest(p: int, bound: int)
    requires IsPowerOfTwo(p) && p <= Max(1, bound) && bound < 2 * p
    ensures p == LargestPowerOfTwoAtMost(bound)
  {
    var q := LargestPowerOfTwoAtMost(bound);
    if p < q {
      PowerOfTwoGap(p, q);
    } else if q < p {
      PowerOfTwoGap(q, p);
    }
  }

  /**
   * The rounded ratio along the preferred axis, and whether that axis is the height. The
   * height is preferred when the image is wider than tall and a height was requested; the
   * width otherwise, when a width was requested; with neither the ratio stays 1.
   */
  function SampleSize(width: int, height: int, reqWidth: int, reqHeight: int): (sp: (int, bool))
    ensures sp.1 <==> width > height && reqHeight >= 1
  {
    if width > height && reqHeight >= 1 then (RoundedRatio(height, reqHeight), true)
    else if reqWidth >= 1 then (RoundedRatio(width, reqWidth), false)
    else (1, false)
  }

  /**
   * The ratio SampleSize picks is the nearest integer, halves rounded up, to actual / requested
   * on the preferred axis: the height when it is preferred, else the width when a width was
   * requested; when neither axis can be used it is 1.
   */
  lemma SampleSizeIsNearestRatio(width: int, height: int, reqWidth: int, reqHeight: int)
    ensures var (ratio, preferHeight) := SampleSize(width, height, reqWidth, reqHeight);
      && (preferHeight ==>
            2 * reqHeight * ratio - reqHeight <= 2 * height < 2 * reqHeight * ratio + reqHeight)
      && (!preferHeight && reqWidth >= 1 ==>
            2 * reqWidth * ratio - reqWidth <= 2 * width < 2 * reqWidth * ratio + reqWidth)
      && (!preferHeight && reqWidth < 1 ==> ratio == 1)
  {
    if width > height && reqHeight >= 1 {
      RoundedRatioIsNearest(height, reqHeight);
    } else if reqWidth >= 1 {
      RoundedRatioIsNearest(width, reqWidth);
    }
  }

  /** The options as prepareBitmapOptionsForSampling leaves them. */
  function Prepare(o: Options, reqWidth: int, reqHeight: int): (r: Options)
    ensures r.outWidth == o.outWidth && r.outHeight == o.outHeight && !r.inJustDecodeBounds
    ensures reqHeight <= 0 && reqWidth <= 0 ==> r == o.(inJustDecodeBounds := false, inTargetDensity := 1)
  {
    var o1 := o.(inTargetDensity := 1, inJustDecodeBounds := false);
    if reqHeight <= 0 && reqWidth <= 0 then o1
    else
      var height, width := o.outHeight, o.outWidth;
      var o2 := o1.(inDensity := 1, inSampleSize := 1);
      if height <= reqHeight && width <= reqWidth then o2
      else
        var (sampleSize, preferHeight) := SampleSize(width, height, reqWidth, reqHeight);
        var inSampleSize := LargestPowerOfTwoAtMost(sampleSize);
        var o3 := o2.(inSampleSize := inSampleSize);
        if inSampleSize != sampleSize then
          o3.(inTargetDensity := inSampleSize, inDensity := sampleSize)
        else if sampleSize == 1 then
          o3.(inTargetDensity := if preferHeight then reqHeight else reqWidth,
              inDensity := if preferHeight then height else width)
        else o3
  }

  /** The image must be shrunk: some size was requested and the image exceeds it. */
  predicate Downsamples(o: Options, reqWidth: int, reqHeight: int) {
    !(reqHeight <= 0 && reqWidth <= 0) && !(o.outHeight <= reqHeight && o.outWidth <= reqWidth)
  }

  /** An image that already fits is decoded at full size with no density scaling. */
  lemma FitsMeansNoScaling(o: Options, reqWidth: int, reqHeight: int)
    requires !(reqHeight <= 0 && reqWidth <= 0)
    requires o.outHeight <= reqHeight && o.outWidth <= reqWidth
    ensures var r := Prepare(o, reqWidth, reqHeight);
      r.inSampleSize == 1 && r.inDensity == 1 && r.inTargetDensity == 1
  {
  }

  /**
   * On the downsampling path inSampleSize is the largest power of two not above the rounded
   * ratio: at least 1, at most max(1, ratio), and doubling it would overshoot the ratio.
   * Whatever it misses is kept as inTargetDensity / inDensity == inSampleSize / ratio; when the
   * ratio is 1, the densities carry the requested over the actual size on the preferred axis.
   */
  lemma DownsamplingChoosesPowerOfTwo(o: Options, reqWidth: int, reqHeight: int)
    requires Downsamples(o, reqWidth, reqHeight)
    ensures var r := Prepare(o, reqWidth, reqHeight);
      var (sampleSize, preferHeight) := SampleSize(o.outWidth, o.outHeight, reqWidth, reqHeight);
      && IsPowerOfTwo(r.inSampleSize) && 1 <= r.inSampleSize <= Max(1, sampleSize)
      && sampleSize < 2 * r.inSampleSize
      && (r.inSampleSize != sampleSize ==> r.inTargetDensity == r.inSampleSize && r.inDensity == sampleSize)
      && (sampleSize == 1 ==>
            r.inSampleSize == 1
            && r.inTargetDensity == (if preferHeight then reqHeight else reqWidth)
            && r.inDensity == (if preferHeight then o.outHeight else o.outWidth))
      && (r.inSampleSize == sampleSize && sampleSize != 1 ==> r.inTargetDensity == 1 && r.inDensity == 1)
  {
  }

  /** BitmapFactory.Options, changed in place. */
  class BitmapOptions {
    var inJustDecodeBounds: bool
    var inSampleSize: int
    var inDensity: int
    var inTargetDensity: int
    var outWidth: int
    var outHeight: int

    constructor (o: Options)
      ensures Snapshot() == o
    {
      inJustDecodeBounds := o.inJustDecodeBounds;
      inSampleSize := o.inSampleSize;
      inDensity := o.inDensity;
      inTargetDensity := o.inTargetDensity;
      outWidth := o.outWidth;
      outHeight := o.outHeight;
    }

    function Snapshot(): Options
      reads this
    {
      Options(inJustDecodeBounds, inSampleSize, inDensity, inTargetDensity, outWidth, outHeight)
    }
  }

  /**
   * prepareBitmapOptionsForSampling, field by field as Utils.kt writes them; the doubling
   * loop finds the same power of two as LargestPowerOfTwoAtMost.
   */
  method PrepareBitmapOptionsForSampling(bitmapOptions: BitmapOptions, reqWidth: int, reqHeight: int)
    modifies bitmapOptions
    ensures bitmapOptions.Snapshot() == Prepare(old(bitmapOptions.Snapshot()), reqWidth, reqHeight)
  {
    bitmapOptions.inTargetDensity := 1;
    bitmapOptions.inJustDecodeBounds := false;
    if reqHeight <= 0 && reqWidth <= 0 {
      return;
    }
    bitmapOptions.inDensity := 1;
    var sampleSize := 1;
    bitmapOptions.inSampleSize := 1;
    var height := bitmapOptions.outHeight;
    var width := bitmapOptions.outWidth;
    var preferHeight := false;
    bitmapOptions.inDensity := 1;
    bitmapOptions.inTargetDensity := 1;
    if height <= reqHeight && width <= reqWidth {
      return;
    }
    if height > reqHeight || width > reqWidth {
      if width > height && reqHeight >= 1 {
        preferHeight := true;
        sampleSize := RoundedRatio(height, reqHeight);
      } else if reqWidth >= 1 {
        sampleSize := RoundedRatio(width, reqWidth);
        preferHeight := false;
      }
    }
    assert (sampleSize, preferHeight) == SampleSize(width, height, reqWidth, reqHeight);
    // as much as possible, downsample by a power of two
    while bitmapOptions.inSampleSize * 2 <= sampleSize
      invariant IsPowerOfTwo(bitmapOptions.inSampleSize)
      invariant 1 <= bitmapOptions.inSampleSize <= Max(1, sampleSize)
      invariant bitmapOptions.outWidth == width && bitmapOptions.outHeight == height
      invariant bitmapOptions.inDensity == 1 && bitmapOptions.inTargetDensity == 1
      invariant !bitmapOptions.inJustDecodeBounds
      decreases sampleSize - bitmapOptions.inSampleSize
    {
      bitmapOptions.inSampleSize := bitmapOptions.inSampleSize * 2;
    }
    PowerOfTwoBetweenIsLargest(bitmapOptions.inSampleSize, sampleSize);
    assert bitmapOptions.inSampleSize == LargestPowerOfTwoAtMost(sampleSize);
    // leave the rest of the scaling to the densities
    if bitmapOptions.inSampleSize != sampleSize {
      bitmapOptions.inTargetDensity := bitmapOptions.inSampleSize;
      bitmapOptions.inDensity := sampleSize;
    } else if sampleSize == 1 {
      bitmapOptions.inTargetDensity := if preferHeight then reqHeight else reqWidth;
      bitmapOptions.inDensity := if preferHeight then height else width;
    }
  }

  /*
   * The doubling loop as the JVM runs it. `inSampleSize * 2` is Int arithmetic and wraps around,
   * so once the rounded ratio reaches 2^30 the loop passes 2^30, wraps to -2^31 and then to 0,
   * and 0 doubles to 0 forever. The model above uses exact integers, which is the evident
   * intent (the same as testing `inSampleSize <= sampleSize / 2`).
   */

  function Pow2(k: nat): int {
    if k == 0 then 1 else 2 * Pow2(k - 1)
  }

  lemma {:induction false} Pow2IsPowerOfTwo(k: nat)
    ensures IsPowerOfTwo(Pow2(k))
  {
    if k > 0 {
      Pow2IsPowerOfTwo(k - 1);
    }
  }

  lemma {:induction false} Pow2Sum(a: nat, b: nat)
    ensures Pow2(a + b) == Pow2(a) * Pow2(b)
  {
    if a > 0 {
      Pow2Sum(a - 1, b);
    }
  }

  /** Kotlin Int arithmetic: x reduced modulo 2^32 into [-2^31, 2^31). */
  function Int32(x: int): int {
    (x + 0x8000_0000) % 0x1_0000_0000 - 0x8000_0000
  }

  /** One test of `while (bitmapOptions.inSampleSize * 2 <= sampleSize)` in 32-bit arithmetic. */
  predicate DoublingContinuesAsWritten(inSampleSize: int, sampleSize: int) {
    Int32(inSampleSize * 2) <= sampleSize
  }

  /** 2^30 is a power of two. */
  lemma Pow2Thirty()
    ensures Pow2(30) == 0x4000_0000 && IsPowerOfTwo(0x4000_0000)
  {
    assert Pow2(1) == 2 && Pow2(2) == 4;
    Pow2Sum(2, 2);
    Pow2Sum(4, 4);
    Pow2Sum(8, 8);
    Pow2Sum(16, 8);
    Pow2Sum(24, 4);
    Pow2Sum(28, 2);
    Pow2IsPowerOfTwo(30);
  }

  /** Below 2^30 a doubling does not wrap, so the as-written test is the exact one. */
  lemma DoublingAgreesBelowWrap(p: int, sampleSize: int)
    requires 0 <= p < 0x4000_0000
    ensures Int32(p * 2) == p * 2
    ensures DoublingContinuesAsWritten(p, sampleSize) <==> p * 2 <= sampleSize
  {
    assert (p * 2 + 0x8000_0000) % 0x1_0000_0000 == p * 2 + 0x8000_0000;
  }

  /** The example image: outWidth = 2^31 - 1, outHeight = 2^30, one pixel requested each way. */
  lemma ExampleRatio()
    ensures SampleSize(0x7fff_ffff, 0x4000_0000, 1, 1) == (0x4000_0000, true)
  {
  }

  /** From 2^30 the as-written loop goes on: 2^30 wraps to -2^31, then to 0, and stays at 0. */
  lemma WrapSteps(sampleSize: int)
    requires 0x4000_0000 <= sampleSize
    ensures DoublingContinuesAsWritten(0x4000_0000, sampleSize) && Int32(0x4000_0000 * 2) == -0x8000_0000
    ensures DoublingContinuesAsWritten(-0x8000_0000, sampleSize) && Int32(-0x8000_0000 * 2) == 0
    ensures DoublingContinuesAsWritten(0, sampleSize) && Int32(0 * 2) == 0
  {
  }

  /**
   * For a rounded ratio of at least 2^30 (for instance outWidth = 2^31 - 1, outHeight = 2^30,
   * reqWidth = reqHeight = 1), the as-written loop agrees with the exact one up to 2^30, where
   * the exact one stops; the as-written one goes on to -2^31, then 0, and never leaves 0.
   */
  lemma AsWrittenDoublingNeverEnds(sampleSize: int)
    requires 0x4000_0000 <= sampleSize <= 0x7fff_ffff
    ensures SampleSize(0x7fff_ffff, 0x4000_0000, 1, 1) == (0x4000_0000, true)
    ensures forall p | 0 <= p < 0x4000_0000 ::
              Int32(p * 2) == p * 2 && (DoublingContinuesAsWritten(p, sampleSize) <==> p * 2 <= sampleSize)
    ensures LargestPowerOfTwoAtMost(sampleSize) == 0x4000_0000
    ensures DoublingContinuesAsWritten(0x4000_0000, sampleSize) && Int32(0x4000_0000 * 2) == -0x8000_0000
    ensures DoublingContinuesAsWritten(-0x8000_0000, sampleSize) && Int32(-0x8000_0000 * 2) == 0
    ensures DoublingContinuesAsWritten(0, sampleSize) && Int32(0 * 2) == 0
  {
    forall p | 0 <= p < 0x4000_0000
      ensures Int32(p * 2) == p * 2 && (DoublingContinuesAsWritten(p, sampleSize) <==> p * 2 <= sampleSize)
    {
      DoublingAgreesBelowWrap(p, sampleSize);
    }
    Pow2Thirty();
    PowerOfTwoBetweenIsLargest(0x4000_0000, sampleSize);
    ExampleRatio();
    WrapSteps(sampleSize);
  }
}
