/**
 * The preprocessing pipeline of app/preprocess.py: tone adjustment, resize,
 * denoise, deskew and binarization, in that fixed order. Images produced by
 * the library are taken from `lib`; what is modelled here is the arithmetic
 * and the decisions between the library calls.
 */
module Preprocess {
  import opened Wrappers
  import opened Grids
  import opened Vision

  // ---------------------------------------------------------------------------
  // Tone adjustment

  const NeutralFactor: real := 1.0
  const ContrastSpan: real := 1.5
  const SharpnessSpan: real := 1.8

  /** Maps a level in 0..100 to an ImageEnhance factor: linear through
      (50, neutral) with slope span / 50, never below 0. */
  function Scale(v: int, neutral: real, span: real): (f: real)
    ensures f >= 0.0
    ensures f >= neutral + (v - 50) as real / 50.0 * span
    ensures f == 0.0 || f == neutral + (v - 50) as real / 50.0 * span
  {
    var linear := neutral + (v - 50) as real / 50.0 * span;
    if 0.0 >= linear then 0.0 else linear
  }

  function ContrastFactor(level: int): real
  {
    Scale(level, NeutralFactor, ContrastSpan)
  }

  function SharpnessFactor(level: int): real
  {
    Scale(level, NeutralFactor, SharpnessSpan)
  }

  /** Level 50 gives the neutral factor whatever the span. */
  lemma ScaleAtNeutralLevel(neutral: real, span: real)
    requires neutral >= 0.0
    ensures Scale(50, neutral, span) == neutral
  {
  }

  /** With a non-negative span, a higher level never gives a lower factor. */
  lemma ScaleMonotone(v1: int, v2: int, neutral: real, span: real)
    requires v1 <= v2 && span >= 0.0
    ensures Scale(v1, neutral, span) <= Scale(v2, neutral, span)
  {
    var d := (v2 - v1) as real / 50.0;
    assert d >= 0.0;
    assert d * span >= 0.0;
    assert (v2 - 50) as real / 50.0 * span == (v1 - 50) as real / 50.0 * span + d * span;
  }

  /** The ends of the level range: level 0 gives 0 once the span reaches the
      neutral factor, level 100 gives neutral + span. */
  lemma ScaleEndpoints(neutral: real, span: real)
    requires neutral >= 0.0 && span >= 0.0
    ensures span >= neutral ==> Scale(0, neutral, span) == 0.0
    ensures Scale(100, neutral, span) == neutral + span
  {
  }

  /** The factors the pipeline uses: contrast spans 0..2.5, sharpness 0..2.8,
      both 1.0 at level 50. */
  lemma FactorValues()
    ensures ContrastFactor(0) == 0.0 && ContrastFactor(50) == 1.0 && ContrastFactor(100) == 2.5
    ensures SharpnessFactor(0) == 0.0 && SharpnessFactor(50) == 1.0 && SharpnessFactor(100) == 2.8
  {
    ScaleEndpoints(NeutralFactor, ContrastSpan);
    ScaleEndpoints(NeutralFactor, SharpnessSpan);
  }

  /** adjust_contrast_and_sharpness: contrast first, then sharpness. */
  function AdjustContrastAndSharpness(lib: Library, img: ColorGrid, contrast: int, sharpness: int): (r: ColorGrid)
    requires Sound(lib) && IsImage(img)
    ensures r == lib.sharpness(lib.contrast(img, ContrastFactor(contrast)), SharpnessFactor(sharpness))
    ensures IsImage(r) && SameShape(r, img)
  {
    var c := lib.contrast(img, ContrastFactor(contrast));
    SameShapeImage(c, img);
    lib.sharpness(c, SharpnessFactor(sharpness))
  }

  /** Levels 50 and 50 leave the image as it was. */
  lemma NeutralLevelsKeepImage(lib: Library, img: ColorGrid)
    requires Sound(lib) && IsImage(img)
    ensures AdjustContrastAndSharpness(lib, img, 50, 50) == img
  {
    FactorValues();
  }

  // ---------------------------------------------------------------------------
  // Resize

  datatype Dims = Dims(height: nat, width: nat)

  /** The dimensions resize_image_cv2 asks cv2.resize for, or None when it
      returns the image unchanged. The height is truncated, never rounded, and
      at least 1. */
  function ResizeDims(h: nat, w: nat, target: Option<int>): (r: Option<Dims>)
    requires w >= 1
    ensures r.None? <==> (target.None? || target.value <= 0 || target.value == w)
    ensures r.Some? ==> r.value.width == target.value && r.value.height >= 1
    ensures r.Some? && h * target.value >= w ==>
              r.value.height * w <= h * target.value < (r.value.height + 1) * w
    ensures r.Some? && h * target.value < w ==> r.value.height == 1
  {
    if target.None? || target.value <= 0 then None
    else if w == target.value then None
    else
      var q := (h * target.value) / w;
      Some(Dims(if q >= 1 then q else 1, target.value))
  }

  /** resize_image_cv2 */
  function ResizeImage(lib: Library, bgr: ColorGrid, target: Option<int>): (r: ColorGrid)
    requires Sound(lib) && IsImage(bgr)
    ensures IsImage(r)
    ensures ResizeDims(Height(bgr), Width(bgr), target).None? ==> r == bgr
    ensures ResizeDims(Height(bgr), Width(bgr), target).Some? ==>
              var d := ResizeDims(Height(bgr), Width(bgr), target).value;
              HasShape(r, d.height, d.width)
  {
    match ResizeDims(Height(bgr), Width(bgr), target)
    case None => bgr
    case Some(d) => lib.resizeCubic(bgr, d.width, d.height)
  }

  // ---------------------------------------------------------------------------
  // Denoise

  /** denoise: bilateral filter (d 9, sigmas 75), then coloured non-local means
      (h 3, hColor 3, windows 7 and 21). */
  function Denoise(lib: Library, bgr: ColorGrid): (r: ColorGrid)
    requires Sound(lib) && IsImage(bgr)
    ensures IsImage(r) && SameShape(r, bgr)
  {
    var b := lib.bilateralFilter(bgr, 9, 75, 75);
    SameShapeImage(b, bgr);
    lib.nlMeansColored(b, 3, 3, 7, 21)
  }

  // ---------------------------------------------------------------------------
  // Deskew

  const MaxSkew: real := 15.0
  const MinRotation: real := 0.5

  function Abs(x: real): (r: real)
    ensures r >= 0.0 && (r == x || r == -x)
  {
    if x < 0.0 then -x else x
  }

  /** The minAreaRect angle fold: an angle below -45 degrees stands for the
      same rectangle turned by a quarter, so 90 is added. */
  function FoldAngle(a: real): (r: real)
    ensures r == a || r == a + 90.0
    ensures a >= -135.0 ==> r >= -45.0
    ensures -45.0 <= a ==> r == a
    ensures a < -45.0 ==> r == a + 90.0
  {
    if a < -45.0 then 90.0 + a else a
  }

  /** np.clip(x, lo, hi) */
  function Clip(x: real, lo: real, hi: real): (r: real)
    requires lo <= hi
    ensures lo <= r <= hi
    ensures lo <= x <= hi ==> r == x
    ensures x < lo ==> r == lo
    ensures x > hi ==> r == hi
  {
    if x < lo then lo else if x > hi then hi else x
  }

  /** The angle deskew derives from a minAreaRect angle: folded, then clipped
      to [-15, 15]. */
  function CorrectionAngle(raw: real): (r: real)
    ensures -MaxSkew <= r <= MaxSkew
    ensures r == raw || r == raw + 90.0 || r == MaxSkew || r == -MaxSkew
    ensures -15.0 <= raw <= 15.0 ==> r == raw
    ensures -105.0 <= raw <= -75.0 ==> r == raw + 90.0
    ensures raw < -105.0 ==> r == -MaxSkew
    ensures -75.0 < raw < -45.0 ==> r == MaxSkew
    ensures -45.0 <= raw < -15.0 ==> r == -MaxSkew
    ensures raw > 15.0 ==> r == MaxSkew
  {
    Clip(FoldAngle(raw), -MaxSkew, MaxSkew)
  }

  /** The polarity step: a 0/255 mask whose mean exceeds 127 is inverted, so
      that the text, assumed to be the minority, becomes the 255 value. */
  function NormalizePolarity(mask: Grid): (r: Grid)
    requires CellCount(mask) > 0
    ensures SameShape(r, mask) && CellCount(r) == CellCount(mask)
    ensures IsBinaryMask(mask) ==> IsBinaryMask(r)
    ensures Mean(r) < 128.0
    ensures Mean(mask) <= 127.0 ==> r == mask
    ensures Mean(mask) > 127.0 ==>
              forall i, j :: 0 <= i < |r| && 0 <= j < |r[i]| ==> r[i][j] == 255 - mask[i][j]
  {
    if Mean(mask) > 127.0 then
      var inv := Invert(mask);
      TotalInvert(mask);
      SameShapeCellCount(inv, mask);
      MeanAbove(mask, 127);
      MeanAbove(inv, 127);
      assert Total(inv) < 128 * CellCount(inv);
      MeanBelow(inv, 128);
      inv
    else
      assert Mean(mask) < 128.0;
      mask
  }

  /** The mask deskew searches for contours before the closing: the Otsu
      threshold of the blurred grey image, with its polarity normalised. */
  function DeskewMask(lib: Library, bgr: ColorGrid): (m: Grid)
    requires Sound(lib) && IsImage(bgr)
    ensures IsImage(m) && SameShape(m, bgr)
    ensures IsBinaryMask(m) && Mean(m) < 128.0
  {
    var gray := lib.bgrToGray(bgr);
    SameShapeImage(gray, bgr);
    var blurred := lib.gaussianBlur(gray, 3);
    SameShapeImage(blurred, gray);
    var thr := lib.otsuThreshold(blurred);
    SameShapeImage(thr, blurred);
    ImageHasCells(thr);
    NormalizePolarity(thr)
  }

  /** The index Python's max(..., key=...) returns: the first of the largest keys. */
  function FirstMaxIndex(keys: seq<real>): (k: nat)
    requires |keys| > 0
    ensures k < |keys|
    ensures forall j :: 0 <= j < |keys| ==> keys[j] <= keys[k]
    ensures forall j :: 0 <= j < k ==> keys[j] < keys[k]
  {
    if |keys| == 1 then 0
    else
      var k := FirstMaxIndex(keys[..|keys| - 1]);
      if keys[|keys| - 1] > keys[k] then |keys| - 1 else k
  }

  function Areas(lib: Library, cnts: seq<Contour>): (a: seq<real>)
    ensures |a| == |cnts|
    ensures forall i :: 0 <= i < |cnts| ==> a[i] == lib.contourArea(cnts[i])
  {
    seq(|cnts|, i requires 0 <= i < |cnts| => lib.contourArea(cnts[i]))
  }

  /** The external contours of the mask after a closing with a 30 x 3 kernel. */
  function Contours(lib: Library, bgr: ColorGrid): seq<Contour>
    requires Sound(lib) && IsImage(bgr)
  {
    lib.findExternalContours(lib.morphClose(DeskewMask(lib, bgr), 30, 3))
  }

  /** cnts[k] is the contour max(cnts, key=contourArea) picks: one of largest
      area, and the first such. */
  predicate IsFirstLargest(lib: Library, cnts: seq<Contour>, k: int)
  {
    0 <= k < |cnts|
    && (forall j :: 0 <= j < |cnts| ==> lib.contourArea(cnts[j]) <= lib.contourArea(cnts[k]))
    && (forall j :: 0 <= j < k ==> lib.contourArea(cnts[j]) < lib.contourArea(cnts[k]))
  }

  /** The skew deskew measures: None when the closed mask has no contour,
      otherwise the correction angle of the largest contour's minAreaRect. */
  function SkewEstimate(lib: Library, bgr: ColorGrid): (r: Option<real>)
    requires Sound(lib) && IsImage(bgr)
    ensures r.Some? ==> -MaxSkew <= r.value <= MaxSkew
    ensures r.None? <==> Contours(lib, bgr) == []
    ensures r.Some? ==>
              exists k :: IsFirstLargest(lib, Contours(lib, bgr), k)
                && r.value == CorrectionAngle(lib.minAreaRectAngle(Contours(lib, bgr)[k]))
  {
    var cnts := Contours(lib, bgr);
    if |cnts| == 0 then None
    else
      var k := FirstMaxIndex(Areas(lib, cnts));
      assert IsFirstLargest(lib, cnts, k);
      Some(CorrectionAngle(lib.minAreaRectAngle(cnts[k])))
  }

  /** The rotation deskew applies: None when there is no contour or the skew
      is below 0.5 degrees in magnitude. */
  function DeskewRotation(lib: Library, bgr: ColorGrid): (r: Option<real>)
    requires Sound(lib) && IsImage(bgr)
    ensures r.Some? ==> MinRotation <= Abs(r.value) <= MaxSkew
    ensures r.None? <==> SkewEstimate(lib, bgr).None? || Abs(SkewEstimate(lib, bgr).value) < MinRotation
    ensures r.Some? ==> r == SkewEstimate(lib, bgr)
  {
    match SkewEstimate(lib, bgr)
    case None => None
    case Some(angle) => if Abs(angle) < MinRotation then None else Some(angle)
  }

  /** The rotation centre: (w // 2, h // 2). */
  function Center(img: ColorGrid): (c: Point)
    requires IsImage(img)
    ensures 0 <= c.0 < Width(img) && 0 <= c.1 < Height(img)
    ensures Width(img) <= 2 * c.0 + 1 && Height(img) <= 2 * c.1 + 1
    ensures 2 * c.0 <= Width(img) && 2 * c.1 <= Height(img)
  {
    (Width(img) / 2, Height(img) / 2)
  }

  /** deskew: the original colour image, either unchanged or rotated about its
      integer centre into a frame of its own size. */
  function Deskew(lib: Library, bgr: ColorGrid): (r: ColorGrid)
    requires Sound(lib) && IsImage(bgr)
    ensures IsImage(r) && SameShape(r, bgr)
    ensures DeskewRotation(lib, bgr).None? ==> r == bgr
    ensures DeskewRotation(lib, bgr).Some? ==>
              r == lib.rotate(bgr, Center(bgr), DeskewRotation(lib, bgr).value, Width(bgr), Height(bgr))
  {
    match DeskewRotation(lib, bgr)
    case None => bgr
    case Some(angle) =>
      var r := lib.rotate(bgr, Center(bgr), angle, Width(bgr), Height(bgr));
      assert HasShape(r, Height(bgr), Width(bgr));
      r
  }

  // ---------------------------------------------------------------------------
  // Binarize

  datatype ThresholdMethod = GlobalOtsu | AdaptiveGaussian(blockSize: int, c: int)

  /** The mode string selects the method: "simple" the global Otsu threshold,
      any other value the adaptive Gaussian one with a 35 x 35 neighbourhood
      and constant 11. */
  function MethodFor(mode: string): (m: ThresholdMethod)
    ensures m.GlobalOtsu? <==> mode == "simple"
    ensures m.AdaptiveGaussian? ==> m.blockSize == 35 && m.c == 11
  {
    if mode == "simple" then GlobalOtsu else AdaptiveGaussian(35, 11)
  }

  function Threshold(lib: Library, gray: Grid, m: ThresholdMethod): (t: Grid)
    requires Sound(lib) && IsImage(gray)
    ensures IsImage(t) && SameShape(t, gray) && IsBinaryMask(t)
    ensures m.GlobalOtsu? ==> t == lib.otsuThreshold(gray)
    ensures m.AdaptiveGaussian? ==> t == lib.adaptiveGaussianThreshold(gray, m.blockSize, m.c)
  {
    match m
    case GlobalOtsu => lib.otsuThreshold(gray)
    case AdaptiveGaussian(b, c) => lib.adaptiveGaussianThreshold(gray, b, c)
  }

  /** A pixel of a binarized image: the same value, 0 or 255, in all channels. */
  predicate IsTwoTone(p: Px3)
  {
    IsGreyPixel(p) && (p.c0 == 0 || p.c0 == 255)
  }

  /** binarize: the thresholded grey image, replicated into three channels. */
  function Binarize(lib: Library, bgr: ColorGrid, mode: string): (r: ColorGrid)
    requires Sound(lib) && IsImage(bgr)
    ensures IsImage(r) && SameShape(r, bgr)
    ensures forall i, j :: 0 <= i < |r| && 0 <= j < |r[i]| ==> IsTwoTone(r[i][j])
    ensures var t := Threshold(lib, lib.bgrToGray(bgr), MethodFor(mode));
            forall i, j :: 0 <= i < |r| && 0 <= j < |r[i]| ==> r[i][j].c0 == t[i][j]
  {
    var gray := lib.bgrToGray(bgr);
    SameShapeImage(gray, bgr);
    GrayToBgr(Threshold(lib, gray, MethodFor(mode)))
  }

  // ---------------------------------------------------------------------------
  // Channel order and the whole pipeline

  /** _pil_to_cv2: RGB to BGR. */
  function PilToCv2(img: ColorGrid): (r: ColorGrid)
    ensures SameShape(r, img)
    ensures forall i, j :: 0 <= i < |r| && 0 <= j < |r[i]| ==> r[i][j] == SwapRB(img[i][j])
  {
    SwapChannels(img)
  }

  /** _cv2_to_pil: BGR to RGB. */
  function Cv2ToPil(mat: ColorGrid): (r: ColorGrid)
    ensures SameShape(r, mat)
    ensures forall i, j :: 0 <= i < |r| && 0 <= j < |r[i]| ==> r[i][j] == SwapRB(mat[i][j])
  {
    SwapChannels(mat)
  }

  /** Converting to the other layout and back gives the image again, in both directions. */
  lemma LayoutRoundTrip(img: ColorGrid)
    ensures Cv2ToPil(PilToCv2(img)) == img
    ensures PilToCv2(Cv2ToPil(img)) == img
  {
    SwapChannelsInvolution(img);
  }

  /** The height and width the pipeline's output has for an input of h x w. */
  function OutputDims(h: nat, w: nat, resizeWidth: Option<int>): Dims
    requires w >= 1
  {
    match ResizeDims(h, w, resizeWidth)
    case None => Dims(h, w)
    case Some(d) => d
  }

  /** preprocess_image: tone, conversion to BGR, resize, denoise, deskew,
      binarize; returns the BGR result and its RGB copy. */
  function PreprocessImage(lib: Library, pil: ColorGrid, contrast: int, sharpness: int,
                           binarization: string, resizeWidth: Option<int>): (r: (ColorGrid, ColorGrid))
    requires Sound(lib) && IsImage(pil)
    ensures r.0 == Binarize(lib, Deskew(lib, Denoise(lib, ResizeImage(lib,
                      PilToCv2(AdjustContrastAndSharpness(lib, pil, contrast, sharpness)), resizeWidth))), binarization)
    ensures var d := OutputDims(Height(pil), Width(pil), resizeWidth);
            IsImage(r.0) && HasShape(r.0, d.height, d.width)
    ensures forall i, j :: 0 <= i < |r.0| && 0 <= j < |r.0[i]| ==> IsTwoTone(r.0[i][j])
    ensures r.1 == r.0
  {
    var img := AdjustContrastAndSharpness(lib, pil, contrast, sharpness);
    var converted := PilToCv2(img);
    SameShapeImage(converted, img);
    var resized := ResizeImage(lib, converted, resizeWidth);
    var denoised := Denoise(lib, resized);
    var deskewed := Deskew(lib, denoised);
    var bgr := Binarize(lib, deskewed, binarization);
    SwapChannelsOfGrey(bgr);
    (bgr, Cv2ToPil(bgr))
  }
}
