/**
 * Images as grids of pixels: a grey image is a grid of intensities, a colour
 * image a grid of three-channel pixels. The grids are row-major with the origin
 * at the top-left, like the NumPy arrays the pipeline passes between stages.
 */
module Grids {

  /** A colour pixel. c0, c1, c2 are the channels in the image's own layout:
      blue, green, red for an OpenCV array; red, green, blue for a PIL image. */
  datatype Px3 = Px3(c0: int, c1: int, c2: int)

  type Grid = seq<seq<int>>
  type ColorGrid = seq<seq<Px3>>

  /** g has h rows of w pixels each. */
  predicate HasShape<T>(g: seq<seq<T>>, h: nat, w: nat)
  {
    |g| == h && forall i :: 0 <= i < |g| ==> |g[i]| == w
  }

  function Height<T>(g: seq<seq<T>>): nat
  {
    |g|
  }

  function Width<T>(g: seq<seq<T>>): nat
  {
    if |g| == 0 then 0 else |g[0]|
  }

  /** A decoded image: rectangular, with at least one row and one column. */
  predicate IsImage<T>(g: seq<seq<T>>)
  {
    Height(g) >= 1 && Width(g) >= 1 && HasShape(g, Height(g), Width(g))
  }

  /** a and b have the same number of rows and equally long rows. */
  predicate SameShape<A, B>(a: seq<seq<A>>, b: seq<seq<B>>)
  {
    |a| == |b| && forall i :: 0 <= i < |a| ==> |a[i]| == |b[i]|
  }

  lemma SameShapeImage<A, B>(a: seq<seq<A>>, b: seq<seq<B>>)
    requires SameShape(a, b) && IsImage(b)
    ensures IsImage(a) && Height(a) == Height(b) && Width(a) == Width(b)
  {
  }

  // ---------------------------------------------------------------------------
  // Channel order

  /** Exchanges the first and the third channel (cv2.COLOR_RGB2BGR and
      cv2.COLOR_BGR2RGB do the same thing to a pixel). */
  function SwapRB(p: Px3): Px3
  {
    Px3(p.c2, p.c1, p.c0)
  }

  /** Reorders the channels of every pixel of an image. */
  function SwapChannels(img: ColorGrid): (r: ColorGrid)
    ensures SameShape(r, img)
    ensures forall i, j :: 0 <= i < |r| && 0 <= j < |r[i]| ==> r[i][j] == SwapRB(img[i][j])
  {
    seq(|img|, i requires 0 <= i < |img| => seq(|img[i]|, j requires 0 <= j < |img[i]| => SwapRB(img[i][j])))
  }

  /** Swapping the channel order twice gives back the image. */
  lemma SwapChannelsInvolution(img: ColorGrid)
    ensures SwapChannels(SwapChannels(img)) == img
  {
    var once := SwapChannels(img);
    var twice := SwapChannels(once);
    assert |twice| == |img|;
    forall i | 0 <= i < |img|
      ensures twice[i] == img[i]
    {
      assert |twice[i]| == |img[i]|;
    }
  }

  /** A pixel whose channels are all equal. */
  predicate IsGreyPixel(p: Px3)
  {
    p.c0 == p.c1 && p.c1 == p.c2
  }

  /** Reordering the channels of an image of grey pixels changes nothing. */
  lemma SwapChannelsOfGrey(img: ColorGrid)
    requires forall i, j :: 0 <= i < |img| && 0 <= j < |img[i]| ==> IsGreyPixel(img[i][j])
    ensures SwapChannels(img) == img
  {
    var r := SwapChannels(img);
    forall i | 0 <= i < |img|
      ensures r[i] == img[i]
    {
      assert |r[i]| == |img[i]|;
    }
  }

  /** cv2.COLOR_GRAY2BGR: every grey value becomes a pixel with that value in
      all three channels. */
  function GrayToBgr(g: Grid): (r: ColorGrid)
    ensures SameShape(r, g)
    ensures forall i, j :: 0 <= i < |r| && 0 <= j < |r[i]| ==> IsGreyPixel(r[i][j]) && r[i][j].c0 == g[i][j]
  {
    seq(|g|, i requires 0 <= i < |g| => seq(|g[i]|, j requires 0 <= j < |g[i]| => Px3(g[i][j], g[i][j], g[i][j])))
  }

  // ---------------------------------------------------------------------------
  // Binary masks

  /** Every value of the mask is 0 or 255, the two outputs of cv2.THRESH_BINARY
      with maximum value 255. */
  predicate IsBinaryMask(g: Grid)
  {
    forall i, j :: 0 <= i < |g| && 0 <= j < |g[i]| ==> g[i][j] == 0 || g[i][j] == 255
  }

  /** NumPy's `255 - mask`, element by element. */
  function Invert(g: Grid): (r: Grid)
    ensures SameShape(r, g)
    ensures forall i, j :: 0 <= i < |r| && 0 <= j < |r[i]| ==> r[i][j] + g[i][j] == 255
  {
    seq(|g|, i requires 0 <= i < |g| => seq(|g[i]|, j requires 0 <= j < |g[i]| => 255 - g[i][j]))
  }

  /** Inverting a 0/255 mask gives a 0/255 mask. */
  lemma InvertKeepsBinary(g: Grid)
    requires IsBinaryMask(g)
    ensures IsBinaryMask(Invert(g))
  {
  }

  function RowSum(row: seq<int>): int
  {
    if row == [] then 0 else RowSum(row[..|row| - 1]) + row[|row| - 1]
  }

  /** The sum of all values of a grid. */
  function Total(g: Grid): int
  {
    if g == [] then 0 else Total(g[..|g| - 1]) + RowSum(g[|g| - 1])
  }

  /** The number of values in a grid. */
  function CellCount<T>(g: seq<seq<T>>): nat
  {
    if g == [] then 0 else CellCount(g[..|g| - 1]) + |g[|g| - 1]|
  }

  lemma {:induction false} CellCountOfShape<T>(g: seq<seq<T>>, h: nat, w: nat)
    requires HasShape(g, h, w)
    ensures CellCount(g) == h * w
  {
    if g != [] {
      CellCountOfShape(g[..|g| - 1], h - 1, w);
    }
  }

  lemma ImageHasCells<T>(g: seq<seq<T>>)
    requires IsImage(g)
    ensures CellCount(g) >= 1
  {
    CellCountOfShape(g, Height(g), Width(g));
    assert Height(g) * Width(g) >= 1 * 1;
  }

  lemma {:induction false} RowSumInvert(row: seq<int>, inv: seq<int>)
    requires |inv| == |row|
    requires forall j :: 0 <= j < |row| ==> inv[j] + row[j] == 255
    ensures RowSum(inv) == 255 * |row| - RowSum(row)
  {
    if row != [] {
      RowSumInvert(row[..|row| - 1], inv[..|inv| - 1]);
    }
  }

  /** Inverting a mask turns its sum s over n values into 255 * n - s. */
  lemma {:induction false} TotalInvert(g: Grid)
    ensures Total(Invert(g)) == 255 * CellCount(g) - Total(g)
  {
    if g != [] {
      var r := Invert(g);
      var n := |g| - 1;
      assert Invert(g[..n]) == r[..n];
      TotalInvert(g[..n]);
      RowSumInvert(g[n], r[n]);
    }
  }

  /** np.mean of a grid: the real m with m times the count equal to the sum. */
  function Mean(g: Grid): (m: real)
    requires CellCount(g) > 0
    ensures m * CellCount(g) as real == Total(g) as real
  {
    Total(g) as real / CellCount(g) as real
  }

  /** For a positive count n, t / n exceeds k exactly when t exceeds k * n. */
  lemma QuotientAbove(t: real, n: real, k: real)
    requires n > 0.0
    ensures t / n > k <==> t > k * n
  {
    var m := t / n;
    assert m * n == t;
    if m > k {
      var d := m - k;
      assert d * n > 0.0;
      assert t == k * n + d * n;
    } else {
      var d := k - m;
      assert d * n >= 0.0;
      assert t == k * n - d * n;
    }
  }

  /** The mean exceeds k exactly when the sum exceeds k times the count. */
  lemma MeanAbove(g: Grid, k: int)
    requires CellCount(g) > 0
    ensures Mean(g) > k as real <==> Total(g) > k * CellCount(g)
  {
    QuotientAbove(Total(g) as real, CellCount(g) as real, k as real);
  }

  /** Grids of the same shape have as many values. */
  lemma {:induction false} SameShapeCellCount<A, B>(a: seq<seq<A>>, b: seq<seq<B>>)
    requires SameShape(a, b)
    ensures CellCount(a) == CellCount(b)
  {
    if a != [] {
      SameShapeCellCount(a[..|a| - 1], b[..|b| - 1]);
    }
  }

  /** The mean is below k when the sum is below k times the count. */
  lemma MeanBelow(g: Grid, k: int)
    requires CellCount(g) > 0 && Total(g) < k * CellCount(g)
    ensures Mean(g) < k as real
  {
    var t, n := Total(g) as real, CellCount(g) as real;
    QuotientAbove(-t, n, -k as real);
    assert (-t) / n == -(t / n);
  }
}
