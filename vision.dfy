/**
 * The image-library operations the pipeline calls (PIL's ImageEnhance,
 * OpenCV's resize, filters, thresholds, morphology, contours and affine warp).
 * Their pixel algorithms are not part of this model: each is a parameter of
 * the model, a field of `Library`, and `Sound` collects what the model assumes
 * about them: that they keep or produce the requested dimensions, that the
 * thresholds produce 0/255 masks, and that an enhancement factor of 1.0
 * changes nothing.
 */
module Vision {
  import opened Grids

  /** A pixel position (x, y). */
  type Point = (int, int)

  /** A contour as returned by cv2.findContours: a list of points. */
  type Contour = seq<Point>

  datatype Library = Library(
    /** PIL contrast enhancer applied with a factor */
    contrast: (ColorGrid, real) -> ColorGrid,
    /** PIL sharpness enhancer applied with a factor */
    sharpness: (ColorGrid, real) -> ColorGrid,
    /** OpenCV cubic resize to a given width, then height */
    resizeCubic: (ColorGrid, nat, nat) -> ColorGrid,
    /** OpenCV bilateral filter: neighbourhood diameter, colour sigma, space sigma */
    bilateralFilter: (ColorGrid, int, int, int) -> ColorGrid,
    /** OpenCV coloured non-local-means denoising: strength, colour strength, template and search window sizes */
    nlMeansColored: (ColorGrid, int, int, int, int) -> ColorGrid,
    /** OpenCV conversion of a BGR image to grey */
    bgrToGray: ColorGrid -> Grid,
    /** OpenCV Gaussian blur with a k x k kernel and sigma derived from k */
    gaussianBlur: (Grid, int) -> Grid,
    /** OpenCV binary threshold at the Otsu level, maximum value 255 */
    otsuThreshold: Grid -> Grid,
    /** OpenCV adaptive Gaussian binary threshold, maximum value 255, given block size and constant */
    adaptiveGaussianThreshold: (Grid, int, int) -> Grid,
    /** OpenCV morphological closing, once, with a rectangular kernel kw wide and kh high */
    morphClose: (Grid, int, int) -> Grid,
    /** OpenCV search for the external contours of a mask, with simple chain approximation */
    findExternalContours: Grid -> seq<Contour>,
    /** OpenCV area of a contour */
    contourArea: Contour -> real,
    /** the angle, in degrees, of OpenCV's minimum-area rectangle around a contour */
    minAreaRectAngle: Contour -> real,
    /** OpenCV rotation about a centre by an angle in degrees at scale 1.0, warped
        into a frame of the given width and height with cubic interpolation and
        replicated borders */
    rotate: (ColorGrid, Point, real, nat, nat) -> ColorGrid
  )

  /** What the model assumes of the library. */
  ghost predicate Sound(lib: Library)
  {
    // enhancements keep the dimensions; a factor of 1.0 returns the image itself
    && (forall img, f ::
          IsImage(img) ==> SameShape(lib.contrast(img, f), img))
    && (forall img, f ::
          IsImage(img) ==> SameShape(lib.sharpness(img, f), img))
    && (forall img :: lib.contrast(img, 1.0) == img)
    && (forall img :: lib.sharpness(img, 1.0) == img)
    // resize and warp produce exactly the requested width and height
    && (forall img, w, h ::
          IsImage(img) && w >= 1 && h >= 1 ==> HasShape(lib.resizeCubic(img, w, h), h, w))
    && (forall img, c, a, w, h ::
          IsImage(img) && w >= 1 && h >= 1 ==> HasShape(lib.rotate(img, c, a, w, h), h, w))
    // filters and colour conversion keep the dimensions
    && (forall img, d, sc, ss ::
          IsImage(img) ==> SameShape(lib.bilateralFilter(img, d, sc, ss), img))
    && (forall img, a, b, c, d ::
          IsImage(img) ==> SameShape(lib.nlMeansColored(img, a, b, c, d), img))
    && (forall img ::
          IsImage(img) ==> SameShape(lib.bgrToGray(img), img))
    && (forall g, k ::
          IsImage(g) ==> SameShape(lib.gaussianBlur(g, k), g))
    && (forall g, kw, kh ::
          IsImage(g) ==> SameShape(lib.morphClose(g, kw, kh), g))
    // binary thresholds with maximum value 255 keep the dimensions and yield 0/255
    && (forall g ::
          IsImage(g) ==> SameShape(lib.otsuThreshold(g), g) && IsBinaryMask(lib.otsuThreshold(g)))
    && (forall g, b, c ::
          IsImage(g) ==> SameShape(lib.adaptiveGaussianThreshold(g, b, c), g)
                         && IsBinaryMask(lib.adaptiveGaussianThreshold(g, b, c)))
  }
}
