# OCR preprocessing and request handling, modelled in Dafny

This project models the deterministic core of an OCR web service. The service takes
an uploaded photograph of a document and prepares it for PaddleOCR in a fixed chain
of stages:

1. contrast and sharpness enhancement;
2. conversion to BGR order and a width-based resize;
3. denoising;
4. deskew;
5. binarization.

It then assembles the recognised lines into one text. The pixel algorithms belong to
OpenCV and PIL. The model keeps the arithmetic and the decisions between those
library calls:

- the level-to-factor scale;
- the resize dimension rule;
- deskew's polarity step, angle fold, clip, rotation threshold and rotation centre;
- the binarization dispatch and the three-channel output;
- the channel-order swaps;
- the upload checks and their order;
- the language-to-model map;
- the mapping of exceptions to HTTP statuses;
- the aggregation of recognised lines.

Files, one module each:

- `wrappers.dfy` (`Wrappers`): `Option`, for Python's value-or-`None`.
- `grids.dfy` (`Grids`): images as row-major grids; a colour pixel is `Px3`. It also
  holds the channel swap, grey-to-BGR replication, mask inversion, and the mask sum
  and mean.
- `vision.dfy` (`Vision`): the OpenCV/PIL calls, as the function-valued fields of a
  `Library` datatype. The predicate `Sound` lists what the model assumes of them:
  - every stage keeps the image's dimensions, except resize and warp, which produce
    the width and height they are asked for;
  - both thresholds produce 0/255 masks;
  - an enhancement factor of 1.0 returns the image unchanged.
- `preprocess.dfy` (`Preprocess`): `app/preprocess.py`.
- `pystr.dfy` (`PyStr`): the Python string built-ins the handler uses: `in`, `join`
  and `strip`. `SplitOn` is defined here as the reference inverse of `Join`.
- `api.dfy` (`Api`): `app/main.py`. The upload read, the image decoder and the OCR
  engine are parameters of `OcrEndpoint`.

Where the system's design description and the code differ, the model follows the code:

- The description says the resized height is rounded. The code truncates (`int(...)`),
  so the model floors.
- The description says level 0 only approaches full attenuation. The code gives a
  factor of exactly 0 for both spans, 1.5 and 1.8.
- The description calls a binarization mode other than simple/adaptive a
  configuration error. The code sends every mode other than `"simple"` to the
  adaptive threshold.
- The description rotates by the negated angle. The code passes the clipped angle
  itself to `getRotationMatrix2D`, and the model does the same.

## Model

| member | source | states |
|---|---|---|
| `Preprocess.Scale` | app/preprocess.py:21-23 | the factor is the linear value neutral + (v - 50)/50 * span clamped below at 0: it is never negative, never below the linear value, and equal to one of the two |
| `Preprocess.ScaleAtNeutralLevel` | app/preprocess.py:21-23 | level 50 maps to the neutral factor for every span |
| `Preprocess.ScaleMonotone` | app/preprocess.py:23 | for a non-negative span the factor is non-decreasing in the level |
| `Preprocess.ScaleEndpoints` | app/preprocess.py:21-23 | level 0 gives 0 once span >= neutral; level 100 gives neutral + span |
| `Preprocess.FactorValues` | app/preprocess.py:25-26 | contrast factors are 0, 1.0, 2.5 and sharpness factors 0, 1.0, 2.8 at levels 0, 50, 100 |
| `Preprocess.AdjustContrastAndSharpness` | app/preprocess.py:18-30 | the result is the sharpness enhancer at SharpnessFactor(sharpness) applied to the contrast enhancer's output at ContrastFactor(contrast): contrast first, then sharpness; the image keeps its dimensions |
| `Preprocess.NeutralLevelsKeepImage` | app/preprocess.py:25-29 | contrast = sharpness = 50 returns the image unchanged |
| `Preprocess.ResizeDims` | app/preprocess.py:33-39 | no resize exactly when the target is None, <= 0 or the current width; otherwise width = target and height = max(1, floor(h * target / w)), stated as bounds: truncated, never rounded, never 0 |
| `Preprocess.ResizeImage` | app/preprocess.py:32-40 | the identity cases return the input itself; otherwise the output has the computed height and the target width |
| `Preprocess.Denoise` | app/preprocess.py:42-46 | the denoised image keeps the input's dimensions (the filters are opaque, so dimensions are all the contract can state; the order, bilateral (9, 75, 75) then coloured non-local means (3, 3, 7, 21), is fixed by the body) |
| `Preprocess.FoldAngle` | app/preprocess.py:70-71 | an angle below -45 becomes the angle + 90 and any other angle is kept, so the result is >= -45 for angles down to -135 |
| `Preprocess.Clip` | app/preprocess.py:72 | np.clip: the result lies in [lo, hi], equals x inside the range, and equals the nearer bound outside it |
| `Preprocess.CorrectionAngle` | app/preprocess.py:69-72 | the correction angle always lies in [-15, 15]; it is the raw angle on [-15, 15] and the raw angle + 90 on [-105, -75]; it is -15 below -105 and on [-45, -15), and 15 on (-75, -45) and above 15 |
| `Preprocess.NormalizePolarity` | app/preprocess.py:55-57 | a mask with mean > 127 becomes 255 - v at every position; a mask with mean <= 127 is kept as it is; afterwards the mean is < 128 and a 0/255 mask stays 0/255 |
| `Preprocess.DeskewMask` | app/preprocess.py:51-57 | the mask deskew closes and searches is 0/255, has the image's dimensions and mean < 128 |
| `Preprocess.FirstMaxIndex` | app/preprocess.py:67 | Python's max with a key: an index of a largest area, with every earlier area strictly smaller |
| `Preprocess.SkewEstimate` | app/preprocess.py:63-72 | None exactly when there are no contours; otherwise the correction angle of the minAreaRect of the first contour of largest area, which lies in [-15, 15] |
| `Preprocess.DeskewRotation` | app/preprocess.py:64-75 | no rotation exactly when there are no contours or the estimate has magnitude < 0.5; any rotation has magnitude in [0.5, 15] |
| `Preprocess.Center` | app/preprocess.py:77-78 | the centre is (w // 2, h // 2): 2c <= size <= 2c + 1 in each coordinate, so it lies inside the image, on the midline for an odd size and just after it for an even size |
| `Preprocess.Deskew` | app/preprocess.py:48-80 | the output keeps the input's dimensions; the input itself is returned when there is no rotation; otherwise the original colour image is rotated about (w // 2, h // 2) into a w x h frame |
| `Preprocess.Threshold` | app/preprocess.py:84-88 | Otsu selects the global Otsu threshold and adaptive the Gaussian adaptive threshold with its block size and constant; either gives a 0/255 mask of the grey image's dimensions |
| `Preprocess.MethodFor` | app/preprocess.py:84-88 | "simple" and only "simple" selects Otsu; every other mode selects adaptive Gaussian with block 35 and C 11 |
| `Preprocess.Binarize` | app/preprocess.py:82-90 | the output has the input's dimensions; every pixel has three equal channels, each 0 or 255, equal to the thresholded grey value |
| `Preprocess.PilToCv2` | app/preprocess.py:11-12 | RGB to BGR exchanges the first and third channel of every pixel and keeps the dimensions |
| `Preprocess.Cv2ToPil` | app/preprocess.py:14-15 | BGR to RGB exchanges the first and third channel of every pixel and keeps the dimensions |
| `Preprocess.LayoutRoundTrip` | app/preprocess.py:11-15 | BGR to RGB to BGR, and RGB to BGR to RGB, are the identity |
| `Preprocess.PreprocessImage` | app/preprocess.py:92-121 | the stages run in the order tone, BGR conversion, resize, denoise, deskew, binarize; the output has the resize rule's dimensions and is two-tone in every pixel; the returned RGB copy equals the BGR image |
| `Grids.SwapChannels` | app/preprocess.py:11-15 | every pixel has its first and third channel exchanged; dimensions kept |
| `Grids.SwapChannelsInvolution` | app/preprocess.py:11-15 | swapping the first and third channel twice gives back the image |
| `Grids.SwapChannelsOfGrey` | app/preprocess.py:90 | an image of grey pixels, as produced by GRAY2BGR, is unchanged by the channel swap |
| `Grids.GrayToBgr` | app/preprocess.py:89-90 | each grey value becomes a pixel with that value in all three channels; dimensions kept |
| `Grids.Invert` | app/preprocess.py:57 | every value v of the mask becomes 255 - v; dimensions kept |
| `Grids.InvertKeepsBinary` | app/preprocess.py:57 | `255 - thr` of a 0/255 mask is a 0/255 mask |
| `Grids.TotalInvert` | app/preprocess.py:56-57 | inverting a mask of n values with sum s gives sum 255 * n - s |
| `Grids.Mean` | app/preprocess.py:56 | np.mean of a non-empty mask: the mean times the number of values is their sum |
| `Grids.MeanAbove` | app/preprocess.py:56 | np.mean(thr) > 127 exactly when the sum exceeds 127 times the count |
| `PyStr.IsSpace` | app/main.py:142 | the whitespace test strip uses: space, tab, newline and carriage return are whitespace, no ASCII letter or digit is, and no whitespace lies above U+3000 |
| `PyStr.Contains` | app/main.py:86 | Python's `in` on strings: true exactly when the needle occurs at some offset |
| `PyStr.Join` | app/main.py:142 | joining one part gives that part; joining none gives "" |
| `PyStr.SplitJoin` | app/main.py:142 | splitting the join at the separator gives the parts back when no part contains it |
| `PyStr.Strip` | app/main.py:142 | the result is the slice of the input after its leading whitespace, only whitespace follows it, and it neither starts nor ends with whitespace |
| `PyStr.StripKeeps` | app/main.py:142 | a string that neither starts nor ends with whitespace is its own strip |
| `PyStr.StripIdempotent` | app/main.py:142 | stripping twice is stripping once |
| `PyStr.JoinTrimmed` | app/main.py:142 | joining trimmed parts gives a trimmed string |
| `PyStr.JoinLinesRecoverable` | app/main.py:142 | trimmed newline-free lines, joined with "\n" and stripped, split back into the same lines |
| `Api.EnforceUploadLimits` | app/main.py:78-89 | 413 exactly when the length exceeds max_bytes (a length equal to it passes); 415 exactly when the size passes and the content type (default "") lacks "multipart/form-data"; otherwise returns True |
| `Api.Classify` | app/main.py:146-150 | an HTTPException passes through unchanged, every other exception becomes a 500 |
| `Api.EngineModel` | app/main.py:60-64 | every admitted language is a key of the map, so the lookup does not fail, and the model is the mapped value |
| `Api.LanguageMap` | app/main.py:60 | the map's keys are exactly "en" and "pt", with en -> "en" and pt -> "latin" |
| `Api.PageTexts` | app/main.py:139-141 | the texts kept from one page: at most one per line |
| `Api.PageTextsAllKept` | app/main.py:139-141 | when no line's text is empty, the kept texts of a page are exactly its lines' texts, in line order |
| `Api.KeptTexts` | app/main.py:137-141 | the texts kept from all pages, page after page: at most one per recognised line |
| `Api.KeptTextsNonEmpty` | app/main.py:139-141 | no empty text is kept |
| `Api.KeptTextsConcat` | app/main.py:137-141 | kept texts of earlier pages precede those of later pages, in order |
| `Api.KeptTextsComplete` | app/main.py:137-141 | every non-empty recognised text is kept |
| `Api.KeptTextsSound` | app/main.py:137-141 | every kept text is the text of some recognised line |
| `Api.CollectLines` | app/main.py:136-141 | the nested loop over pages and lines collects exactly the kept texts, in page-then-line order |
| `Api.AggregateText` | app/main.py:136-142 | the answer is the kept texts joined with "\n" and stripped, so it has no leading or trailing whitespace |
| `Api.AggregateRecoverable` | app/main.py:136-142 | when the recognised texts are trimmed and newline-free, the answer splits at newlines back into exactly the kept texts |
| `Api.EngineInput` | app/main.py:121-132 | the image handed to the engine is the preprocessed two-tone image itself, since BGR-to-RGB leaves grey pixels unchanged, and has the dimensions the resize rule gives |
| `Api.OcrEndpoint` | app/main.py:106-150 | an empty upload is 400 before any other check; then the limit checks' 413/415 in that order; an undecodable image is 415; an engine exception is classified; only HTTP exceptions escape; on success the answer is the aggregated text |

## Left out

- The pixel algorithms of PIL and OpenCV are not modelled. This covers the enhancers,
  cubic resize, the bilateral and non-local-means filters, Gaussian blur, Otsu and
  adaptive thresholding, morphology, `findContours`, `contourArea`, `minAreaRect` and
  `warpAffine`. They are parameters, and `Vision.Sound` states the only facts the
  model assumes of them: dimensions, 0/255 threshold output, and factor 1.0 as the
  identity.
- Floating point is not modelled. Factors, angles and the mask mean are exact reals.
  The resize height is exact floor division, where the code computes
  `int(h * (target / float(w)))` and can differ by float rounding.
- `max_bytes` is an integer parameter. Reading `MAX_UPLOAD_MB` from the environment
  and the float conversion are left out.
- FastAPI plumbing is left out: routing, CORS, SlowAPI rate limiting, `health_check`,
  logging, and query-parameter validation (422). The HTTP detail messages are left
  out too; only status codes are modelled.
- PaddleOCR and the `lru_cache` of `get_ocr` are left out. The engine is the `ocr`
  parameter of `OcrEndpoint`, and a failure while building it is one of its exceptions.
- Query-parameter defaulting is the web framework's. The defaults of
  `ocr_endpoint` (lang "pt", contrast and sharpness 50, binarization "adaptive",
  resize_width 1600) are recorded as the `Api.Default*` constants, but
  `OcrEndpoint` takes every parameter explicitly. `preprocess_image`'s own default
  `resize_width=1600` is not modelled: the handler always passes the width.
- The content-type header is given as an `Option<string>`. Starlette's
  case-insensitive header lookup is not modelled.
- OcrEndpoint: the preprocessing library is total in the model, so an OpenCV error
  raised during preprocessing is not modelled. In the code it would become a 500 by
  the same classification.
- OcrEndpoint: every page of the engine's result is a list of lines, each with a
  string text. A page or a text that is `None` would make the loop raise
  (TypeError, hence 500) or skip it, and is not modelled.
- Images are non-empty and rectangular (`IsImage`), as PIL's decoder produces them.
  With an empty image, np.mean would be NaN and resize would divide by a zero width;
  neither is modelled.
- Deskew idempotence on an upright page, and the end-to-end scenarios on rendered
  text, depend on the pixel algorithms and are not stated.
