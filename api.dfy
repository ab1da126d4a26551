/**
 * The request handling of app/main.py around the pipeline: the upload checks,
 * the language-to-model map, the mapping of exceptions to HTTP statuses and
 * the assembly of the recognised lines into one text. The OCR engine, the
 * image decoder and the upload read are parameters.
 */
module Api {
  import opened Wrappers
  import opened Grids
  import opened Vision
  import Preprocess
  import PyStr

  newtype byte = x: int | 0 <= x < 256

  /** FastAPI's HTTPException with its status code, or any other exception. */
  datatype Exception = HttpException(status: int) | OtherException

  /** A call that either returns a value or raises. */
  datatype Outcome<T> = Returned(value: T) | Raised(exc: Exception)

  // ---------------------------------------------------------------------------
  // Upload checks

  const MultipartFormData: string := "multipart/form-data"

  /** _enforce_upload_limits: the size limit first (413), then the content
      type (415); returns True when both pass. A content length equal to the
      limit passes. A missing content-type header reads as "". */
  function EnforceUploadLimits(content: seq<byte>, maxBytes: int, contentType: Option<string>): (r: Outcome<bool>)
    ensures r == Raised(HttpException(413)) <==> |content| > maxBytes
    ensures r == Raised(HttpException(415)) <==>
              |content| <= maxBytes && !PyStr.Contains(contentType.GetOr(""), MultipartFormData)
    ensures r.Returned? <==> |content| <= maxBytes && PyStr.Contains(contentType.GetOr(""), MultipartFormData)
    ensures r.Returned? ==> r.value
  {
    if |content| > maxBytes then Raised(HttpException(413))
    else if !PyStr.Contains(contentType.GetOr(""), MultipartFormData) then Raised(HttpException(415))
    else Returned(true)
  }

  /** The except clauses of ocr_endpoint: an HTTPException is re-raised as it
      is, any other exception becomes an HTTPException with status 500. */
  function Classify(e: Exception): (r: Exception)
    ensures r.HttpException?
    ensures e.HttpException? ==> r == e
    ensures !e.HttpException? ==> r.status == 500
  {
    match e
    case HttpException(_) => e
    case OtherException => HttpException(500)
  }

  // ---------------------------------------------------------------------------
  // Languages

  /** The values the lang query parameter admits. */
  datatype Lang = En | Pt

  /** The defaults of ocr_endpoint's query parameters, which the web framework
      fills in when a request leaves them out. */
  const DefaultLang: Lang := Pt
  const DefaultLevel: int := 50
  const DefaultBinarization: string := "adaptive"
  const DefaultResizeWidth: Option<int> := Some(1600)

  function LangCode(lang: Lang): string
  {
    match lang
    case En => "en"
    case Pt => "pt"
  }

  /** _SUPPORTED_LANGS: Portuguese uses PaddleOCR's "latin" model. */
  const SupportedLangs: map<string, string> := map["en" := "en", "pt" := "latin"]

  /** The model get_ocr asks PaddleOCR for. Every admitted language is a key
      of the map, so the lookup never fails. */
  function EngineModel(lang: Lang): (model: string)
    ensures LangCode(lang) in SupportedLangs && model == SupportedLangs[LangCode(lang)]
  {
    SupportedLangs[LangCode(lang)]
  }

  lemma LanguageMap()
    ensures SupportedLangs.Keys == {LangCode(En), LangCode(Pt)}
    ensures EngineModel(En) == "en" && EngineModel(Pt) == "latin"
  {
  }

  // ---------------------------------------------------------------------------
  // Result assembly

  /** One recognised line: its box and the pair (text, confidence), so that
      line[1][0] is `text`. */
  datatype OcrLine = OcrLine(box: seq<(real, real)>, text: string, confidence: real)

  type Page = seq<OcrLine>

  /** The non-empty texts of a page, in line order: at most one per line. */
  function PageTexts(page: Page): (r: seq<string>)
    ensures |r| <= |page|
  {
    if page == [] then []
    else
      var last := page[|page| - 1].text;
      PageTexts(page[..|page| - 1]) + (if last != "" then [last] else [])
  }

  /** The number of recognised lines over all pages. */
  function LineCount(result: seq<Page>): nat
  {
    if result == [] then 0 else LineCount(result[..|result| - 1]) + |result[|result| - 1]|
  }

  /** The non-empty texts of all pages, page after page, each in line order:
      at most one per recognised line. */
  function KeptTexts(result: seq<Page>): (r: seq<string>)
    ensures |r| <= LineCount(result)
  {
    if result == [] then [] else KeptTexts(result[..|result| - 1]) + PageTexts(result[|result| - 1])
  }

  /** The texts of a page's lines, in line order. */
  function LineTexts(page: Page): (r: seq<string>)
    ensures |r| == |page| && forall l :: 0 <= l < |page| ==> r[l] == page[l].text
  {
    seq(|page|, l requires 0 <= l < |page| => page[l].text)
  }

  /** When no line's text is empty, the page's texts are all kept, in order. */
  lemma {:induction false} PageTextsAllKept(page: Page)
    requires forall l :: 0 <= l < |page| ==> page[l].text != ""
    ensures PageTexts(page) == LineTexts(page)
  {
    if page != [] {
      var n := |page| - 1;
      PageTextsAllKept(page[..n]);
      assert LineTexts(page) == LineTexts(page[..n]) + [page[n].text];
    }
  }

  lemma {:induction false} PageTextsNonEmpty(page: Page)
    ensures "" !in PageTexts(page)
  {
    if page != [] {
      PageTextsNonEmpty(page[..|page| - 1]);
    }
  }

  /** No kept text is empty. */
  lemma {:induction false} KeptTextsNonEmpty(result: seq<Page>)
    ensures "" !in KeptTexts(result)
  {
    if result != [] {
      KeptTextsNonEmpty(result[..|result| - 1]);
      PageTextsNonEmpty(result[|result| - 1]);
    }
  }

  lemma {:induction false} PageTextsConcat(a: Page, b: Page)
    ensures PageTexts(a + b) == PageTexts(a) + PageTexts(b)
  {
    if b != [] {
      var n := |b| - 1;
      assert (a + b)[..|a + b| - 1] == a + b[..n];
      PageTextsConcat(a, b[..n]);
    } else {
      assert a + b == a;
    }
  }

  /** Order is preserved across pages: the texts of earlier pages all come
      before those of later pages. */
  lemma {:induction false} KeptTextsConcat(a: seq<Page>, b: seq<Page>)
    ensures KeptTexts(a + b) == KeptTexts(a) + KeptTexts(b)
  {
    if b != [] {
      var n := |b| - 1;
      assert (a + b)[..|a + b| - 1] == a + b[..n];
      KeptTextsConcat(a, b[..n]);
    } else {
      assert a + b == a;
    }
  }

  /** Every non-empty text of the result is kept. */
  lemma KeptTextsComplete(result: seq<Page>, p: nat, l: nat)
    requires p < |result| && l < |result[p]| && result[p][l].text != ""
    ensures result[p][l].text in KeptTexts(result)
  {
    var page := result[p];
    assert page == page[..l] + [page[l]] + page[l + 1..];
    PageTextsConcat(page[..l] + [page[l]], page[l + 1..]);
    PageTextsConcat(page[..l], [page[l]]);
    assert PageTexts([page[l]]) == [page[l].text];
    assert result == result[..p] + [page] + result[p + 1..];
    KeptTextsConcat(result[..p] + [page], result[p + 1..]);
    KeptTextsConcat(result[..p], [page]);
    assert KeptTexts([page]) == PageTexts(page) by {
      assert [page][..0] == [];
    }
  }

  /** Every kept text is the text of some line of the result. */
  lemma {:induction false} KeptTextsSound(result: seq<Page>, t: string)
    requires t in KeptTexts(result)
    ensures exists p, l :: 0 <= p < |result| && 0 <= l < |result[p]| && result[p][l].text == t
  {
    var n := |result| - 1;
    if t in KeptTexts(result[..n]) {
      KeptTextsSound(result[..n], t);
      var p, l :| 0 <= p < n && 0 <= l < |result[..n][p]| && result[..n][p][l].text == t;
      assert result[p][l].text == t;
    } else {
      var l := PageTextsSound(result[n], t);
      assert result[n][l].text == t;
    }
  }

  lemma {:induction false} PageTextsSound(page: Page, t: string) returns (l: nat)
    requires t in PageTexts(page)
    ensures l < |page| && page[l].text == t
  {
    var n := |page| - 1;
    if t in PageTexts(page[..n]) {
      l := PageTextsSound(page[..n], t);
    } else {
      l := n;
    }
  }

  /** Extending a page prefix by one line appends that line's text if it is not empty. */
  lemma PageTextsStep(page: Page, l: nat)
    requires l < |page|
    ensures PageTexts(page[..l + 1]) == PageTexts(page[..l]) + (if page[l].text != "" then [page[l].text] else [])
  {
    assert page[..l + 1][..l] == page[..l];
  }

  /** Extending a result prefix by one page appends that page's texts. */
  lemma KeptTextsStep(result: seq<Page>, p: nat)
    requires p < |result|
    ensures KeptTexts(result[..p + 1]) == KeptTexts(result[..p]) + PageTexts(result[p])
  {
    assert result[..p + 1][..p] == result[..p];
  }

  /** The loops of ocr_endpoint that collect the non-empty texts, page by
      page and line by line. */
  method CollectLines(result: seq<Page>) returns (lines: seq<string>)
    ensures lines == KeptTexts(result)
  {
    lines := [];
    for p := 0 to |result|
      invariant lines == KeptTexts(result[..p])
    {
      var page := result[p];
      for l := 0 to |page|
        invariant lines == KeptTexts(result[..p]) + PageTexts(page[..l])
      {
        var txt := page[l].text;
        if txt != "" {
          lines := lines + [txt];
        }
        PageTextsStep(page, l);
      }
      assert page[..|page|] == page;
      KeptTextsStep(result, p);
    }
    assert result[..|result|] == result;
  }

  /** The text ocr_endpoint answers with: the kept texts joined by newlines,
      then stripped. */
  method AggregateText(result: seq<Page>) returns (texto: string)
    ensures texto == PyStr.Strip(PyStr.Join(KeptTexts(result), "\n"))
    ensures texto == [] || (!PyStr.IsSpace(texto[0]) && !PyStr.IsSpace(texto[|texto| - 1]))
  {
    var lines := CollectLines(result);
    texto := PyStr.Strip(PyStr.Join(lines, "\n"));
  }

  /** When no recognised text holds a newline or starts or ends with
      whitespace, the answer splits at its newlines back into exactly the
      kept texts, in order. */
  lemma AggregateRecoverable(result: seq<Page>)
    requires KeptTexts(result) != []
    requires forall k :: 0 <= k < |KeptTexts(result)| ==> PyStr.IsTrimmedLine(KeptTexts(result)[k])
    ensures PyStr.SplitOn(PyStr.Strip(PyStr.Join(KeptTexts(result), "\n")), '\n') == KeptTexts(result)
  {
    PyStr.JoinLinesRecoverable(KeptTexts(result));
  }

  // ---------------------------------------------------------------------------
  // The handler

  /** The image handed to PaddleOCR: the preprocessed BGR image converted to RGB. */
  function EngineInput(lib: Library, lang: Lang, contrast: int, sharpness: int, binarization: string,
                       resizeWidth: Option<int>, pil: ColorGrid): (rgb: ColorGrid)
    requires Sound(lib) && IsImage(pil)
    ensures rgb == Preprocess.PreprocessImage(lib, pil, contrast, sharpness, binarization, resizeWidth).0
    ensures var d := Preprocess.OutputDims(Height(pil), Width(pil), resizeWidth);
            HasShape(rgb, d.height, d.width)
  {
    var bgr := Preprocess.PreprocessImage(lib, pil, contrast, sharpness, binarization, resizeWidth).0;
    SwapChannelsOfGrey(bgr);
    SwapChannels(bgr)
  }

  /** The upload was read, is not empty and passed _enforce_upload_limits. */
  predicate Admitted(upload: Outcome<seq<byte>>, maxBytes: int, contentType: Option<string>)
  {
    upload.Returned? && upload.value != [] && EnforceUploadLimits(upload.value, maxBytes, contentType).Returned?
  }

  /** ocr_endpoint. `upload` is the result of reading the uploaded file,
      `decode` is PIL's decoding of the bytes into an RGB image (None when
      decoding raises), and `ocr` is the PaddleOCR engine for a model name,
      with angle classification, applied to an RGB image. Returned(texto) is
      the 200 answer. */
  method OcrEndpoint(lib: Library, lang: Lang, contrast: int, sharpness: int, binarization: string,
                     resizeWidth: Option<int>, upload: Outcome<seq<byte>>, contentType: Option<string>,
                     maxBytes: int, decode: seq<byte> -> Option<ColorGrid>,
                     ocr: (string, ColorGrid) -> Outcome<seq<Page>>)
    returns (resp: Outcome<string>)
    requires Sound(lib)
    requires forall b :: decode(b).Some? ==> IsImage(decode(b).value)
    ensures resp.Raised? ==> resp.exc.HttpException?
    ensures upload.Raised? ==> resp == Raised(Classify(upload.exc))
    ensures upload == Returned([]) ==> resp == Raised(HttpException(400))
    ensures upload.Returned? && upload.value != [] ==>
              var check := EnforceUploadLimits(upload.value, maxBytes, contentType);
              check.Raised? ==> resp == Raised(check.exc)
    ensures Admitted(upload, maxBytes, contentType) && decode(upload.value).None? ==>
              resp == Raised(HttpException(415))
    ensures Admitted(upload, maxBytes, contentType) && decode(upload.value).Some? ==>
              var o := ocr(EngineModel(lang), EngineInput(lib, lang, contrast, sharpness, binarization,
                                                          resizeWidth, decode(upload.value).value));
              (o.Raised? ==> resp == Raised(Classify(o.exc))) &&
              (o.Returned? ==> resp == Returned(PyStr.Strip(PyStr.Join(KeptTexts(o.value), "\n"))))
  {
    if upload.Raised? {
      return Raised(Classify(upload.exc));
    }
    var content := upload.value;
    if content == [] {
      return Raised(HttpException(400));
    }
    var check := EnforceUploadLimits(content, maxBytes, contentType);
    if check.Raised? {
      return Raised(check.exc);
    }
    var decoded := decode(content);
    if decoded.None? {
      return Raised(HttpException(415));
    }
    var pil := decoded.value;
    var rgb := EngineInput(lib, lang, contrast, sharpness, binarization, resizeWidth, pil);
    var result := ocr(EngineModel(lang), rgb);
    if result.Raised? {
      return Raised(Classify(result.exc));
    }
    var texto := AggregateText(result.value);
    resp := Returned(texto);
  }
}
