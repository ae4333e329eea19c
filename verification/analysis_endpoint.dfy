/** The analysis endpoints that take a URL: `perform_ocr`, `analyze_image`, `extract_text`
    and `analyze_document`. The MIME type guessed from the URL, what the extractors
    return, the language analysis (which reports its own failures instead of raising)
    and the model call are inputs. */
module AnalysisEndpoint {
  import opened Wrappers
  import opened JsonValues
  import opened Schemas
  import opened Generative
  import opened Http
  import opened Extraction
  import Vision
  import Document

  const Pdf := "application/pdf"
  const MsWord := "application/msword"
  const WordOpenXml := "application/vnd.openxmlformats-officedocument.wordprocessingml.document"

  datatype Extractor = DocumentExtractor | ImageExtractor

  /** The extractor `analyze_document` picks: PDF and both Word types go to the document
      extractor; everything else, an unknown type included, to the image extractor. */
  function AnalyzeDocumentRoute(fileType: Option<string>): (e: Extractor)
    ensures e == DocumentExtractor <==>
      fileType == Some(Pdf) || fileType == Some(MsWord) || fileType == Some(WordOpenXml)
  {
    if fileType == Some(Pdf) then DocumentExtractor
    else if fileType == Some(MsWord) || fileType == Some(WordOpenXml) then DocumentExtractor
    else ImageExtractor
  }

  /** The extractor `extract_text` picks: only PDF goes to the document extractor. */
  function ExtractTextRoute(fileType: Option<string>): (e: Extractor)
    ensures e == DocumentExtractor <==> fileType == Some(Pdf)
  {
    if fileType == Some(Pdf) then DocumentExtractor else ImageExtractor
  }

  /** `extract_text` sends fewer types to the document extractor than `analyze_document`:
      the two agree except on the Word types, which `extract_text` hands to the image
      extractor. */
  lemma RoutesDifferOnWord(fileType: Option<string>)
    ensures ExtractTextRoute(fileType) == DocumentExtractor ==> AnalyzeDocumentRoute(fileType) == DocumentExtractor
    ensures ExtractTextRoute(fileType) != AnalyzeDocumentRoute(fileType) <==>
      fileType == Some(MsWord) || fileType == Some(WordOpenXml)
  {
  }

  function Pick(e: Extractor, image: Vision.Payload, document: Document.Payload): (x: Extracted)
    ensures e == ImageExtractor ==> x == FromVision(image)
    ensures e == DocumentExtractor ==> x == FromDocument(document)
  {
    if e == ImageExtractor then FromVision(image) else FromDocument(document)
  }

  /** An extraction reporting status "error" raises a 400 with its error text; the
      handler turns it into a 500 whose detail is that 400 printed. Reading a missing
      `error` would raise a key error instead. */
  function CheckExtracted(x: Extracted): (r: Result<Extracted, HttpError>)
    ensures x.Status() != "error" ==> r == Success(x)
    ensures x.Status() == "error" && x.Error().Some? ==>
      r == Failure(HttpError(500, HttpError(400, x.Error().value).Str()))
    ensures x.Status() == "error" && x.Error().None? ==>
      r == Failure(HttpError(500, KeyErrorText("error")))
  {
    if x.Status() != "error" then Success(x)
    else match x.Error()
      case Some(message) => Failure(HttpError(500, HttpError(400, message).Str()))
      case None => Failure(HttpError(500, KeyErrorText("error")))
  }

  /** What `mimetypes.guess_type` is handed: a string, or the request's URL object itself.
      A pydantic `HttpUrl` is not a `str`; `typeName` is the name of its class. */
  datatype UrlArgument = AsString(value: string) | AsUrl(typeName: string, value: string)

  /** The text of the `TypeError` `os.fspath` raises on an object that is not a path. */
  function FsPathError(typeName: string): string {
    "expected str, bytes or os.PathLike object, not " + typeName
  }

  /** `mimetypes.guess_type(url)[0]`: the type a string's extension names (`guess`, an
      input), or the `TypeError` raised on anything that is not a string. */
  function GuessType(url: UrlArgument, guess: string -> Option<string>): (r: Result<Option<string>, string>)
    ensures url.AsString? ==> r == Success(guess(url.value))
    ensures url.AsUrl? ==> r == Failure(FsPathError(url.typeName))
  {
    match url
    case AsString(text) => Success(guess(text))
    case AsUrl(typeName, _) => Failure(FsPathError(typeName))
  }

  /** `extract_text` as evidently intended, with the MIME type guessed from the URL's
      text: the chosen extractor's result, unchanged, unless it reports an error. */
  function ExtractTextIntended(fileType: Option<string>, image: Vision.Payload, document: Document.Payload)
    : (r: Result<Extracted, HttpError>)
    ensures r.Success? ==> r.value == Pick(ExtractTextRoute(fileType), image, document)
    ensures r.Success? <==> Pick(ExtractTextRoute(fileType), image, document).Status() != "error"
    ensures r.Failure? ==> r.error.statusCode == 500
  {
    CheckExtracted(Pick(ExtractTextRoute(fileType), image, document))
  }

  /** `extract_text` as written: the MIME type is guessed from `request.document_url`
      itself rather than from its text. On the URL object the guess raises a `TypeError`
      before either extractor runs, and the handler turns it into a 500; only a plain
      string would reach the intended dispatch. */
  function ExtractTextAsWritten(url: UrlArgument, guess: string -> Option<string>,
                                image: Vision.Payload, document: Document.Payload)
    : (r: Result<Extracted, HttpError>)
    ensures url.AsUrl? ==> r == Failure(HttpError(500, FsPathError(url.typeName)))
    ensures url.AsString? ==> r == ExtractTextIntended(guess(url.value), image, document)
  {
    match GuessType(url, guess)
    case Failure(message) => Failure(HttpError(500, message))
    case Success(fileType) => ExtractTextIntended(fileType, image, document)
  }

  /** The request's URL always arrives as an `HttpUrl` object, so the endpoint as written
      fails on every request, while the intended one returns whatever the chosen
      extractor extracted cleanly. */
  lemma ExtractTextDiscrepancy(typeName: string, text: string, guess: string -> Option<string>,
                               image: Vision.Payload, document: Document.Payload)
    requires Pick(ExtractTextRoute(guess(text)), image, document).Status() != "error"
    ensures ExtractTextAsWritten(AsUrl(typeName, text), guess, image, document)
      == Failure(HttpError(500, "expected str, bytes or os.PathLike object, not " + typeName))
    ensures ExtractTextIntended(guess(text), image, document)
      == Success(Pick(ExtractTextRoute(guess(text)), image, document))
  {
  }

  /** In the intended endpoint a failed extraction reaches the caller as a 500 reading
      "400: " and the extractor's message. */
  lemma ExtractTextFailureText(fileType: Option<string>, image: Vision.Payload, document: Document.Payload)
    requires ExtractTextRoute(fileType) == DocumentExtractor && document.Failed?
    ensures ExtractTextIntended(fileType, image, document) == Failure(HttpError(500, "400: " + document.error))
  {
    ClientAndServerErrorTexts(document.error);
  }

  /** A line as the response model `TextLine` keeps it: text, confidence, bounding box
      and page. The recognised language is not among its fields and is dropped. */
  datatype OcrLine = OcrLine(
    text: string,
    confidence: Option<real>,
    boundingBox: Option<seq<real>>,
    page: Option<int>)

  function OcrLineOf(line: Vision.LineRecord): OcrLine {
    OcrLine(line.text, line.confidence, line.boundingBox, Some(line.page))
  }

  function OcrLines(lines: seq<Vision.LineRecord>): (r: seq<OcrLine>)
    ensures |r| == |lines|
    ensures forall i :: 0 <= i < |lines| ==> r[i] == OcrLineOf(lines[i])
  {
    seq(|lines|, i requires 0 <= i < |lines| => OcrLineOf(lines[i]))
  }

  /** The OCR response model `OCRResponse`: the four fields it declares. */
  datatype OcrResponse = OcrResponse(
    status: string,
    textLines: seq<OcrLine>,
    fullText: string,
    error: Option<string>)

  /** `perform_ocr`: the vision service's result as the response model serialises it (each
      line keeps its text, confidence, bounding box and page, but not its language), or,
      when extraction raised, status "error" with no lines, no text and the exception's
      text. */
  function PerformOcr(outcome: Result<Vision.Payload, string>): (r: OcrResponse)
    ensures outcome.Failure? ==>
      r.status == "error" && r.textLines == [] && r.fullText == "" && r.error == Some(outcome.error)
    ensures outcome.Success? ==>
      && r.status == outcome.value.status
      && |r.textLines| == |outcome.value.textLines|
      && (forall i :: 0 <= i < |r.textLines| ==>
            var line := outcome.value.textLines[i];
            r.textLines[i] == OcrLine(line.text, line.confidence, line.boundingBox, Some(line.page)))
      && r.fullText == outcome.value.fullText && r.error == outcome.value.error
  {
    match outcome
    case Success(p) => OcrResponse(p.status, OcrLines(p.textLines), p.fullText, p.error)
    case Failure(message) => OcrResponse("error", [], "", Some(message))
  }

  /** A vision failure read through `perform_ocr` looks like one of its own failures. */
  lemma PerformOcrOfFailure(message: string)
    ensures PerformOcr(Success(Vision.FailurePayload(message))) == PerformOcr(Failure(message))
  {
  }

  const NoTextInImage := "No text was extracted from the image"

  /** What `analyze_image` returns. */
  datatype ImageAnalysis = ImageAnalysis(
    status: string,
    ocrResult: Vision.Payload,
    languageAnalysis: Json,
    aiAnalysis: Reply<GradingPayload>,
    originalText: string)

  /** `analyze_image`: the OCR result must not report an error and must carry some text;
      only then are the language analysis and the model consulted. */
  function AnalyzeImage(ocr: Vision.Payload, languageAnalysis: Json, aiCall: Result<string, string>)
    : (r: Result<ImageAnalysis, HttpError>)
    ensures r.Failure? ==> r.error.statusCode == 500
    ensures ocr.status == "error" && ocr.error.Some? ==>
      r == Failure(HttpError(500, HttpError(400, ocr.error.value).Str()))
    ensures ocr.status != "error" && ocr.fullText == "" ==>
      r == Failure(HttpError(500, HttpError(400, NoTextInImage).Str()))
    ensures r.Success? <==> ocr.status != "error" && ocr.fullText != ""
    ensures r.Success? ==>
      r.value == ImageAnalysis("success", ocr, languageAnalysis, AnalyzeText(aiCall), ocr.fullText)
  {
    if ocr.status == "error" then
      match ocr.error
      case Some(message) => Failure(HttpError(500, HttpError(400, message).Str()))
      case None => Failure(HttpError(500, KeyErrorText("error")))
    else if ocr.fullText == "" then Failure(HttpError(500, HttpError(400, NoTextInImage).Str()))
    else Success(ImageAnalysis("success", ocr, languageAnalysis, AnalyzeText(aiCall), ocr.fullText))
  }

  /** The guards of `analyze_image` decide before the language analysis or the model is
      consulted: a rejected OCR result fails the same way whatever they would return. */
  lemma AnalyzeImageGuardsFirst(ocr: Vision.Payload, a: Json, a': Json,
                                call: Result<string, string>, call': Result<string, string>)
    requires ocr.status == "error" || ocr.fullText == ""
    ensures AnalyzeImage(ocr, a, call) == AnalyzeImage(ocr, a', call')
  {
  }

  /** Empty text is reported as "400: No text was extracted from the image". */
  lemma EmptyImageText(ocr: Vision.Payload, a: Json, call: Result<string, string>)
    requires ocr.status != "error" && ocr.fullText == ""
    ensures AnalyzeImage(ocr, a, call) == Failure(HttpError(500, "400: " + NoTextInImage))
  {
    ClientAndServerErrorTexts(NoTextInImage);
  }

  /** The grading request `analyze_document` builds from the extracted text and the
      request's own grading fields. */
  datatype DocumentRequest = DocumentRequest(
    subject: Option<string>,
    level: Option<string>,
    gradingCriteria: Option<seq<GradingCriteria>>,
    assignmentRequirements: Option<AssignmentRequirements>,
    rubricType: Option<string>)

  function GradingRequestFor(text: string, request: DocumentRequest): (g: GradingRequest)
    ensures g.text == text && g.subject == request.subject && g.level == request.level
    ensures g.gradingCriteria == request.gradingCriteria
    ensures g.assignmentRequirements == request.assignmentRequirements
    ensures g.rubricType == request.rubricType
  {
    GradingRequest(text, request.subject, request.level, request.gradingCriteria,
                   request.assignmentRequirements, request.rubricType)
  }

  /** What `analyze_document` returns on success. */
  datatype DocumentAnalysis = DocumentAnalysis(
    status: string,
    languageAnalysis: Json,
    aiAnalysis: GradingPayload,
    documentType: Option<string>,
    originalText: string)

  /** The text of the attribute error the grading call raises: the model service has no
      `grade_text` method. */
  const NoGradeText := "'AzureOpenAIService' object has no attribute 'grade_text'"

  /** `analyze_document` as written: after extraction (and its error check) and the
      language analysis, it asks the model service for `grade_text`, a method the service
      does not have, so every request that gets that far fails with a 500 carrying the
      attribute error. */
  function AnalyzeDocumentAsWritten(fileType: Option<string>, image: Vision.Payload,
                                    document: Document.Payload, request: DocumentRequest,
                                    languageAnalysis: Json): (r: Result<DocumentAnalysis, HttpError>)
    ensures r.Failure? && r.error.statusCode == 500
    ensures Pick(AnalyzeDocumentRoute(fileType), image, document).Status() != "error" ==>
      r == Failure(HttpError(500, NoGradeText))
  {
    match CheckExtracted(Pick(AnalyzeDocumentRoute(fileType), image, document))
    case Failure(e) => Failure(e)
    case Success(x) =>
      var text := x.FullText().GetOr("");
      var _ := GradingRequestFor(text, request);
      Failure(HttpError(500, NoGradeText))
  }

  /** `analyze_document` as evidently intended: the grading request goes to a grading
      stage (`grade`, whose failure is the text of the exception it raised) and its
      grading is returned with the language analysis, the MIME type and the extracted
      text, which defaults to "" and is not rejected when empty. */
  function AnalyzeDocumentIntended(fileType: Option<string>, image: Vision.Payload,
                                   document: Document.Payload, request: DocumentRequest,
                                   languageAnalysis: Json,
                                   grade: GradingRequest -> Result<GradingPayload, string>)
    : (r: Result<DocumentAnalysis, HttpError>)
    ensures r.Failure? ==> r.error.statusCode == 500
    ensures var x := Pick(AnalyzeDocumentRoute(fileType), image, document);
      x.Status() != "error" ==>
        var text := x.FullText().GetOr("");
        && (grade(GradingRequestFor(text, request)).Success? ==>
              r == Success(DocumentAnalysis("success", languageAnalysis,
                                            grade(GradingRequestFor(text, request)).value,
                                            fileType, text)))
        && (grade(GradingRequestFor(text, request)).Failure? ==>
              r == Failure(HttpError(500, grade(GradingRequestFor(text, request)).error)))
    ensures Pick(AnalyzeDocumentRoute(fileType), image, document).Status() == "error" ==>
      r == AnalyzeDocumentAsWritten(fileType, image, document, request, languageAnalysis)
  {
    match CheckExtracted(Pick(AnalyzeDocumentRoute(fileType), image, document))
    case Failure(e) => Failure(e)
    case Success(x) =>
      var text := x.FullText().GetOr("");
      match grade(GradingRequestFor(text, request))
      case Failure(message) => Failure(HttpError(500, message))
      case Success(grading) => Success(DocumentAnalysis("success", languageAnalysis, grading, fileType, text))
  }

  /** The endpoint as written never succeeds, while the intended one succeeds on every
      document that extracts cleanly and grades: a PDF whose analysis found no lines at
      all, graded by any service that answers, shows the difference. */
  lemma AnalyzeDocumentDiscrepancy(image: Vision.Payload, request: DocumentRequest, languageAnalysis: Json,
                                   grade: GradingRequest -> Result<GradingPayload, string>)
    requires grade(GradingRequestFor("", request)).Success?
    ensures var document := Document.Analyzed([], "", 0, Document.Metadata(None, None));
      && AnalyzeDocumentAsWritten(Some(Pdf), image, document, request, languageAnalysis).Failure?
      && AnalyzeDocumentIntended(Some(Pdf), image, document, request, languageAnalysis, grade).Success?
  {
  }
}
