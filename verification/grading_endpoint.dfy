/** The grading endpoints: `grade_text` (grade a text against optional criteria) and
    `grade_document` (extract the text of an uploaded file, then grade it). The model
    call, the parser of its reply, the database and the extractors are inputs; the
    grading stage `grade_document` hands its request to is a parameter. */
module GradingEndpoint {
  import opened Wrappers
  import opened Schemas
  import opened Generative
  import opened Scoring
  import opened Text
  import opened Http
  import opened Extraction
  import Vision
  import Document

  /** `grade_text`. The model is asked for a grading (`completion`: its content, or the
      exception it raised), the reply is parsed, the criteria are enforced, and the
      database row reads `overall_score` and `grading_results` before it is saved
      (`saveError`: the exception saving raised, if any). Every failure is re-raised as a
      500 carrying the original exception's text. */
  function GradeText(request: GradingRequest, completion: Result<string, string>,
                     parse: string -> Result<GradingPayload, string>,
                     saveError: Option<string>): (r: Result<GradingPayload, HttpError>)
    ensures r.Failure? ==> r.error.statusCode == 500
    ensures var loaded := Load(GetCompletion(completion), parse);
      && (loaded.Failure? ==> r == Failure(HttpError(500, loaded.error)))
      && (loaded.Success? && ApplyCriteria(request.gradingCriteria, loaded.value).Failure? ==>
            r == Failure(HttpError(500, ApplyCriteria(request.gradingCriteria, loaded.value).error)))
      && (r.Success? <==>
            && loaded.Success?
            && ApplyCriteria(request.gradingCriteria, loaded.value).Success?
            && ApplyCriteria(request.gradingCriteria, loaded.value).value.overallScore.Some?
            && ApplyCriteria(request.gradingCriteria, loaded.value).value.gradingResults.Some?
            && saveError.None?)
      && (r.Success? ==> Success(r.value) == ApplyCriteria(request.gradingCriteria, loaded.value))
    ensures var loaded := Load(GetCompletion(completion), parse);
      loaded.Success? && ApplyCriteria(request.gradingCriteria, loaded.value).Success? ==>
        var graded := ApplyCriteria(request.gradingCriteria, loaded.value).value;
        && (graded.overallScore.None? ==> r == Failure(HttpError(500, KeyErrorText("overall_score"))))
        && (graded.overallScore.Some? && graded.gradingResults.None? ==>
              r == Failure(HttpError(500, KeyErrorText("grading_results"))))
        && (graded.overallScore.Some? && graded.gradingResults.Some? && saveError.Some? ==>
              r == Failure(HttpError(500, saveError.value)))
  {
    match Load(GetCompletion(completion), parse)
    case Failure(message) => Failure(HttpError(500, message))
    case Success(result) =>
      match ApplyCriteria(request.gradingCriteria, result)
      case Failure(message) => Failure(HttpError(500, message))
      case Success(graded) =>
        if graded.overallScore.None? then Failure(HttpError(500, KeyErrorText("overall_score")))
        else if graded.gradingResults.None? then Failure(HttpError(500, KeyErrorText("grading_results")))
        else if saveError.Some? then Failure(HttpError(500, saveError.value))
        else Success(graded)
  }

  /** A failed model call does not fail `grade_text`: without criteria its error grading
      comes back as an ordinary result, status "error" inside and score 0. */
  lemma FailedCompletionGradesZero(request: GradingRequest, message: string,
                                   parse: string -> Result<GradingPayload, string>)
    requires request.gradingCriteria.None? || request.gradingCriteria == Some([])
    ensures var r := GradeText(request, Failure(message), parse, None);
      && r.Success?
      && r.value.status == Present("error") && r.value.error == Present(message)
      && r.value.overallScore == Some(0.0) && r.value.gradingResults == Some([])
  {
  }

  /** With criteria, a failed model call still succeeds, and its overall score is 0
      whatever the weights: there are no entries to weigh. */
  lemma FailedCompletionWithCriteria(request: GradingRequest, message: string,
                                     parse: string -> Result<GradingPayload, string>)
    requires request.gradingCriteria.Some? && |request.gradingCriteria.value| > 0
    ensures var r := GradeText(request, Failure(message), parse, None);
      r.Success? && r.value.status == Present("error") && r.value.overallScore == Some(0.0)
  {
    var cs := request.gradingCriteria.value;
    var p := ErrorGrading(message);
    var r := ApplyCriteria(request.gradingCriteria, p);
    assert r.value.gradingResults == Some([]);
    assert WeightedSum(cs, []) == 0.0;
  }

  /** The extensions sent to the image extractor. */
  predicate IsImageExtension(ext: string) {
    ext == "jpg" || ext == "jpeg" || ext == "png"
  }

  /** The extensions sent to the document extractor. */
  predicate IsDocumentExtension(ext: string) {
    ext == "pdf" || ext == "docx" || ext == "doc"
  }

  /** `filename.split('.')[-1].lower()`: the text after the last dot, lower-cased; a name
      without a dot is its own extension. */
  function FileExtension(filename: string): (ext: string)
    ensures '.' !in ext && |ext| <= |filename|
    ensures ext == Lower(filename[|filename| - |ext|..])
    ensures '.' !in filename ==> ext == Lower(filename)
    ensures '.' in filename ==> |ext| < |filename| && filename[|filename| - |ext| - 1] == '.'
  {
    var last := LastPiece(filename, '.');
    assert forall k :: 0 <= k < |last| ==> Lower(last)[k] == LowerChar(last[k]);
    Lower(last)
  }

  datatype Route = ToImage | ToDocument | Unsupported

  /** Which extractor an extension selects. */
  function RouteOf(ext: string): (r: Route)
    ensures r == ToImage <==> IsImageExtension(ext)
    ensures r == ToDocument <==> IsDocumentExtension(ext)
    ensures r == Unsupported <==> !IsImageExtension(ext) && !IsDocumentExtension(ext)
  {
    if IsImageExtension(ext) then ToImage
    else if IsDocumentExtension(ext) then ToDocument
    else Unsupported
  }

  /** A form field holding JSON: not sent or empty, decoded and accepted, not JSON
      (the decoder's message), or JSON that building the value rejected (the text of
      the exception raised, a missing key or a failed validation). */
  datatype FormJson<T> = Blank | Decoded(value: T) | NotJson(message: string) | Rejected(message: string)

  /** Reading a JSON form field: a decoding failure becomes a 400 with `prefix` and the
      decoder's message; any other rejection propagates unchanged. */
  function ReadForm<T>(field: FormJson<T>, prefix: string): (r: Result<Option<T>, string>)
    ensures field.Blank? ==> r == Success(None)
    ensures field.Decoded? ==> r == Success(Some(field.value))
    ensures field.NotJson? ==> r == Failure(HttpError(400, prefix + field.message).Str())
    ensures field.Rejected? ==> r == Failure(field.message)
  {
    match field
    case Blank => Success(None)
    case Decoded(v) => Success(Some(v))
    case NotJson(message) => Failure(HttpError(400, prefix + message).Str())
    case Rejected(message) => Failure(message)
  }

  const CriteriaFormat := "Invalid grading criteria format: "
  const RequirementsFormat := "Invalid assignment requirements format: "
  const NoExtractedText := "Failed to extract text from document"

  /** The Swagger UI's placeholder value for a string field. */
  const Placeholder := "string"

  /** An optional form value with the placeholder read as "not given". */
  function Sanitize(x: Option<string>): (r: Option<string>)
    ensures x == Some(Placeholder) ==> r.None?
    ensures x != Some(Placeholder) ==> r == x
  {
    if x == Some(Placeholder) then None else x
  }

  /** The grading request `grade_document` builds: the extracted text, the criteria list
      (empty when none were sent), and the placeholder mapped to "not given" for subject
      and level and to "academic" for the rubric type. */
  function DocumentRequest(text: string, subject: Option<string>, level: Option<string>,
                           criteria: seq<GradingCriteria>,
                           requirements: Option<AssignmentRequirements>,
                           rubricType: string): (r: GradingRequest)
    ensures r.text == text && r.gradingCriteria == Some(criteria)
    ensures r.assignmentRequirements == requirements
    ensures r.subject == Sanitize(subject) && r.level == Sanitize(level)
    ensures rubricType == Placeholder ==> r.rubricType == Some("academic")
    ensures rubricType != Placeholder ==> r.rubricType == Some(rubricType)
  {
    GradingRequest(text, Sanitize(subject), Sanitize(level), Some(criteria), requirements,
                   Some(if rubricType != Placeholder then rubricType else "academic"))
  }

  /** What `grade_document` returns, on success and on failure alike. */
  datatype DocumentGrading = DocumentGrading(
    status: string,
    error: Option<string>,
    extractedText: string,
    gradingResult: GradingPayload)

  /** The failure body: the message as `error` and as the grading's comments, nothing
      extracted, score 0. */
  function FailedDocument(message: string): (d: DocumentGrading)
    ensures d.status == "error" && d.error == Some(message) && d.extractedText == ""
    ensures d.gradingResult == FailedGrading(message)
    ensures d.gradingResult.languageQuality.comments == message
  {
    DocumentGrading("error", Some(message), "", FailedGrading(message))
  }

  /** The detail of the 400 an unsupported extension raises. */
  function UnsupportedDetail(ext: string): (detail: string)
    ensures detail == "Unsupported file type: " + ext
  {
    "Unsupported file type: " + ext
  }

  /** Choosing the extractor by the upload's extension and checking what it returned; a failure
      carries the text of the 400 raised. */
  function ExtractUpload(ext: string, image: Vision.Payload, document: Document.Payload)
    : (r: Result<Extracted, string>)
    ensures RouteOf(ext) == Unsupported ==> r == Failure(HttpError(400, UnsupportedDetail(ext)).Str())
    ensures RouteOf(ext) == ToImage && image.status != "error" ==> r == Success(FromVision(image))
    ensures RouteOf(ext) == ToDocument && document.Analyzed? ==> r == Success(FromDocument(document))
    ensures RouteOf(ext) == ToImage && image.status == "error" ==>
      r == Failure(HttpError(400, image.error.GetOr(NoExtractedText)).Str())
    ensures RouteOf(ext) == ToDocument && document.Failed? ==>
      r == Failure(HttpError(400, document.error).Str())
  {
    var route := RouteOf(ext);
    if route == Unsupported then Failure(HttpError(400, UnsupportedDetail(ext)).Str())
    else
      var result := if route == ToImage then FromVision(image) else FromDocument(document);
      if result.Status() == "error" then Failure(HttpError(400, result.Error().GetOr(NoExtractedText)).Str())
      else Success(result)
  }

  /** Reading the form fields, building the request and handing it to the grading stage
      `grade`, whose failure is the text of the exception it raised. */
  function GradeExtracted(result: Extracted, subject: Option<string>, level: Option<string>,
                          criteria: FormJson<seq<GradingCriteria>>,
                          requirements: FormJson<AssignmentRequirements>, rubricType: string,
                          grade: GradingRequest -> Result<GradingPayload, string>)
    : (r: Result<(string, GradingPayload), string>)
    ensures ReadForm(criteria, CriteriaFormat).Failure? ==>
      r == Failure(ReadForm(criteria, CriteriaFormat).error)
    ensures ReadForm(criteria, CriteriaFormat).Success? && ReadForm(requirements, RequirementsFormat).Failure? ==>
      r == Failure(ReadForm(requirements, RequirementsFormat).error)
    ensures ReadForm(criteria, CriteriaFormat).Success? && ReadForm(requirements, RequirementsFormat).Success? ==>
      var request := DocumentRequest(result.FullText().GetOr(""), subject, level,
                                     ReadForm(criteria, CriteriaFormat).value.GetOr([]),
                                     ReadForm(requirements, RequirementsFormat).value, rubricType);
      && (grade(request).Failure? ==> r == Failure(grade(request).error))
      && (grade(request).Success? ==> r == Success((request.text, grade(request).value)))
  {
    match ReadForm(criteria, CriteriaFormat)
    case Failure(message) => Failure(message)
    case Success(criteriaList) =>
      match ReadForm(requirements, RequirementsFormat)
      case Failure(message) => Failure(message)
      case Success(requirementsValue) =>
        var text := result.FullText().GetOr("");
        var request := DocumentRequest(text, subject, level, criteriaList.GetOr([]),
                                       requirementsValue, rubricType);
        match grade(request)
        case Failure(message) => Failure(message)
        case Success(grading) => Success((text, grading))
  }

  /** `grade_document`. The uploaded file goes to the image extractor (jpg, jpeg, png),
      the document extractor (pdf, docx, doc) or nowhere; `image` and `document` are what
      those extractors return for it. Every exception on the way, the endpoint's own 400s
      included, is turned into the failure body rather than raised. */
  function GradeDocument(filename: string, image: Vision.Payload, document: Document.Payload,
                         subject: Option<string>, level: Option<string>,
                         criteria: FormJson<seq<GradingCriteria>>,
                         requirements: FormJson<AssignmentRequirements>, rubricType: string,
                         grade: GradingRequest -> Result<GradingPayload, string>)
    : (r: DocumentGrading)
    ensures r.status == "success" || r.status == "error"
    ensures r.status == "error" ==> r.error.Some? && r == FailedDocument(r.error.value)
    ensures r.status == "success" ==> r.error.None?
    ensures RouteOf(FileExtension(filename)) == Unsupported ==>
      r == FailedDocument(HttpError(400, UnsupportedDetail(FileExtension(filename))).Str())
  {
    match ExtractUpload(FileExtension(filename), image, document)
    case Failure(message) => FailedDocument(message)
    case Success(result) =>
      match GradeExtracted(result, subject, level, criteria, requirements, rubricType, grade)
      case Failure(message) => FailedDocument(message)
      case Success((text, grading)) => DocumentGrading("success", None, text, grading)
  }

  /** What a caller catching `grade_text`'s exception holds: the grading, or the text of
      the HTTP exception raised. */
  function Caught(r: Result<GradingPayload, HttpError>): (c: Result<GradingPayload, string>)
    ensures c.Success? <==> r.Success?
    ensures r.Success? ==> c.value == r.value
    ensures r.Failure? ==> c.error == HttpError(r.error.statusCode, r.error.detail).Str()
  {
    match r
    case Success(grading) => Success(grading)
    case Failure(e) => Failure(e.Str())
  }

  /** Without a session `db` keeps its default, the `Depends(get_db)` marker, which has
      neither `add` nor `rollback`. */
  const NoAdd := "'Depends' object has no attribute 'add'"
  const NoRollback := "'Depends' object has no attribute 'rollback'"

  /** `grade_text` called as `grade_document` calls it, without `db`. Grading runs as
      usual up to the save, where `db.add` raises if nothing failed before; whatever
      failed enters the handler, whose `db.rollback()` raises in turn, and that attribute
      error is what escapes. */
  function GradeTextWithoutSession(request: GradingRequest, completion: Result<string, string>,
                                   parse: string -> Result<GradingPayload, string>)
    : (r: Result<GradingPayload, string>)
    ensures GradeText(request, completion, parse, Some(NoAdd)).Failure?
    ensures r == Failure(NoRollback)
  {
    var attempt := GradeText(request, completion, parse, Some(NoAdd));
    Failure(NoRollback)
  }

  /** `grade_document` as written: it grades through `grade_text` without a session, so
      no upload is ever reported as graded. An upload that passes extraction and the form
      fields fails with the rollback's attribute error, whatever the model answers. */
  function GradeDocumentAsWritten(filename: string, image: Vision.Payload, document: Document.Payload,
                                  subject: Option<string>, level: Option<string>,
                                  criteria: FormJson<seq<GradingCriteria>>,
                                  requirements: FormJson<AssignmentRequirements>, rubricType: string,
                                  completion: Result<string, string>,
                                  parse: string -> Result<GradingPayload, string>)
    : (r: DocumentGrading)
    ensures r.status == "error"
    ensures var extracted := ExtractUpload(FileExtension(filename), image, document);
      extracted.Failure? ==> r == FailedDocument(extracted.error)
    ensures (ExtractUpload(FileExtension(filename), image, document).Success?
             && ReadForm(criteria, CriteriaFormat).Success?
             && ReadForm(requirements, RequirementsFormat).Success?) ==>
      r == FailedDocument(NoRollback)
  {
    GradeDocument(filename, image, document, subject, level, criteria, requirements, rubricType,
                  request => GradeTextWithoutSession(request, completion, parse))
  }

  /** `grade_document` as evidently intended: `grade_text` runs with a session
      (`saveError`: what saving raised, if anything), and an upload that passes
      extraction and the form fields reports the grading of its extracted text, or the
      text of the HTTP exception grading raised. */
  function GradeDocumentIntended(filename: string, image: Vision.Payload, document: Document.Payload,
                                 subject: Option<string>, level: Option<string>,
                                 criteria: FormJson<seq<GradingCriteria>>,
                                 requirements: FormJson<AssignmentRequirements>, rubricType: string,
                                 completion: Result<string, string>,
                                 parse: string -> Result<GradingPayload, string>,
                                 saveError: Option<string>)
    : (r: DocumentGrading)
    ensures var extracted := ExtractUpload(FileExtension(filename), image, document);
      extracted.Failure? ==> r == FailedDocument(extracted.error)
    ensures var extracted := ExtractUpload(FileExtension(filename), image, document);
      var criteriaList := ReadForm(criteria, CriteriaFormat);
      var requirementsValue := ReadForm(requirements, RequirementsFormat);
      extracted.Success? && criteriaList.Success? && requirementsValue.Success? ==>
        var request := DocumentRequest(extracted.value.FullText().GetOr(""), subject, level,
                                       criteriaList.value.GetOr([]), requirementsValue.value, rubricType);
        var graded := GradeText(request, completion, parse, saveError);
        && (graded.Success? ==> r == DocumentGrading("success", None, request.text, graded.value))
        && (graded.Failure? ==> r == FailedDocument(graded.error.Str()))
  {
    GradeDocument(filename, image, document, subject, level, criteria, requirements, rubricType,
                  request => Caught(GradeText(request, completion, parse, saveError)))
  }

  /** An image upload whose text was read, with no form fields and a model call that
      raised: as written the upload fails with the rollback's attribute error, while with
      a session that saves it reports success carrying the model service's error grading. */
  lemma GradeDocumentDiscrepancy(filename: string, image: Vision.Payload, document: Document.Payload,
                                 subject: Option<string>, level: Option<string>, rubricType: string,
                                 message: string, parse: string -> Result<GradingPayload, string>)
    requires RouteOf(FileExtension(filename)) == ToImage && image.status != "error"
    ensures GradeDocumentAsWritten(filename, image, document, subject, level, Blank, Blank, rubricType,
                                   Failure(message), parse).error == Some(NoRollback)
    ensures GradeDocumentIntended(filename, image, document, subject, level, Blank, Blank, rubricType,
                                  Failure(message), parse, None).status == "success"
  {
    FailedCompletionReportedAsSuccess(filename, image, document, subject, level, rubricType, message, parse);
  }

  /** An unsupported upload reports "400: Unsupported file type: " and its extension. */
  lemma UnsupportedUpload(filename: string, image: Vision.Payload, document: Document.Payload,
                          subject: Option<string>, level: Option<string>,
                          criteria: FormJson<seq<GradingCriteria>>,
                          requirements: FormJson<AssignmentRequirements>, rubricType: string,
                          grade: GradingRequest -> Result<GradingPayload, string>)
    requires RouteOf(FileExtension(filename)) == Unsupported
    ensures var r := GradeDocument(filename, image, document, subject, level, criteria,
                                   requirements, rubricType, grade);
      r.status == "error" && r.error == Some("400: " + "Unsupported file type: " + FileExtension(filename))
  {
    UnsupportedText(FileExtension(filename));
  }

  lemma UnsupportedText(ext: string)
    ensures HttpError(400, UnsupportedDetail(ext)).Str() == "400: " + "Unsupported file type: " + ext
  {
    ClientAndServerErrorTexts(UnsupportedDetail(ext));
  }

  /** The extension is matched case-insensitively, and a name without a dot is taken
      whole as its extension: "scan.JPG" is an image and a file named just "pdf" a
      document. */
  lemma ExtensionExamples()
    ensures FileExtension("scan.JPG") == "jpg" && RouteOf(FileExtension("scan.JPG")) == ToImage
    ensures FileExtension("pdf") == "pdf" && RouteOf(FileExtension("pdf")) == ToDocument
  {
    var name := "scan.JPG";
    var ext := FileExtension(name);
    assert '.' in name by { assert name[4] == '.'; }
    assert |ext| == 3;
    assert name[5..] == "JPG";
    assert Lower("JPG") == "jpg";
    assert Lower("pdf") == "pdf";
  }

  /** Only the extractor the extension selects matters: what the other one would have
      returned never reaches the result. */
  lemma {:induction false} OtherExtractorIgnored(filename: string, image: Vision.Payload, image': Vision.Payload,
                              document: Document.Payload, document': Document.Payload,
                              subject: Option<string>, level: Option<string>,
                              criteria: FormJson<seq<GradingCriteria>>,
                              requirements: FormJson<AssignmentRequirements>, rubricType: string,
                              grade: GradingRequest -> Result<GradingPayload, string>)
    ensures RouteOf(FileExtension(filename)) == ToImage ==>
      GradeDocument(filename, image, document, subject, level, criteria, requirements, rubricType, grade)
      == GradeDocument(filename, image, document', subject, level, criteria, requirements, rubricType, grade)
    ensures RouteOf(FileExtension(filename)) == ToDocument ==>
      GradeDocument(filename, image, document, subject, level, criteria, requirements, rubricType, grade)
      == GradeDocument(filename, image', document, subject, level, criteria, requirements, rubricType, grade)
  {
  }

  /** A failed extraction is reported with the extractor's own message behind "400: ". */
  lemma ExtractionFailureReported(filename: string, image: Vision.Payload, document: Document.Payload,
                                  subject: Option<string>, level: Option<string>,
                                  criteria: FormJson<seq<GradingCriteria>>,
                                  requirements: FormJson<AssignmentRequirements>, rubricType: string,
                                  grade: GradingRequest -> Result<GradingPayload, string>)
    requires RouteOf(FileExtension(filename)) == ToDocument && document.Failed?
    ensures GradeDocument(filename, image, document, subject, level, criteria, requirements, rubricType, grade)
      == FailedDocument("400: " + document.error)
  {
    ClientAndServerErrorTexts(document.error);
  }

  /** Extracted text is graded even when it is empty: nothing between extraction and
      a grading stage that succeeds rejects it. */
  lemma EmptyTextGraded(filename: string, image: Vision.Payload, document: Document.Payload,
                        subject: Option<string>, level: Option<string>, rubricType: string,
                        grade: GradingRequest -> Result<GradingPayload, string>)
    requires RouteOf(FileExtension(filename)) == ToDocument
    requires document.Analyzed? && document.fullText == ""
    requires grade(DocumentRequest("", subject, level, [], None, rubricType)).Success?
    ensures GradeDocument(filename, image, document, subject, level, Blank, Blank, rubricType, grade)
      == DocumentGrading("success", None, "",
                         grade(DocumentRequest("", subject, level, [], None, rubricType)).value)
  {
  }

  /** With a session that saves, a failed model call does not fail the upload: the
      error grading of the model service passes through `grade_text` as a result, the
      upload reports success, and only the inner status says "error". */
  lemma FailedCompletionReportedAsSuccess(filename: string, image: Vision.Payload,
                                          document: Document.Payload, subject: Option<string>,
                                          level: Option<string>, rubricType: string,
                                          message: string,
                                          parse: string -> Result<GradingPayload, string>)
    requires RouteOf(FileExtension(filename)) == ToImage && image.status != "error"
    ensures var r := GradeDocumentIntended(filename, image, document, subject, level, Blank, Blank, rubricType,
                                           Failure(message), parse, None);
      && r.status == "success" && r.error.None?
      && r.gradingResult.status == Present("error") && r.gradingResult.error == Present(message)
  {
    var request := DocumentRequest(image.fullText, subject, level, [], None, rubricType);
    FailedCompletionGradesZero(request, message, parse);
  }
}
