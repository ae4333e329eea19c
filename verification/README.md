# Grading backend core, modelled in Dafny

This project models the deterministic core of a FastAPI backend for grading work. The
backend grades essays against a weighted rubric, extracts text from uploaded images and
documents, and reviews source code. It wraps three kinds of external output: a
generative model, an OCR service and a document-analysis service. Its own logic is the
layer that turns that output into API responses. The model covers that layer:

- **Score normalisation and the weighted overall score** of `grade_text` (`Scoring`,
  `ScoringBounds`). A raw score in [0, 1] is scaled into the criterion's integer range
  with truncation toward zero. Any other raw score is truncated and clamped. The overall
  score is the weighted sum over the total declared weight.
- **Upload dispatch** of `grade_document` (`GradingEndpoint`). This covers the file
  extension, the extractor it selects, the extraction check, the mapping of the Swagger
  placeholder `"string"`, and the failure body.
- **URL and MIME dispatch** of the analysis endpoints (`AnalysisEndpoint`). This covers
  `perform_ocr`, `analyze_image` with its empty-text guard, `extract_text` and
  `analyze_document`.
- **Result assembly** of `review_code` (`CodeReviewEndpoint`). This covers the
  order-preserving category filter over the review, the defaults, and the error response.
- **Result shaping of the two extraction services** (`Vision`, `Document`). Pages of
  lines become line records, page records, the joined full text and metadata.
- **The generative service's fallback payloads and prompt fragments** (`Generative`).
- **The request and response value types and their defaults** (`Schemas`).

Everything the backend cannot compute by itself becomes an input of the model:

- Each external call is a `Result`: the model's message content, or the text of the
  exception it raised.
- `json.loads` and Python's string-to-float parser are function parameters.
- The MIME type guessed from a URL is an `Option<string>`.
- Each extractor's result is a payload value.
- The grading stage that a document upload hands its request to is a function parameter.
  Its failure is the text of the exception it raised.
- The name of the URL type, as `os.fspath` reports it, is a parameter.

Helper modules:

- `Wrappers`: `Option`, `Result` and `Field`. A `Field` is an attribute or dictionary key
  that is absent, `None`, or present.
- `Text`: `"\n".join`, `split`, ASCII `lower()` and integer printing.
- `Seqs`: flattening, sums and real-number inequalities.
- `JsonValues`: parsed JSON whose objects keep their keys in document order.
- `Http`: `HTTPException` and its `str()`, which is `"<status_code>: <detail>"`.

Where the code and the repository's written description of it disagree, the model
follows the code:

- A declared criterion with no graded entry still counts in the denominator of the
  overall score, so it pulls the score toward 0.
- `grade_document` does not reject an empty extracted text.
- Scores are truncated toward zero, not floored.
- `analyze_document` calls a method the generative service does not have (see Findings).
- `extract_text` hands the URL object, not its string, to `guess_type` (see Findings).
- `grade_document` calls `grade_text` without a database session (see Findings).
- An `HTTPException(400)` raised inside the analysis endpoints' `try` is caught by their
  `except Exception`. The client therefore sees a 500 whose detail is `"400: <detail>"`.

## Model

| member | source | states |
|---|---|---|
| Schemas.NewGradingCriteria | backend/app/schemas/grading.py:5-10 | category, weight and description are kept as given; an omitted lower bound is 0 and an omitted upper bound 100; nothing ties the bounds together or constrains the weight |
| Schemas.NoRequirements | backend/app/schemas/grading.py:12-16 | every assignment-requirements field is optional and defaults to None |
| Schemas.NewGradingRequest | backend/app/schemas/grading.py:18-24 | only the text is required; subject, level, criteria and requirements default to None; an omitted rubric type is "academic" while an explicit None stays None |
| Schemas.NewGradingResponse | backend/app/schemas/grading.py:35-47 | an omitted status is "success" and an omitted error is None; every other field is kept |
| Generative.FailedGrading | backend/app/services/azure_openai.py:54-70 | the failure grading: score 0, no results, suggestions, strengths or weaknesses, empty feedback, "Error occurred" for grammar, vocabulary and style, and the message as comments |
| Generative.ErrorGrading | backend/app/services/azure_openai.py:54-70 | the fallback adds status "error" and the message as error to that failure grading, and nothing else |
| Generative.GetCompletion | backend/app/services/azure_openai.py:43-70 | the model's content when the call answered; otherwise the error grading with status "error", the message as error and comments, score 0 and no results |
| Generative.AnalyzeText | backend/app/services/azure_openai.py:72-101 | `analyze_text` replies, and falls back, exactly as `get_completion` does |
| Generative.Load | backend/app/api/endpoints/grading.py:65-66 | a serialised fallback reads back as itself; model content goes through the parser |
| Generative.ReviewFallback | backend/app/services/azure_openai.py:153-161 | six distinct keys: quality 0, "Error: " plus the message as the security analysis, an empty performance analysis, empty best practices, issues and suggestions |
| Generative.ReviewCode | backend/app/services/azure_openai.py:111-161 | the model's content, or the fallback review built from the exception text |
| Generative.ClassifyFallback | backend/app/services/azure_openai.py:227-234 | five distinct keys: language "unknown", confidence 0.0, no candidates, features explicitly null, the message as error |
| Generative.ClassifyCode | backend/app/services/azure_openai.py:170-234 | the model's content, or the fallback classification built from the exception text |
| Generative.OrNotProvided | backend/app/services/azure_openai.py:137-138 | a missing and an empty prompt slot both read "Not provided"; a non-empty one is used as given |
| Generative.ReviewPromptSlots | backend/app/services/azure_openai.py:131-138 | the review prompt ends with the assignment-prompt slot, a newline and the requirements slot; each reads "Not provided" when its value is missing or empty; a given prompt is spelled out and a non-empty requirements list is printed as Python renders it |
| Generative.ClassifyPrompt | backend/app/services/azure_openai.py:195-211 | the "Also analyze" block is appended exactly when features are requested |
| Generative.ClassifyPromptIgnoresFrameworks | backend/app/services/azure_openai.py:163-211 | the frameworks flag never changes the prompt |
| Scoring.TruncToZero | backend/app/api/endpoints/grading.py:77-81 | Python's `int()`: the integer within distance 1 of its argument, on the side of 0 |
| Scoring.NormalizeFraction | backend/app/api/endpoints/grading.py:77-78 | a raw score in [0, 1] becomes min + raw * (max - min), truncated toward zero |
| Scoring.NormalizeOutside | backend/app/api/endpoints/grading.py:79-81 | any other raw score becomes its truncation when that lies in the range, and otherwise the nearer bound |
| Scoring.NormalizeScoreInRange | backend/app/api/endpoints/grading.py:77-81 | with ordered bounds every normalised score lies within them |
| Scoring.NormalizeScoreEndpoints | backend/app/api/endpoints/grading.py:77-78 | raw 0 gives exactly the lower bound and raw 1 exactly the upper bound, whatever the bounds |
| Scoring.NormalizeKeepsInRangeIntegers | backend/app/api/endpoints/grading.py:79-81 | an integer score above 1 that already lies in the range is kept |
| Scoring.NormalizeReversedRange | backend/app/api/endpoints/grading.py:79-81 | with reversed bounds a raw score outside [0, 1] always gives the lower bound |
| Scoring.NormalizeNotMonotone | backend/app/api/endpoints/grading.py:77-81 | on 0..100, raw 1.0 gives 100 while the larger raw 1.5 gives 1 |
| Scoring.NormalizeNotIdempotent | backend/app/api/endpoints/grading.py:77-81 | on 0..2, raw 0.5 gives 1, and 1 read again as a raw score gives 2 |
| Scoring.Lookup | backend/app/api/endpoints/grading.py:70-73 | the criterion a name selects is the last one declared under that exact name; there is none exactly when no criterion has that name |
| Scoring.ApplyCriteria | backend/app/api/endpoints/grading.py:68-90 | without criteria the reply passes through; otherwise entries keep their order, names and other keys, unmatched entries are unchanged, matched scores are normalised, the overall score is the weighted average of the new entries, and nothing else changes; a reply without results is a key error |
| Scoring.OverallIsWeightedAverage | backend/app/api/endpoints/grading.py:84-90 | with a positive total weight, the overall score times the total weight is the weighted sum over matched entries |
| Scoring.UnmatchedEntryIgnored | backend/app/api/endpoints/grading.py:85-89 | an entry naming no declared criterion adds nothing to the weighted sum |
| Scoring.UngradedCriterionDilutes | backend/app/api/endpoints/grading.py:84-90 | a criterion no entry names leaves the weighted sum alone but adds its weight to the total |
| Scoring.WeightedAverageExample | backend/app/api/endpoints/grading.py:69-90 | weights 2 and 3 with scores 5 and 9 give the overall score 7.4 and keep the scores |
| Scoring.FractionExample | backend/app/api/endpoints/grading.py:75-90 | raw 0.5 on 0..10 becomes 5 and the overall score 5.0 |
| Scoring.UngradedExample | backend/app/api/endpoints/grading.py:84-90 | two equal criteria with only one graded at full marks give half marks overall |
| Scoring.DuplicateEntriesExample | backend/app/api/endpoints/grading.py:85-90 | an entry repeated in the reply counts twice, so the overall score 20.0 leaves the range 0..10 |
| Scoring.DuplicateCriteriaExample | backend/app/api/endpoints/grading.py:70-90 | a category declared twice takes its range from the later declaration but counts both weights |
| Scoring.CriteriaText | backend/app/api/endpoints/grading.py:37-41 | no criteria give "Use default academic criteria"; otherwise one rubric line per criterion, in order, joined with newlines |
| Scoring.CriteriaTextAppend | backend/app/api/endpoints/grading.py:37-41 | a criterion added at the end adds its line after a newline |
| ScoringBounds.MatchedWeightAtMostTotal | backend/app/api/endpoints/grading.py:84-89 | with distinct entries and non-negative weights, the weight the entries pick up is at most the total declared weight |
| ScoringBounds.WeightedSumBounds | backend/app/api/endpoints/grading.py:85-89 | with matched scores in [0, hi], the weighted sum lies between 0 and hi times the matched weight |
| ScoringBounds.OverallWithinBound | backend/app/api/endpoints/grading.py:84-90 | with distinct entries, non-negative weights and matched scores in [0, hi], the overall score lies in [0, hi] |
| ScoringBounds.OverallBounded | backend/app/api/endpoints/grading.py:68-90 | after score enforcement, distinct entries, non-negative weights and every range inside [0, hi] keep the overall score in [0, hi] |
| Vision.LineConfidence | backend/app/services/azure_vision.py:46-50 | an `appearance` attribute decides the confidence alone, and a null appearance gives None; only a line without one uses its own confidence |
| Vision.AppearanceShadowsConfidence | backend/app/services/azure_vision.py:47-50 | with an appearance attribute the line's own confidence is never read |
| Vision.Record | backend/app/services/azure_vision.py:52-58 | a line record carries the line's text, confidence, bounding box and language (None when missing) and the 1-based page number |
| Vision.PageLines | backend/app/services/azure_vision.py:44-60 | one record per line of the page, in order |
| Vision.Page | backend/app/services/azure_vision.py:63-67 | the page at index i is numbered i + 1 and its page text is its line texts joined with newlines |
| Vision.Pages | backend/app/services/azure_vision.py:43-67 | one page record per result page, in order |
| Vision.ConfidencesComplete | backend/app/services/azure_vision.py:69 | the kept confidences are exactly the confidences that are not None |
| Vision.Average | backend/app/services/azure_vision.py:70 | the average is None exactly when there are no values |
| Vision.AverageBounds | backend/app/services/azure_vision.py:70 | an average of values in [lo, hi] lies in [lo, hi] |
| Vision.FailurePayload | backend/app/services/azure_vision.py:85-104 | the failure shape: status "error", the message, no lines, empty text, page count 0, no pages and no metadata |
| Vision.ExtractText | backend/app/services/azure_vision.py:38-104 | an exception or a status other than succeeded gives the failure shape; success gives status "success", the pages, every line record in page order, the lines' texts joined with newlines, the page count, and metadata counting lines and pages and averaging the confidences |
| Vision.TextsOfAllLines | backend/app/services/azure_vision.py:59-61 | the line texts of all pages are each page's line texts, one page after another |
| Vision.FullTextJoinsPageTexts | backend/app/services/azure_vision.py:61-75 | when no page is blank, the full text is the page texts joined with newlines |
| Vision.BlankPageExample | backend/app/services/azure_vision.py:61-75 | a blank page between pages "a" and "b" gives the full text "a\nb", while the page texts joined read "a\n\nb" |
| Vision.LineCount | backend/app/services/azure_vision.py:43-81 | there is one record per recognised line, and the records of page i carry page number i + 1 |
| Vision.AverageConfidenceBounds | backend/app/services/azure_vision.py:69-70 | the average confidence is None exactly when no line has one; otherwise it lies within any bounds every confidence respects |
| Extraction.VisionFailureIsError | backend/app/services/azure_vision.py:95-104 | a vision failure reads as status "error", its message as error, and an empty full text |
| Document.Record | backend/app/services/azure_document.py:34-39 | a line record carries the content, the confidence and polygon (None when missing), and the page's own page number |
| Document.PageRecords | backend/app/services/azure_document.py:31-41 | one record per line of the page, in order |
| Document.AllPageRecords | backend/app/services/azure_document.py:31-41 | one list of records per page, in page order |
| Document.ResultMetadata | backend/app/services/azure_document.py:48-51 | the document type and languages when the result has them, None when not |
| Document.AnalyzeDocument | backend/app/services/azure_document.py:28-58 | an exception gives only status "error" and its text; success gives the per-page records, the lines' contents joined with newlines, the page count and the metadata |
| Document.RecordsFollowPages | backend/app/services/azure_document.py:31-41 | every line becomes exactly one record, and that record carries its line's text and its page's own number, whatever the page's position |
| GradingEndpoint.GradeText | backend/app/api/endpoints/grading.py:24-115 | a failed parse or criteria enforcement gives a 500 carrying that error's text; a missing `overall_score` or `grading_results` key gives a 500 reading the quoted key; a failed save gives a 500 carrying the save's error; success returns exactly the enforced reply |
| GradingEndpoint.FailedCompletionGradesZero | backend/app/api/endpoints/grading.py:64-111 | without criteria a failed model call is returned as a result, with inner status "error", the message, score 0 and no results |
| GradingEndpoint.FailedCompletionWithCriteria | backend/app/api/endpoints/grading.py:68-90 | with criteria a failed model call still succeeds, with overall score 0 |
| GradingEndpoint.FileExtension | backend/app/api/endpoints/grading.py:167 | the extension is the lower-cased text after the last dot, or the whole lower-cased name when there is no dot |
| GradingEndpoint.RouteOf | backend/app/api/endpoints/grading.py:170-186 | jpg, jpeg and png go to the image extractor; pdf, docx and doc go to the document extractor; anything else is unsupported |
| GradingEndpoint.ReadForm | backend/app/api/endpoints/grading.py:194-223 | a blank field gives nothing; a JSON decoding error gives a 400 with the field's prefix; any other rejection propagates |
| GradingEndpoint.Sanitize | backend/app/api/endpoints/grading.py:228-229 | the placeholder "string" reads as not given; anything else is kept |
| GradingEndpoint.DocumentRequest | backend/app/api/endpoints/grading.py:225-233 | the request carries the text, the criteria list and the requirements; subject and level are sanitised; a placeholder rubric type becomes "academic" |
| GradingEndpoint.FailedDocument | backend/app/api/endpoints/grading.py:250-269 | the failure body: status "error", the message as error and as comments, no extracted text, and the failure grading |
| GradingEndpoint.ExtractUpload | backend/app/api/endpoints/grading.py:167-192 | an unsupported extension or an extractor reporting "error" fails with the printed 400; otherwise the chosen extractor's result is kept |
| GradingEndpoint.GradeExtracted | backend/app/api/endpoints/grading.py:194-248 | form errors are reported in field order; otherwise the built request goes to the grading stage, and the extracted text is returned with its grading or the failure carries the text of what the stage raised |
| GradingEndpoint.GradeTextWithoutSession | backend/app/api/endpoints/grading.py:24-115 | called without a session, `grade_text` cannot succeed (its save at line 107 fails at the latest), and what escapes is the attribute error of `rollback` on the `Depends` marker |
| GradingEndpoint.GradeDocumentAsWritten | backend/app/api/endpoints/grading.py:165-269 | the status is always "error"; an extraction failure is reported as such, and every upload past extraction and the form fields fails with the `rollback` attribute error |
| GradingEndpoint.GradeDocumentIntended | backend/app/api/endpoints/grading.py:165-269 | extraction failures are reported as in the code; past extraction and the form fields, the extracted text (default "") is graded with a session and reported as success with its grading, or a grading failure is reported with "<status>: <detail>" |
| GradingEndpoint.GradeDocumentDiscrepancy | backend/app/api/endpoints/grading.py:236-241 | for an image upload whose text was read, with no form fields and a failed model call, the code as written reports the `rollback` attribute error while the intended endpoint reports success |
| GradingEndpoint.GradeDocument | backend/app/api/endpoints/grading.py:165-269 | the status is "success" or "error"; every error is the uniform failure body; an unsupported extension reports its 400 |
| GradingEndpoint.UnsupportedUpload | backend/app/api/endpoints/grading.py:182-186 | an unsupported upload reports "400: Unsupported file type: " followed by its extension |
| GradingEndpoint.UnsupportedText | backend/app/api/endpoints/grading.py:183-186 | the unsupported-type 400 prints as "400: Unsupported file type: " followed by the extension |
| GradingEndpoint.ExtensionExamples | backend/app/api/endpoints/grading.py:167-173 | "scan.JPG" routes to the image extractor, and a file named just "pdf" to the document extractor |
| GradingEndpoint.OtherExtractorIgnored | backend/app/api/endpoints/grading.py:169-181 | what the extractor not selected would return never changes the result |
| GradingEndpoint.ExtractionFailureReported | backend/app/api/endpoints/grading.py:188-192 | a failed document analysis is reported as "400: " followed by its message |
| GradingEndpoint.EmptyTextGraded | backend/app/api/endpoints/grading.py:226-248 | with a grading stage that succeeds, an empty extracted text is graded and reported as success |
| GradingEndpoint.FailedCompletionReportedAsSuccess | backend/app/api/endpoints/grading.py:236-248 | with `grade_text` given a session that saves, a failed model call still gives an upload reported as success, and only the inner grading says "error" |
| AnalysisEndpoint.AnalyzeDocumentRoute | backend/app/api/endpoints/analysis.py:206-213 | PDF and the two Word MIME types go to the document extractor; everything else, an unknown type included, goes to the image extractor |
| AnalysisEndpoint.ExtractTextRoute | backend/app/api/endpoints/analysis.py:176-181 | only PDF goes to the document extractor |
| AnalysisEndpoint.RoutesDifferOnWord | backend/app/api/endpoints/analysis.py:206-213 | the two dispatches disagree exactly on the Word MIME types |
| AnalysisEndpoint.CheckExtracted | backend/app/api/endpoints/analysis.py:215-216 | an extraction reporting "error" becomes a 500 reading "400: " plus its error, or a key error when it has none; any other result passes |
| AnalysisEndpoint.GuessType | backend/app/api/endpoints/analysis.py:174 | a string argument gets the guessed type; a URL object is rejected with the type error of `os.fspath` naming its type |
| AnalysisEndpoint.ExtractTextIntended | backend/app/api/endpoints/analysis.py:166-189 | with the type guessed from the URL's string, the chosen extractor's result is returned unchanged exactly when it does not report an error; failures are 500s |
| AnalysisEndpoint.ExtractTextAsWritten | backend/app/api/endpoints/analysis.py:166-189 | the URL reaches `guess_type` as a URL object, so the endpoint always fails with a 500 carrying the `os.fspath` type error; a string argument would give the intended result |
| AnalysisEndpoint.ExtractTextDiscrepancy | backend/app/api/endpoints/analysis.py:174 | for a URL whose extraction succeeds, the code as written fails with the type error while the intended endpoint returns the extractor's result |
| AnalysisEndpoint.ExtractTextFailureText | backend/app/api/endpoints/analysis.py:183-189 | a failed PDF analysis reaches the caller as a 500 reading "400: " plus the message |
| AnalysisEndpoint.OcrLines | backend/app/schemas/ocr.py:23-27 | each line record becomes one response line, in order, keeping text, confidence, bounding box and page |
| AnalysisEndpoint.PerformOcr | backend/app/api/endpoints/analysis.py:97-114 | the OCR result's status, full text and error, with each line record projected onto the response's four line fields (its language dropped), or, when extraction raised, status "error", no lines, empty text and the message |
| AnalysisEndpoint.PerformOcrOfFailure | backend/app/api/endpoints/analysis.py:105-114 | a vision failure passed through looks the same as a raised one |
| AnalysisEndpoint.AnalyzeImage | backend/app/api/endpoints/analysis.py:116-164 | it succeeds exactly when the OCR result is not an error and has text; an OCR error or empty text gives a 500 carrying the printed 400; success returns the OCR result, the language analysis, the model's analysis and the text |
| AnalysisEndpoint.AnalyzeImageGuardsFirst | backend/app/api/endpoints/analysis.py:126-134 | a rejected OCR result fails the same way whatever the language analysis and the model would return |
| AnalysisEndpoint.EmptyImageText | backend/app/api/endpoints/analysis.py:129-131 | empty text is reported as a 500 reading "400: No text was extracted from the image" |
| AnalysisEndpoint.GradingRequestFor | backend/app/api/endpoints/analysis.py:221-228 | the grading request carries the extracted text and the request's subject, level, criteria, requirements and rubric type |
| AnalysisEndpoint.AnalyzeDocumentAsWritten | backend/app/api/endpoints/analysis.py:191-246 | it never succeeds; once extraction passes, it always fails with the attribute error for `grade_text` |
| AnalysisEndpoint.AnalyzeDocumentIntended | backend/app/api/endpoints/analysis.py:205-242 | after a clean extraction, the text (default "") is graded and returned with the language analysis and the MIME type, and a grading failure becomes a 500; extraction errors behave as in the code |
| AnalysisEndpoint.AnalyzeDocumentDiscrepancy | backend/app/api/endpoints/analysis.py:233-242 | on an empty PDF graded by a working service, the code as written fails while the intended endpoint succeeds |
| CodeReviewEndpoint.FaultText | backend/app/api/endpoints/code_review.py:93-96 | the error text is the parser's message, or the quoted missing key, or the description of a validation error |
| CodeReviewEndpoint.ErrorResponse | backend/app/api/endpoints/code_review.py:93-107 | status "error", the message, score 0, no results or suggestions, and language "Unknown" with confidence 0 and no candidates or features |
| CodeReviewEndpoint.KeptKeys | backend/app/api/endpoints/code_review.py:42-49 | a key is kept exactly when the review has it and it is not one of the four summary keys |
| CodeReviewEndpoint.DetailsRoundTrip | backend/app/schemas/code_review.py:21-23 | a category's details read back as the string or object they came from, and the other way round |
| CodeReviewEndpoint.ReviewResults | backend/app/api/endpoints/code_review.py:42-49 | it succeeds exactly when every category's details are a string or an object; otherwise validation fails |
| CodeReviewEndpoint.ReviewResultsFollowReview | backend/app/api/endpoints/code_review.py:42-49 | the result categories are exactly the kept keys, in order, each paired with the value stored under it |
| CodeReviewEndpoint.ReviewResultsAppend | backend/app/api/endpoints/code_review.py:42-49 | the results of a concatenated review are the concatenated results |
| CodeReviewEndpoint.KeptKeysDistinct | backend/app/api/endpoints/code_review.py:47-48 | on a dictionary the kept keys are distinct |
| CodeReviewEndpoint.EachCategoryOnce | backend/app/api/endpoints/code_review.py:42-49 | every non-summary key of the review appears exactly once among the results |
| CodeReviewEndpoint.Number | backend/app/api/endpoints/code_review.py:55 | `float()` of a parsed value: numbers as themselves, booleans as 1 and 0, strings through the parser, anything else none |
| CodeReviewEndpoint.OverallScore | backend/app/api/endpoints/code_review.py:55 | the "Overall Code Quality" value as a float, 0 when missing, and a type error when it has no float |
| CodeReviewEndpoint.Parsed | backend/app/api/endpoints/code_review.py:25-39 | a parse failure becomes a fault carrying the parser's message |
| CodeReviewEndpoint.Index | backend/app/api/endpoints/code_review.py:35 | subscripting an object holding the key gives the stored value, and a success is always that value; a missing key is a key error; a non-object is a type error |
| CodeReviewEndpoint.Items | backend/app/api/endpoints/code_review.py:47 | only an object has items |
| CodeReviewEndpoint.Candidate | backend/app/api/endpoints/code_review.py:60-65 | the language is read before the score; a string language and a numeric score give the candidate with both copied; any other present values fail validation |
| CodeReviewEndpoint.Candidates | backend/app/api/endpoints/code_review.py:60-65 | the list keeps count and order, and succeeds exactly when every candidate does |
| CodeReviewEndpoint.PossibleLanguages | backend/app/api/endpoints/code_review.py:64 | a list gives its candidates; an empty string or empty object gives none; anything else fails |
| CodeReviewEndpoint.Features | backend/app/schemas/code_review.py:19 | the features are accepted exactly when they form an object of string lists, which is kept in order |
| CodeReviewEndpoint.Detect | backend/app/api/endpoints/code_review.py:57-67 | a missing confidence is a key error; a string name with a numeric confidence, valid candidates (default none) and valid features (default empty) succeeds, and a success copies exactly these; null features fail |
| CodeReviewEndpoint.Suggestions | backend/app/api/endpoints/code_review.py:68 | a present list of strings is returned as it is, and a missing key gives none; anything else fails validation |
| CodeReviewEndpoint.Evaluate | backend/app/api/endpoints/code_review.py:23-69 | faults arrive in source order: classification parse, subscript, missing primary language, then review parse; two object replies whose results, score, language and suggestions are all valid succeed; a success has status "success", no error, and the results, score, language and suggestions read from the two replies |
| CodeReviewEndpoint.Review | backend/app/api/endpoints/code_review.py:16-107 | when evaluation succeeds the evaluated response is returned unchanged, with status "success" and no error; otherwise the error response carrying the fault's text |
| CodeReviewEndpoint.ClassifyFailureGivesError | backend/app/api/endpoints/code_review.py:25-67 | a failed classification call always ends in an error response, because its null features fail validation |
| CodeReviewEndpoint.ReviewFailureReportedAsSuccess | backend/app/api/endpoints/code_review.py:33-69 | a failed review call with a usable classification gives a "success" response with score 0, the fallback's four categories and no suggestions |
| CodeReviewEndpoint.FallbackReview | backend/app/api/endpoints/code_review.py:42-68 | the fallback review yields its four categories, score 0 and no suggestions |
| CodeReviewEndpoint.ReviewWaitsForClassification | backend/app/api/endpoints/code_review.py:25-39 | until the classification names a primary language, the review reply plays no part |

## Left out

- I/O and external services are left out: the database, authentication, temporary
  upload files, the OCR polling loop, the SDK and model clients, the language-analysis
  service, and logging. Their results are inputs.
- IEEE floating point is not modelled. Scores, weights and confidences are
  mathematical reals.
- Python's rendering of floats and lists inside prompts is a function parameter.
- `lower()` is modelled on ASCII letters only.
- JSON decoding is a parameter, and so is Python's string-to-float conversion.
- Pydantic's error texts are a `describe` parameter. Its lax coercions are not
  modelled: a float field is taken to accept what `float()` accepts.
- The database save in `review_code` is left out; its failure is swallowed, so the
  response does not depend on it. In `grade_text` the save is an optional error.
- The language analysis computed at the start of `grade_text` is never used, so it is
  left out.
- `GradingEndpoint.GradeDocument` takes the grading stage as a parameter. The code as
  written passes `grade_text` without a session (`GradeDocumentAsWritten`); the
  intended endpoint passes it one (`GradeDocumentIntended`). See Findings.
- The `analyze_essay`, `get_essay` and `delete_essay` endpoints are left out, and so are
  list, get and delete for grades and reviews: they are persistence glue.
- The OCR module, the essay and classification endpoints, the ORM models, the
  configuration, the routing and the frontend are left out.
- Of backend/app/schemas/ocr.py, `TextLine` and `OCRResponse` are modelled (`OcrLine`,
  `OcrResponse`). `DocumentResponse` is not used by any endpoint. The validation of
  `analyze_document`'s return value against `AnalysisResponse` is not modelled.
- `JsonValues.Get` finds the first match for a key. This equals a dictionary lookup
  because a dictionary's keys are unique.
- GradingEndpoint.GradeText: a grading reply is taken to carry the feedback,
  suggestions, language-quality, strengths and weaknesses keys the database row reads,
  and every result entry a criterion name and a numeric score. A reply missing one of
  these would raise a key or type error, and the model does not represent that.
- GradingEndpoint.GradeDocument: the contract states only the uniform failure shape
  and the unsupported-extension case. The other paths are stated by
  `GradingEndpoint.ExtractUpload` and `GradingEndpoint.GradeExtracted`.
- AnalysisEndpoint.AnalyzeImage: an OCR error without an `error` key is stated only as
  a 500. The exact key-error text is not stated.
- CodeReviewEndpoint.Evaluate: for faults after the review reply parses, the contract
  states only that evaluation fails, not which fault comes first.
- Vision.Confidences: its own contract gives only a length bound.
  `Vision.ConfidencesComplete` states which values it keeps.

## Findings

| source | as written | input that shows it | evidently intended | confidence | as-written member | corrected member |
|---|---|---|---|---|---|---|
| backend/app/api/endpoints/analysis.py:234 | `analyze_document` calls `openai_service.grade_text`, but the generative service has no such method, so every request that gets past extraction fails with a 500 attribute error | a PDF URL whose analysis succeeds (even with no lines) | grade the extracted text with the grading stage and return the grading | not executed | AnalysisEndpoint.AnalyzeDocumentAsWritten (see AnalysisEndpoint.AnalyzeDocumentDiscrepancy) | AnalysisEndpoint.AnalyzeDocumentIntended |
| backend/app/api/endpoints/analysis.py:174 | `extract_text` passes `request.document_url`, a pydantic URL object, to `mimetypes.guess_type`, which accepts only strings and path-like objects, so every request fails with a 500 type error | any URL, for instance a PDF URL whose analysis succeeds | guess the type from `str(request.document_url)`, as line 202 does | not executed | AnalysisEndpoint.ExtractTextAsWritten (see AnalysisEndpoint.ExtractTextDiscrepancy) | AnalysisEndpoint.ExtractTextIntended |
| backend/app/api/endpoints/grading.py:236-241 | `grade_document` calls `grade_text` without `db`, so `db` is the `Depends` marker: the save's `db.add`, or the handler's `db.rollback`, raises an attribute error that escapes, and every upload past extraction reports "error" | an image upload whose text was read, with no form fields | pass the request's database session to `grade_text` | not executed | GradingEndpoint.GradeDocumentAsWritten (see GradingEndpoint.GradeDocumentDiscrepancy) | GradingEndpoint.GradeDocumentIntended |
