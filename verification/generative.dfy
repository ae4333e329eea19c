/** The generative-model service: the payloads it falls back to when a call fails, and
    the parts of its prompts that depend on the caller's arguments. The model call itself
    is an input: `Success(content)` when it answered, `Failure(message)` when it raised. */
module Generative {
  import opened Wrappers
  import opened JsonValues

  /** The `language_quality` object: four fixed keys. */
  datatype LanguageQuality = LanguageQuality(
    grammar: string,
    vocabulary: string,
    style: string,
    comments: string)

  /** One entry of `grading_results`: the criterion it names, its score, and every other
      key of the entry (the feedback among them), carried along untouched. */
  datatype GradeEntry = GradeEntry(criterion: string, score: real, others: seq<(string, Json)>)

  /** A parsed grading reply. `overall_score` and `grading_results` are read with `[...]`
      further on, so their absence is kept visible; `status` and `error` are present in
      the fallback, usually in the model's own reply, and missing from the endpoint's
      own failure body. */
  datatype GradingPayload = GradingPayload(
    status: Field<string>,
    error: Field<string>,
    overallScore: Option<real>,
    gradingResults: Option<seq<GradeEntry>>,
    detailedFeedback: string,
    improvementSuggestions: seq<string>,
    languageQuality: LanguageQuality,
    strengths: seq<string>,
    weaknesses: seq<string>)

  /** What a service method returns: the model's message content, still to be parsed, or
      the serialised fallback payload built from the exception. */
  datatype Reply<T> = Content(text: string) | Fallback(payload: T)

  const ErrorOccurred := "Error occurred"

  /** The grading body every failure reports: score 0, no per-criterion results, no
      feedback, suggestions, strengths or weaknesses, "Error occurred" for grammar,
      vocabulary and style, and the message as the comments. It has no `status` or
      `error` key of its own. */
  function FailedGrading(message: string): (p: GradingPayload)
    ensures p.status.Absent? && p.error.Absent?
    ensures p.overallScore == Some(0.0) && p.gradingResults == Some([])
    ensures p.detailedFeedback == "" && p.improvementSuggestions == []
    ensures p.strengths == [] && p.weaknesses == []
    ensures p.languageQuality.grammar == ErrorOccurred
    ensures p.languageQuality.vocabulary == ErrorOccurred
    ensures p.languageQuality.style == ErrorOccurred
    ensures p.languageQuality.comments == message
  {
    GradingPayload(Absent, Absent, Some(0.0), Some([]), "", [],
                   LanguageQuality(ErrorOccurred, ErrorOccurred, ErrorOccurred, message), [], [])
  }

  /** The fallback of `get_completion` and `analyze_text`: the failure body with status
      "error" and the message as `error`. */
  function ErrorGrading(message: string): (p: GradingPayload)
    ensures p.status == Present("error") && p.error == Present(message)
    ensures p.(status := Absent, error := Absent) == FailedGrading(message)
  {
    FailedGrading(message).(status := Present("error"), error := Present(message))
  }

  /** `get_completion`: the model's content, or the error grading when the call raised. */
  function GetCompletion(call: Result<string, string>): (r: Reply<GradingPayload>)
    ensures call.Success? ==> r == Content(call.value)
    ensures call.Failure? ==> r.Fallback? && r.payload.status == Present("error")
    ensures call.Failure? ==> r.payload.languageQuality.comments == call.error
    ensures call.Failure? ==> r.payload.error == Present(call.error)
    ensures call.Failure? ==> r.payload.overallScore == Some(0.0)
    ensures call.Failure? ==> r.payload.gradingResults == Some([])
  {
    match call
    case Success(content) => Content(content)
    case Failure(message) => Fallback(ErrorGrading(message))
  }

  /** `analyze_text`: the same reply, and on failure exactly the same fallback shape, as
      `get_completion`. */
  function AnalyzeText(call: Result<string, string>): (r: Reply<GradingPayload>)
    ensures r == GetCompletion(call)
  {
    match call
    case Success(content) => Content(content)
    case Failure(message) => Fallback(ErrorGrading(message))
  }

  /** `json.loads` of what a service returned: the content goes through the (external)
      parser, while a serialised fallback always reads back as itself. */
  function Load<T>(reply: Reply<T>, parse: string -> Result<T, string>): (r: Result<T, string>)
    ensures reply.Fallback? ==> r == Success(reply.payload)
    ensures reply.Content? ==> r == parse(reply.text)
  {
    match reply
    case Content(text) => parse(text)
    case Fallback(p) => Success(p)
  }

  /** The fallback review: quality 0, the message in the security analysis, every other
      section empty, keys in the order the prompt asks for. */
  function ReviewFallback(message: string): (review: seq<(string, Json)>)
    ensures UniqueKeys(review)
    ensures Get(review, "Overall Code Quality") == Some(JNum(0.0))
    ensures Get(review, "Security Analysis") == Some(JStr("Error: " + message))
    ensures Get(review, "Performance Analysis") == Some(JStr(""))
    ensures Get(review, "Best Practices") == Some(JObj([]))
    ensures Get(review, "Specific Issues Found") == Some(JArr([]))
    ensures Get(review, "Improvement Suggestions with Code Examples") == Some(JObj([]))
    ensures |review| == 6
  {
    var review :=
      [("Overall Code Quality", JNum(0.0)),
       ("Security Analysis", JStr("Error: " + message)),
       ("Performance Analysis", JStr("")),
       ("Best Practices", JObj([])),
       ("Specific Issues Found", JArr([])),
       ("Improvement Suggestions with Code Examples", JObj([]))];
    GetAt(review, 0); GetAt(review, 1); GetAt(review, 2);
    GetAt(review, 3); GetAt(review, 4); GetAt(review, 5);
    review
  }

  /** `review_code`: the model's content, or the fallback review when the call raised. */
  function ReviewCode(call: Result<string, string>): (r: Reply<Json>)
    ensures call.Success? ==> r == Content(call.value)
    ensures call.Failure? ==> r == Fallback(JObj(ReviewFallback(call.error)))
  {
    match call
    case Success(content) => Content(content)
    case Failure(message) => Fallback(JObj(ReviewFallback(message)))
  }

  /** The fallback classification: language "unknown", confidence 0, no candidates,
      `features` explicitly null, and the message as `error`. */
  function ClassifyFallback(message: string): (c: seq<(string, Json)>)
    ensures UniqueKeys(c)
    ensures Get(c, "primary_language") == Some(JStr("unknown"))
    ensures Get(c, "confidence_score") == Some(JNum(0.0))
    ensures Get(c, "possible_languages") == Some(JArr([]))
    ensures Get(c, "features") == Some(JNull)
    ensures Get(c, "error") == Some(JStr(message))
    ensures |c| == 5
  {
    var c :=
      [("primary_language", JStr("unknown")),
       ("confidence_score", JNum(0.0)),
       ("possible_languages", JArr([])),
       ("features", JNull),
       ("error", JStr(message))];
    GetAt(c, 0); GetAt(c, 1); GetAt(c, 2); GetAt(c, 3); GetAt(c, 4);
    c
  }

  /** `classify_code`: the model's content, or the fallback classification. */
  function ClassifyCode(call: Result<string, string>): (r: Reply<Json>)
    ensures call.Success? ==> r == Content(call.value)
    ensures call.Failure? ==> r == Fallback(JObj(ClassifyFallback(call.error)))
  {
    match call
    case Success(content) => Content(content)
    case Failure(message) => Fallback(JObj(ClassifyFallback(message)))
  }

  const Indent := "            "
  const NotProvided := "Not provided"

  /** A prompt slot filled from an optional argument: Python's `x if x else 'Not provided'`
      treats a missing value and an empty one alike. */
  function OrNotProvided(x: Option<string>): (s: string)
    ensures x.None? || x.value == "" ==> s == NotProvided
    ensures x.Some? && x.value != "" ==> s == x.value
  {
    if x.Some? && x.value != "" then x.value else NotProvided
  }

  /** The user prompt of `review_code`. `showList` is Python's rendering of a list. */
  function ReviewPrompt(code: string, language: string, assignmentPrompt: Option<string>,
                        requirements: Option<seq<string>>, showList: seq<string> -> string): string
  {
    var reqText := if requirements.Some? && |requirements.value| > 0
                   then showList(requirements.value) else NotProvided;
    ReviewCodeBlock(code, language) + ReviewSlots(OrNotProvided(assignmentPrompt), reqText)
  }

  /** The review prompt up to its two slots. */
  function ReviewCodeBlock(code: string, language: string): string {
    "Review this " + language + " code:\n\n" +
    Indent + "```\n" + Indent + code + "\n" + Indent + "```\n\n" + Indent
  }

  /** The assignment-prompt and requirements slots that close the review prompt. */
  function ReviewSlots(promptText: string, reqText: string): string {
    "Assignment Prompt: " + promptText + "\n" + Indent + "Requirements: " + reqText
  }

  /** A missing or empty assignment prompt and a missing or empty requirements list both
      read "Not provided"; a given one is spelled out. */
  lemma ReviewPromptSlots(code: string, language: string, assignmentPrompt: Option<string>,
                          requirements: Option<seq<string>>, showList: seq<string> -> string)
    ensures var p := ReviewPrompt(code, language, assignmentPrompt, requirements, showList);
      var promptText := if assignmentPrompt.None? || assignmentPrompt.value == "" then NotProvided
                        else assignmentPrompt.value;
      var reqText := if requirements.None? || |requirements.value| == 0 then NotProvided
                     else showList(requirements.value);
      var tail := "Assignment Prompt: " + promptText + "\n" + Indent + "Requirements: " + reqText;
      |tail| <= |p| && p[|p| - |tail|..] == tail
  {
    var reqText := if requirements.Some? && |requirements.value| > 0
                   then showList(requirements.value) else NotProvided;
    EndsWith(ReviewCodeBlock(code, language), ReviewSlots(OrNotProvided(assignmentPrompt), reqText));
  }

  /** The end of `a + b` is `b`. */
  lemma EndsWith(a: string, b: string)
    ensures |b| <= |a + b| && (a + b)[|a + b| - |b|..] == b
  {
  }

  const FeatureBlock :=
    "Also analyze:\n" +
    Indent + "- Syntax elements used\n" +
    Indent + "- Programming paradigms present\n" +
    Indent + "- Language version hints\n" +
    Indent + "- Frameworks and libraries used\n" +
    Indent + "- Special language features"

  /** The part of the `classify_code` prompt that does not depend on the flags. */
  function ClassifyPromptHead(code: string): string {
    "Analyze this code snippet:\n\n" +
    Indent + "```\n" + Indent + code + "\n" + Indent + "```\n\n" +
    Indent + "Identify:\n" +
    Indent + "1. Primary programming language\n" +
    Indent + "2. Confidence score (0-1) for the identification\n" +
    Indent + "3. Other possible languages with their confidence scores\n\n" +
    Indent
  }

  /** The user prompt of `classify_code`: the feature block is appended exactly when
      `includeFeatures` is set; `includeFrameworks` changes nothing. */
  function ClassifyPrompt(code: string, includeFeatures: bool, includeFrameworks: bool): (p: string)
    ensures includeFeatures ==> p == ClassifyPromptHead(code) + FeatureBlock
    ensures !includeFeatures ==> p == ClassifyPromptHead(code)
  {
    ClassifyPromptHead(code) + (if includeFeatures then FeatureBlock else "")
  }

  /** The frameworks flag never changes the prompt. */
  lemma ClassifyPromptIgnoresFrameworks(code: string, includeFeatures: bool, a: bool, b: bool)
    ensures ClassifyPrompt(code, includeFeatures, a) == ClassifyPrompt(code, includeFeatures, b)
  {
  }
}
