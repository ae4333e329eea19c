/** The code-review endpoint (`review_code`): classify the submitted code, review it with
    the primary language the classification names, and turn both parsed replies into a
    `CodeReviewResponse`. Whatever goes wrong on the way is caught and reported as an
    error response instead. The two model calls, `json.loads` and the number parser are
    inputs; saving the review is left out because its failure is swallowed. */
module CodeReviewEndpoint {
  import opened Wrappers
  import opened JsonValues
  import opened Generative
  import opened Http

  /** Why the endpoint stopped: the parser rejected a reply, a key read with `[...]` was
      missing, or a value had the wrong shape (a type or validation error, described by
      the place it happened). */
  datatype Fault = ParseFailed(message: string) | KeyMissing(key: string) | Invalid(place: string)

  /** `str(e)` of the caught exception. The texts of type and validation errors are not
      modelled; `describe` supplies them. */
  function FaultText(f: Fault, describe: string -> string): (s: string)
    ensures f.ParseFailed? ==> s == f.message
    ensures f.KeyMissing? ==> s == KeyErrorText(f.key)
    ensures f.Invalid? ==> s == describe(f.place)
  {
    match f
    case ParseFailed(message) => message
    case KeyMissing(key) => KeyErrorText(key)
    case Invalid(place) => describe(place)
  }

  datatype PossibleLanguage = PossibleLanguage(language: string, score: real)

  datatype DetectedLanguage = DetectedLanguage(
    name: string,
    confidence: real,
    possibleLanguages: seq<PossibleLanguage>,
    features: seq<(string, seq<string>)>)

  /** The details of a review category: a string or an object (`Union[str, Dict]`). */
  datatype Details = Text(text: string) | Section(members: seq<(string, Json)>)

  datatype ReviewResult = ReviewResult(category: string, details: Details)

  datatype CodeReviewResponse = CodeReviewResponse(
    status: string,
    error: Option<string>,
    overallScore: real,
    reviewResults: seq<ReviewResult>,
    detectedLanguage: DetectedLanguage,
    improvementSuggestions: seq<string>)

  /** The response every caught exception becomes: status "error", the exception's text,
      score 0, no results, language "Unknown" with confidence 0, no candidates, features
      or suggestions. */
  function ErrorResponse(message: string): (r: CodeReviewResponse)
    ensures r.status == "error" && r.error == Some(message)
    ensures r.overallScore == 0.0 && r.reviewResults == [] && r.improvementSuggestions == []
    ensures r.detectedLanguage == DetectedLanguage("Unknown", 0.0, [], [])
  {
    CodeReviewResponse("error", Some(message), 0.0, [], DetectedLanguage("Unknown", 0.0, [], []), [])
  }

  /** The keys of the review that are not categories. */
  predicate IsSummaryKey(key: string) {
    key == "Overall Code Quality" || key == "Specific Issues Found" || key == "error" || key == "status"
  }

  /** The category names the review contributes: its keys, in order, without the
      summary keys. */
  function KeptKeys(members: seq<(string, Json)>): (keys: seq<string>)
    ensures |keys| <= |members|
    ensures forall k :: k in keys <==>
      (exists i :: 0 <= i < |members| && members[i].0 == k) && !IsSummaryKey(k)
    decreases |members|
  {
    if |members| == 0 then []
    else if IsSummaryKey(members[0].0) then KeptKeys(members[1..])
    else [members[0].0] + KeptKeys(members[1..])
  }

  /** The values `ReviewResult` accepts as details. */
  predicate Describable(v: Json) {
    v.JStr? || v.JObj?
  }

  function DetailsOf(v: Json): (d: Details)
    requires Describable(v)
    ensures v.JStr? ==> d == Text(v.s)
    ensures v.JObj? ==> d == Section(v.members)
  {
    if v.JStr? then Text(v.s) else Section(v.members)
  }

  /** The JSON a category's details came from. */
  function AsJson(d: Details): (v: Json)
    ensures Describable(v)
  {
    match d
    case Text(s) => JStr(s)
    case Section(m) => JObj(m)
  }

  /** Reading details back gives the JSON they came from, and the other way round. */
  lemma DetailsRoundTrip(v: Json, d: Details)
    ensures Describable(v) ==> AsJson(DetailsOf(v)) == v
    ensures DetailsOf(AsJson(d)) == d
  {
  }

  function Categories(results: seq<ReviewResult>): (names: seq<string>)
    ensures |names| == |results|
    ensures forall j :: 0 <= j < |results| ==> names[j] == results[j].category
  {
    seq(|results|, j requires 0 <= j < |results| => results[j].category)
  }

  /** Every category of the review has details `ReviewResult` accepts. */
  predicate AllDescribable(members: seq<(string, Json)>) {
    forall i :: 0 <= i < |members| && !IsSummaryKey(members[i].0) ==> Describable(members[i].1)
  }

  lemma DescribableTail(members: seq<(string, Json)>)
    requires |members| > 0 && AllDescribable(members)
    ensures AllDescribable(members[1..])
  {
    var rest := members[1..];
    forall i | 0 <= i < |rest| && !IsSummaryKey(rest[i].0) ensures Describable(rest[i].1) {
      assert rest[i] == members[i + 1];
    }
  }

  /** One `ReviewResult` per key of the review, in order, skipping the summary keys; the
      first key whose details are neither a string nor an object fails validation. */
  function ReviewResults(members: seq<(string, Json)>): (r: Result<seq<ReviewResult>, Fault>)
    ensures r.Success? <==> AllDescribable(members)
    ensures r.Failure? ==> r.error == Invalid("ReviewResult")
    ensures r.Success? ==> |r.value| <= |members|
    decreases |members|
  {
    if |members| == 0 then Success([])
    else
      var key := members[0].0;
      var details := members[0].1;
      assert forall i :: 1 <= i < |members| ==> members[i] == members[1..][i - 1];
      if IsSummaryKey(key) then ReviewResults(members[1..])
      else if !Describable(details) then Failure(Invalid("ReviewResult"))
      else match ReviewResults(members[1..])
        case Failure(f) => Failure(f)
        case Success(rest) => Success([ReviewResult(key, DetailsOf(details))] + rest)
  }

  /** The results name exactly the kept keys, in the review's order, and each result
      pairs a key with the details stored under it. */
  lemma {:induction false} ReviewResultsFollowReview(members: seq<(string, Json)>)
    requires AllDescribable(members)
    ensures var rs := ReviewResults(members).value;
      && Categories(rs) == KeptKeys(members)
      && forall j :: 0 <= j < |rs| ==> (rs[j].category, AsJson(rs[j].details)) in members
    decreases |members|
  {
    if |members| > 0 {
      var rest := members[1..];
      DescribableTail(members);
      ReviewResultsFollowReview(rest);
      assert members == [members[0]] + rest;
      FollowReviewStep(members, members[0], rest);
    }
  }

  /** One step of `ReviewResultsFollowReview`: putting a member in front of a review
      whose results follow it. */
  lemma {:induction false} FollowReviewStep(members: seq<(string, Json)>, first: (string, Json),
                                            rest: seq<(string, Json)>)
    requires members == [first] + rest
    requires AllDescribable(members) && AllDescribable(rest)
    requires Categories(ReviewResults(rest).value) == KeptKeys(rest)
    requires forall j :: 0 <= j < |ReviewResults(rest).value| ==>
      (ReviewResults(rest).value[j].category, AsJson(ReviewResults(rest).value[j].details)) in rest
    ensures var rs := ReviewResults(members).value;
      && Categories(rs) == KeptKeys(members)
      && forall j :: 0 <= j < |rs| ==> (rs[j].category, AsJson(rs[j].details)) in members
  {
    assert members[1..] == rest && members[0] == first;
    assert forall x :: x in rest ==> x in members;
    if !IsSummaryKey(first.0) {
      KeptStep(members, first, rest);
    }
  }

  lemma {:induction false} KeptStep(members: seq<(string, Json)>, first: (string, Json),
                                    rest: seq<(string, Json)>)
    requires members == [first] + rest && !IsSummaryKey(first.0)
    requires AllDescribable(members) && AllDescribable(rest)
    ensures var head := ReviewResult(first.0, DetailsOf(first.1));
      && ReviewResults(members).value == [head] + ReviewResults(rest).value
      && KeptKeys(members) == [first.0] + KeptKeys(rest)
      && Categories([head] + ReviewResults(rest).value) == [first.0] + Categories(ReviewResults(rest).value)
      && AsJson(head.details) == first.1
  {
    assert members[1..] == rest && members[0] == first;
  }

  /** Review results of a concatenation are the concatenation of the review results. */
  lemma {:induction false} ReviewResultsAppend(a: seq<(string, Json)>, b: seq<(string, Json)>)
    requires ReviewResults(a).Success? && ReviewResults(b).Success?
    ensures ReviewResults(a + b).Success?
    ensures ReviewResults(a + b).value == ReviewResults(a).value + ReviewResults(b).value
    decreases |a|
  {
    if |a| > 0 {
      var rest := a[1..];
      DescribableTail(a);
      ReviewResultsAppend(rest, b);
      assert a == [a[0]] + rest;
      AppendStep(a, a[0], rest, b);
    } else {
      assert a + b == b;
      assert ReviewResults(a).value == [];
    }
  }

  /** One step of `ReviewResultsAppend`: putting a member in front of the first part. */
  lemma {:induction false} AppendStep(a: seq<(string, Json)>, first: (string, Json),
                                      rest: seq<(string, Json)>, b: seq<(string, Json)>)
    requires a == [first] + rest
    requires ReviewResults(a).Success? && ReviewResults(rest).Success? && ReviewResults(b).Success?
    requires ReviewResults(rest + b).Success?
    requires ReviewResults(rest + b).value == ReviewResults(rest).value + ReviewResults(b).value
    ensures ReviewResults(a + b).Success?
    ensures ReviewResults(a + b).value == ReviewResults(a).value + ReviewResults(b).value
  {
    assert a[1..] == rest && a[0] == first;
    assert (a + b)[1..] == rest + b && (a + b)[0] == first;
    if !IsSummaryKey(first.0) {
      var head := ReviewResult(first.0, DetailsOf(first.1));
      assert ReviewResults(a).value == [head] + ReviewResults(rest).value;
      assert ReviewResults(a + b).value == [head] + ReviewResults(rest + b).value;
    }
  }

  /** On a dictionary (unique keys) the kept keys are distinct too. */
  lemma {:induction false} KeptKeysDistinct(members: seq<(string, Json)>)
    requires UniqueKeys(members)
    ensures forall i, j :: 0 <= i < j < |KeptKeys(members)| ==> KeptKeys(members)[i] != KeptKeys(members)[j]
    decreases |members|
  {
    if |members| > 0 {
      var rest := members[1..];
      assert UniqueKeys(rest) by {
        forall i, j | 0 <= i < j < |rest| ensures rest[i].0 != rest[j].0 {
          assert rest[i] == members[i + 1] && rest[j] == members[j + 1];
        }
      }
      KeptKeysDistinct(rest);
      if !IsSummaryKey(members[0].0) {
        forall k | k in KeptKeys(rest) ensures k != members[0].0 {
          var i :| 0 <= i < |rest| && rest[i].0 == k;
          assert members[i + 1] == rest[i];
        }
      }
    }
  }

  /** Every category of the review appears exactly once among the results, in the order
      of the review. */
  lemma EachCategoryOnce(members: seq<(string, Json)>)
    requires UniqueKeys(members) && ReviewResults(members).Success?
    ensures var rs := ReviewResults(members).value;
      && (forall i, j :: 0 <= i < j < |rs| ==> rs[i].category != rs[j].category)
      && (forall i :: 0 <= i < |members| && !IsSummaryKey(members[i].0) ==>
            exists j :: 0 <= j < |rs| && rs[j].category == members[i].0)
  {
    var rs := ReviewResults(members).value;
    KeptKeysDistinct(members);
    ReviewResultsFollowReview(members);
    forall i | 0 <= i < |members| && !IsSummaryKey(members[i].0)
      ensures exists j :: 0 <= j < |rs| && rs[j].category == members[i].0
    {
      var k := members[i].0;
      assert k in KeptKeys(members);
      var j :| 0 <= j < |KeptKeys(members)| && KeptKeys(members)[j] == k;
      assert rs[j].category == Categories(rs)[j];
    }
  }

  /** Python's `float(x)` on a parsed JSON value, as far as a reply can hold one: numbers
      as themselves, booleans as 1 and 0, strings through the number parser; anything
      else has no float. Pydantic's `float` fields accept the same values. */
  function Number(v: Json, asNumber: string -> Option<real>): (r: Option<real>)
    ensures v.JNum? ==> r == Some(v.n)
    ensures v.JBool? ==> r == Some(if v.b then 1.0 else 0.0)
    ensures v.JStr? ==> r == asNumber(v.s)
    ensures v.JNull? || v.JArr? || v.JObj? ==> r.None?
  {
    match v
    case JNum(n) => Some(n)
    case JBool(b) => Some(if b then 1.0 else 0.0)
    case JStr(s) => asNumber(s)
    case _ => None
  }

  /** `float(review_data.get("Overall Code Quality", 0))`: 0 when the key is missing. */
  function OverallScore(items: seq<(string, Json)>, asNumber: string -> Option<real>): (r: Result<real, Fault>)
    ensures Get(items, "Overall Code Quality").None? ==> r == Success(0.0)
    ensures Get(items, "Overall Code Quality").Some? ==>
      var n := Number(Get(items, "Overall Code Quality").value, asNumber);
      (n.Some? ==> r == Success(n.value)) && (n.None? ==> r == Failure(Invalid("float")))
  {
    match Get(items, "Overall Code Quality")
    case None => Success(0.0)
    case Some(v) =>
      match Number(v, asNumber)
      case Some(n) => Success(n)
      case None => Failure(Invalid("float"))
  }

  /** `json.loads` of a service's reply. */
  function Parsed(reply: Reply<Json>, parse: string -> Result<Json, string>): (r: Result<Json, Fault>)
    ensures Load(reply, parse).Success? ==> r == Success(Load(reply, parse).value)
    ensures Load(reply, parse).Failure? ==> r == Failure(ParseFailed(Load(reply, parse).error))
  {
    match Load(reply, parse)
    case Success(v) => Success(v)
    case Failure(message) => Failure(ParseFailed(message))
  }

  /** `v[key]`: a key error on an object without the key, a type error on anything that
      is not an object. */
  function Index(v: Json, key: string): (r: Result<Json, Fault>)
    ensures r.Success? ==> v.JObj? && Get(v.members, key) == Some(r.value)
    ensures v.JObj? && Get(v.members, key).Some? ==> r == Success(Get(v.members, key).value)
    ensures v.JObj? && Get(v.members, key).None? ==> r == Failure(KeyMissing(key))
    ensures !v.JObj? ==> r == Failure(Invalid("subscript"))
  {
    if !v.JObj? then Failure(Invalid("subscript"))
    else match Get(v.members, key)
      case Some(x) => Success(x)
      case None => Failure(KeyMissing(key))
  }

  /** `v.items()`: only an object has them. */
  function Items(v: Json): (r: Result<seq<(string, Json)>, Fault>)
    ensures v.JObj? ==> r == Success(v.members)
    ensures !v.JObj? ==> r == Failure(Invalid("items"))
  {
    if v.JObj? then Success(v.members) else Failure(Invalid("items"))
  }

  /** One candidate language: `lang["language"]` and `lang["score"]`, in that order,
      then `PossibleLanguage` validation. */
  function Candidate(v: Json, asNumber: string -> Option<real>): (r: Result<PossibleLanguage, Fault>)
    ensures !v.JObj? ==> r == Failure(Invalid("subscript"))
    ensures v.JObj? && Get(v.members, "language").None? ==> r == Failure(KeyMissing("language"))
    ensures v.JObj? && Get(v.members, "language").Some? && Get(v.members, "score").None? ==>
      r == Failure(KeyMissing("score"))
    ensures r.Success? ==>
      && v.JObj?
      && Get(v.members, "language") == Some(JStr(r.value.language))
      && Get(v.members, "score").Some?
      && Number(Get(v.members, "score").value, asNumber) == Some(r.value.score)
    ensures (v.JObj? && Get(v.members, "language").Some? && Get(v.members, "language").value.JStr?
             && Get(v.members, "score").Some? && Number(Get(v.members, "score").value, asNumber).Some?) ==>
      r == Success(PossibleLanguage(Get(v.members, "language").value.s,
                                    Number(Get(v.members, "score").value, asNumber).value))
    ensures (v.JObj? && Get(v.members, "language").Some? && Get(v.members, "score").Some?
             && (!Get(v.members, "language").value.JStr?
                 || Number(Get(v.members, "score").value, asNumber).None?)) ==>
      r == Failure(Invalid("PossibleLanguage"))
  {
    var language :- Index(v, "language");
    var score :- Index(v, "score");
    if language.JStr? && Number(score, asNumber).Some? then
      Success(PossibleLanguage(language.s, Number(score, asNumber).value))
    else Failure(Invalid("PossibleLanguage"))
  }

  function Candidates(items: seq<Json>, asNumber: string -> Option<real>): (r: Result<seq<PossibleLanguage>, Fault>)
    ensures r.Success? <==> forall i :: 0 <= i < |items| ==> Candidate(items[i], asNumber).Success?
    ensures r.Success? ==> |r.value| == |items|
    ensures r.Success? ==> forall i :: 0 <= i < |items| ==> r.value[i] == Candidate(items[i], asNumber).value
    decreases |items|
  {
    if |items| == 0 then Success([])
    else
      var first :- Candidate(items[0], asNumber);
      var rest :- Candidates(items[1..], asNumber);
      assert forall i :: 1 <= i < |items| ==> items[i] == items[1..][i - 1];
      Success([first] + rest)
  }

  /** The candidates under `possible_languages`, in order. Iterating anything but a list
      fails, except the empty string and the empty object, which yield no candidates. */
  function PossibleLanguages(v: Json, asNumber: string -> Option<real>): (r: Result<seq<PossibleLanguage>, Fault>)
    ensures v.JArr? ==> r == Candidates(v.items, asNumber)
    ensures v == JStr("") || v == JObj([]) ==> r == Success([])
    ensures !v.JArr? && v != JStr("") && v != JObj([]) ==> r.Failure?
  {
    if v.JArr? then Candidates(v.items, asNumber)
    else if v == JStr("") || v == JObj([]) then Success([])
    else Failure(Invalid("possible_languages"))
  }

  /** `features` as `Dict[str, List[str]]`. */
  function Features(v: Json): (r: Option<seq<(string, seq<string>)>>)
    ensures r.Some? <==> v.JObj? && forall i :: 0 <= i < |v.members| ==> AsStrings(v.members[i].1).Some?
    ensures r.Some? ==> |r.value| == |v.members|
    ensures r.Some? ==> forall i :: 0 <= i < |v.members| ==>
      r.value[i] == (v.members[i].0, AsStrings(v.members[i].1).value)
  {
    if v.JObj? && forall i :: 0 <= i < |v.members| ==> AsStrings(v.members[i].1).Some? then
      Some(seq(|v.members|, i requires 0 <= i < |v.members| && AsStrings(v.members[i].1).Some? =>
        (v.members[i].0, AsStrings(v.members[i].1).value)))
    else None
  }

  /** The detected language, read from the classification in the source's order:
      `confidence_score` (required), `possible_languages` (default none), `features`
      (default empty), then `DetectedLanguage` validation of the name, the confidence
      and the features. */
  function Detect(classification: seq<(string, Json)>, name: Json, asNumber: string -> Option<real>)
    : (r: Result<DetectedLanguage, Fault>)
    ensures Get(classification, "confidence_score").None? ==> r == Failure(KeyMissing("confidence_score"))
    ensures r.Success? ==>
      && name == JStr(r.value.name)
      && Get(classification, "confidence_score").Some?
      && Number(Get(classification, "confidence_score").value, asNumber) == Some(r.value.confidence)
      && PossibleLanguages(Get(classification, "possible_languages").GetOr(JArr([])), asNumber)
         == Success(r.value.possibleLanguages)
      && Features(Get(classification, "features").GetOr(JObj([]))) == Some(r.value.features)
    ensures Get(classification, "features") == Some(JNull) ==> r.Failure?
    ensures (name.JStr? && Get(classification, "confidence_score").Some?
             && Number(Get(classification, "confidence_score").value, asNumber).Some?
             && PossibleLanguages(Get(classification, "possible_languages").GetOr(JArr([])), asNumber).Success?
             && Features(Get(classification, "features").GetOr(JObj([]))).Some?) ==>
      r.Success?
  {
    var confidence :- Index(JObj(classification), "confidence_score");
    var possible :- PossibleLanguages(Get(classification, "possible_languages").GetOr(JArr([])), asNumber);
    var features := Features(Get(classification, "features").GetOr(JObj([])));
    if name.JStr? && Number(confidence, asNumber).Some? && features.Some? then
      Success(DetectedLanguage(name.s, Number(confidence, asNumber).value, possible, features.value))
    else Failure(Invalid("DetectedLanguage"))
  }

  /** `review_data.get("Specific Issues Found", [])`, validated as a list of strings. */
  function Suggestions(items: seq<(string, Json)>): (r: Result<seq<string>, Fault>)
    ensures Get(items, "Specific Issues Found").None? ==> r == Success([])
    ensures r.Success? ==> AsStrings(Get(items, "Specific Issues Found").GetOr(JArr([]))) == Some(r.value)
    ensures r.Failure? ==> r.error == Invalid("CodeReviewResponse")
    ensures AsStrings(Get(items, "Specific Issues Found").GetOr(JArr([]))).Some? ==>
      r == Success(AsStrings(Get(items, "Specific Issues Found").GetOr(JArr([]))).value)
  {
    match AsStrings(Get(items, "Specific Issues Found").GetOr(JArr([])))
    case Some(suggestions) => Success(suggestions)
    case None => Failure(Invalid("CodeReviewResponse"))
  }

  /** The body of the `try`: each step in the source's order, stopping at the first
      fault. The review call is only made once the classification names a primary
      language. */
  function Evaluate(classifyCall: Result<string, string>, reviewCall: Result<string, string>,
                    parse: string -> Result<Json, string>, asNumber: string -> Option<real>)
    : (r: Result<CodeReviewResponse, Fault>)
    ensures var c := Load(ClassifyCode(classifyCall), parse);
      && (c.Failure? ==> r == Failure(ParseFailed(c.error)))
      && (c.Success? && !c.value.JObj? ==> r == Failure(Invalid("subscript")))
      && (c.Success? && c.value.JObj? && Get(c.value.members, "primary_language").None? ==>
            r == Failure(KeyMissing("primary_language")))
    ensures var d := Load(ReviewCode(reviewCall), parse);
      var c := Load(ClassifyCode(classifyCall), parse);
      c.Success? && c.value.JObj? && Get(c.value.members, "primary_language").Some? && d.Failure? ==>
        r == Failure(ParseFailed(d.error))
    ensures r.Success? ==>
      var c := Load(ClassifyCode(classifyCall), parse);
      var d := Load(ReviewCode(reviewCall), parse);
      && c.Success? && c.value.JObj? && d.Success? && d.value.JObj?
      && r.value.status == "success" && r.value.error.None?
      && ReviewResults(d.value.members) == Success(r.value.reviewResults)
      && OverallScore(d.value.members, asNumber) == Success(r.value.overallScore)
      && Get(c.value.members, "primary_language") == Some(JStr(r.value.detectedLanguage.name))
      && Detect(c.value.members, JStr(r.value.detectedLanguage.name), asNumber)
         == Success(r.value.detectedLanguage)
      && AsStrings(Get(d.value.members, "Specific Issues Found").GetOr(JArr([])))
         == Some(r.value.improvementSuggestions)
    ensures var c := Load(ClassifyCode(classifyCall), parse);
      var d := Load(ReviewCode(reviewCall), parse);
      (&& c.Success? && c.value.JObj? && Get(c.value.members, "primary_language").Some?
       && d.Success? && d.value.JObj?
       && ReviewResults(d.value.members).Success? && OverallScore(d.value.members, asNumber).Success?
       && Detect(c.value.members, Get(c.value.members, "primary_language").value, asNumber).Success?
       && Suggestions(d.value.members).Success?) ==>
        r.Success?
  {
    var classification :- Parsed(ClassifyCode(classifyCall), parse);
    var language :- Index(classification, "primary_language");
    var reviewData :- Parsed(ReviewCode(reviewCall), parse);
    var items :- Items(reviewData);
    var results :- ReviewResults(items);
    var overall :- OverallScore(items, asNumber);
    var detected :- Detect(classification.members, language, asNumber);
    var suggestions :- Suggestions(items);
    Success(CodeReviewResponse("success", None, overall, results, detected, suggestions))
  }

  /** `review_code`: the evaluated response, or the error response carrying the text of
      whatever was raised. */
  function Review(classifyCall: Result<string, string>, reviewCall: Result<string, string>,
                  parse: string -> Result<Json, string>, asNumber: string -> Option<real>,
                  describe: string -> string): (r: CodeReviewResponse)
    ensures r.status == "success" || r.status == "error"
    ensures r.status == "success" <==> Evaluate(classifyCall, reviewCall, parse, asNumber).Success?
    ensures r.status == "success" ==> r.error.None?
    ensures Evaluate(classifyCall, reviewCall, parse, asNumber).Success? ==>
      r == Evaluate(classifyCall, reviewCall, parse, asNumber).value
    ensures r.status == "error" ==>
      r == ErrorResponse(FaultText(Evaluate(classifyCall, reviewCall, parse, asNumber).error, describe))
  {
    match Evaluate(classifyCall, reviewCall, parse, asNumber)
    case Success(response) => response
    case Failure(f) => ErrorResponse(FaultText(f, describe))
  }

  /** When the classification call fails, its fallback names no features (an explicit
      null), which `Dict[str, List[str]]` rejects: the endpoint then always answers with
      an error, whatever the review says. */
  lemma {:induction false} ClassifyFailureGivesError(message: string, reviewCall: Result<string, string>,
                                  parse: string -> Result<Json, string>,
                                  asNumber: string -> Option<real>, describe: string -> string)
    ensures Evaluate(Failure(message), reviewCall, parse, asNumber).Failure?
    ensures Review(Failure(message), reviewCall, parse, asNumber, describe).status == "error"
  {
    var c := ClassifyFallback(message);
    assert Load(ClassifyCode(Failure(message)), parse) == Success(JObj(c));
    assert Get(c, "features") == Some(JNull);
    assert Get(c, "primary_language") == Some(JStr("unknown"));
    assert Detect(c, JStr("unknown"), asNumber).Failure?;
  }

  /** The review categories the fallback review yields: the error in the security
      analysis, and three empty sections. */
  function FallbackResults(message: string): seq<ReviewResult> {
    [ReviewResult("Security Analysis", Text("Error: " + message)),
     ReviewResult("Performance Analysis", Text("")),
     ReviewResult("Best Practices", Section([])),
     ReviewResult("Improvement Suggestions with Code Examples", Section([]))]
  }

  /** When the review call fails, its fallback parses as a review with score 0 and the
      error text among the categories, so a usable classification still produces a
      "success" response. */
  lemma {:induction false} ReviewFailureReportedAsSuccess(classifyCall: Result<string, string>, message: string,
                                       parse: string -> Result<Json, string>,
                                       asNumber: string -> Option<real>)
    requires var c := Load(ClassifyCode(classifyCall), parse);
      && c.Success? && c.value.JObj? && Get(c.value.members, "primary_language").Some?
      && Detect(c.value.members, Get(c.value.members, "primary_language").value, asNumber).Success?
    ensures var c := Load(ClassifyCode(classifyCall), parse);
      var detected := Detect(c.value.members, Get(c.value.members, "primary_language").value, asNumber).value;
      Evaluate(classifyCall, Failure(message), parse, asNumber)
      == Success(CodeReviewResponse("success", None, 0.0, FallbackResults(message), detected, []))
  {
    var review := ReviewFallback(message);
    assert Load(ReviewCode(Failure(message)), parse) == Success(JObj(review));
    FallbackReview(message, asNumber);
  }

  /** The steps of the endpoint on the fallback review: its four categories, score 0 and
      no suggestions. */
  lemma FallbackReview(message: string, asNumber: string -> Option<real>)
    ensures ReviewResults(ReviewFallback(message)).Success?
    ensures ReviewResults(ReviewFallback(message)).value == FallbackResults(message)
    ensures OverallScore(ReviewFallback(message), asNumber).Success?
    ensures OverallScore(ReviewFallback(message), asNumber).value == 0.0
    ensures Suggestions(ReviewFallback(message)).Success?
    ensures Suggestions(ReviewFallback(message)).value == []
  {
    FallbackCategories(message);
    FallbackScore(message, asNumber);
    FallbackSuggestions(message);
  }

  lemma {:induction false} FallbackScore(message: string, asNumber: string -> Option<real>)
    ensures OverallScore(ReviewFallback(message), asNumber) == Success(0.0)
  {
    assert Get(ReviewFallback(message), "Overall Code Quality") == Some(JNum(0.0));
  }

  lemma {:induction false} FallbackSuggestions(message: string)
    ensures Suggestions(ReviewFallback(message)) == Success([])
  {
    var found := Get(ReviewFallback(message), "Specific Issues Found");
    assert found.GetOr(JArr([])) == JArr([]);
    NoStrings();
  }

  lemma NoStrings()
    ensures AsStrings(JArr([])) == Some([])
  {
  }

  lemma FallbackCategories(message: string)
    ensures ReviewResults(ReviewFallback(message)).Success?
    ensures ReviewResults(ReviewFallback(message)).value == FallbackResults(message)
  {
    FallbackEntriesAgree(message);
    FallbackEntriesResults(message);
  }

  /** The fallback review, built from its first three keys and its message-free tail. */
  function FallbackEntries(message: string): seq<(string, Json)> {
    [("Overall Code Quality", JNum(0.0))]
    + ([("Security Analysis", JStr("Error: " + message))]
    + ([("Performance Analysis", JStr(""))] + FallbackTail()))
  }

  lemma FallbackEntriesAgree(message: string)
    ensures ReviewFallback(message) == FallbackEntries(message)
  {
    FallbackEntriesListed(message);
  }

  /** The fallback review's entries, listed. */
  lemma {:induction false} FallbackEntriesListed(message: string)
    ensures FallbackEntries(message) ==
      [("Overall Code Quality", JNum(0.0)),
       ("Security Analysis", JStr("Error: " + message)),
       ("Performance Analysis", JStr("")),
       ("Best Practices", JObj([])),
       ("Specific Issues Found", JArr([])),
       ("Improvement Suggestions with Code Examples", JObj([]))]
  {
  }

  lemma {:induction false} FallbackEntriesResults(message: string)
    ensures ReviewResults(FallbackEntries(message)).Success?
    ensures ReviewResults(FallbackEntries(message)).value == FallbackResults(message)
  {
    var t2 := [("Performance Analysis", JStr(""))] + FallbackTail();
    var t1 := [("Security Analysis", JStr("Error: " + message))] + t2;
    FallbackKeys();
    FallbackTailResults();
    ReviewResultsCons("Performance Analysis", JStr(""), FallbackTail());
    ReviewResultsCons("Security Analysis", JStr("Error: " + message), t2);
    ReviewResultsCons("Overall Code Quality", JNum(0.0), t1);
  }

  /** The last three keys of the fallback review, which do not depend on the message. */
  function FallbackTail(): seq<(string, Json)> {
    [("Best Practices", JObj([])),
     ("Specific Issues Found", JArr([])),
     ("Improvement Suggestions with Code Examples", JObj([]))]
  }

  lemma FallbackTailResults()
    ensures ReviewResults(FallbackTail()).Success?
    ensures ReviewResults(FallbackTail()).value ==
      [ReviewResult("Best Practices", Section([])),
       ReviewResult("Improvement Suggestions with Code Examples", Section([]))]
  {
    var t5: seq<(string, Json)> := [("Improvement Suggestions with Code Examples", JObj([]))];
    var t4 := [("Specific Issues Found", JArr([]))] + t5;
    assert [("Best Practices", JObj([]))] + t4 == FallbackTail();
    FallbackKeys();
    ReviewResultsCons("Improvement Suggestions with Code Examples", JObj([]), []);
    assert [("Improvement Suggestions with Code Examples", JObj([]))] + [] == t5;
    ReviewResultsCons("Specific Issues Found", JArr([]), t5);
    ReviewResultsCons("Best Practices", JObj([]), t4);
  }

  /** Which keys of the fallback review are categories. */
  lemma FallbackKeys()
    ensures IsSummaryKey("Overall Code Quality") && IsSummaryKey("Specific Issues Found")
    ensures !IsSummaryKey("Security Analysis") && !IsSummaryKey("Performance Analysis")
    ensures !IsSummaryKey("Best Practices") && !IsSummaryKey("Improvement Suggestions with Code Examples")
  {
    assert "Performance Analysis"[0] != "Overall Code Quality"[0];
  }

  /** One step of `ReviewResults`: a summary key adds nothing, a category adds its
      result in front. */
  lemma ReviewResultsCons(key: string, details: Json, rest: seq<(string, Json)>)
    requires AllDescribable(rest) && (IsSummaryKey(key) || Describable(details))
    ensures ReviewResults([(key, details)] + rest).Success?
    ensures IsSummaryKey(key) ==> ReviewResults([(key, details)] + rest).value == ReviewResults(rest).value
    ensures !IsSummaryKey(key) ==>
      ReviewResults([(key, details)] + rest).value == [ReviewResult(key, DetailsOf(details))] + ReviewResults(rest).value
  {
    var members := [(key, details)] + rest;
    assert members[0] == (key, details) && members[1..] == rest;
  }

  /** Until the classification names a primary language, the review reply plays no part. */
  lemma ReviewWaitsForClassification(classifyCall: Result<string, string>,
                                     reviewCall: Result<string, string>, reviewCall': Result<string, string>,
                                     parse: string -> Result<Json, string>, asNumber: string -> Option<real>)
    requires var c := Load(ClassifyCode(classifyCall), parse);
      c.Failure? || Index(c.value, "primary_language").Failure?
    ensures Evaluate(classifyCall, reviewCall, parse, asNumber) == Evaluate(classifyCall, reviewCall', parse, asNumber)
  {
  }
}
