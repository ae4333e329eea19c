/** The request and response value types of the grading API, with the defaults their
    fields take when a caller omits them. */
module Schemas {
  import opened Wrappers
  import opened JsonValues

  /** One rubric line. Nothing ties `minScore` to `maxScore`, and `weight` may be any
      number, negative or zero included. */
  datatype GradingCriteria = GradingCriteria(
    category: string,
    weight: real,
    description: string,
    minScore: int,
    maxScore: int)

  /** Building a criterion from keyword arguments: `category`, `weight` and `description`
      are required; an omitted bound is 0 (lower) or 100 (upper). */
  function NewGradingCriteria(category: string, weight: real, description: string,
                              minScore: Option<int>, maxScore: Option<int>): (c: GradingCriteria)
    ensures c.category == category && c.weight == weight && c.description == description
    ensures minScore.None? ==> c.minScore == 0
    ensures maxScore.None? ==> c.maxScore == 100
    ensures minScore.Some? ==> c.minScore == minScore.value
    ensures maxScore.Some? ==> c.maxScore == maxScore.value
  {
    GradingCriteria(category, weight, description, minScore.GetOr(0), maxScore.GetOr(100))
  }

  /** Optional context for the grading prompt; every field may be left out, and the word
      count is a mapping from a bound's name to a number. */
  datatype AssignmentRequirements = AssignmentRequirements(
    title: Option<string>,
    description: Option<string>,
    wordCount: Option<map<string, int>>,
    specialInstructions: Option<string>)

  /** The requirements with every field left out. */
  function NoRequirements(): (r: AssignmentRequirements)
    ensures r.title.None? && r.description.None? && r.wordCount.None? && r.specialInstructions.None?
  {
    AssignmentRequirements(None, None, None, None)
  }

  /** A grading request: only `text` is required. */
  datatype GradingRequest = GradingRequest(
    text: string,
    subject: Option<string>,
    level: Option<string>,
    gradingCriteria: Option<seq<GradingCriteria>>,
    assignmentRequirements: Option<AssignmentRequirements>,
    rubricType: Option<string>)

  /** Building a request from keyword arguments. `subject`, `level`, the criteria and the
      requirements default to `None`; an omitted `rubricType` defaults to "academic",
      while an explicit `None` stays `None`. */
  function NewGradingRequest(text: string, subject: Option<string>, level: Option<string>,
                             criteria: Option<seq<GradingCriteria>>,
                             requirements: Option<AssignmentRequirements>,
                             rubricType: Field<string>): (r: GradingRequest)
    ensures r.text == text && r.subject == subject && r.level == level
    ensures r.gradingCriteria == criteria && r.assignmentRequirements == requirements
    ensures rubricType.Absent? ==> r.rubricType == Some("academic")
    ensures rubricType.Null? ==> r.rubricType.None?
    ensures rubricType.Present? ==> r.rubricType == Some(rubricType.value)
  {
    GradingRequest(text, subject, level, criteria, requirements, rubricType.Get("academic"))
  }

  /** A stored grade as the API returns it. */
  datatype GradingResponse = GradingResponse(
    status: string,
    error: Option<string>,
    overallScore: real,
    gradingResults: seq<seq<(string, Json)>>,
    detailedFeedback: string,
    improvementSuggestions: seq<string>,
    languageQuality: seq<(string, string)>,
    strengths: seq<string>,
    weaknesses: seq<string>,
    text: string,
    subject: Option<string>,
    level: Option<string>)

  /** Building a response: an omitted `status` is "success" and an omitted `error` is `None`. */
  function NewGradingResponse(status: Option<string>, error: Option<string>, overallScore: real,
                              gradingResults: seq<seq<(string, Json)>>, detailedFeedback: string,
                              improvementSuggestions: seq<string>,
                              languageQuality: seq<(string, string)>,
                              strengths: seq<string>, weaknesses: seq<string>, text: string,
                              subject: Option<string>, level: Option<string>): (r: GradingResponse)
    ensures status.None? ==> r.status == "success"
    ensures status.Some? ==> r.status == status.value
    ensures r.error == error && r.overallScore == overallScore && r.text == text
    ensures r.gradingResults == gradingResults && r.detailedFeedback == detailedFeedback
    ensures r.improvementSuggestions == improvementSuggestions
    ensures r.languageQuality == languageQuality
    ensures r.strengths == strengths && r.weaknesses == weaknesses
    ensures r.subject == subject && r.level == level
  {
    GradingResponse(status.GetOr("success"), error, overallScore, gradingResults, detailedFeedback,
                    improvementSuggestions, languageQuality, strengths, weaknesses, text, subject, level)
  }
}
