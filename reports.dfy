/** The evaluation report stored in a completed session and shown by the results page. Fields the
    evaluator's JSON may omit are optional; the rule-based fallback report fills all of them. */
module Reports {
  import opened Wrappers

  /** The score and feedback of one category. */
  datatype CategoryScore = CategoryScore(score: Option<int>, feedback: string)

  /** The four scored categories, in the order the report lists them. */
  datatype Breakdown = Breakdown(
    communication: Option<CategoryScore>,
    knowledge: Option<CategoryScore>,
    motivation: Option<CategoryScore>,
    adaptability: Option<CategoryScore>)

  /** The final recommendation: a decision ("Pass" or "Fail"), a confidence level and a reason. */
  datatype Recommendation = Recommendation(
    decision: Option<string>,
    confidence: Option<string>,
    reasoning: Option<string>)

  datatype Report = Report(
    overallScore: Option<int>,
    breakdown: Option<Breakdown>,
    strengths: seq<string>,
    improvements: seq<string>,
    recommendation: Option<Recommendation>)
}
