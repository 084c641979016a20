/** The pure parts of the results page (client/src/components/Results.js): the score bands with
    their colours, classes and labels, the chart data built from a report's breakdown, and the
    defaults shown when the report leaves a field out. */
module ResultsView {
  import opened Wrappers
  import opened Reports
  import Evaluation
  import Sessions

  /** The four bands a score falls into: from 80, from 60, from 40, and below 40. */
  datatype Band = Excellent | Good | Average | Poor

  /** The band a score falls into; the reference the three display functions agree with. */
  function BandOf(score: int): Band
  {
    if score >= 80 then Excellent
    else if score >= 60 then Good
    else if score >= 40 then Average
    else Poor
  }

  const ExcellentColor: string := "#28a745"
  const GoodColor: string := "#ffc107"
  const AverageColor: string := "#fd7e14"
  const PoorColor: string := "#dc3545"

  /** getScoreColor. */
  function ScoreColor(score: int): (color: string)
    ensures color == ExcellentColor <==> BandOf(score) == Excellent
    ensures color == GoodColor <==> BandOf(score) == Good
    ensures color == AverageColor <==> BandOf(score) == Average
    ensures color == PoorColor <==> BandOf(score) == Poor
  {
    if score >= 80 then ExcellentColor
    else if score >= 60 then GoodColor
    else if score >= 40 then AverageColor
    else PoorColor
  }

  /** getScoreClass. */
  function ScoreClass(score: int): (cssClass: string)
    ensures cssClass == "score-excellent" <==> BandOf(score) == Excellent
    ensures cssClass == "score-good" <==> BandOf(score) == Good
    ensures cssClass == "score-average" <==> BandOf(score) == Average
    ensures cssClass == "score-poor" <==> BandOf(score) == Poor
  {
    if score >= 80 then "score-excellent"
    else if score >= 60 then "score-good"
    else if score >= 40 then "score-average"
    else "score-poor"
  }

  /** getScoreLabel. */
  function ScoreLabel(score: int): (caption: string)
    ensures caption == "Excellent" <==> BandOf(score) == Excellent
    ensures caption == "Good" <==> BandOf(score) == Good
    ensures caption == "Average" <==> BandOf(score) == Average
    ensures caption == "Needs Improvement" <==> BandOf(score) == Poor
  {
    if score >= 80 then "Excellent"
    else if score >= 60 then "Good"
    else if score >= 40 then "Average"
    else "Needs Improvement"
  }

  /** The colour of a detailed category card; a card without a score compares false against
      every threshold and is coloured as the lowest band. */
  function CardColor(score: Option<int>): (color: string)
    ensures score.None? || score.value < 40 <==> color == PoorColor
  {
    match score
    case None => PoorColor
    case Some(s) => ScoreColor(s)
  }

  /** One slice of the pie chart. */
  datatype PieEntry = PieEntry(name: string, value: int, color: string)

  /** One bar of the bar chart. */
  datatype BarEntry = BarEntry(name: string, score: int, color: string)

  /** A category's score, or 0 when the category or its score is missing. */
  function ScoreOrZero(category: Option<CategoryScore>): (value: int)
    ensures category.Some? && category.value.score.Some? ==> value == category.value.score.value
    ensures category.None? || category.value.score.None? ==> value == 0
  {
    if category.Some? && category.value.score.Some? then category.value.score.value else 0
  }

  /** breakdownData: the four categories in a fixed order when the report has a breakdown,
      nothing otherwise. */
  function BreakdownData(analysis: Option<Report>): (entries: seq<PieEntry>)
    ensures |entries| == if analysis.Some? && analysis.value.breakdown.Some? then 4 else 0
    ensures |entries| == 4 ==>
      var b := analysis.value.breakdown.value;
      && entries[0] == PieEntry("Communication", ScoreOrZero(b.communication), "#667eea")
      && entries[1] == PieEntry("Knowledge", ScoreOrZero(b.knowledge), "#28a745")
      && entries[2] == PieEntry("Motivation", ScoreOrZero(b.motivation), "#ffc107")
      && entries[3] == PieEntry("Adaptability", ScoreOrZero(b.adaptability), "#fd7e14")
  {
    if analysis.Some? && analysis.value.breakdown.Some? then
      var b := analysis.value.breakdown.value;
      [ PieEntry("Communication", ScoreOrZero(b.communication), "#667eea"),
        PieEntry("Knowledge", ScoreOrZero(b.knowledge), "#28a745"),
        PieEntry("Motivation", ScoreOrZero(b.motivation), "#ffc107"),
        PieEntry("Adaptability", ScoreOrZero(b.adaptability), "#fd7e14") ]
    else []
  }

  /** barData: the pie entries renamed field for field, in the same order. */
  function BarData(entries: seq<PieEntry>): (bars: seq<BarEntry>)
    ensures |bars| == |entries|
    ensures forall i :: 0 <= i < |entries| ==>
      bars[i].name == entries[i].name && bars[i].score == entries[i].value && bars[i].color == entries[i].color
  {
    seq(|entries|, i requires 0 <= i < |entries| => BarEntry(entries[i].name, entries[i].value, entries[i].color))
  }

  /** The overall score shown: 0 when there is no report or no score. */
  function DisplayedScore(analysis: Option<Report>): (score: int)
    ensures analysis.Some? && analysis.value.overallScore.Some? ==> score == analysis.value.overallScore.value
    ensures analysis.None? || analysis.value.overallScore.None? ==> score == 0
  {
    if analysis.Some? && analysis.value.overallScore.Some? then analysis.value.overallScore.value else 0
  }

  /** JavaScript's `value || fallback` on an optional string: the empty string counts as absent. */
  function TextOr(value: Option<string>, fallback: string): (shown: string)
    requires fallback != ""
    ensures shown != ""
    ensures value.Some? && value.value != "" ==> shown == value.value
    ensures value.None? || value.value == "" ==> shown == fallback
  {
    if value.Some? && value.value != "" then value.value else fallback
  }

  /** The recommendation of the report, when there is a report with one. */
  function RecommendationOf(analysis: Option<Report>): Option<Recommendation>
  {
    if analysis.Some? then analysis.value.recommendation else None
  }

  /** The decision shown, or "Pending" when the report gives none (or an empty one). */
  function DisplayedDecision(analysis: Option<Report>): (decision: string)
    ensures decision != ""
    ensures decision != "Pending" ==>
      RecommendationOf(analysis).Some? && RecommendationOf(analysis).value.decision == Some(decision)
    ensures RecommendationOf(analysis).None? || RecommendationOf(analysis).value.decision.None?
            ==> decision == "Pending"
    ensures RecommendationOf(analysis).Some? && RecommendationOf(analysis).value.decision.Some?
            && RecommendationOf(analysis).value.decision.value != ""
            ==> decision == RecommendationOf(analysis).value.decision.value
  {
    var r := RecommendationOf(analysis);
    TextOr(if r.Some? then r.value.decision else None, "Pending")
  }

  /** The confidence shown, or "Unknown". */
  function DisplayedConfidence(analysis: Option<Report>): (confidence: string)
    ensures confidence != ""
    ensures confidence != "Unknown" ==>
      RecommendationOf(analysis).Some? && RecommendationOf(analysis).value.confidence == Some(confidence)
    ensures RecommendationOf(analysis).None? || RecommendationOf(analysis).value.confidence.None?
            ==> confidence == "Unknown"
    ensures RecommendationOf(analysis).Some? && RecommendationOf(analysis).value.confidence.Some?
            && RecommendationOf(analysis).value.confidence.value != ""
            ==> confidence == RecommendationOf(analysis).value.confidence.value
  {
    var r := RecommendationOf(analysis);
    TextOr(if r.Some? then r.value.confidence else None, "Unknown")
  }

  /** The reasoning shown, or "No reasoning provided". */
  function DisplayedReasoning(analysis: Option<Report>): (reasoning: string)
    ensures reasoning != ""
    ensures reasoning != "No reasoning provided" ==>
      RecommendationOf(analysis).Some? && RecommendationOf(analysis).value.reasoning == Some(reasoning)
    ensures RecommendationOf(analysis).None? || RecommendationOf(analysis).value.reasoning.None?
            ==> reasoning == "No reasoning provided"
    ensures RecommendationOf(analysis).Some? && RecommendationOf(analysis).value.reasoning.Some?
            && RecommendationOf(analysis).value.reasoning.value != ""
            ==> reasoning == RecommendationOf(analysis).value.reasoning.value
  {
    var r := RecommendationOf(analysis);
    TextOr(if r.Some? then r.value.reasoning else None, "No reasoning provided")
  }

  /** Whether the recommendation box gets the success styling: only for the decision "Pass". */
  predicate PassStyling(analysis: Option<Report>)
  {
    RecommendationOf(analysis).Some? && RecommendationOf(analysis).value.decision == Some("Pass")
  }

  /** The success styling goes exactly with a shown decision of "Pass"; any other decision, and
      a missing one, is styled as a failure. */
  lemma PassStylingIff(analysis: Option<Report>)
    ensures PassStyling(analysis) <==> DisplayedDecision(analysis) == "Pass"
  {
  }

  /** A fallback report shows as "Good" when it passes (75) and "Needs Improvement" otherwise,
      its four chart values are equal, and every detailed card is coloured as the lowest band. */
  lemma FallbackDisplay(responses: seq<Sessions.Response>)
    ensures ScoreLabel(DisplayedScore(Some(Evaluation.FallbackReport(responses))))
         == if Evaluation.AnyMeaningful(responses) then "Good" else "Needs Improvement"
    ensures DisplayedDecision(Some(Evaluation.FallbackReport(responses)))
         == if Evaluation.AnyMeaningful(responses) then "Pass" else "Fail"
    ensures PassStyling(Some(Evaluation.FallbackReport(responses))) <==> Evaluation.AnyMeaningful(responses)
    ensures DisplayedConfidence(Some(Evaluation.FallbackReport(responses))) == "Low"
    ensures var entries := BreakdownData(Some(Evaluation.FallbackReport(responses)));
      |entries| == 4 && entries[1].value == entries[0].value && entries[2].value == entries[0].value
      && entries[3].value == entries[0].value
    ensures var b := Evaluation.FallbackReport(responses).breakdown.value;
      && CardColor(b.communication.value.score) == PoorColor
      && CardColor(b.knowledge.value.score) == PoorColor
      && CardColor(b.motivation.value.score) == PoorColor
      && CardColor(b.adaptability.value.score) == PoorColor
  {
  }
}
