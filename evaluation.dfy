/** The evaluation engine (ai_service.py): builds the per-answer summary and the scoring prompt,
    hands the prompt to the generative evaluator once, extracts the JSON payload from its reply,
    and falls back to a rule-based report whenever generation or parsing fails.

    The evaluator is a pure function from prompt to reply text, `None` standing for a raised
    error; the JSON decoder is a pure function from the extracted text to a report, `None`
    standing for any decoding error. */
module Evaluation {
  import opened Wrappers
  import opened Text
  import opened Config
  import opened Speech
  import opened Sessions
  import opened Reports

  /** The text that replaces an answer the content gate rejects. */
  const NoSpeechSentinel: string := "No meaningful speech detected"

  /** One entry of responses_summary. */
  datatype SummaryEntry = SummaryEntry(question: string, response: string, hasContent: bool)

  /** The summary entry for the response at position `i`: the question is taken by position from
      the question list, not from the response. */
  function EntryFor(i: nat, r: Response): SummaryEntry
    requires i < QuestionCount
  {
    var hasContent := HasMeaningfulContent(r.transcription);
    SummaryEntry(CasQuestions[i], if hasContent then r.transcription.text else NoSpeechSentinel, hasContent)
  }

  /** The summary of a session with at most one response per question. */
  function Summary(responses: seq<Response>): (summary: seq<SummaryEntry>)
    requires |responses| <= QuestionCount
    ensures |summary| == |responses|
    ensures forall i :: 0 <= i < |summary| ==>
      && summary[i].question == CasQuestions[i]
      && summary[i].hasContent == HasMeaningfulContent(responses[i].transcription)
      && (summary[i].hasContent ==> summary[i].response == responses[i].transcription.text)
      && (!summary[i].hasContent ==> summary[i].response == NoSpeechSentinel)
  {
    seq(|responses|, i requires 0 <= i < |responses| => EntryFor(i, responses[i]))
  }

  /** The summary loop of analyze_interview. It indexes the question list by position, so a
      session with more responses than questions raises; that is reported as `None`. */
  method BuildSummary(responses: seq<Response>) returns (summary: Option<seq<SummaryEntry>>)
    ensures summary.None? <==> |responses| > QuestionCount
    ensures summary.Some? ==> summary.value == Summary(responses)
  {
    var entries: seq<SummaryEntry> := [];
    for i := 0 to |responses|
      invariant i <= QuestionCount
      invariant entries == Summary(responses[..i])
    {
      if i >= |CasQuestions| {
        return None;
      }
      entries := entries + [EntryFor(i, responses[i])];
      assert responses[..i + 1] == responses[..i] + [responses[i]];
    }
    assert responses[..|responses|] == responses;
    return Some(entries);
  }

  /** "Question k: <question>\nResponse: <response>" for the k-th entry, counting from 1. */
  function Block(k: nat, e: SummaryEntry): string
  {
    "Question " + Decimal(k) + ": " + e.question + "\nResponse: " + e.response
  }

  function Blocks(summary: seq<SummaryEntry>): (blocks: seq<string>)
    ensures |blocks| == |summary|
    ensures forall i :: 0 <= i < |summary| ==> blocks[i] == Block(i + 1, summary[i])
  {
    seq(|summary|, i requires 0 <= i < |summary| => Block(i + 1, summary[i]))
  }

  /** The summary text embedded in the prompt: the blocks joined by newlines. */
  function SummaryText(summary: seq<SummaryEntry>): (text: string)
    ensures summary == [] ==> text == ""
    ensures summary != [] ==> |text| >= |Block(1, summary[0])| && text[..|Block(1, summary[0])|] == Block(1, summary[0])
  {
    Join("\n", Blocks(summary))
  }

  /** The summary text grows block by block: one more entry adds a newline and its block,
      numbered by its position. */
  lemma SummaryTextSnoc(summary: seq<SummaryEntry>, e: SummaryEntry)
    ensures SummaryText(summary + [e])
         == if summary == [] then Block(1, e) else SummaryText(summary) + "\n" + Block(|summary| + 1, e)
  {
    assert Blocks(summary + [e]) == Blocks(summary) + [Block(|summary| + 1, e)];
    if summary != [] {
      JoinSnoc("\n", Blocks(summary), Block(|summary| + 1, e));
    }
  }

  /** The text of the prompt before the summary. */
  const PromptHead: string :=
    "\nYou are an expert CAS UK interview evaluator. Analyze the following interview responses and provide a comprehensive assessment.\n\nInterview Summary:\n"

  /** The text of the prompt after the summary: the scoring guidelines and the required JSON shape. */
  const PromptTail: string :=
    "\n"
    + "\n"
    + "CRITICAL SCORING GUIDELINES:\n"
    + "- If the candidate provided no meaningful responses (only \"No meaningful speech detected\"), \n"
    + "  score them VERY LOW: 0-15 overall score\n"
    + "- If responses are minimal or unclear, score 15-30 overall\n"
    + "- Only score higher (30-100) if there are clear, meaningful responses with actual content\n"
    + "\n"
    + "SCORING BREAKDOWN FOR SILENT/NO RESPONSE INTERVIEWS:\n"
    + "- Communication Skills: 0-3 points (no communication demonstrated)\n"
    + "- Knowledge: 0-3 points (no knowledge demonstrated)  \n"
    + "- Motivation: 0-3 points (no motivation demonstrated)\n"
    + "- Adaptability: 0-3 points (no adaptability demonstrated)\n"
    + "\n"
    + "For meaningful responses, analyze the actual content and use normal scoring (0-25 per category).\n"
    + "\n"
    + "Please provide:\n"
    + "1. Overall Score (0-100) - Use guidelines above\n"
    + "2. Breakdown scores for each category (0-25 each)\n"
    + "3. Detailed feedback for each category based on the actual speech content\n"
    + "4. Strengths identified (if any)\n"
    + "5. Areas for improvement\n"
    + "6. Final recommendation (Pass/Fail with confidence level)\n"
    + "\n"
    + "Format your response as JSON with the following structure:\n"
    + "{\n"
    + "  \"overallScore\": number,\n"
    + "  \"breakdown\": {\n"
    + "    \"communication\": { \"score\": number, \"feedback\": \"string\" },\n"
    + "    \"knowledge\": { \"score\": number, \"feedback\": \"string\" },\n"
    + "    \"motivation\": { \"score\": number, \"feedback\": \"string\" },\n"
    + "    \"adaptability\": { \"score\": number, \"feedback\": \"string\" }\n"
    + "  },\n"
    + "  \"strengths\": [\"string\"],\n"
    + "  \"improvements\": [\"string\"],\n"
    + "  \"recommendation\": {\n"
    + "    \"decision\": \"Pass\" | \"Fail\",\n"
    + "    \"confidence\": \"High\" | \"Medium\" | \"Low\",\n"
    + "    \"reasoning\": \"string\"\n"
    + "  }\n"
    + "}\n"

  /** create_analysis_prompt: the fixed head, the numbered summary, the fixed guidelines. */
  function AnalysisPrompt(summary: seq<SummaryEntry>): string
  {
    PromptHead + SummaryText(summary) + PromptTail
  }

  /** The substring parse_ai_response decodes: from the first '{' up to and including the last
      '}' (empty when the last '}' comes before the first '{'); `None` when either is missing. */
  function JsonSpan(reply: string): (span: Option<string>)
    ensures span.None? <==> '{' !in reply || '}' !in reply
    ensures span.Some? && span.value != [] ==> span.value[0] == '{' && span.value[|span.value| - 1] == '}'
    ensures span.Some? ==> (span.value == [] <==> RFind(reply, '}') < Find(reply, '{'))
  {
    var startIdx := Find(reply, '{');
    var endIdx := RFind(reply, '}') + 1;
    if startIdx != -1 && endIdx != 0 then Some(Slice(reply, startIdx, endIdx)) else None
  }

  /** A JSON payload embedded in prose with no '{' before it and no '}' after it is extracted
      exactly. */
  lemma JsonSpanOfEmbedded(before: string, payload: string, after: string)
    requires '{' !in before && '}' !in after
    requires |payload| >= 2 && payload[0] == '{' && payload[|payload| - 1] == '}'
    ensures JsonSpan(before + payload + after) == Some(payload)
  {
    var reply := before + payload + after;
    assert reply == before + (payload + after);
    FindAfter(before, payload + after, '{');
    RFindBefore(before + payload, after, '}');
    assert reply[|before|..|before| + |payload|] == payload;
  }

  /** Whether any stored response passes the content gate. */
  predicate AnyMeaningful(responses: seq<Response>)
  {
    exists i :: 0 <= i < |responses| && HasMeaningfulContent(responses[i].transcription)
  }

  /** The fixed texts of the fallback report. */
  const NoResponsesFeedback: string := "No responses provided during interview"
  const NoMeaningfulFeedback: string := "No meaningful responses provided during interview"
  const DefaultScoreFeedback: string := "Analysis failed - using default score"
  const DefaultAssessment: string := "Analysis failed - using default assessment"
  const NoStrengths: string := "No strengths identified due to lack of participation"
  const ProvideResponses: string := "Provide meaningful responses to interview questions"
  const PracticeSpeaking: string := "Practice speaking clearly and confidently"
  const NoMeaningfulReasoning: string := "Candidate provided no meaningful responses during the interview"

  /** The fallback overall score: 0 with no responses, 15 when none is meaningful, 75 otherwise. */
  function FallbackScore(responses: seq<Response>): (score: int)
    ensures score == 0 || score == 15 || score == 75
    ensures score == 0 <==> |responses| == 0
    ensures score == 75 <==> AnyMeaningful(responses)
  {
    if |responses| == 0 then 0 else if !AnyMeaningful(responses) then 15 else 75
  }

  /** get_fallback_response: the score above; each category scores a quarter of it with one
      shared feedback text; the decision is "Pass" exactly when some response is meaningful,
      always with "Low" confidence. */
  function FallbackReport(responses: seq<Response>): (report: Report)
    ensures report.overallScore == Some(FallbackScore(responses))
    ensures report.breakdown.Some? && report.recommendation.Some?
    ensures report.recommendation.value.decision == Some(if AnyMeaningful(responses) then "Pass" else "Fail")
    ensures report.recommendation.value.confidence == Some("Low")
    ensures var b := report.breakdown.value;
      && b.communication.Some? && b.knowledge.Some? && b.motivation.Some? && b.adaptability.Some?
      && b.communication.value.score == Some(FallbackScore(responses) / 4)
      && b.knowledge == b.communication && b.motivation == b.communication && b.adaptability == b.communication
    ensures |report.strengths| == 1
    ensures |report.improvements| == if AnyMeaningful(responses) then 1 else 2
  {
    var meaningful := AnyMeaningful(responses);
    var score := FallbackScore(responses);
    var feedback :=
      if |responses| == 0 then NoResponsesFeedback
      else if !meaningful then NoMeaningfulFeedback
      else DefaultScoreFeedback;
    var category := Some(CategoryScore(Some(score / 4), feedback));
    Report(
      Some(score),
      Some(Breakdown(category, category, category, category)),
      if meaningful then [DefaultAssessment] else [NoStrengths],
      if meaningful then [DefaultAssessment] else [ProvideResponses, PracticeSpeaking],
      Some(Recommendation(
        Some(if meaningful then "Pass" else "Fail"),
        Some("Low"),
        Some(if meaningful then DefaultAssessment else NoMeaningfulReasoning))))
  }

  /** Each fallback category score is at most 25, and the four together never exceed the
      overall score. */
  lemma FallbackCategoriesBounded(responses: seq<Response>)
    ensures var report := FallbackReport(responses);
      var category := report.breakdown.value.communication.value.score.value;
      0 <= category <= 25 && 4 * category <= report.overallScore.value
  {
  }

  /** Whether parse_ai_response fails on `reply`: no braces, an empty span (which `json.loads`
      always rejects), or a span the decoder rejects. */
  predicate Unparseable(reply: string, decode: string -> Option<Report>)
  {
    JsonSpan(reply).None? || JsonSpan(reply).value == "" || decode(JsonSpan(reply).value).None?
  }

  /** parse_ai_response: decodes the extracted span; any failure yields the fallback report of an
      empty session. The decoder is consulted only on a non-empty span. */
  function ParseAiResponse(reply: string, decode: string -> Option<Report>): (report: Report)
    ensures Unparseable(reply, decode) ==> report == FallbackReport([])
    ensures report != FallbackReport([]) ==>
      JsonSpan(reply).Some? && JsonSpan(reply).value != "" && decode(JsonSpan(reply).value) == Some(report)
    ensures !Unparseable(reply, decode) ==> decode(JsonSpan(reply).value) == Some(report)
  {
    match JsonSpan(reply)
    case None => FallbackReport([])
    case Some(span) =>
      if span == "" then FallbackReport([])
      else
        match decode(span)
        case Some(report) => report
        case None => FallbackReport([])
  }

  /** A reply that cannot be parsed scores 0 and fails, whatever the candidate said. */
  lemma ParseFailureScoresZero(reply: string, decode: string -> Option<Report>)
    requires Unparseable(reply, decode)
    ensures ParseAiResponse(reply, decode).overallScore == Some(0)
    ensures ParseAiResponse(reply, decode).recommendation.value.decision == Some("Fail")
  {
  }

  /** A reply whose only '}' comes before its only '{' yields an empty span, which no decoder is
      asked about: the parse falls back whatever the decoder would say. */
  lemma BracesOutOfOrder(decode: string -> Option<Report>)
    ensures JsonSpan("}{") == Some("")
    ensures ParseAiResponse("}{", decode) == FallbackReport([])
  {
    assert Find("}{", '{') == 1 && RFind("}{", '}') == 0;
  }

  /** A decodable payload embedded in the reply is what the parse returns. */
  lemma ParseEmbedded(before: string, payload: string, after: string,
                      decode: string -> Option<Report>, report: Report)
    requires '{' !in before && '}' !in after
    requires |payload| >= 2 && payload[0] == '{' && payload[|payload| - 1] == '}'
    requires decode(payload) == Some(report)
    ensures ParseAiResponse(before + payload + after, decode) == report
  {
    JsonSpanOfEmbedded(before, payload, after);
  }

  /** analyze_interview: a failure while building the summary or generating the reply gives the
      fallback report of the actual session; otherwise the reply is parsed. */
  function Evaluate(responses: seq<Response>, evaluator: string -> Option<string>,
                    decode: string -> Option<Report>): Report
  {
    if |responses| > QuestionCount then FallbackReport(responses)
    else
      match evaluator(AnalysisPrompt(Summary(responses)))
      case None => FallbackReport(responses)
      case Some(reply) => ParseAiResponse(reply, decode)
  }

  /** analyze_interview as a sequence of steps: summary loop, prompt, one evaluator call, parse. */
  method AnalyzeInterview(responses: seq<Response>, evaluator: string -> Option<string>,
                          decode: string -> Option<Report>)
    returns (report: Report)
    ensures report == Evaluate(responses, evaluator, decode)
  {
    var summary := BuildSummary(responses);
    if summary.None? {
      return FallbackReport(responses);
    }
    var prompt := AnalysisPrompt(summary.value);
    var reply := evaluator(prompt);
    if reply.None? {
      return FallbackReport(responses);
    }
    report := ParseAiResponse(reply.value, decode);
  }

  /** When the evaluator cannot be reached, a session whose answers are all silent scores 15
      and fails, and one with some meaningful answer scores 75 and passes. */
  lemma EvaluatorOutage(responses: seq<Response>, evaluator: string -> Option<string>,
                        decode: string -> Option<Report>)
    requires 0 < |responses| <= QuestionCount
    requires evaluator(AnalysisPrompt(Summary(responses))).None?
    ensures var report := Evaluate(responses, evaluator, decode);
      && report.overallScore == Some(if AnyMeaningful(responses) then 75 else 15)
      && report.recommendation.value.decision == Some(if AnyMeaningful(responses) then "Pass" else "Fail")
  {
  }

  /** When the evaluator replies but the reply cannot be parsed, the report is that of an empty
      session even if every answer was meaningful. */
  lemma UnparseableReplyIgnoresAnswers(responses: seq<Response>, evaluator: string -> Option<string>,
                                       decode: string -> Option<Report>)
    requires |responses| <= QuestionCount
    requires var reply := evaluator(AnalysisPrompt(Summary(responses)));
      reply.Some? && Unparseable(reply.value, decode)
    ensures Evaluate(responses, evaluator, decode) == FallbackReport([])
  {
  }
}
