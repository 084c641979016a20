# CAS interview pipeline — a Dafny model

This project models the server-side pipeline of the CAS interview system. It also models the two
client helpers that decide what the candidate sees. The pipeline:

- serves a fixed list of ten questions;
- accepts one audio upload per question and transcribes it;
- decides whether each transcription carries meaningful speech;
- records the answers in an in-memory session table;
- once the tenth answer arrives, asks a generative evaluator for a scored report, falling back to
  a rule-based report when generation or parsing fails.

Files and modules:

| file | module | models |
|---|---|---|
| `wrappers.dfy` | `Wrappers` | `Option` and `Result` |
| `config.dfy` | `Config` | the question list `CAS_QUESTIONS` |
| `text.dfy` | `Text` | the Python and JavaScript string operations the core relies on: `str.strip`, `str.split`, `str.join`, `str.find`/`rfind`, slicing, `str(n)` / `toString`, `padStart` |
| `speech.dfy` | `Speech` | the transcription adapter and the content gate (`speech_service.py`) |
| `reports.dfy` | `Reports` | the evaluation report |
| `sessions.dfy` | `Sessions` | `SessionManager` (`session_manager.py`), a class whose table is updated in place |
| `evaluation.dfy` | `Evaluation` | the evaluation engine (`ai_service.py`) |
| `routes.dfy` | `Routes` | the decision logic of the HTTP handlers (`routes.py`) |
| `results_view.dfy` | `ResultsView` | score bands, chart data and display defaults of the results page (`Results.js`) |
| `interview_view.dfy` | `InterviewView` | the recording clock and the upload outcome of the interview page (`Interview.js`) |

Outside collaborators become parameters:

- The speech recogniser is an `EngineOutcome`: its segments with the language and whether the
  language probability exceeded 0.8, or a timeout, or an error with its message.
- The generative evaluator is a function from prompt to reply, where `None` stands for a raised
  error.
- The JSON decoder is a function from the extracted text to a report, where `None` stands for any
  error raised while decoding or while logging the decoded result.
- `uuid4` becomes a counter that hands out fresh natural numbers.
- `datetime.now` becomes an integer `now` argument.

The model follows the code as written, including these behaviours:

- `add_response` accepts any in-range index, in any order and more than once. A session can
  therefore hold more than ten responses. It is `Completed` exactly when it holds at least ten
  (`Sessions.WellFormed`), and the call that brings the count to exactly ten is the only one
  that reports completion (`Sessions.CompletionReportedOnce`).
- The fallback report's strengths, improvements and reasoning are the code's exact strings.
- A reply that cannot be parsed yields the fallback report of an *empty* session: score 0 and
  "Fail", whatever the candidate said. A reply whose every '}' comes before its first '{' gives
  an empty span, which `json.loads` always rejects, so it is unparseable too. A failed generation yields the fallback report of the
  real session.
- A non-completing answer to the last question is stored, and then the lookup of the next
  question raises. The client receives a 500 reply "Failed to upload audio: list index out of
  range", although the answer has been recorded.

## Model

| member | source | states |
|---|---|---|
| Sessions.SessionManager.constructor | session_manager.py:6-7 | the table starts empty |
| Sessions.SessionManager.CreateSession | session_manager.py:9-17 | inserts an active session with no responses under an id that was not present; no other session changes |
| Sessions.SessionManager.GetSession | session_manager.py:19-20 | `Some` exactly when the id is present, with that session |
| Sessions.SessionManager.AddResponse | session_manager.py:22-44 | an unknown id fails first and an out-of-range index fails second, both leaving the table unchanged; otherwise exactly one response is appended to that session only, carrying `CAS_QUESTIONS[index]`, and the result is whether the interview just completed |
| Sessions.Appended | session_manager.py:29-44 | the appended response is last; the status becomes Completed exactly when the count reaches ten, and is never set back; the end time is stamped only then; well-formedness is preserved |
| Sessions.CompletionReportedOnce | session_manager.py:36-44 | over any run of appends, completion is reported exactly once if the run crosses ten responses and never otherwise; a completed session stays completed |
| Sessions.SessionManager.SetAnalysis | session_manager.py:46-48 | a no-op for an absent id; otherwise only that session's analysis changes |
| Sessions.SessionManager.DeleteSession | session_manager.py:50-54 | reports whether the id was present; afterwards it is absent and nothing else changed |
| Sessions.SessionManager.GetSessionStatus | session_manager.py:56-68 | `None` exactly for an absent id; the current question is the response count, the total is 10, start and end times are the session's own, and there is no end time exactly while active |
| Sessions.SessionManager.GetSessionResult | session_manager.py:70-83 | `Some` exactly for a present completed session; carries its analysis (possibly absent), the end minus start duration and the total of 10 |
| Speech.FallbackTranscription | speech_service.py:108-114 | empty text, language "unknown", low confidence, the given error, no segments, and never meaningful |
| Text.LoweredLength | speech_service.py:120 | the length of the lowercased text is at least the original length, and equal to it exactly when there is no capital dotted I (U+0130), which lowercases to two code points |
| Speech.HasMeaningfulContent | speech_service.py:116-127 | a meaningful text is non-empty with at least 3 words; at least 10 stripped characters and 3 words always suffice |
| Speech.MeaningfulIff | speech_service.py:116-127 | a transcription is meaningful exactly when its stripped, lowercased text has at least 10 code points and it has at least 3 words |
| Speech.FewWordsNotMeaningful | speech_service.py:123-125 | fewer than 3 words are never meaningful |
| Speech.ThreeWordsMeaningful | speech_service.py:116-127 | three space-separated words of 10 code points in all, once lowercased, are meaningful |
| Speech.DottedCapitalICountsTwice | speech_service.py:120-121 | three words of only 9 characters pass the gate when they contain a capital dotted I |
| Speech.DottedExample | speech_service.py:120-121 | "İa bb ccc" has 9 characters and 10 once lowercased |
| Speech.Shaped | speech_service.py:60-96 | low confidence exactly on the fallback path, which is exactly the empty-text path; a recognised clip avoids the fallback exactly when the stripped space-join of its segment texts is non-empty, and then that is the text, the segments and language are kept, and the confidence is high exactly when the language probability exceeded 0.8 |
| Speech.NoSpeechIffBlankSegments | speech_service.py:71-87 | a recognised clip falls back to "No speech detected" exactly when every segment text is whitespace |
| Speech.TranscribeAudio | speech_service.py:60-87 | the segment loop yields the result `Speech.Shaped` specifies: texts space-joined and stripped, one timing span per segment, in order |
| Text.TrimLeftSplits | speech_service.py:71 | the string is the whitespace it loses followed by what remains |
| Text.TrimRightSplits | speech_service.py:71 | the string is what remains followed by the whitespace it loses |
| Text.StripEmptyIff | speech_service.py:71-73 | a string strips to empty exactly when it is all whitespace |
| Text.JoinAllSpace | speech_service.py:71 | a space-join is all whitespace exactly when every part is |
| Text.Split | speech_service.py:123 | every word is non-empty and contains no whitespace |
| Text.SplitOfStrip | speech_service.py:120-123 | stripping does not change the words |
| Text.Find | ai_service.py:118 | the first index of the character, or -1 exactly when it is absent |
| Text.RFind | ai_service.py:119 | the last index of the character, or -1 exactly when it is absent |
| Text.Decimal | client/src/components/Interview.js:306 | at least one digit, all digits; one digit exactly below 10, two exactly from 10 to 99 |
| Text.ParseDecimalOfDecimal | client/src/components/Interview.js:306 | reading back a decimal rendering gives the number |
| Text.PadStart | client/src/components/Interview.js:306 | the result has the width or the original length, whichever is larger, ends with the original string and is padded with the fill |
| Evaluation.Summary | ai_service.py:16-31 | one entry per response, in order; the question is taken by position; the response text is kept exactly when it is meaningful, otherwise it is "No meaningful speech detected" |
| Evaluation.BuildSummary | ai_service.py:16-31 | the loop raises, reported as `None`, exactly when there are more responses than questions; otherwise it yields `Evaluation.Summary` |
| Evaluation.SummaryText | ai_service.py:64-67 | empty for an empty summary; otherwise it opens with the first numbered block |
| Evaluation.AnalysisPrompt | ai_service.py:62-114 | the fixed head, the summary text and the fixed guidelines, in that order (no contract of its own; see "Left out") |
| Evaluation.SummaryTextSnoc | ai_service.py:64-67 | the summary text is the newline-join of the blocks in order: one more entry adds a newline and its numbered block |
| Evaluation.JsonSpan | ai_service.py:118-122 | `None` exactly when there is no '{' or no '}'; a present span is empty exactly when the last '}' comes before the first '{', and otherwise starts with '{' and ends with '}' |
| Evaluation.JsonSpanOfEmbedded | ai_service.py:118-122 | a payload with no '{' before it and no '}' after it is extracted exactly |
| Evaluation.ParseAiResponse | ai_service.py:116-138 | a missing or empty span or a decoding failure gives the empty-session fallback; any other result is the decoding of a non-empty span, and whenever the non-empty span decodes, the result is that decoding |
| Evaluation.BracesOutOfOrder | ai_service.py:118-123 | "}{" gives an empty span and the fallback, whatever the decoder would say |
| Evaluation.ParseEmbedded | ai_service.py:116-132 | a decodable embedded payload is the parse result |
| Evaluation.ParseFailureScoresZero | ai_service.py:116-138 | any parse failure, including an empty span, gives score 0 and "Fail" |
| Evaluation.FallbackScore | ai_service.py:144-158 | the score is 0, 15 or 75; 0 exactly when there are no responses; 75 exactly when some response is meaningful |
| Evaluation.FallbackReport | ai_service.py:140-175 | carries the fallback score; all four categories are equal and score a quarter of it; "Pass" exactly when some answer is meaningful; confidence "Low"; one strength; one improvement if meaningful, else two |
| Evaluation.FallbackCategoriesBounded | ai_service.py:160-167 | a fallback category scores from 0 to 25, and the four together never exceed the overall score |
| Evaluation.Evaluate | ai_service.py:11-60 | the reference for analyze_interview; its properties are those of `Evaluation.EvaluatorOutage` and `Evaluation.UnparseableReplyIgnoresAnswers`, and `Evaluation.AnalyzeInterview` is proved to compute it |
| Evaluation.AnalyzeInterview | ai_service.py:11-60 | summary loop, prompt, one evaluator call and parse, with the fallback of the real session on any raised error, as `Evaluation.Evaluate` specifies |
| Evaluation.EvaluatorOutage | ai_service.py:45-60 | when generation fails the session scores 75 and passes if some answer is meaningful, else 15 and fails |
| Evaluation.UnparseableReplyIgnoresAnswers | ai_service.py:56 | an unparseable reply yields the empty-session fallback even for a meaningful interview |
| Routes.Recorded | routes.py:85-100 | one response appended; the evaluation of all ten responses is attached exactly when the append completes the interview |
| Routes.EvaluateSession | routes.py:95-100 | only the given session changes, and it gains the report `Evaluation.Evaluate` gives for its stored responses |
| Routes.RecordAnswer | routes.py:74-100 | transcribes, appends, and evaluates and stores the report exactly when the append reports completion |
| Routes.AcceptUpload | routes.py:65-112 | an admitted upload is recorded as `Routes.Recorded` states; the reply carries index + 1, `isComplete` from the append, the next question exactly when not complete, or 500 after storing when there is no next question |
| Routes.UploadAudio | routes.py:29-118 | guards in order: bad index text 500, no audio 400, unknown session 404, index out of range 400, none changing the table; an admitted upload is recorded; the reply carries index + 1, `isComplete` from the append, the next question exactly when not complete, or 500 after storing when there is no next question |
| Routes.StartInterview | routes.py:19-27 | a new session under a fresh id, the first question and the total 10 |
| Routes.InterviewResult | routes.py:120-126 | 404 exactly when the session is absent or not completed; otherwise the body is exactly the manager's result view |
| Routes.InterviewStatus | routes.py:128-134 | 404 exactly when the session is absent; otherwise the body is exactly the manager's status view |
| Routes.DeleteInterview | routes.py:136-141 | 404 exactly when there was no such session; afterwards it is absent |
| ResultsView.ScoreColor | client/src/components/Results.js:14-19 | each colour goes with exactly one band: from 80, from 60, from 40, below 40 |
| ResultsView.ScoreClass | client/src/components/Results.js:21-26 | each class goes with exactly the same band as its colour |
| ResultsView.ScoreLabel | client/src/components/Results.js:28-33 | each label goes with exactly the same band as its colour |
| ResultsView.CardColor | client/src/components/Results.js:156-171 | a detailed card is red exactly when its score is missing or below 40, so every category score from 0 to 25 is red |
| ResultsView.BreakdownData | client/src/components/Results.js:35-40 | four entries in the fixed order with their colours when a breakdown exists, none otherwise |
| ResultsView.BarData | client/src/components/Results.js:42-46 | same length, order, names, values and colours as the pie data |
| ResultsView.DisplayedScore | client/src/components/Results.js:62-66 | a missing report or score is shown as 0 |
| ResultsView.DisplayedDecision | client/src/components/Results.js:89 | a present, non-empty decision is shown as it is; a missing one shows "Pending"; the shown text is never empty |
| ResultsView.DisplayedConfidence | client/src/components/Results.js:93 | a present, non-empty confidence is shown as it is; a missing one shows "Unknown"; the shown text is never empty |
| ResultsView.DisplayedReasoning | client/src/components/Results.js:96 | present, non-empty reasoning is shown as it is; a missing one shows "No reasoning provided"; the shown text is never empty |
| ResultsView.PassStylingIff | client/src/components/Results.js:72-86 | success styling exactly when the shown decision is "Pass"; everything else is styled as failure |
| ResultsView.FallbackDisplay | client/src/components/Results.js:62-96 | a fallback report shows "Good" and "Pass" when some answer was meaningful, "Needs Improvement" and "Fail" otherwise, confidence "Low", four equal chart values, and all-red cards |
| InterviewView.Padded | client/src/components/Interview.js:306 | a field is all digits, at least two of them, and exactly two below 100 |
| InterviewView.PaddedValue | client/src/components/Interview.js:306 | a padded field reads back as its number |
| InterviewView.FormatTime | client/src/components/Interview.js:303-307 | at least five characters; exactly five with ':' at index 2 below 6000 seconds |
| InterviewView.PadZeroValue | client/src/components/Interview.js:306 | zero-padding keeps a digit string's value |
| InterviewView.FormatTimeFields | client/src/components/Interview.js:303-306 | the clock is minutes (two digits or more, value `s / 60`), ':', seconds (two digits, value `s % 60` below 60), and minutes * 60 + seconds is `s` |
| InterviewView.ReadClockOfFields | client/src/components/Interview.js:306 | any digits joined by ':' read back as minutes and seconds |
| InterviewView.ReadFormatTime | client/src/components/Interview.js:303-306 | reading the clock back recovers the number of seconds |
| InterviewView.InterviewScreen.constructor | client/src/components/Interview.js:9-16 | first question, nothing recorded, no error |
| InterviewView.AfterUpload | client/src/components/Interview.js:213-276 | with no recorded clip nothing changes; otherwise analysis is on afterwards exactly when it was already on or the reply was a successful completion |
| InterviewView.InterviewScreen.UploadAudio | client/src/components/Interview.js:213-276 | the new page state is `InterviewView.AfterUpload` of the old state and the server's answer |
| InterviewView.AdvanceOnSuccess | client/src/components/Interview.js:257-261 | a successful non-complete reply moves to the server's next index, drops the clip and resets the clock |
| InterviewView.AnalyseOnCompletion | client/src/components/Interview.js:253-256 | a successful complete reply starts analysis and leaves the index, clip and clock alone |
| InterviewView.UploadSettles | client/src/components/Interview.js:243-275 | the upload flag ends down; an error is shown exactly when the answer was not a successful reply, and then nothing else changes |

## Left out

- Audio processing is not modelled: Whisper inference, pydub resampling and normalisation,
  temporary files and the `SIGALRM` timeout are foreign libraries, files and signals. The
  recogniser is the `EngineOutcome` parameter.
- The language probability is not modelled as a float, only as the outcome of the `> 0.8`
  comparison.
- The Gemini client is a network call, modelled as the evaluator parameter.
- JSON is not modelled: `json.loads` and the logging of the decoded result are the decoder
  parameter. It is consulted only on a non-empty span, since `json.loads("")` always raises. Scores are integers in the report, so fractional or non-numeric scores from the
  evaluator are not represented. Extra breakdown categories and their order in the detailed
  cards are not represented either.
- Speech.HasMeaningfulContent: models `.lower()` only through the length it produces
  (`Text.LoweredLength`): the capital dotted I U+0130 becomes two code points, and every other
  character one. Lowercasing never creates or removes whitespace, so the words are counted on
  the stripped text. It does not model a missing transcription or a missing `text` key: every
  stored response carries a transcription whose text is a string, possibly empty.
- Python's `str.isspace` is modelled over the ASCII and Unicode whitespace code points it
  accepts. No Unicode normalisation is done.
- Evaluation.AnalysisPrompt: its contract is not stated. The prompt is the fixed text around
  `Evaluation.SummaryText`, which carries the properties; slicing facts about the 1500-character
  guideline text are too costly for the solver.
- Flask request parsing, `jsonify`, saving the upload, `os.makedirs`, logging, `get_questions`
  and `test_upload` are HTTP and file I/O. `Routes.UploadRequest` holds only what the handler
  decides on. The form's session id arrives as a number, so a malformed id is a missing one.
- Session ids are a counter instead of `uuid4` strings. Timestamps are integers instead of
  `datetime` values, so the duration is a plain subtraction and ISO formatting is not modelled.
- Session dictionaries are values inside the manager's map, not shared objects. The handler
  analyses the session object it fetched before appending, which is the same object the append
  changed; the model gets the same effect by reading the session back from the table.
- The session table has no locking, and all operations are modelled as sequential.
- The client is not modelled beyond the pieces named above: polling for results, the 30-second
  analysis timeout, the 45-second abort timer itself, microphone recording, speech synthesis,
  rendering, the progress percentage (a float), `config.js`, `App.js` and `app.py`. The upload's
  network outcome is the `ServerAnswer` parameter.
