/** The decision logic of the HTTP handlers (routes.py): the guards of upload_audio with their
    status codes, transcription, the append, evaluation exactly when the append completes the
    interview, and the reply; and the mapping of the manager's lookups to replies or 404. */
module Routes {
  import opened Wrappers
  import opened Text
  import opened Config
  import Speech
  import opened Sessions
  import Reports
  import Evaluation

  /** The parts of an upload request the handler reads. `questionIndex` is the outcome of
      converting the form field to an integer (failing with the conversion error's text);
      `audioFilename` is the filename of the 'audio' file part, when there is one; `sessionId`
      is `None` when the form field is missing or names no id the table could hold. */
  datatype UploadRequest = UploadRequest(
    sessionId: Option<SessionId>,
    questionIndex: Result<int, string>,
    audioFilename: Option<string>)

  /** An error reply with its HTTP status, or the success reply of upload_audio. */
  datatype UploadReply =
    | UploadFailed(code: nat, message: string)
    | Uploaded(
        nextQuestionIndex: int,
        isComplete: bool,
        nextQuestion: Option<string>,
        transcription: string,
        hasMeaningfulContent: bool)

  /** Where the clip is saved: `<session id>-<uploaded filename>` under the upload folder. */
  function AudioPath(id: SessionId, filename: string): string
  {
    "uploads/" + Decimal(id) + "-" + filename
  }

  /** Whether an upload passes every guard of upload_audio against the table `sessions`. */
  predicate Admitted(req: UploadRequest, sessions: map<SessionId, Session>)
  {
    && req.questionIndex.Success?
    && req.audioFilename.Some?
    && req.sessionId.Some? && req.sessionId.value in sessions
    && 0 <= req.questionIndex.value < QuestionCount
  }

  /** The session after an admitted upload appends `r` at time `now`: when the append completes
      the interview, the evaluation of its responses is attached as its analysis. */
  function Recorded(before: Session, r: Response, now: int, evaluator: string -> Option<string>,
                    decode: string -> Option<Reports.Report>): (after: Session)
    ensures after.responses == before.responses + [r]
    ensures CompletesAt(|before.responses|) ==>
      && |after.responses| == QuestionCount
      && after.analysis == Some(Evaluation.Evaluate(before.responses + [r], evaluator, decode))
    ensures !CompletesAt(|before.responses|) ==> after.analysis == before.analysis
  {
    var appended := Appended(before, r, now);
    if CompletesAt(|before.responses|)
    then appended.(analysis := Some(Evaluation.Evaluate(appended.responses, evaluator, decode)))
    else appended
  }

  /** The completion branch of upload_audio: evaluates the stored session's responses and
      attaches the report to it. */
  method EvaluateSession(sm: SessionManager, id: SessionId, evaluator: string -> Option<string>,
                         decode: string -> Option<Reports.Report>)
    requires sm.Valid() && id in sm.sessions
    modifies sm
    ensures sm.Valid() && sm.nextId == old(sm.nextId)
    ensures sm.sessions == old(sm.sessions)[id := old(sm.sessions)[id].(analysis :=
              Some(Evaluation.Evaluate(old(sm.sessions)[id].responses, evaluator, decode)))]
  {
    hide Evaluation.Evaluate;
    // The session object the handler fetched is the one add_response appended to.
    var current := sm.sessions[id];
    var analysis := Evaluation.AnalyzeInterview(current.responses, evaluator, decode);
    sm.SetAnalysis(id, analysis);
  }

  /** The state-changing middle of upload_audio: transcribe, append, and evaluate the interview
      exactly when the append reports it complete. */
  method RecordAnswer(sm: SessionManager, id: SessionId, questionIndex: int, audioPath: string,
                      engine: Speech.EngineOutcome, evaluator: string -> Option<string>,
                      decode: string -> Option<Reports.Report>, now: int)
    returns (transcription: Speech.Transcription, isComplete: bool)
    requires sm.Valid() && id in sm.sessions && 0 <= questionIndex < QuestionCount
    modifies sm
    ensures sm.Valid() && sm.nextId == old(sm.nextId)
    ensures transcription == Speech.Shaped(engine)
    ensures isComplete == CompletesAt(|old(sm.sessions)[id].responses|)
    ensures sm.sessions == old(sm.sessions)[id := Recorded(old(sm.sessions)[id],
              Response(CasQuestions[questionIndex], audioPath, transcription, now), now, evaluator, decode)]
  {
    hide Evaluation.Evaluate;
    transcription := Speech.TranscribeAudio(engine);
    var added := sm.AddResponse(id, questionIndex, audioPath, transcription, now);
    isComplete := added.Success? && added.value;
    if isComplete {
      EvaluateSession(sm, id, evaluator, decode);
    }
  }

  /** An upload that passed every guard: record it and build the reply. A non-completing answer
      to the last question has no next question to look up, which raises after the response has
      been stored. */
  method AcceptUpload(sm: SessionManager, id: SessionId, questionIndex: int, filename: string,
                      engine: Speech.EngineOutcome, evaluator: string -> Option<string>,
                      decode: string -> Option<Reports.Report>, now: int)
    returns (reply: UploadReply)
    requires sm.Valid() && id in sm.sessions && 0 <= questionIndex < QuestionCount
    modifies sm
    ensures sm.Valid() && sm.nextId == old(sm.nextId)
    ensures var t := Speech.Shaped(engine);
      var before := old(sm.sessions)[id];
      && sm.sessions == old(sm.sessions)[id := Recorded(before,
           Response(CasQuestions[questionIndex], AudioPath(id, filename), t, now), now, evaluator, decode)]
      && reply == if CompletesAt(|before.responses|)
                  then Uploaded(questionIndex + 1, true, None, t.text, Speech.HasMeaningfulContent(t))
                  else if questionIndex + 1 < QuestionCount
                  then Uploaded(questionIndex + 1, false, Some(CasQuestions[questionIndex + 1]), t.text,
                                Speech.HasMeaningfulContent(t))
                  else UploadFailed(500, UploadFailedPrefix + "list index out of range")
  {
    hide Evaluation.Evaluate;
    var filepath := AudioPath(id, filename);
    var transcription, isComplete := RecordAnswer(sm, id, questionIndex, filepath, engine, evaluator, decode, now);
    var nextQuestion: Option<string> := None;
    if !isComplete {
      if questionIndex + 1 >= |CasQuestions| {
        return UploadFailed(500, UploadFailedPrefix + "list index out of range");
      }
      nextQuestion := Some(CasQuestions[questionIndex + 1]);
    }
    reply := Uploaded(questionIndex + 1, isComplete, nextQuestion, transcription.text,
                      Speech.HasMeaningfulContent(transcription));
  }

  const UploadFailedPrefix: string := "Failed to upload audio: "
  const NoAudioMessage: string := "No audio file provided"
  const SessionNotFoundMessage: string := "Session not found"
  const InvalidIndexMessage: string := "Invalid question index"

  /** upload_audio. The guards run in order: the index conversion (500), the audio part (400),
      the session (404), the index range (400); a rejected upload changes nothing. An admitted
      upload is recorded as `AcceptUpload` states. */
  method UploadAudio(sm: SessionManager, req: UploadRequest, engine: Speech.EngineOutcome,
                     evaluator: string -> Option<string>, decode: string -> Option<Reports.Report>,
                     now: int)
    returns (reply: UploadReply)
    requires sm.Valid()
    modifies sm
    ensures sm.Valid() && sm.nextId == old(sm.nextId)
    ensures req.questionIndex.Failure? ==>
      reply == UploadFailed(500, UploadFailedPrefix + req.questionIndex.error)
    ensures req.questionIndex.Success? && req.audioFilename.None? ==>
      reply == UploadFailed(400, NoAudioMessage)
    ensures req.questionIndex.Success? && req.audioFilename.Some?
            && (req.sessionId.None? || req.sessionId.value !in old(sm.sessions)) ==>
      reply == UploadFailed(404, SessionNotFoundMessage)
    ensures req.questionIndex.Success? && req.audioFilename.Some?
            && req.sessionId.Some? && req.sessionId.value in old(sm.sessions)
            && !(0 <= req.questionIndex.value < QuestionCount) ==>
      reply == UploadFailed(400, InvalidIndexMessage)
    ensures !Admitted(req, old(sm.sessions)) ==> sm.sessions == old(sm.sessions)
    ensures Admitted(req, old(sm.sessions)) ==>
      var id := req.sessionId.value;
      var qi := req.questionIndex.value;
      var t := Speech.Shaped(engine);
      var before := old(sm.sessions)[id];
      && sm.sessions == old(sm.sessions)[id := Recorded(before,
           Response(CasQuestions[qi], AudioPath(id, req.audioFilename.value), t, now), now, evaluator, decode)]
      && reply == if CompletesAt(|before.responses|)
                  then Uploaded(qi + 1, true, None, t.text, Speech.HasMeaningfulContent(t))
                  else if qi + 1 < QuestionCount
                  then Uploaded(qi + 1, false, Some(CasQuestions[qi + 1]), t.text, Speech.HasMeaningfulContent(t))
                  else UploadFailed(500, UploadFailedPrefix + "list index out of range")
  {
    hide Evaluation.Evaluate;
    if req.questionIndex.Failure? {
      return UploadFailed(500, UploadFailedPrefix + req.questionIndex.error);
    }
    var questionIndex := req.questionIndex.value;
    if req.audioFilename.None? {
      return UploadFailed(400, NoAudioMessage);
    }
    var session := if req.sessionId.Some? then sm.GetSession(req.sessionId.value) else None;
    if session.None? {
      return UploadFailed(404, SessionNotFoundMessage);
    }
    if questionIndex < 0 || questionIndex >= |CasQuestions| {
      return UploadFailed(400, InvalidIndexMessage);
    }
    reply := AcceptUpload(sm, req.sessionId.value, questionIndex, req.audioFilename.value, engine,
                          evaluator, decode, now);
  }

  /** The reply of start_interview. */
  datatype StartReply = StartReply(sessionId: SessionId, currentQuestion: string, totalQuestions: nat)

  /** start_interview: a new session under a fresh id, the first question and the total. */
  method StartInterview(sm: SessionManager, now: int) returns (reply: StartReply)
    requires sm.Valid()
    modifies sm
    ensures sm.Valid()
    ensures reply.sessionId !in old(sm.sessions)
    ensures sm.sessions == old(sm.sessions)[reply.sessionId := NewSession(reply.sessionId, now)]
    ensures reply.currentQuestion == CasQuestions[0] && reply.totalQuestions == 10
  {
    var id := sm.CreateSession(now);
    reply := StartReply(id, CasQuestions[0], |CasQuestions|);
  }

  /** A found body, or an error reply with its HTTP status. */
  datatype Lookup<T> = Found(body: T) | NotFound(code: nat, message: string)

  /** get_interview_result: 404 exactly when the session is missing or not yet completed. */
  function InterviewResult(sm: SessionManager, id: SessionId): (r: Lookup<ResultView>)
    reads sm
    requires sm.Valid()
    ensures r.NotFound? <==> id !in sm.sessions || sm.sessions[id].status != Completed
    ensures r.NotFound? ==> r == NotFound(404, "Session not found or not completed")
    ensures r.Found? ==> r.body.sessionId == id && r.body.analysis == sm.sessions[id].analysis
    ensures r.Found? ==> sm.GetSessionResult(id) == Some(r.body)
  {
    match sm.GetSessionResult(id)
    case None => NotFound(404, "Session not found or not completed")
    case Some(view) => Found(view)
  }

  /** get_interview_status: 404 exactly when the session is missing. */
  function InterviewStatus(sm: SessionManager, id: SessionId): (r: Lookup<StatusView>)
    reads sm
    requires sm.Valid()
    ensures r.NotFound? <==> id !in sm.sessions
    ensures r.NotFound? ==> r == NotFound(404, SessionNotFoundMessage)
    ensures r.Found? ==> r.body.currentQuestion == |sm.sessions[id].responses|
    ensures r.Found? ==> sm.GetSessionStatus(id) == Some(r.body)
  {
    match sm.GetSessionStatus(id)
    case None => NotFound(404, SessionNotFoundMessage)
    case Some(view) => Found(view)
  }

  /** The reply of delete_interview. */
  datatype DeleteReply = Deleted(message: string) | DeleteFailed(code: nat, message: string)

  /** delete_interview: 404 exactly when there was no such session; afterwards there is none. */
  method DeleteInterview(sm: SessionManager, id: SessionId) returns (reply: DeleteReply)
    requires sm.Valid()
    modifies sm
    ensures sm.Valid()
    ensures reply.DeleteFailed? <==> id !in old(sm.sessions)
    ensures reply.DeleteFailed? ==> reply == DeleteFailed(404, SessionNotFoundMessage)
    ensures reply.Deleted? ==> reply == Deleted("Interview session deleted")
    ensures sm.sessions == old(sm.sessions) - {id}
  {
    var existed := sm.DeleteSession(id);
    if existed {
      reply := Deleted("Interview session deleted");
    } else {
      reply := DeleteFailed(404, SessionNotFoundMessage);
    }
  }
}
