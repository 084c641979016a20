/** The session table (session_manager.py): an in-memory map from session id to session, with
    the operations that create, extend, annotate, project and delete sessions.

    A session is `Active` until the call that brings its response count to the number of
    questions, which marks it `Completed` and stamps its end time. Responses are accepted for any
    in-range question index, in any order and repeatedly, so a completed session can go on
    receiving responses; it stays `Completed`. */
module Sessions {
  import opened Wrappers
  import opened Config
  import Speech
  import Reports

  /** Session ids come from a counter that only grows, in place of uuid4 strings. */
  type SessionId = nat

  datatype Status = Active | Completed

  /** One recorded answer: the question text at the submitted index, the stored clip's path,
      its transcription and when it was recorded. */
  datatype Response = Response(
    question: string,
    audioPath: string,
    transcription: Speech.Transcription,
    timestamp: int)

  datatype Session = Session(
    id: SessionId,
    startTime: int,
    responses: seq<Response>,
    status: Status,
    endTime: Option<int>,
    analysis: Option<Reports.Report>)

  /** Why add_response raised. */
  datatype AddError = SessionNotFound | InvalidQuestionIndex

  /** The projection get_session_status returns. */
  datatype StatusView = StatusView(
    sessionId: SessionId,
    status: Status,
    currentQuestion: nat,
    totalQuestions: nat,
    startTime: int,
    endTime: Option<int>)

  /** The projection get_session_result returns. */
  datatype ResultView = ResultView(
    sessionId: SessionId,
    analysis: Option<Reports.Report>,
    duration: int,
    totalQuestions: nat)

  /** The session create_session inserts. */
  function NewSession(id: SessionId, now: int): Session
  {
    Session(id, now, [], Active, None, None)
  }

  /** What every stored session satisfies: it is completed exactly when it holds at least as many
      responses as there are questions, and exactly then it has an end time. */
  ghost predicate WellFormed(s: Session)
  {
    && (s.status == Completed <==> |s.responses| >= QuestionCount)
    && (s.status == Completed <==> s.endTime.Some?)
  }

  /** True when appending to a session with `count` responses completes the interview. */
  predicate CompletesAt(count: nat)
  {
    count + 1 == QuestionCount
  }

  /** The session after add_response appends `r` at time `now`. */
  function Appended(s: Session, r: Response, now: int): (s': Session)
    ensures s'.responses == s.responses + [r]
    ensures s'.id == s.id && s'.startTime == s.startTime && s'.analysis == s.analysis
    ensures s'.status == Completed <==> s.status == Completed || CompletesAt(|s.responses|)
    ensures s'.endTime == if CompletesAt(|s.responses|) then Some(now) else s.endTime
    ensures WellFormed(s) ==> WellFormed(s')
  {
    var rs := s.responses + [r];
    if |rs| == QuestionCount then s.(responses := rs, status := Completed, endTime := Some(now))
    else s.(responses := rs)
  }

  /** Appends `rs` one call at a time, all at time `now`; gives the final session and how many
      of the calls reported the interview complete. */
  function AppendAll(s: Session, rs: seq<Response>, now: int): (Session, nat)
    decreases |rs|
  {
    if rs == [] then (s, 0)
    else
      var (last, completions) := AppendAll(Appended(s, rs[0], now), rs[1..], now);
      (last, completions + if CompletesAt(|s.responses|) then 1 else 0)
  }

  /** Over any run of appends, exactly the call that reaches the question count reports
      completion: at most one call per session, and none once the count is past it. The
      responses are those of the session followed by `rs`, and a completed session stays
      completed. */
  lemma {:induction false} CompletionReportedOnce(s: Session, rs: seq<Response>, now: int)
    ensures AppendAll(s, rs, now).1
         == if |s.responses| < QuestionCount <= |s.responses| + |rs| then 1 else 0
    ensures AppendAll(s, rs, now).0.responses == s.responses + rs
    ensures s.status == Completed ==> AppendAll(s, rs, now).0.status == Completed
    decreases |rs|
  {
    if rs != [] {
      var s1 := Appended(s, rs[0], now);
      CompletionReportedOnce(s1, rs[1..], now);
      assert s.responses + rs == s1.responses + rs[1..];
    }
  }

  class SessionManager {
    var sessions: map<SessionId, Session>
    /** The next id create_session hands out; no id at or above it has been issued. */
    var nextId: SessionId

    ghost predicate Valid()
      reads this
    {
      forall id :: id in sessions ==> sessions[id].id == id && id < nextId && WellFormed(sessions[id])
    }

    constructor ()
      ensures Valid() && sessions == map[]
    {
      sessions := map[];
      nextId := 0;
    }

    /** create_session: inserts an active session with no responses under an id never issued
        before, and touches no other session. */
    method CreateSession(now: int) returns (id: SessionId)
      requires Valid()
      modifies this
      ensures Valid()
      ensures id !in old(sessions) && id == old(nextId)
      ensures sessions == old(sessions)[id := NewSession(id, now)]
    {
      id := nextId;
      sessions := sessions[id := NewSession(id, now)];
      nextId := nextId + 1;
    }

    /** get_session: absence is a normal outcome. */
    function GetSession(id: SessionId): (r: Option<Session>)
      reads this
      ensures r.Some? <==> id in sessions
      ensures r.Some? ==> r.value == sessions[id]
    {
      if id in sessions then Some(sessions[id]) else None
    }

    /** add_response: an unknown id fails first, then an index outside the question list; neither
        failure changes the table. Otherwise it appends one response carrying the question text
        at that index, completes the session if the count has just reached the number of
        questions, and returns whether it did. */
    method AddResponse(id: SessionId, questionIndex: int, audioPath: string,
                       transcription: Speech.Transcription, now: int)
      returns (r: Result<bool, AddError>)
      requires Valid()
      modifies this
      ensures Valid() && nextId == old(nextId)
      ensures id !in old(sessions) ==> r == Failure(SessionNotFound) && sessions == old(sessions)
      ensures id in old(sessions) && !(0 <= questionIndex < QuestionCount) ==>
        r == Failure(InvalidQuestionIndex) && sessions == old(sessions)
      ensures id in old(sessions) && 0 <= questionIndex < QuestionCount ==>
        var s := old(sessions)[id];
        && r == Success(CompletesAt(|s.responses|))
        && sessions == old(sessions)[id := Appended(s, Response(CasQuestions[questionIndex], audioPath, transcription, now), now)]
    {
      if id !in sessions {
        return Failure(SessionNotFound);
      }
      if questionIndex < 0 || questionIndex >= |CasQuestions| {
        return Failure(InvalidQuestionIndex);
      }
      var s := sessions[id];
      var response := Response(CasQuestions[questionIndex], audioPath, transcription, now);
      var responses := s.responses + [response];
      var isComplete := |responses| == |CasQuestions|;
      if isComplete {
        sessions := sessions[id := s.(responses := responses, status := Completed, endTime := Some(now))];
      } else {
        sessions := sessions[id := s.(responses := responses)];
      }
      r := Success(isComplete);
    }

    /** set_analysis: attaches the report to a present session; a no-op for an absent id. */
    method SetAnalysis(id: SessionId, analysis: Reports.Report)
      requires Valid()
      modifies this
      ensures Valid() && nextId == old(nextId)
      ensures sessions == if id in old(sessions)
                          then old(sessions)[id := old(sessions)[id].(analysis := Some(analysis))]
                          else old(sessions)
    {
      if id in sessions {
        sessions := sessions[id := sessions[id].(analysis := Some(analysis))];
      }
    }

    /** delete_session: removes the id and reports whether it was present. */
    method DeleteSession(id: SessionId) returns (existed: bool)
      requires Valid()
      modifies this
      ensures Valid() && nextId == old(nextId)
      ensures existed <==> id in old(sessions)
      ensures sessions == old(sessions) - {id}
    {
      existed := id in sessions;
      if existed {
        sessions := sessions - {id};
      }
    }

    /** get_session_status: None for an unknown id; otherwise the count of responses so far as
        the current question, the fixed total, and an end time only once completed. */
    function GetSessionStatus(id: SessionId): (r: Option<StatusView>)
      reads this
      requires Valid()
      ensures r.None? <==> id !in sessions
      ensures r.Some? ==>
        && r.value.sessionId == id
        && r.value.status == sessions[id].status
        && r.value.currentQuestion == |sessions[id].responses|
        && r.value.totalQuestions == 10
        && r.value.startTime == sessions[id].startTime
        && r.value.endTime == sessions[id].endTime
        && (r.value.endTime.None? <==> r.value.status == Active)
    {
      if id !in sessions then None
      else
        var s := sessions[id];
        Some(StatusView(s.id, s.status, |s.responses|, |CasQuestions|, s.startTime, s.endTime))
    }

    /** get_session_result: None unless the session exists and is completed; otherwise its
        analysis (absent until set), the time from start to completion and the fixed total. */
    function GetSessionResult(id: SessionId): (r: Option<ResultView>)
      reads this
      requires Valid()
      ensures r.Some? <==> id in sessions && sessions[id].status == Completed
      ensures r.Some? ==>
        && r.value.sessionId == id
        && r.value.analysis == sessions[id].analysis
        && sessions[id].endTime.Some?
        && r.value.duration == sessions[id].endTime.value - sessions[id].startTime
        && r.value.totalQuestions == 10
    {
      if id !in sessions then None
      else
        var s := sessions[id];
        if s.status != Completed then None
        else Some(ResultView(s.id, s.analysis, s.endTime.value - s.startTime, |CasQuestions|))
    }
  }
}
