/** The pure and state-changing parts of the interview page (client/src/components/Interview.js)
    that decide what the candidate sees: the `mm:ss` recording clock, and how the page moves on
    once the server has answered an upload. */
module InterviewView {
  import opened Wrappers
  import opened Text

  /** One clock field: `n` in decimal, left-padded with '0' to at least two digits. */
  function Padded(n: nat): (field: string)
    ensures |field| >= 2 && AllDigits(field)
    ensures n < 100 ==> |field| == 2
  {
    PadStart(Decimal(n), 2, '0')
  }

  /** formatTime: whole minutes and the remaining seconds, each a padded field. */
  function FormatTime(seconds: nat): (clock: string)
    ensures |clock| >= 5
    ensures seconds < 6000 ==> |clock| == 5 && clock[2] == ':'
  {
    Padded(seconds / 60) + ":" + Padded(seconds % 60)
  }

  /** The number of seconds a minutes field and a seconds field stand for. */
  function ClockValue(minutes: string, secs: string): nat
    requires AllDigits(minutes) && AllDigits(secs)
  {
    ParseDecimal(minutes) * 60 + ParseDecimal(secs)
  }

  /** Reads a clock back: the digits before the first ':' are minutes, the digits after it seconds. */
  function ReadClock(clock: string): Option<nat>
  {
    var k := Find(clock, ':');
    if k < 0 then None
    else
      var minutes := clock[..k];
      var secs := clock[k + 1..];
      if AllDigits(minutes) && AllDigits(secs) then Some(ClockValue(minutes, secs)) else None
  }

  /** Zero-padding a digit string keeps it a digit string of the same value. */
  lemma {:induction false} PadZeroValue(s: string, width: nat)
    requires AllDigits(s)
    ensures AllDigits(PadStart(s, width, '0'))
    ensures ParseDecimal(PadStart(s, width, '0')) == ParseDecimal(s)
    decreases width - |s|
  {
    if |s| < width {
      ParseDecimalLeadingZero(s);
      assert [('0' as char)] + s == "0" + s;
      PadZeroValue("0" + s, width);
    }
  }

  /** A padded field reads back as the number it renders. */
  lemma PaddedValue(n: nat)
    ensures ParseDecimal(Padded(n)) == n
  {
    PadZeroValue(Decimal(n), 2);
    ParseDecimalOfDecimal(n);
  }

  /** The two fields of the clock: minutes of at least two digits reading as `seconds / 60`, a
      ':' and exactly two digits reading as `seconds % 60`, which is below 60; together they give
      back `seconds`. */
  lemma FormatTimeFields(seconds: nat)
    ensures exists minutes: string, secs: string ::
      && FormatTime(seconds) == minutes + ":" + secs
      && |minutes| >= 2 && |secs| == 2 && AllDigits(minutes) && AllDigits(secs)
      && ParseDecimal(minutes) == seconds / 60
      && ParseDecimal(secs) == seconds % 60 < 60
      && ParseDecimal(minutes) * 60 + ParseDecimal(secs) == seconds
  {
    var minutes, secs := Padded(seconds / 60), Padded(seconds % 60);
    assert FormatTime(seconds) == minutes + ":" + secs;
    assert ParseDecimal(minutes) == seconds / 60 && ParseDecimal(secs) == seconds % 60 by {
      PaddedValue(seconds / 60);
      PaddedValue(seconds % 60);
    }
    assert |minutes| >= 2 && |secs| == 2 && AllDigits(minutes) && AllDigits(secs);
    assert ParseDecimal(minutes) * 60 + ParseDecimal(secs) == seconds;
  }


  /** Any two digit strings joined by ':' read back as minutes and seconds. */
  lemma ReadClockOfFields(minutes: string, secs: string)
    requires AllDigits(minutes) && AllDigits(secs)
    ensures ReadClock(minutes + ":" + secs) == Some(ClockValue(minutes, secs))
  {
    var tail := ":" + secs;
    assert ':' !in minutes by {
      assert forall i :: 0 <= i < |minutes| ==> IsDigit(minutes[i]);
    }
    FindAfter(minutes, tail, ':');
    var clock := minutes + tail;
    var k := Find(clock, ':');
    assert k == |minutes|;
    assert clock[..k] == minutes;
    assert clock[k + 1..] == secs;
    assert minutes + ":" + secs == clock;
  }

  /** Reading the clock back recovers the number of seconds. */
  lemma ReadFormatTime(seconds: nat)
    ensures ReadClock(FormatTime(seconds)) == Some(seconds)
  {
    var minutes, secs := Padded(seconds / 60), Padded(seconds % 60);
    assert FormatTime(seconds) == minutes + ":" + secs;
    assert ClockValue(minutes, secs) == seconds by {
      PaddedValue(seconds / 60);
      PaddedValue(seconds % 60);
    }
    ReadClockOfFields(minutes, secs);
  }


  /** How the upload request ended, as the page sees it: an HTTP error status with the response
      text, a JSON reply, the 45-second abort, or any other rejection with its message. */
  datatype ServerAnswer =
    | HttpError(status: nat, body: string)
    | Replied(success: bool, isComplete: bool, nextQuestionIndex: int)
    | Aborted
    | NetworkFailure(message: string)

  /** The page state uploadAudio reads and writes. */
  datatype Screen = Screen(
    currentQuestionIndex: int,
    audioBlob: Option<seq<bv8>>,
    recordingTime: nat,
    isUploading: bool,
    isAnalyzing: bool,
    error: Option<string>)

  const UploadFailedPrefix: string := "Failed to upload audio: "
  const RetryMessage: string := "Failed to upload audio. Please try again."
  const TooLongMessage: string := "Speech recognition is taking too long. Please try again with a shorter recording."

  /** The message shown for an answer that is not a successful reply. */
  function UploadError(answer: ServerAnswer): Option<string>
  {
    match answer
    case HttpError(status, body) => Some(UploadFailedPrefix + "HTTP " + Decimal(status) + ": " + body)
    case Replied(success, _, _) => if success then None else Some(RetryMessage)
    case Aborted => Some(TooLongMessage)
    case NetworkFailure(message) => Some(UploadFailedPrefix + message)
  }

  /** The page state after uploadAudio has handled `answer`; with no recorded clip nothing happens. */
  function AfterUpload(s: Screen, answer: ServerAnswer): (after: Screen)
    ensures s.audioBlob.None? ==> after == s
    ensures s.audioBlob.Some? ==> after.isAnalyzing == (s.isAnalyzing || (answer.Replied? && answer.success && answer.isComplete))
  {
    if s.audioBlob.None? then s
    else
      var cleared := s.(isUploading := false, error := UploadError(answer));
      match answer
      case Replied(true, true, _) => cleared.(isAnalyzing := true)
      case Replied(true, false, next) =>
        cleared.(currentQuestionIndex := next, audioBlob := None, recordingTime := 0)
      case _ => cleared
  }

  /** A successful reply that does not complete the interview moves the page to the server's next
      index, drops the clip and resets the clock, and clears any error. */
  lemma AdvanceOnSuccess(s: Screen, next: int)
    requires s.audioBlob.Some?
    ensures var s' := AfterUpload(s, Replied(true, false, next));
      && s'.currentQuestionIndex == next && s'.audioBlob.None? && s'.recordingTime == 0
      && s'.error.None? && s'.isAnalyzing == s.isAnalyzing && !s'.isUploading
  {
  }

  /** A successful reply that completes the interview starts the analysis instead of advancing:
      the index, the clip and the clock stay as they were. */
  lemma AnalyseOnCompletion(s: Screen, next: int)
    requires s.audioBlob.Some?
    ensures var s' := AfterUpload(s, Replied(true, true, next));
      && s'.isAnalyzing && s'.currentQuestionIndex == s.currentQuestionIndex
      && s'.audioBlob == s.audioBlob && s'.recordingTime == s.recordingTime
      && s'.error.None? && !s'.isUploading
  {
  }

  /** Every upload that is handled ends with the upload flag down, and it shows an error exactly
      when the answer was not a successful reply; a failure changes nothing else, so the same
      clip can be sent again. */
  lemma UploadSettles(s: Screen, answer: ServerAnswer)
    requires s.audioBlob.Some?
    ensures var s' := AfterUpload(s, answer);
      && !s'.isUploading
      && (s'.error.None? <==> answer.Replied? && answer.success)
      && (s'.error.Some? ==> s' == s.(isUploading := false, error := s'.error))
  {
  }

  /** The interview page's state, updated in place as React state setters do. */
  class InterviewScreen {
    var currentQuestionIndex: int
    var audioBlob: Option<seq<bv8>>
    var recordingTime: nat
    var isUploading: bool
    var isAnalyzing: bool
    var error: Option<string>

    function State(): Screen
      reads this
    {
      Screen(currentQuestionIndex, audioBlob, recordingTime, isUploading, isAnalyzing, error)
    }

    /** The page as first shown: the first question, nothing recorded. */
    constructor ()
      ensures State() == Screen(0, None, 0, false, false, None)
    {
      currentQuestionIndex := 0;
      audioBlob := None;
      recordingTime := 0;
      isUploading := false;
      isAnalyzing := false;
      error := None;
    }

    /** uploadAudio, once the request has ended with `answer`. */
    method UploadAudio(answer: ServerAnswer)
      modifies this
      ensures State() == AfterUpload(old(State()), answer)
    {
      if audioBlob.None? {
        return;
      }
      isUploading := true;
      error := None;
      match answer {
        case HttpError(status, body) =>
          error := Some(UploadFailedPrefix + "HTTP " + Decimal(status) + ": " + body);
        case Replied(success, isComplete, next) =>
          if success {
            if isComplete {
              isAnalyzing := true;
            } else {
              currentQuestionIndex := next;
              audioBlob := None;
              recordingTime := 0;
            }
          } else {
            error := Some(RetryMessage);
          }
        case Aborted =>
          error := Some(TooLongMessage);
        case NetworkFailure(message) =>
          error := Some(UploadFailedPrefix + message);
      }
      isUploading := false;
    }
  }
}
