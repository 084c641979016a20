/** The transcription adapter (speech_service.py): how a recogniser's output is shaped into a
    transcription result, the fallback result every failure resolves to, and the lexical gate
    that decides whether a transcription carries meaningful speech. */
module Speech {
  import opened Wrappers
  import opened Text

  /** The bucketed confidence of a transcription. */
  datatype Confidence = High | Medium | Low

  /** One timed span of recognised speech. */
  datatype Segment = Segment(start: real, end: real, text: string)

  /** A transcription result. `segments` is empty and `error` present exactly on the fallback path. */
  datatype Transcription = Transcription(
    text: string,
    language: string,
    confidence: Confidence,
    segments: seq<Segment>,
    error: Option<string>)

  /** What one run of the speech recogniser produced: its segments with the detected language and
      whether the language probability exceeded 0.8, or the timeout, or any other raised error. */
  datatype EngineOutcome =
    | Recognized(segments: seq<Segment>, language: string, probabilityAbove08: bool)
    | TimedOut
    | EngineFailed(message: string)

  /** get_fallback_transcription: the result that stands in for every failed transcription. */
  function FallbackTranscription(message: string): (t: Transcription)
    ensures t.text == "" && t.language == "unknown" && t.confidence == Low
    ensures t.error == Some(message) && t.segments == []
    ensures !HasMeaningfulContent(t)
  {
    Transcription("", "unknown", Low, [], Some(message))
  }

  /** has_meaningful_content: false for an empty text, for a stripped and lowercased text under
      10 characters, and for fewer than 3 whitespace-separated words. Lowercasing never turns a
      character into whitespace or whitespace into anything else, so the words are counted on the
      stripped text. */
  function HasMeaningfulContent(t: Transcription): (meaningful: bool)
    ensures meaningful ==> t.text != "" && |Split(t.text)| >= 3
    ensures |Strip(t.text)| >= 10 && |Split(t.text)| >= 3 ==> meaningful
  {
    SplitOfStrip(t.text);
    if t.text == "" then false
    else
      var text := Strip(t.text);
      if LoweredLength(text) < 10 then false
      else if |Split(text)| < 3 then false
      else true
  }

  /** The gate in one line: at least 10 code points once stripped and lowercased, and at least 3
      words, where the words may be counted on the raw text. */
  lemma MeaningfulIff(t: Transcription)
    ensures HasMeaningfulContent(t) <==> LoweredLength(Strip(t.text)) >= 10 && |Split(t.text)| >= 3
  {
    SplitOfStrip(t.text);
  }

  /** Fewer than three words never pass the gate, however long they are. */
  lemma FewWordsNotMeaningful(t: Transcription)
    requires |Split(t.text)| < 3
    ensures !HasMeaningfulContent(t)
  {
    SplitOfStrip(t.text);
  }

  /** Three words separated by single spaces, 10 code points in all once lowercased, always pass
      the gate. */
  lemma ThreeWordsMeaningful(t: Transcription, w1: string, w2: string, w3: string)
    requires w1 != [] && w2 != [] && w3 != []
    requires NoSpace(w1) && NoSpace(w2) && NoSpace(w3)
    requires t.text == w1 + " " + w2 + " " + w3
    requires LoweredLength(t.text) >= 10
    ensures HasMeaningfulContent(t)
  {
    var s := t.text;
    assert s == w1 + " " + (w2 + " " + w3);
    SplitWordThen(w1, w2 + " " + w3);
    SplitWordThen(w2, w3);
    SplitWord(w3);
    assert s[0] == w1[0];
    assert s[|s| - 1] == w3[|w3| - 1];
    StripTight(s);
  }

  /** Nine characters can pass the gate: three words of nine characters in all that contain a
      capital dotted I lowercase to ten code points. */
  lemma DottedCapitalICountsTwice(t: Transcription, w1: string, w2: string, w3: string)
    requires w1 != [] && w2 != [] && w3 != []
    requires NoSpace(w1) && NoSpace(w2) && NoSpace(w3)
    requires t.text == w1 + " " + w2 + " " + w3
    requires |t.text| == 9 && '\U{0130}' in t.text
    ensures HasMeaningfulContent(t)
  {
    ThreeWordsMeaningful(t, w1, w2, w3);
  }

  /** "\U{0130}a bb ccc" is such a text: nine characters, ten once lowercased. */
  lemma DottedExample()
    ensures |"\U{0130}a bb ccc"| == 9 && LoweredLength("\U{0130}a bb ccc") == 10
  {
    var rest := "a bb ccc";
    assert "\U{0130}a bb ccc"[1..] == rest;
    assert '\U{0130}' !in rest;
  }

  /** The texts of the segments, in order. */
  function Texts(segments: seq<Segment>): (texts: seq<string>)
    ensures |texts| == |segments|
    ensures forall i :: 0 <= i < |segments| ==> texts[i] == segments[i].text
  {
    seq(|segments|, i requires 0 <= i < |segments| => segments[i].text)
  }

  /** The result transcribe_audio returns for a recogniser outcome. */
  function Shaped(outcome: EngineOutcome): (t: Transcription)
    ensures t.confidence == Low <==> t.error.Some?
    ensures t.error.Some? <==> t.text == ""
    ensures t.confidence == High ==> outcome.Recognized? && outcome.probabilityAbove08
    ensures outcome.Recognized? ==>
      (t.error.None? <==> Strip(Join(" ", Texts(outcome.segments))) != "")
    ensures outcome.Recognized? && t.error.None? ==>
      && t.text == Strip(Join(" ", Texts(outcome.segments)))
      && (t.confidence == High <==> outcome.probabilityAbove08)
    ensures t.error.None? ==> outcome.Recognized? && t.segments == outcome.segments && t.language == outcome.language
  {
    match outcome
    case TimedOut => FallbackTranscription("Transcription timed out - using fallback")
    case EngineFailed(message) => FallbackTranscription("Transcription error: " + message)
    case Recognized(segments, language, above) =>
      var fullText := Strip(Join(" ", Texts(segments)));
      if fullText == "" then FallbackTranscription("No speech detected")
      else Transcription(fullText, language, if above then High else Medium, segments, None)
  }

  /** A recognised clip falls back to "No speech detected" exactly when every segment is blank. */
  lemma NoSpeechIffBlankSegments(segments: seq<Segment>, language: string, above: bool)
    ensures Shaped(Recognized(segments, language, above)) == FallbackTranscription("No speech detected")
        <==> forall i :: 0 <= i < |segments| ==> AllSpace(segments[i].text)
  {
    var texts := Texts(segments);
    StripEmptyIff(Join(" ", texts));
    JoinAllSpace(" ", texts);
  }

  /** transcribe_audio after recognition: collects the segment texts and timing spans in a loop,
      joins the texts with single spaces and strips the result. */
  method TranscribeAudio(outcome: EngineOutcome) returns (t: Transcription)
    ensures t == Shaped(outcome)
  {
    match outcome {
      case TimedOut =>
        t := FallbackTranscription("Transcription timed out - using fallback");
      case EngineFailed(message) =>
        t := FallbackTranscription("Transcription error: " + message);
      case Recognized(segments, language, above) =>
        var textParts: seq<string> := [];
        var segmentsList: seq<Segment> := [];
        for i := 0 to |segments|
          invariant textParts == Texts(segments[..i])
          invariant segmentsList == segments[..i]
        {
          textParts := textParts + [segments[i].text];
          segmentsList := segmentsList + [Segment(segments[i].start, segments[i].end, segments[i].text)];
        }
        assert segments[..|segments|] == segments;
        var fullText := Strip(Join(" ", textParts));
        if fullText != "" {
          t := Transcription(fullText, language, if above then High else Medium, segmentsList, None);
        } else {
          t := FallbackTranscription("No speech detected");
        }
    }
  }
}
