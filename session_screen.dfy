/** The practice screen's state machine (src/components/SessionScreen.jsx):
    a finished recording is checked, analysed and either filed in the
    history as a scored answer or turned into an error the user can retry.

    The `await` on the analysis is collapsed into the handler. The screen
    reaches `analyzeAnswer` through its `analyze` field, which the
    constructor binds to `FeedbackService.AnalyzeAnswer` over the server's
    `transport` and the `decode` of `JSON.parse`. The time `Date.now()` gives
    a history entry is a parameter. */
module SessionScreen {
  import opened Wrappers
  import opened Text
  import opened JsonValues
  import opened DeliveryMetrics
  import opened FeedbackService

  const NO_SPEECH_MESSAGE := "No speech detected. Please try again."
  const ANALYSIS_FALLBACK_MESSAGE := "Analysis failed. Make sure your local AI (Ollama) is running."

  datatype Status = Idle | Recording | Analyzing | Done | Error

  /** What the screen's `error` state holds when it is not null: the plain
      string of the empty-recording case, or a `{type: 'generic', msg}`
      object. */
  datatype ScreenError = PlainNotice(text: string) | Generic(msg: string)

  /** Line 118: only a generic error shows the banner with its retry button. */
  predicate BannerShown(error: Option<ScreenError>) {
    error.Some? && error.value.Generic?
  }

  /** `analyzeAnswer(endpoint, modelName, question, transcript, metrics)`:
      the feedback object, or the error it throws. */
  type Analyzer = (Option<string>, Option<string>, string, Option<string>, Option<Metrics>)
                  -> Result<Json, AnalysisError>

  /** One answered question, newest first in the history. */
  datatype HistoryEntry = HistoryEntry(
    question: string,
    transcript: string,
    feedback: Json,
    metrics: Option<Metrics>,
    id: int)

  /** Line 47: `err?.message || fallback`: the error's message unless it is
      empty. */
  function ErrorText(e: AnalysisError): (r: string)
    ensures r != []
    ensures Message(e) != [] ==> r == Message(e)
    ensures Message(e) == [] ==> r == ANALYSIS_FALLBACK_MESSAGE
  {
    if Message(e) != [] then Message(e) else ANALYSIS_FALLBACK_MESSAGE
  }

  /** The number of non-empty pieces of a list of strings. */
  function NonEmptyCount(pieces: seq<string>): (r: nat)
    ensures r <= |pieces|
  {
    if pieces == [] then 0
    else NonEmptyCount(pieces[..|pieces| - 1]) + (if pieces[|pieces| - 1] != [] then 1 else 0)
  }

  /** Line 131: `transcript.split(' ').filter(Boolean).length`. */
  function WordCount(transcript: string): nat {
    NonEmptyCount(Split(transcript, ' '))
  }

  /** Words written with single spaces between them are counted one by one. */
  lemma WordCountOfWords(words: seq<string>)
    requires |words| >= 1
    requires forall k :: 0 <= k < |words| ==> words[k] != [] && ' ' !in words[k]
    ensures WordCount(Join(words, " ")) == |words|
  {
    SplitJoin(words, ' ');
    AllNonEmpty(words);
  }

  lemma {:induction false} AllNonEmpty(pieces: seq<string>)
    requires forall k :: 0 <= k < |pieces| ==> pieces[k] != []
    ensures NonEmptyCount(pieces) == |pieces|
  {
    if pieces != [] {
      AllNonEmpty(pieces[..|pieces| - 1]);
    }
  }

  /** Runs of spaces make empty pieces, and those are not counted: a text
      of spaces only has no words. */
  lemma {:induction false} SpacesHaveNoWords(t: string)
    requires forall k :: 0 <= k < |t| ==> t[k] == ' '
    ensures WordCount(t) == 0
  {
    if t != [] {
      SpacesHaveNoWords(t[1..]);
      assert Split(t, ' ') == [""] + Split(t[1..], ' ');
      NonEmptyCountAppend([""], Split(t[1..], ' '));
    }
  }

  lemma {:induction false} NonEmptyCountAppend(a: seq<string>, b: seq<string>)
    ensures NonEmptyCount(a + b) == NonEmptyCount(a) + NonEmptyCount(b)
  {
    if b != [] {
      assert (a + b)[..|a + b| - 1] == a + b[..|b| - 1];
      assert (a + b)[|a + b| - 1] == b[|b| - 1];
      NonEmptyCountAppend(a, b[..|b| - 1]);
    } else {
      assert a + b == a;
    }
  }

  /** The `SessionScreen` component for one question. */
  class Screen {
    /** `question.question`. */
    const question: string
    /** `aiConfig?.endpoint` and `aiConfig?.modelName`. */
    const endpoint: Option<string>
    const modelName: Option<string>
    /** The feedback service this screen calls. */
    const analyze: Analyzer
    var status: Status
    var transcript: string
    var feedback: Option<Json>
    var error: Option<ScreenError>
    var history: seq<HistoryEntry>
    var countdown: int
    var lastMetrics: Option<Metrics>

    /** Lines 11-23. */
    constructor (question: string, endpoint: Option<string>, modelName: Option<string>,
                 transport: Transport, decode: Decoder)
      ensures this.question == question && this.endpoint == endpoint && this.modelName == modelName
      ensures forall e, m, q, t, x :: analyze(e, m, q, t, x) == AnalyzeAnswer(e, m, q, t, x, transport, decode)
      ensures status == Idle && transcript == [] && feedback == None && error == None
      ensures history == [] && countdown == 0 && lastMetrics == None
    {
      this.question := question;
      this.endpoint := endpoint;
      this.modelName := modelName;
      analyze := (e, m, q, t, x) => AnalyzeAnswer(e, m, q, t, x, transport, decode);
      status := Idle;
      transcript := [];
      feedback := None;
      error := None;
      history := [];
      countdown := 0;
      lastMetrics := None;
    }

    /** Lines 25-50. A recording that is blank once trimmed (all white
        space, which is when `Trim` leaves nothing) only shows the
        plain notice and returns to idle. Otherwise its transcript and
        metrics are stored and it is analysed: success files a new entry at
        the front of the history and shows the feedback; failure shows the
        generic banner and keeps the stored inputs for a retry. */
    method HandleRecordingComplete(finalTranscript: string, deliveryMetrics: Option<Metrics>,
                                   now: int)
      modifies this
      ensures countdown == old(countdown)
      ensures AllSpace(finalTranscript) ==>
                error == Some(PlainNotice(NO_SPEECH_MESSAGE)) && !BannerShown(error) && status == Idle
                && transcript == old(transcript) && lastMetrics == old(lastMetrics)
                && feedback == old(feedback) && history == old(history)
      ensures !AllSpace(finalTranscript) ==>
                transcript == finalTranscript && lastMetrics == deliveryMetrics
                && match analyze(endpoint, modelName, question, Some(finalTranscript), deliveryMetrics)
                   case Success(result) =>
                     status == Done && feedback == Some(result) && error == None
                     && history == [HistoryEntry(question, finalTranscript, result, deliveryMetrics, now)]
                                   + old(history)
                   case Failure(e) =>
                     status == Error && feedback == None && BannerShown(error)
                     && error == Some(Generic(ErrorText(e))) && history == old(history)
    {
      if AllSpace(finalTranscript) {
        error := Some(PlainNotice(NO_SPEECH_MESSAGE));
        status := Idle;
        return;
      }
      transcript := finalTranscript;
      lastMetrics := deliveryMetrics;
      status := Analyzing;
      error := None;
      feedback := None;
      var outcome := analyze(endpoint, modelName, question, Some(finalTranscript), deliveryMetrics);
      match outcome
      case Success(result) =>
        feedback := Some(result);
        status := Done;
        history := [HistoryEntry(question, finalTranscript, result, deliveryMetrics, now)] + history;
      case Failure(e) =>
        error := Some(Generic(ErrorText(e)));
        status := Error;
    }

    /** Lines 52-60: back to idle with everything but the history cleared. */
    method Retry()
      modifies this
      ensures status == Idle && transcript == [] && lastMetrics == None
      ensures feedback == None && error == None && countdown == 0
      ensures history == old(history)
    {
      status := Idle;
      transcript := [];
      lastMetrics := None;
      feedback := None;
      error := None;
      countdown := 0;
    }

    /** Lines 62-67: the countdown is cleared and the stored transcript and
        metrics are analysed again, exactly as a new recording of them. */
    method RetryAnalysis(now: int)
      modifies this
      ensures countdown == 0
      ensures transcript == old(transcript) && lastMetrics == old(lastMetrics)
      ensures AllSpace(old(transcript)) ==>
                error == Some(PlainNotice(NO_SPEECH_MESSAGE)) && status == Idle
                && feedback == old(feedback) && history == old(history)
      ensures !AllSpace(old(transcript)) ==>
                match analyze(endpoint, modelName, question, Some(old(transcript)), old(lastMetrics))
                case Success(result) =>
                  status == Done && feedback == Some(result) && error == None
                  && history == [HistoryEntry(question, old(transcript), result, old(lastMetrics), now)]
                                + old(history)
                case Failure(e) =>
                  status == Error && feedback == None && error == Some(Generic(ErrorText(e)))
                  && history == old(history)
    {
      countdown := 0;
      HandleRecordingComplete(transcript, lastMetrics, now);
    }
  }

  /** A transcript the screen accepts but that is under ten characters once
      trimmed still ends in the banner, with the "too short" message: the
      screen's blank check and the service's length check are different
      checks. */
  lemma ShortAnswerReachesBanner(t: string, endpoint: Option<string>, modelName: Option<string>,
                                 question: string, metrics: Option<Metrics>, transport: Transport, decode: Decoder)
    requires Trim(t) != [] && |Trim(t)| < MIN_ANSWER_LENGTH
    ensures AnalyzeAnswer(endpoint, modelName, question, Some(t), metrics, transport, decode)
            == Failure(AnswerTooShort)
    ensures ErrorText(AnswerTooShort) == Message(AnswerTooShort)
  {
    AnalyzeAnswerValidatesFirst(endpoint, modelName, question, Some(t), metrics, transport, transport, decode);
  }
}
