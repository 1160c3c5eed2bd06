/** The recognition-event accumulator (src/hooks/useSpeechRecognition.js):
    one recording session that collects the finalised text, rebuilds the
    interim text on every result event, detects pauses between events and
    averages the voice stability sampled at every finalised segment.

    The browser's `SpeechRecognition` object is not modelled: its events are
    method calls. A result event brings its timestamp in milliseconds (what
    `Date.now()` returned), its `resultIndex`, its results as (isFinal, text)
    segments, and the voice stability the handler reads. */
module SpeechRecognition {
  import opened Wrappers
  import opened Text
  import opened DeliveryMetrics
  import opened AudioMetrics

  const NOT_SUPPORTED_MESSAGE := "Speech recognition is not supported in this browser. Please use Chrome or Edge."
  const NO_SPEECH_CODE := "no-speech"
  const MIC_ERROR_PREFIX := "Mic error: "
  /** A gap longer than 1.5 s between result events is a pause. */
  const PAUSE_THRESHOLD_MS: int := 1500

  /** One entry of `event.results`: its `isFinal` flag and the transcript
      of its first alternative. */
  datatype Segment = Segment(isFinal: bool, text: string)

  // ----- Pauses -----------------------------------------------------------

  /** Line 57-59: a pause is counted when a previous event time is set (and
      truthy, so not 0) and more than 1500 ms have passed since. */
  predicate IsPause(last: Option<int>, now: int) {
    last.Some? && last.value != 0 && now - last.value > PAUSE_THRESHOLD_MS
  }

  /** `((now - last) / 1000).toFixed(1)` in tenths of a second: the nearest
      tenth, halves rounded up. */
  function PauseTenths(gapMs: int): (r: nat)
    requires gapMs > PAUSE_THRESHOLD_MS
    ensures 15 <= r
    ensures 100 * r - 50 <= gapMs < 100 * r + 50
  {
    (gapMs + 50) / 100
  }

  /** Exactly 1.5 s is not a pause; one millisecond more is. */
  lemma PauseThreshold(t: int)
    requires t != 0
    ensures !IsPause(Some(t), t + 1500)
    ensures IsPause(Some(t), t + 1501)
    ensures !IsPause(Some(0), 1501) && !IsPause(None, t)
  {
  }

  /** How the pause list reads a few gaps. */
  lemma PauseRendering()
    ensures FormatTenths(PauseTenths(1501)) == "1.5"
    ensures FormatTenths(PauseTenths(1549)) == "1.5"
    ensures FormatTenths(PauseTenths(1550)) == "1.6"
    ensures FormatTenths(PauseTenths(12345)) == "12.3"
  {
    assert PauseTenths(1501) == 15 && PauseTenths(1549) == 15;
    assert PauseTenths(1550) == 16 && PauseTenths(12345) == 123;
    assert FormatTenths(15) == "1.5" by {
      assert NatToString(1) == "1";
    }
    assert FormatTenths(16) == "1.6" by {
      assert NatToString(1) == "1";
    }
    assert FormatTenths(123) == "12.3" by {
      assert NatToString(12) == "12" by {
        assert NatToString(1) == "1";
      }
    }
  }

  /** Different pauses, in tenths, are written differently. */
  lemma FormatTenthsInjective(a: nat, b: nat)
    requires FormatTenths(a) == FormatTenths(b)
    ensures a == b
  {
    var x, y := FormatTenths(a), FormatTenths(b);
    var da, db := NatToString(a / 10), NatToString(b / 10);
    assert |da| == |db|;
    assert da == x[..|da|] && db == y[..|db|];
    NatToStringInjective(a / 10, b / 10);
    assert x[|x| - 1] == DigitChar(a % 10) && y[|y| - 1] == DigitChar(b % 10);
  }

  // ----- The segments of one event ----------------------------------------

  /** What the final segments add to the finalised text: each one's text
      followed by one space, in order. */
  function FinalText(segs: seq<Segment>): string {
    if segs == [] then ""
    else
      var s := segs[|segs| - 1];
      FinalText(segs[..|segs| - 1]) + (if s.isFinal then s.text + " " else "")
  }

  /** The non-final segments' texts, in order, with nothing between them. */
  function InterimText(segs: seq<Segment>): string {
    if segs == [] then ""
    else
      var s := segs[|segs| - 1];
      InterimText(segs[..|segs| - 1]) + (if s.isFinal then "" else s.text)
  }

  function FinalCount(segs: seq<Segment>): nat {
    if segs == [] then 0
    else FinalCount(segs[..|segs| - 1]) + (if segs[|segs| - 1].isFinal then 1 else 0)
  }

  /** Finalised text is append-only across events: processing two batches
      one after the other adds the same text as processing them at once. */
  lemma {:induction false} FinalTextAppend(a: seq<Segment>, b: seq<Segment>)
    ensures FinalText(a + b) == FinalText(a) + FinalText(b)
  {
    if b != [] {
      assert (a + b)[..|a + b| - 1] == a + b[..|b| - 1];
      assert (a + b)[|a + b| - 1] == b[|b| - 1];
      FinalTextAppend(a, b[..|b| - 1]);
    } else {
      assert a + b == a;
    }
  }

  lemma {:induction false} InterimTextAppend(a: seq<Segment>, b: seq<Segment>)
    ensures InterimText(a + b) == InterimText(a) + InterimText(b)
  {
    if b != [] {
      assert (a + b)[..|a + b| - 1] == a + b[..|b| - 1];
      assert (a + b)[|a + b| - 1] == b[|b| - 1];
      InterimTextAppend(a, b[..|b| - 1]);
    } else {
      assert a + b == a;
    }
  }

  lemma {:induction false} FinalCountAppend(a: seq<Segment>, b: seq<Segment>)
    ensures FinalCount(a + b) == FinalCount(a) + FinalCount(b)
  {
    if b != [] {
      assert (a + b)[..|a + b| - 1] == a + b[..|b| - 1];
      assert (a + b)[|a + b| - 1] == b[|b| - 1];
      FinalCountAppend(a, b[..|b| - 1]);
    } else {
      assert a + b == a;
    }
  }

  /** The finalised text of a batch with a final segment ends in a space;
      one without final segments adds nothing, and the interim text of a
      batch with only final segments is empty. */
  lemma {:induction false} FinalTextShape(segs: seq<Segment>)
    ensures FinalCount(segs) == 0 <==> FinalText(segs) == [] && forall k :: 0 <= k < |segs| ==> !segs[k].isFinal
    ensures FinalCount(segs) > 0 ==> EndsWith(FinalText(segs), " ")
    ensures FinalCount(segs) == |segs| ==> InterimText(segs) == []
  {
    if segs != [] {
      var init := segs[..|segs| - 1];
      FinalTextShape(init);
      assert forall k :: 0 <= k < |init| ==> init[k] == segs[k];
      var t := FinalText(segs);
      if segs[|segs| - 1].isFinal {
        assert t[|t| - 1..] == " ";
      }
      assert FinalCount(init) <= |init| by { CountBound(init); }
    }
  }

  /** What one more segment of a batch adds. */
  lemma SegmentStep(results: seq<Segment>, lo: nat, i: nat)
    requires lo <= i < |results|
    ensures var r := results[i];
            && FinalText(results[lo..i + 1]) == FinalText(results[lo..i]) + (if r.isFinal then r.text + " " else "")
            && InterimText(results[lo..i + 1]) == InterimText(results[lo..i]) + (if r.isFinal then "" else r.text)
            && FinalCount(results[lo..i + 1]) == FinalCount(results[lo..i]) + (if r.isFinal then 1 else 0)
  {
    var s := results[lo..i + 1];
    assert s[..|s| - 1] == results[lo..i];
    assert s[|s| - 1] == results[i];
  }

  lemma {:induction false} CountBound(segs: seq<Segment>)
    ensures FinalCount(segs) <= |segs|
  {
    if segs != [] {
      CountBound(segs[..|segs| - 1]);
    }
  }

  // ----- The stability history --------------------------------------------

  function SumInts(h: seq<int>): int {
    if h == [] then 0 else SumInts(h[..|h| - 1]) + h[|h| - 1]
  }

  /** Lines 76-77: `Math.round` of the history's mean; the samples are
      percentages, and so is their rounded mean. */
  function RoundedMean(h: seq<int>): (r: nat)
    requires |h| > 0
    requires forall k :: 0 <= k < |h| ==> 0 <= h[k] <= 100
    ensures r <= 100
  {
    MeanBounds(h, 0, 100);
    Round(SumInts(h) as real / |h| as real)
  }

  /** The rounded mean lies between the smallest and the largest sample. */
  lemma RoundedMeanBounds(h: seq<int>, lo: int, hi: int)
    requires |h| > 0
    requires forall k :: 0 <= k < |h| ==> 0 <= h[k] <= 100
    requires forall k :: 0 <= k < |h| ==> lo <= h[k] <= hi
    ensures lo <= RoundedMean(h) <= hi
  {
    MeanBounds(h, lo, hi);
  }

  lemma MeanBounds(h: seq<int>, lo: int, hi: int)
    requires |h| > 0
    requires forall k :: 0 <= k < |h| ==> lo <= h[k] <= hi
    ensures lo as real <= SumInts(h) as real / |h| as real <= hi as real
  {
    var n, sum := |h|, SumInts(h);
    assert (n * lo) as real <= sum as real <= (n * hi) as real by {
      SumBounds(h, lo, hi);
    }
    ProductAsReal(n, lo);
    ProductAsReal(n, hi);
    DivisionBounds(sum as real, n as real, lo as real, hi as real);
  }

  lemma ProductAsReal(a: int, b: int)
    ensures (a * b) as real == a as real * b as real
  {
  }

  lemma DivisionBounds(s: real, n: real, lo: real, hi: real)
    requires n > 0.0 && n * lo <= s <= n * hi
    ensures lo <= s / n <= hi
  {
    assert s / n * n == s;
  }

  lemma {:induction false} SumBounds(h: seq<int>, lo: int, hi: int)
    requires forall k :: 0 <= k < |h| ==> lo <= h[k] <= hi
    ensures |h| * lo <= SumInts(h) <= |h| * hi
  {
    if h != [] {
      SumBounds(h[..|h| - 1], lo, hi);
    }
  }

  function Repeat(x: int, n: nat): (r: seq<int>)
    ensures |r| == n && forall k :: 0 <= k < n ==> r[k] == x
  {
    seq(n, _ => x)
  }

  lemma RepeatSnoc(x: int, n: nat)
    ensures Repeat(x, n + 1) == Repeat(x, n) + [x]
  {
  }

  /** The metrics after a result event's pause check. */
  function WithPause(m: Metrics, last: Option<int>, now: int): (r: Metrics)
    ensures r.avgStability == m.avgStability && r.startTime == m.startTime
    ensures r.totalSpeakingTime == m.totalSpeakingTime
    ensures IsPause(last, now) ==> r.pauses == m.pauses + [PauseTenths(now - last.value)]
    ensures !IsPause(last, now) ==> r.pauses == m.pauses
  {
    if IsPause(last, now) then m.(pauses := m.pauses + [PauseTenths(now - last.value)]) else m
  }

  /** The `useSpeechRecognition` hook of one screen. */
  class SpeechSession {
    /** `isSupported`: whether the browser has a `SpeechRecognition`. */
    const supported: bool
    /** The stability meter the hook drives. */
    const meter: StabilityTracker
    var transcript: string
    var isListening: bool
    var error: Option<string>
    var metrics: Metrics
    /** `recognitionRef.current` is set. */
    var recognitionActive: bool
    /** `finalTranscriptRef.current`. */
    var finalText: string
    /** `lastResultTimeRef.current`. */
    var lastResultTime: Option<int>
    /** `stabilityHistoryRef.current`. */
    var history: seq<int>

    ghost predicate Valid()
      reads this, meter
    {
      meter.Valid() && SamplesInRange()
    }

    /** Every stability sample, and so their rounded mean, is a percentage. */
    predicate SamplesInRange()
      reads this
    {
      (forall k :: 0 <= k < |history| ==> 0 <= history[k] <= 100)
      && metrics.avgStability <= 100
    }

    /** Lines 7-21: the hook's initial state. */
    constructor (supported: bool)
      ensures Valid() && fresh(meter)
      ensures this.supported == supported
      ensures transcript == [] && !isListening && error == None && metrics == Fresh(None)
      ensures !recognitionActive && finalText == [] && lastResultTime == None && history == []
      ensures meter.stability == INITIAL_STABILITY && meter.isSilent
    {
      this.supported := supported;
      meter := new StabilityTracker();
      transcript := [];
      isListening := false;
      error := None;
      metrics := Fresh(None);
      recognitionActive := false;
      finalText := [];
      lastResultTime := None;
      history := [];
    }

    /** Lines 25-97: without recognition support only the error is set;
        otherwise everything of the previous session is cleared, the clock
        starts at `now`, the meter is started and recognition begins
        (`isListening` becomes true only on `onstart`). `granted` says
        whether the microphone request succeeds, and `bins` is the first
        frame the meter analyses when it does. */
    method Start(now: int, granted: bool, bins: array<byte>, sqrt: real -> real)
      requires Valid() && bins.Length == BIN_COUNT && SqrtLike(sqrt)
      modifies this, meter
      ensures Valid()
      ensures !supported ==> error == Some(NOT_SUPPORTED_MESSAGE)
                             && transcript == old(transcript) && isListening == old(isListening)
                             && metrics == old(metrics) && recognitionActive == old(recognitionActive)
                             && finalText == old(finalText) && lastResultTime == old(lastResultTime)
                             && history == old(history) && unchanged(meter)
      ensures supported ==> error == None && transcript == [] && finalText == [] && history == []
                            && lastResultTime == Some(now) && metrics == Fresh(Some(now))
                            && recognitionActive && isListening == old(isListening)
      ensures supported && granted ==> var rms := Rms(bins[..], sqrt);
                                       && meter.isSilent == (rms < SILENCE_THRESHOLD)
                                       && meter.window == (if meter.isSilent then [] else [rms])
                                       && meter.voiced == meter.window
                                       && meter.frameScheduled && meter.hasStream && meter.hasContext
                                       && !meter.tracksStopped
      ensures supported ==> meter.stability == old(meter.stability) && meter.closeCalls == old(meter.closeCalls)
      ensures supported && !granted ==> unchanged(meter)
    {
      if !supported {
        error := Some(NOT_SUPPORTED_MESSAGE);
        return;
      }
      error := None;
      transcript := [];
      finalText := [];
      lastResultTime := Some(now);
      metrics := Fresh(Some(now));
      history := [];
      meter.StartAnalysis(granted, bins, sqrt);
      recognitionActive := true;
    }

    /** Line 49. */
    method OnStart()
      modifies this
      ensures isListening
      ensures transcript == old(transcript) && error == old(error) && metrics == old(metrics)
      ensures finalText == old(finalText) && lastResultTime == old(lastResultTime) && history == old(history)
      ensures recognitionActive == old(recognitionActive)
    {
      isListening := true;
    }

    /** Lines 51-83: one result event. The pause check looks at the time of
        the previous event; then every segment from `resultIndex` on is
        visited in order: a final one is appended to the finalised text with
        a space and samples the stability, a non-final one goes into this
        event's interim text. The published transcript is the trimmed
        finalised text followed by the interim text. */
    method OnResult(now: int, resultIndex: nat, results: seq<Segment>, stability: int)
      requires Valid()
      requires resultIndex <= |results|
      requires 0 <= stability <= 100
      modifies this
      ensures Valid()
      ensures var batch := results[resultIndex..];
              && finalText == old(finalText) + FinalText(batch)
              && history == old(history) + Repeat(stability, FinalCount(batch))
              && transcript == Trim(finalText + InterimText(batch))
              && metrics.pauses == WithPause(old(metrics), old(lastResultTime), now).pauses
              && metrics.avgStability
                 == (if FinalCount(batch) > 0 then RoundedMean(history) else old(metrics.avgStability))
      ensures metrics.startTime == old(metrics.startTime)
      ensures metrics.totalSpeakingTime == old(metrics.totalSpeakingTime)
      ensures lastResultTime == Some(now)
      ensures isListening == old(isListening) && error == old(error)
      ensures recognitionActive == old(recognitionActive)
    {
      metrics := WithPause(metrics, lastResultTime, now);
      lastResultTime := Some(now);
      var interim := AddSegments(resultIndex, results, stability);
      transcript := Trim(finalText + interim);
    }

    /** The loop of lines 62-80 over the segments from `resultIndex` on. */
    method AddSegments(resultIndex: nat, results: seq<Segment>, stability: int) returns (interim: string)
      requires SamplesInRange()
      requires resultIndex <= |results|
      requires 0 <= stability <= 100
      modifies this
      ensures SamplesInRange()
      ensures var batch := results[resultIndex..];
              && interim == InterimText(batch)
              && finalText == old(finalText) + FinalText(batch)
              && history == old(history) + Repeat(stability, FinalCount(batch))
              && metrics == old(metrics).(avgStability :=
                   if FinalCount(batch) > 0 then RoundedMean(history) else old(metrics.avgStability))
      ensures transcript == old(transcript) && lastResultTime == old(lastResultTime)
      ensures isListening == old(isListening) && error == old(error)
      ensures recognitionActive == old(recognitionActive)
    {
      interim := "";
      var final := finalText;
      var i := resultIndex;
      while i < |results|
        invariant resultIndex <= i <= |results|
        invariant SamplesInRange()
        invariant final == finalText == old(finalText) + FinalText(results[resultIndex..i])
        invariant interim == InterimText(results[resultIndex..i])
        invariant history == old(history) + Repeat(stability, FinalCount(results[resultIndex..i]))
        invariant metrics == old(metrics).(avgStability :=
                    if FinalCount(results[resultIndex..i]) > 0 then RoundedMean(history) else old(metrics.avgStability))
        invariant transcript == old(transcript) && lastResultTime == old(lastResultTime)
        invariant isListening == old(isListening) && error == old(error)
        invariant recognitionActive == old(recognitionActive)
      {
        SegmentStep(results, resultIndex, i);
        var result := results[i];
        if result.isFinal {
          final := final + result.text + " ";
          RepeatSnoc(stability, FinalCount(results[resultIndex..i]));
          AddFinal(final, stability);
        } else {
          interim := interim + result.text;
        }
        i := i + 1;
      }
      assert results[resultIndex..i] == results[resultIndex..];
    }

    /** Lines 66-77 for one final segment: the finalised text becomes
        `final`, the stability is sampled and the average recomputed. */
    method AddFinal(final: string, stability: int)
      requires SamplesInRange()
      requires 0 <= stability <= 100
      modifies this
      ensures SamplesInRange()
      ensures finalText == final && history == old(history) + [stability]
      ensures metrics == old(metrics).(avgStability := RoundedMean(history))
      ensures transcript == old(transcript) && lastResultTime == old(lastResultTime)
      ensures isListening == old(isListening) && error == old(error)
      ensures recognitionActive == old(recognitionActive)
    {
      finalText := final;
      history := history + [stability];
      metrics := metrics.(avgStability := RoundedMean(history));
    }

    /** Lines 85-89: `no-speech` is ignored; any other error is shown and
        ends listening. */
    method OnError(code: string)
      modifies this
      ensures code == NO_SPEECH_CODE ==> error == old(error) && isListening == old(isListening)
      ensures code != NO_SPEECH_CODE ==> error == Some(MIC_ERROR_PREFIX + code) && !isListening
      ensures transcript == old(transcript) && metrics == old(metrics) && finalText == old(finalText)
      ensures lastResultTime == old(lastResultTime) && history == old(history)
      ensures recognitionActive == old(recognitionActive)
    {
      if code == NO_SPEECH_CODE {
        return;
      }
      error := Some(MIC_ERROR_PREFIX + code);
      isListening := false;
    }

    /** Lines 91-94: the recognition ended; the meter is stopped. */
    method OnEnd()
      requires Valid()
      modifies this, meter
      ensures Valid()
      ensures !isListening && !meter.frameScheduled
      ensures meter.tracksStopped == (old(meter.tracksStopped) || meter.hasStream)
      ensures meter.closeCalls == old(meter.closeCalls) + (if meter.hasContext then 1 else 0)
      ensures meter.hasStream == old(meter.hasStream) && meter.hasContext == old(meter.hasContext)
      ensures meter.stability == old(meter.stability) && meter.window == old(meter.window)
      ensures meter.isSilent == old(meter.isSilent) && meter.voiced == old(meter.voiced)
      ensures transcript == old(transcript) && error == old(error) && metrics == old(metrics)
      ensures finalText == old(finalText) && lastResultTime == old(lastResultTime) && history == old(history)
      ensures recognitionActive == old(recognitionActive)
    {
      isListening := false;
      meter.StopAnalysis();
    }

    /** Lines 100-107: drop the recognition handle if there is one, stop
        listening and stop the meter. Nothing else changes. */
    method Stop()
      requires Valid()
      modifies this, meter
      ensures Valid()
      ensures !recognitionActive && !isListening && !meter.frameScheduled
      ensures meter.tracksStopped == (old(meter.tracksStopped) || meter.hasStream)
      ensures meter.closeCalls == old(meter.closeCalls) + (if meter.hasContext then 1 else 0)
      ensures meter.hasStream == old(meter.hasStream) && meter.hasContext == old(meter.hasContext)
      ensures meter.stability == old(meter.stability) && meter.window == old(meter.window)
      ensures meter.isSilent == old(meter.isSilent) && meter.voiced == old(meter.voiced)
      ensures transcript == old(transcript) && error == old(error) && metrics == old(metrics)
      ensures finalText == old(finalText) && lastResultTime == old(lastResultTime) && history == old(history)
    {
      if recognitionActive {
        recognitionActive := false;
      }
      isListening := false;
      meter.StopAnalysis();
    }

    /** Lines 109-120: stop, then clear the transcript, the error, the
        finalised text and the metrics (start time included). The stability
        history and the last event time are kept. */
    method Reset()
      requires Valid()
      modifies this, meter
      ensures Valid()
      ensures !recognitionActive && !isListening && !meter.frameScheduled
      ensures meter.tracksStopped == (old(meter.tracksStopped) || meter.hasStream)
      ensures meter.closeCalls == old(meter.closeCalls) + (if meter.hasContext then 1 else 0)
      ensures meter.hasStream == old(meter.hasStream) && meter.hasContext == old(meter.hasContext)
      ensures meter.stability == old(meter.stability) && meter.window == old(meter.window)
      ensures meter.isSilent == old(meter.isSilent) && meter.voiced == old(meter.voiced)
      ensures transcript == [] && error == None && finalText == [] && metrics == Fresh(None)
      ensures lastResultTime == old(lastResultTime) && history == old(history)
    {
      Stop();
      transcript := [];
      error := None;
      finalText := [];
      metrics := Fresh(None);
    }
  }
}
