/** The voice-stability meter (src/hooks/useAudioMetrics.js): on every
    animation frame the `analyze` tick reads the microphone's frequency bins,
    classifies the frame as silent or voiced by its RMS volume, keeps the
    last twenty voiced volumes, and once twenty are held maps their standard
    deviation to an instant stability and smooths it into the published
    stability score.

    Volumes are `real`; `Math.sqrt` is a parameter `sqrt` that behaves like a
    square root (`SqrtLike`). The Web Audio graph, the animation-frame
    scheduler and the microphone permission are not modelled: a tick is a
    method call with the bins it read, and starting takes the outcome of the
    permission request as an input. */
module AudioMetrics {

  /** One frequency bin as `getByteFrequencyData` fills it. */
  newtype byte = x: int | 0 <= x < 256

  /** `analyzer.fftSize = 256` gives `frequencyBinCount` 128 bins. */
  const BIN_COUNT: nat := 128
  /** `VOL_WINDOW`: how many voiced volumes the stability looks at. */
  const WINDOW_SIZE: nat := 20
  /** A frame whose RMS volume is below this is silent. */
  const SILENCE_THRESHOLD: real := 2.0
  const INITIAL_STABILITY: int := 100

  /** What the model relies on of `Math.sqrt` on non-negative arguments. */
  ghost predicate SqrtLike(sqrt: real -> real) {
    (forall x :: 0.0 <= x ==> 0.0 <= sqrt(x) && sqrt(x) * sqrt(x) == x)
    && (forall x, y :: 0.0 <= x <= y ==> sqrt(x) <= sqrt(y))
  }

  // ----- Volume of one frame ----------------------------------------------

  /** The sum of the squared bins, added up from the first bin on. */
  function SumOfSquares(bins: seq<byte>): (r: int)
    ensures r >= 0
  {
    if bins == [] then 0
    else
      var b := bins[|bins| - 1] as int;
      SumOfSquares(bins[..|bins| - 1]) + b * b
  }

  /** `Math.sqrt(sum / length)`. */
  function Rms(bins: seq<byte>, sqrt: real -> real): real
    requires |bins| > 0
  {
    sqrt(SumOfSquares(bins) as real / |bins| as real)
  }

  /** Lines 37-41: the loop that adds up the squared bins. */
  method SquareSum(bins: array<byte>) returns (sum: int)
    ensures sum == SumOfSquares(bins[..])
  {
    sum := 0;
    var i := 0;
    while i < bins.Length
      invariant 0 <= i <= bins.Length
      invariant sum == SumOfSquares(bins[..i])
    {
      assert bins[..i + 1][..i] == bins[..i];
      sum := sum + bins[i] as int * bins[i] as int;
      i := i + 1;
    }
    assert bins[..] == bins[..bins.Length];
  }

  /** The RMS volume is never negative. */
  lemma RmsNonNegative(bins: seq<byte>, sqrt: real -> real)
    requires |bins| > 0 && SqrtLike(sqrt)
    ensures Rms(bins, sqrt) >= 0.0
  {
    assert 0.0 <= SumOfSquares(bins) as real / |bins| as real;
  }

  /** Line 44: silence is decided on the squared volume alone: a frame of
      128 bins is silent exactly when its bins' squares add up to less than
      512, the mean square below 2 * 2. */
  lemma SilentIffQuiet(bins: seq<byte>, sqrt: real -> real)
    requires |bins| == BIN_COUNT && SqrtLike(sqrt)
    ensures Rms(bins, sqrt) < SILENCE_THRESHOLD <==> SumOfSquares(bins) < 512
  {
    var ms := SumOfSquares(bins) as real / 128.0;
    var r := sqrt(ms);
    assert r >= 0.0 && r * r == ms;
    assert sqrt(4.0) >= 0.0 && sqrt(4.0) * sqrt(4.0) == 4.0;
    RootOfSquare(sqrt(4.0), 2.0);
    if ms < 4.0 {
      assert r <= 2.0;
      assert r != 2.0;
    } else {
      assert r >= 2.0;
    }
  }

  /** Two non-negative numbers with the same square are equal. */
  lemma RootOfSquare(s: real, a: real)
    requires s >= 0.0 && a >= 0.0 && s * s == a * a
    ensures s == a
  {
    assert (s - a) * (s + a) == 0.0;
    if s + a > 0.0 {
      ZeroProduct(s - a, s + a);
    }
  }

  lemma ZeroProduct(x: real, y: real)
    requires x * y == 0.0 && y > 0.0
    ensures x == 0.0
  {
    assert x == (x * y) / y;
  }

  // ----- Stability of a window --------------------------------------------

  function Sum(s: seq<real>): real {
    if s == [] then 0.0 else Sum(s[..|s| - 1]) + s[|s| - 1]
  }

  /** `lastVolumes.reduce((a, b) => a + b) / VOL_WINDOW`. */
  function Mean(s: seq<real>): real
    requires |s| > 0
  {
    Sum(s) / |s| as real
  }

  function SquaredDeviations(s: seq<real>, m: real): (r: real)
    ensures r >= 0.0
  {
    if s == [] then 0.0
    else
      var d := s[|s| - 1] - m;
      SquaredDeviations(s[..|s| - 1], m) + d * d
  }

  /** The population variance of the window (lines 53-54). */
  function Variance(s: seq<real>): (r: real)
    requires |s| > 0
    ensures r >= 0.0
  {
    SquaredDeviations(s, Mean(s)) / |s| as real
  }

  /** Line 59: `Math.max(0, 100 - stdDev * 5)`. The score lies in [0, 100]
      (the comment on line 57 says 1-100, the code allows 0) and never rises
      as the deviation grows. */
  function InstantStability(stdDev: real): (r: real)
    requires stdDev >= 0.0
    ensures 0.0 <= r <= 100.0
    ensures r == 0.0 <==> stdDev >= 20.0
    ensures r == 100.0 <==> stdDev == 0.0
  {
    if 100.0 - stdDev * 5.0 < 0.0 then 0.0 else 100.0 - stdDev * 5.0
  }

  lemma InstantStabilityAntitone(d1: real, d2: real)
    requires 0.0 <= d1 <= d2
    ensures InstantStability(d2) <= InstantStability(d1)
  {
  }

  /** The stability of a full window, before smoothing. */
  function WindowStability(window: seq<real>, sqrt: real -> real): real
    requires |window| > 0 && SqrtLike(sqrt)
  {
    var sd := sqrt(Variance(window));
    InstantStability(sd)
  }

  /** A perfectly steady voice scores 100. */
  lemma SteadyVoiceScoresFull(window: seq<real>, sqrt: real -> real)
    requires |window| > 0 && SqrtLike(sqrt)
    requires forall k :: 0 <= k < |window| ==> window[k] == window[0]
    ensures WindowStability(window, sqrt) == 100.0
  {
    var n := |window| as real;
    SumOfConstant(window, window[0]);
    assert Mean(window) == n * window[0] / n == window[0];
    DeviationsOfConstant(window, window[0]);
    assert Variance(window) == 0.0 / n == 0.0;
    var z := sqrt(0.0);
    assert z >= 0.0 && z * z == 0.0;
    RootOfSquare(z, 0.0);
  }

  lemma {:induction false} SumOfConstant(s: seq<real>, c: real)
    requires forall k :: 0 <= k < |s| ==> s[k] == c
    ensures Sum(s) == |s| as real * c
  {
    if s != [] {
      SumOfConstant(s[..|s| - 1], c);
    }
  }

  lemma {:induction false} DeviationsOfConstant(s: seq<real>, c: real)
    requires forall k :: 0 <= k < |s| ==> s[k] == c
    ensures SquaredDeviations(s, c) == 0.0
  {
    if s != [] {
      DeviationsOfConstant(s[..|s| - 1], c);
    }
  }

  /** `Math.round`: the nearest integer, halves rounded up. */
  function Round(x: real): (r: int)
    ensures x - 0.5 < r as real <= x + 0.5
  {
    (x + 0.5).Floor
  }

  /** Line 62: the new stability is a 9:1 blend of the previous one and the
      instant stability, rounded. */
  function Smooth(prev: int, instant: real): int {
    Round(prev as real * 0.9 + instant * 0.1)
  }

  /** The smoothed value lies between the previous value and the instant
      one, both included; so it stays in [0, 100]. */
  lemma SmoothBetween(prev: int, instant: real)
    ensures instant <= prev as real ==> instant <= Smooth(prev, instant) as real && Smooth(prev, instant) <= prev
    ensures prev as real <= instant ==> prev <= Smooth(prev, instant) && Smooth(prev, instant) as real <= instant
  {
    var v := prev as real * 0.9 + instant * 0.1;
    assert instant <= prev as real ==> instant <= v <= prev as real;
    assert prev as real <= instant ==> prev as real <= v <= instant;
  }

  lemma SmoothStaysInRange(prev: int, instant: real)
    requires 0 <= prev <= 100 && 0.0 <= instant <= 100.0
    ensures 0 <= Smooth(prev, instant) <= 100
  {
    SmoothBetween(prev, instant);
  }

  // ----- The window -------------------------------------------------------

  /** The last `n` elements of `s` (all of them when there are fewer). */
  function LastN(s: seq<real>, n: nat): (r: seq<real>)
    ensures |r| == if |s| < n then |s| else n
    ensures forall k :: 0 <= k < |r| ==> r[k] == s[|s| - |r| + k]
  {
    if |s| <= n then s else s[|s| - n..]
  }

  /** Lines 49-50: pushing onto a window of the last `n` volumes and
      shifting once when it overflows gives the last `n` volumes again. */
  lemma {:induction false} PushShiftKeepsLastN(s: seq<real>, x: real, n: nat)
    requires n > 0
    ensures var w := LastN(s, n) + [x];
            LastN(s + [x], n) == (if |w| > n then w[1..] else w)
  {
    var w := LastN(s, n) + [x];
    if |s| + 1 > n {
      assert (s + [x])[|s| + 1 - n..] == (if |w| > n then w[1..] else w);
    }
  }

  /** The meter of one recording session. */
  class StabilityTracker {
    /** The published `voiceStability`. */
    var stability: int
    /** The published `isSilent`. */
    var isSilent: bool
    /** `lastVolumes`: the most recent voiced volumes, oldest first. */
    var window: seq<real>
    /** Every voiced volume since analysis started, oldest first. */
    ghost var voiced: seq<real>
    /** `streamRef.current` and `audioContextRef.current` are set. */
    var hasStream: bool
    var hasContext: bool
    /** The `analyze` loop is live (its next frame is scheduled, or at the
        start its first call is running); the tracks of the stream are
        stopped; how many times `close()` was called on the audio context. */
    var frameScheduled: bool
    var tracksStopped: bool
    var closeCalls: nat

    ghost predicate Valid()
      reads this
    {
      0 <= stability <= 100
      && window == LastN(voiced, WINDOW_SIZE)
    }

    /** Lines 4-5: stability 100, silent, nothing acquired. */
    constructor ()
      ensures Valid()
      ensures stability == INITIAL_STABILITY && isSilent && window == [] && voiced == []
      ensures !hasStream && !hasContext && !frameScheduled && !tracksStopped && closeCalls == 0
    {
      stability := INITIAL_STABILITY;
      isSilent := true;
      window := [];
      voiced := [];
      hasStream := false;
      hasContext := false;
      frameScheduled := false;
      tracksStopped := false;
      closeCalls := 0;
    }

    /** Lines 12-31 and 70: with the microphone granted, the stream and a
        new audio context are kept, the window starts empty and `analyze`
        runs once straight away over the first `bins`, which schedules the
        next frame; when `getUserMedia` rejects, the error is only logged and
        nothing changes. A single volume never fills the window, so the
        published stability carries over. */
    method StartAnalysis(granted: bool, bins: array<byte>, sqrt: real -> real)
      requires Valid() && bins.Length == BIN_COUNT && SqrtLike(sqrt)
      modifies this
      ensures Valid()
      ensures stability == old(stability) && closeCalls == old(closeCalls)
      ensures granted ==> var rms := Rms(bins[..], sqrt);
                          && isSilent == (rms < SILENCE_THRESHOLD)
                          && window == (if isSilent then [] else [rms]) && voiced == window
                          && hasStream && hasContext && frameScheduled && !tracksStopped
      ensures !granted ==> window == old(window) && voiced == old(voiced) && hasStream == old(hasStream)
                           && hasContext == old(hasContext) && frameScheduled == old(frameScheduled)
                           && tracksStopped == old(tracksStopped) && isSilent == old(isSilent)
      ensures !granted ==> unchanged(this)
    {
      if granted {
        hasStream := true;
        tracksStopped := false;
        hasContext := true;
        window := [];
        voiced := [];
        frameScheduled := true;
        Tick(bins, sqrt);
      }
    }

    /** Lines 33-68: one `analyze` frame over the bins just read. Only a
        scheduled frame runs: `cancelAnimationFrame` in a stop withdraws it. */
    method Tick(bins: array<byte>, sqrt: real -> real)
      requires Valid() && frameScheduled && bins.Length == BIN_COUNT && SqrtLike(sqrt)
      modifies this
      ensures Valid()
      ensures var rms := Rms(bins[..], sqrt);
              && isSilent == (rms < SILENCE_THRESHOLD)
              && (isSilent ==> window == old(window) && voiced == old(voiced) && stability == old(stability))
              && (!isSilent ==> voiced == old(voiced) + [rms]
                                && window == LastN(voiced, WINDOW_SIZE)
                                && stability == (if |window| == WINDOW_SIZE
                                                 then Smooth(old(stability), WindowStability(window, sqrt))
                                                 else old(stability)))
      ensures frameScheduled
      ensures hasStream == old(hasStream) && hasContext == old(hasContext)
      ensures tracksStopped == old(tracksStopped) && closeCalls == old(closeCalls)
    {
      var sum := SquareSum(bins);
      var rms := sqrt(sum as real / bins.Length as real);
      isSilent := rms < SILENCE_THRESHOLD;
      if !isSilent {
        PushVolume(rms);
        if |window| == WINDOW_SIZE {
          UpdateStability(sqrt);
        }
      }
      frameScheduled := true;
    }

    /** Lines 48-50: push the voiced volume and drop the oldest one when the
        window overflows; the window stays the last twenty voiced volumes. */
    method PushVolume(rms: real)
      requires Valid()
      modifies this
      ensures Valid()
      ensures voiced == old(voiced) + [rms] && window == LastN(voiced, WINDOW_SIZE)
      ensures stability == old(stability) && isSilent == old(isSilent)
      ensures frameScheduled == old(frameScheduled) && hasStream == old(hasStream)
      ensures hasContext == old(hasContext) && tracksStopped == old(tracksStopped)
      ensures closeCalls == old(closeCalls)
    {
      PushShiftKeepsLastN(voiced, rms, WINDOW_SIZE);
      voiced := voiced + [rms];
      window := window + [rms];
      if |window| > WINDOW_SIZE {
        window := window[1..];
      }
    }

    /** Lines 52-63: with a full window, its mean, variance and standard
        deviation give the instant stability, blended into the published
        one. */
    method UpdateStability(sqrt: real -> real)
      requires Valid() && |window| == WINDOW_SIZE && SqrtLike(sqrt)
      modifies this
      ensures Valid()
      ensures stability == Smooth(old(stability), WindowStability(old(window), sqrt))
      ensures window == old(window) && voiced == old(voiced) && isSilent == old(isSilent)
      ensures frameScheduled == old(frameScheduled) && hasStream == old(hasStream)
      ensures hasContext == old(hasContext) && tracksStopped == old(tracksStopped)
      ensures closeCalls == old(closeCalls)
    {
      var mean := Sum(window) / WINDOW_SIZE as real;
      var variance := SquaredDeviations(window, mean) / WINDOW_SIZE as real;
      var stdDev := sqrt(variance);
      var instant := InstantStability(stdDev);
      SmoothStaysInRange(stability, instant);
      stability := Smooth(stability, instant);
    }

    /** Lines 76-84: cancel the frame, stop the tracks, close the context,
        each only when it was set up. The references are not cleared, so a
        second stop closes the context again. */
    method StopAnalysis()
      requires Valid()
      modifies this
      ensures Valid()
      ensures !frameScheduled
      ensures tracksStopped == (old(tracksStopped) || hasStream)
      ensures closeCalls == old(closeCalls) + (if hasContext then 1 else 0)
      ensures stability == old(stability) && isSilent == old(isSilent) && window == old(window)
      ensures voiced == old(voiced) && hasStream == old(hasStream) && hasContext == old(hasContext)
    {
      frameScheduled := false;
      if hasStream {
        tracksStopped := true;
      }
      if hasContext {
        closeCalls := closeCalls + 1;
      }
    }
  }
}
