/** The delivery metrics record that a recording session accumulates and the
    feedback request reports (src/hooks/useSpeechRecognition.js). */
module DeliveryMetrics {
  import opened Wrappers
  import opened Text

  /** `{pauses, avgStability, startTime, totalSpeakingTime}`. A pause is kept
      in tenths of a second, the precision `toFixed(1)` leaves; timestamps are
      milliseconds. */
  datatype Metrics = Metrics(
    pauses: seq<nat>,
    avgStability: nat,
    startTime: Option<int>,
    totalSpeakingTime: nat)

  const INITIAL_AVG_STABILITY: nat := 100

  /** The record a session holds before any speech: no pauses, stability 100. */
  function Fresh(startTime: Option<int>): Metrics {
    Metrics([], INITIAL_AVG_STABILITY, startTime, 0)
  }

  /** A pause of `tenths` tenths of a second as `toFixed(1)` writes it. */
  function FormatTenths(tenths: nat): (r: string)
  {
    NatToString(tenths / 10) + "." + [DigitChar(tenths % 10)]
  }
}
