# Interview-ACE answer analysis, modelled in Dafny

Interview-ACE is a browser app for practising spoken interview answers. The
user records an answer and gets it scored. This project models the
sequential logic behind that flow:

- **Recognition events** (`SpeechRecognition.SpeechSession`). The
  recognition hook accumulates finalised text, rebuilds the interim text on
  every result event and detects pauses between events. It also averages
  the voice stability sampled at every final segment.
- **Voice stability** (`AudioMetrics.StabilityTracker`). One animation-frame
  tick of the audio meter computes the RMS volume of 128 frequency bins and
  classifies silence. It keeps a 20-sample FIFO window of voiced volumes and
  turns the window's standard deviation into a smoothed 0-100 score.
- **The scoring service** (`FeedbackService`). It validates the answer and
  builds a fixed prompt and payload. It normalises the endpoint and ping
  URLs and classifies the HTTP outcome into distinct errors. It then reads
  the model's text: the code fences are stripped and, when direct decoding
  fails, the greedy `{ … }` span is decoded instead.
- **The practice screen** (`SessionScreen.Screen`). It runs idle → analyzing
  → done or error, and files answers newest first in the history. Its two
  retry paths are modelled.
- **Small UI classifiers.** These are the settings form's validation
  (`SettingsForm`), the history list's toggle, numbering, truncation and
  score colours (`SessionHistory`), and the score card's grade colour and
  per-dimension defaulting (`ScoreCard`).

Code that changes state in place is modelled as classes with `modifies`
clauses: the recognition hook, the audio meter, the screen, the settings
form and the history panel. Every method's `ensures` gives the complete
new state. The pure parts are functions with lemmas.

Three collaborators the code calls but does not define become parameters:

- `decode: Decoder` stands for `JSON.parse`;
- `transport: Transport` stands for `fetch`;
- `sqrt` stands for `Math.sqrt`, constrained by `SqrtLike` to be
  non-negative, monotone and to square back.

Clock readings (`Date.now()`) become `now` parameters. Each browser event
becomes one method call: a result event, an error, the end of recognition
and an audio frame.

Timestamps are integer milliseconds. A pause is kept in integer tenths of a
second, the precision `toFixed(1)` leaves, and `FormatTenths` writes it back
as text. `Math.round` is modelled as `floor(x + 1/2)`.

Where the code and its design notes disagree, the model follows the code:

- `avgStability` is the rounded mean of the samples, not the truncated one
  (src/hooks/useSpeechRecognition.js:77).
- The published transcript is trimmed at both ends, not only at the end
  (src/hooks/useSpeechRecognition.js:82).
- The instant stability bottoms out at 0, not at the 1 a comment mentions
  (src/hooks/useAudioMetrics.js:57-59).
- The "No Content" error is raised for status 204 whatever the body holds
  (src/services/localAIService.js:84-86).
- A status outside 200-299 is reported with its status line, before the
  body is looked at.

## Model

| member | source | states |
|---|---|---|
| FeedbackService.CheckAnswer | src/services/localAIService.js:2-4 | The answer passes exactly when it is present and is at least 10 characters long once trimmed. A passing answer is returned unchanged; otherwise the error is the "too short" one. |
| FeedbackService.AnalyzeAnswerValidatesFirst | src/services/localAIService.js:1-115 | Of `AnalyzeAnswer`, which models the whole function: a too-short answer fails with the "too short" error whatever the server would answer, so no request matters. A valid answer gets the server's reply to exactly the prepared request, read by `HandleOutcome`. |
| FeedbackService.AnswerGetsModelFeedback | src/services/localAIService.js:1-115 | End to end: a long enough answer whose prepared request gets a 2xx reply, with the model's backtick-free JSON text under `response`, yields exactly the object that text decodes to. |
| FeedbackService.PrepareRequest | src/services/localAIService.js:2-55 | The request fails exactly when validation fails. Otherwise it targets the normalised generate URL and carries the payload built from the inputs. |
| FeedbackService.ModelFor | src/services/localAIService.js:7 | The model is the given name when that is non-empty, otherwise `llama3.2`; never empty. |
| FeedbackService.BuildPayload | src/services/localAIService.js:6-9 | The payload never streams, always asks for `json`, names the chosen model and carries the prompt. |
| FeedbackService.FillPrompt | src/services/localAIService.js:10-47 | Of the template that `BuildPrompt` fills: the question, the answer, the pause list and the stability value appear verbatim, each at the offset fixed by the template text and the parts before it. The length is the sum of all parts. |
| FeedbackService.PauseListNoneIffEmpty | src/services/localAIService.js:19 | Of `PauseList` and `FormatAll`: the pause line reads `None` exactly when the metrics or their pauses are absent. Otherwise it is the `", "`-join of every pause written to one decimal. |
| FeedbackService.StabilityValue | src/services/localAIService.js:20 | The stability reads `N/A` exactly when the metrics are absent or their average is 0 (falsy). Otherwise it is the average in decimal digits, which read back as the average. |
| FeedbackService.GenerateUrl | src/services/localAIService.js:50-53 | A base that already ends in `/api/generate` is kept unchanged. Any other base loses one trailing slash and gets `/api/generate` appended. So the URL always ends in `/api/generate`, and an absent or empty endpoint gives `http://localhost:11434/api/generate`. |
| FeedbackService.GenerateUrlIdempotent | src/services/localAIService.js:50-53 | Normalising a normalised URL changes nothing. |
| FeedbackService.PingUrl | src/services/localAIService.js:55 | A base ending in `/api/generate` loses that suffix and then one trailing slash. Any other base only loses one trailing slash. `/api/tags` is appended in both cases. |
| FeedbackService.PingUrlAgreesWithGenerateUrl | src/services/localAIService.js:50-55 | Unless the base ends in `//`, pinging from the normalised URL is the same as pinging from the configured one. |
| FeedbackService.StatusLineInjective | src/services/localAIService.js:89 | Of `Message`, the text each error carries: the HTTP error message determines both the status and the status text. |
| FeedbackService.HandleOutcome | src/services/localAIService.js:68-114 | With `ClassifyOutcome`, checked in order: a thrown fetch gives the network error, status 204 the "No Content" error, and any other non-2xx status an error carrying that status and text. A body that does not decode gives exactly what `ReadEnvelope` gives for it: the warning-page error when a marker is present, otherwise the not-JSON error. A body that decodes gives the parse of its `response` text, or the TypeError of a null envelope or non-string `response`. |
| FeedbackService.WellFormedReplyBecomesFeedback | src/services/localAIService.js:92-114 | A 2xx reply whose envelope holds the model's JSON text under `response`, bare or in either fence, gives exactly the object that text decodes to. |
| FeedbackService.StatusErrorsIgnoreBody | src/services/localAIService.js:83-90 | For a 204 or non-2xx status the result does not depend on the body or on the decoder. |
| FeedbackService.ReadEnvelope | src/services/localAIService.js:92-103 | A decodable body gives its value. Otherwise the error is the warning-page one exactly when the text contains `ngrok-skip-browser-warning` or `visit the site`, and the not-JSON one otherwise. |
| FeedbackService.AsWrittenNonJsonBodyIsAlreadyConsumed | src/services/localAIService.js:92-103 | Of `ReadEnvelopeAsWritten`: as written, any body that does not decode ends in the "body already read" failure of the second read. |
| FeedbackService.TunnelWarningPageExample | src/services/localAIService.js:92-103 | For a warning page that is not JSON, the code as written fails on the consumed body, while the corrected reading reports the warning page. |
| FeedbackService.ResponseText | src/services/localAIService.js:104 | `result.response \|\| ''`, read as text. A `null` envelope gives the TypeError. A string `response` is returned as it is. A missing or falsy `response`, or a non-object envelope, gives `''`. A truthy `response` that is not a string gives the TypeError. Conversely, a non-empty text comes only from a string-valued `response` field. |
| FeedbackService.RemoveFences | src/services/localAIService.js:106 | Removing fences never lengthens the text and leaves text without the fence's first character unchanged. Where each fence goes is stated by `FenceRemovedWhereItStands`. |
| FeedbackService.FenceRemovedWhereItStands | src/services/localAIService.js:106 | A fence with the newline after it is removed where it stands: the text before it and the text after it are cleaned separately. This holds whenever the text before does not end in the fence's first character and the fence is a run of that character followed by other characters. |
| FeedbackService.FenceWithoutNewlineRemoved | src/services/localAIService.js:106 | The same for a fence not followed by a newline: only the fence goes. |
| FeedbackService.RemoveFencesSplit | src/services/localAIService.js:106 | No match can start before such a fence and run into it, so the text before the fence and the fence with what follows it are cleaned separately. |
| FeedbackService.BacktickFencesAreLeadingRun | src/services/localAIService.js:106 | Both fences the code removes, ```` ```json ```` and ```` ``` ````, have the shape the two lemmas above require. |
| FeedbackService.CleanPlain | src/services/localAIService.js:106 | Of `Clean`: a text without backticks cleans to its trimmed self. |
| FeedbackService.CleanJsonFenced | src/services/localAIService.js:106 | A backtick-free text in a ```` ```json ```` fence cleans to its trimmed self. |
| FeedbackService.CleanBareFenced | src/services/localAIService.js:106 | A backtick-free text in a bare ```` ``` ```` fence cleans to its trimmed self. |
| FeedbackService.OuterBraces | src/services/localAIService.js:111 | A span exists exactly when some `{` precedes some `}`. It is then the text from the first `{` to the last `}`, both included. |
| FeedbackService.OuterBracesOfWrapped | src/services/localAIService.js:111 | With no `{` before it and no `}` after it, an embedded object is exactly the greedy span. |
| FeedbackService.ParseModelText | src/services/localAIService.js:106-114 | With `ParseCleaned`: a decodable cleaned text gives its value. Otherwise a brace span that decodes gives its value, and one that does not gives the decoder's SyntaxError. Without a span the error is "could not parse". Any success comes from the cleaned text or its span. |
| FeedbackService.ParseIgnoresFences | src/services/localAIService.js:106-109 | A fenced reply (either fence) parses exactly like the bare one. |
| FeedbackService.ParseRecoversWrappedObject | src/services/localAIService.js:108-112 | An object wrapped in brace-free prose is recovered by the fallback. |
| FeedbackService.ParseEmptyFails | src/services/localAIService.js:108-113 | An empty reply ends in the "could not parse" error. |
| AudioMetrics.SquareSum | src/hooks/useAudioMetrics.js:37-40 | The loop returns the sum of the squared bins. |
| AudioMetrics.RmsNonNegative | src/hooks/useAudioMetrics.js:41 | Of `Rms`: the RMS volume is never negative. |
| AudioMetrics.SilentIffQuiet | src/hooks/useAudioMetrics.js:41-44 | Of `Rms`: for 128 bins a frame is silent (rms < 2, strictly) exactly when the sum of squares is below 512. |
| AudioMetrics.Variance | src/hooks/useAudioMetrics.js:53-54 | The population variance of the window is never negative. |
| AudioMetrics.InstantStability | src/hooks/useAudioMetrics.js:59 | The score lies in [0, 100]. It is 0 exactly when stdDev ≥ 20 and 100 exactly when stdDev is 0. |
| AudioMetrics.InstantStabilityAntitone | src/hooks/useAudioMetrics.js:59 | A larger deviation never gives a higher score. |
| AudioMetrics.SteadyVoiceScoresFull | src/hooks/useAudioMetrics.js:53-59 | Of `WindowStability`: a window of equal volumes scores 100. |
| AudioMetrics.Round | src/hooks/useAudioMetrics.js:62 | The result is the integer within half a unit of x, halves rounded up. |
| AudioMetrics.SmoothBetween | src/hooks/useAudioMetrics.js:62 | Of `Smooth`: the smoothed value lies between the previous value and the instant score, inclusive. |
| AudioMetrics.SmoothStaysInRange | src/hooks/useAudioMetrics.js:62 | From values in [0, 100] the smoothed value stays in [0, 100]. |
| AudioMetrics.LastN | src/hooks/useAudioMetrics.js:49-50 | The window holds the last min(n, \|s\|) samples in their original order. |
| AudioMetrics.PushShiftKeepsLastN | src/hooks/useAudioMetrics.js:49-50 | Pushing and then dropping the oldest sample when over the limit keeps exactly the last n voiced samples, in order. |
| AudioMetrics.StabilityTracker.constructor | src/hooks/useAudioMetrics.js:4-5 | The tracker starts with stability 100, silent, with an empty window and no audio resources. |
| AudioMetrics.StabilityTracker.StartAnalysis | src/hooks/useAudioMetrics.js:12-74 | When the microphone is granted, the stream and a new context are held and the tracks are live. The first `analyze` runs at once over the given bins (line 70). Silence is then that frame's rms < 2, the window holds that rms when the frame is voiced and is empty otherwise, and the next frame is scheduled. A refused request changes nothing. Stability and the close count always carry over. |
| AudioMetrics.StabilityTracker.Tick | src/hooks/useAudioMetrics.js:33-68 | Only a scheduled frame runs. Silence is rms < 2. A silent frame changes neither window nor stability. A voiced frame appends its rms and keeps the last 20. Stability is recomputed, as the smoothed window score, only when the window holds exactly 20. It stays in [0, 100]. |
| AudioMetrics.StabilityTracker.PushVolume | src/hooks/useAudioMetrics.js:48-50 | Pushing a voiced volume, and shifting when the window overflows, leaves the window equal to the last 20 voiced volumes. Nothing else changes. |
| AudioMetrics.StabilityTracker.UpdateStability | src/hooks/useAudioMetrics.js:52-63 | With a full window, stability becomes the rounded 90/10 blend of the old value and the window's score, and stays in [0, 100]. The window is unchanged. |
| AudioMetrics.StabilityTracker.StopAnalysis | src/hooks/useAudioMetrics.js:76-84 | No frame stays scheduled. The tracks are stopped if there is a stream, and the context is closed again on every stop once one exists. |
| SpeechRecognition.PauseTenths | src/hooks/useSpeechRecognition.js:58-62 | A gap over 1.5 s is recorded as the nearest tenth of a second (halves up), at least 1.5. |
| SpeechRecognition.PauseThreshold | src/hooks/useSpeechRecognition.js:57-59 | Of `IsPause`: exactly 1500 ms is not a pause and 1501 ms is. No pause is counted without a previous time, or when it is 0. |
| SpeechRecognition.PauseRendering | src/hooks/useSpeechRecognition.js:62 | Gaps of 1501, 1549, 1550 and 12345 ms read "1.5", "1.5", "1.6" and "12.3". |
| SpeechRecognition.FormatTenthsInjective | src/hooks/useSpeechRecognition.js:62 | Different pauses are never written alike. |
| SpeechRecognition.FinalTextAppend | src/hooks/useSpeechRecognition.js:68-73 | Finalised text is append-only: two batches add what the two batches add at once. |
| SpeechRecognition.InterimTextAppend | src/hooks/useSpeechRecognition.js:78-80 | Interim text of two batches is their interim texts in order. |
| SpeechRecognition.FinalCountAppend | src/hooks/useSpeechRecognition.js:70-75 | The number of samples taken adds up over batches. |
| SpeechRecognition.FinalTextShape | src/hooks/useSpeechRecognition.js:68-80 | No final segment adds no text. Some final segment means the added text ends in a space. Only final segments means no interim text. |
| SpeechRecognition.RoundedMean | src/hooks/useSpeechRecognition.js:76-77 | The rounded mean of percentage samples is a percentage. |
| SpeechRecognition.RoundedMeanBounds | src/hooks/useSpeechRecognition.js:76-77 | The rounded mean lies between the smallest and the largest sample. |
| SpeechRecognition.WithPause | src/hooks/useSpeechRecognition.js:57-65 | A pause is appended exactly when the previous time is set and truthy and the gap exceeds 1.5 s; nothing else in the metrics changes. |
| SpeechRecognition.SpeechSession.constructor | src/hooks/useSpeechRecognition.js:7-23 | The hook starts empty, not listening, without error, with fresh metrics and a fresh meter. |
| SpeechRecognition.SpeechSession.Start | src/hooks/useSpeechRecognition.js:25-42 | Without support only the "not supported" error is set. Otherwise the error, transcript, finalised text and history are cleared, the metrics start at `now`, `lastResultTime := now`, and the meter starts. With the microphone granted, the meter holds a stream and a new context with live tracks. Its first frame has run, as in `StartAnalysis`: its silence is read from that frame, its window is that frame's rms or empty, and the next frame is scheduled. With the microphone refused, the meter is unchanged. Either way its stability and close count carry over. |
| SpeechRecognition.SpeechSession.OnStart | src/hooks/useSpeechRecognition.js:49 | Listening begins; nothing else changes. |
| SpeechRecognition.SpeechSession.OnResult | src/hooks/useSpeechRecognition.js:51-83 | Final segments from `resultIndex` on each append their text plus one space and push one sample. The average becomes the rounded mean when any was final. A pause is added per `WithPause`. `lastResultTime := now`. The transcript is `Trim(finalised + this event's interim)`. |
| SpeechRecognition.SpeechSession.AddSegments | src/hooks/useSpeechRecognition.js:68-81 | The loop adds exactly `FinalText` of the batch, pushes one sample per final segment (`FinalCount`), and returns the batch's `InterimText`. |
| SpeechRecognition.SpeechSession.AddFinal | src/hooks/useSpeechRecognition.js:70-77 | One final segment sets the finalised text, pushes one sample and recomputes the average. |
| SpeechRecognition.SegmentStep | src/hooks/useSpeechRecognition.js:68-80 | Taking one more segment adds its text plus a space to the final text when it is final, and to the interim text otherwise. It adds one to the final count exactly when the segment is final. |
| SpeechRecognition.SpeechSession.OnError | src/hooks/useSpeechRecognition.js:85-89 | `no-speech` changes nothing. Any other code sets `Mic error: <code>` and stops listening. |
| SpeechRecognition.SpeechSession.OnEnd | src/hooks/useSpeechRecognition.js:91-94 | Listening ends and the meter is stopped: no frame stays scheduled, its tracks are stopped when it has a stream, its context is closed once more when it has one, and its stability, silence and window are kept. |
| SpeechRecognition.SpeechSession.Stop | src/hooks/useSpeechRecognition.js:100-107 | The handle is dropped, listening ends and the meter is stopped: no frame stays scheduled, its tracks are stopped when it has a stream, its context is closed once more when it has one, and its stability, silence and window are kept. This holds for the one meter and recognition the model tracks, so repeating `Stop` is safe; the text and metrics are kept. What a second `Start` leaves running is not tracked (see "Left out"). |
| SpeechRecognition.SpeechSession.Reset | src/hooks/useSpeechRecognition.js:109-120 | As `Stop`, the meter is stopped: no frame stays scheduled, its tracks are stopped when it has a stream, its context is closed once more when it has one, and its stability, silence and window are kept. Then the transcript, error and finalised text are cleared and the metrics are fresh with no start time. The history and last event time are kept. |
| SessionScreen.ErrorText | src/components/SessionScreen.jsx:47 | The banner text is the error's message, or the fallback when that is empty; never empty. |
| SessionScreen.WordCountOfWords | src/components/SessionScreen.jsx:131 | Of `WordCount`: non-empty space-free words joined by single spaces count as one word each. |
| SessionScreen.SpacesHaveNoWords | src/components/SessionScreen.jsx:131 | A text of spaces has no words. |
| SessionScreen.Screen.constructor | src/components/SessionScreen.jsx:10-23 | The screen starts idle and empty. Its `analyze` is `analyzeAnswer` over the given server and decoder. |
| SessionScreen.Screen.HandleRecordingComplete | src/components/SessionScreen.jsx:25-50 | A blank transcript gives the plain notice (no banner), idle status and nothing else changed. Otherwise transcript and metrics are stored. Success means done, the feedback, and exactly one entry prepended to the history. Failure means error status and a generic banner with the error text. |
| SessionScreen.Screen.Retry | src/components/SessionScreen.jsx:52-60 | Idle; transcript, metrics, feedback, error and countdown cleared; history kept. |
| SessionScreen.Screen.RetryAnalysis | src/components/SessionScreen.jsx:62-67 | The countdown is cleared and the outcome is that of analysing exactly the stored transcript and metrics. |
| SessionScreen.ShortAnswerReachesBanner | src/components/SessionScreen.jsx:26-47 | A non-blank answer under 10 characters passes the screen's check and fails the service's, ending in the "too short" banner. |
| SettingsForm.InitialValue | src/components/LocalSettingsModal.jsx:5-6 | A non-empty initial value is used, otherwise the default. |
| SettingsForm.Validate | src/components/LocalSettingsModal.jsx:11-24 | Success exactly when the trimmed endpoint starts with `http` and the trimmed model is non-empty, and then the values are trimmed. A bad URL is reported before a missing model. |
| SettingsForm.EndpointCheckedFirst | src/components/LocalSettingsModal.jsx:14-21 | A blank endpoint gives the URL error whatever the model field holds. |
| SettingsForm.SavedSettingsRevalidate | src/components/LocalSettingsModal.jsx:11-24 | Saved settings pass again unchanged. |
| SettingsForm.TrimmedValuesAccepted | src/components/LocalSettingsModal.jsx:11-24 | Values with visible ends and an `http` endpoint are saved as they stand. |
| SettingsForm.DefaultsAccepted | src/components/LocalSettingsModal.jsx:5-6 | The default endpoint and model pass validation unchanged. |
| SettingsForm.PaddingIgnored | src/components/LocalSettingsModal.jsx:11-12 | Appending the same white space to both fields does not change the outcome. |
| SettingsForm.SettingsModal.constructor | src/components/LocalSettingsModal.jsx:4-7 | The fields start at the initial values or the defaults, with no error and nothing saved. |
| SettingsForm.SettingsModal.EditEndpoint | src/components/LocalSettingsModal.jsx:46 | Only the endpoint field changes. |
| SettingsForm.SettingsModal.EditModel | src/components/LocalSettingsModal.jsx:55 | Only the model field changes. |
| SettingsForm.SettingsModal.Submit | src/components/LocalSettingsModal.jsx:9-25 | A refused form shows its error and saves nothing. An accepted one clears the error and saves the trimmed values exactly once. The typed fields stay as they are. |
| SessionHistory.ToggleTarget | src/components/SessionHistory.jsx:7 | The result is null exactly when the entry was the expanded one, otherwise that entry. |
| SessionHistory.ToggleTwice | src/components/SessionHistory.jsx:7 | From collapsed (or from this entry) two toggles restore the state; from another entry they collapse. |
| SessionHistory.HistoryPanel.constructor | src/components/SessionHistory.jsx:5 | Nothing is expanded at first. |
| SessionHistory.HistoryPanel.Toggle | src/components/SessionHistory.jsx:7 | The state becomes `ToggleTarget`, and no other entry is expanded. |
| SessionHistory.EntryNumbers | src/components/SessionHistory.jsx:25 | The entry at index idx is numbered length − idx. |
| SessionHistory.EntryNumbersCountDown | src/components/SessionHistory.jsx:25 | Numbers run from length down to 1, strictly decreasing. A new entry at the front takes the next number without renumbering the rest. |
| SessionHistory.Clip | src/components/SessionHistory.jsx:54 | A text within the limit is unchanged; a longer one keeps its first `limit` characters followed by `…`. |
| SessionHistory.ClipIdempotent | src/components/SessionHistory.jsx:54 | Cutting a cut text changes nothing. |
| SessionHistory.Snippet | src/components/SessionHistory.jsx:27-29 | A question up to 60 characters is shown whole; a longer one as its first 60 characters plus `…`. |
| SessionHistory.ShownStrengths | src/components/SessionHistory.jsx:51-54 | At most the first two strengths are shown, in order, each cut at 40 characters. |
| SessionHistory.ShownScore | src/components/SessionHistory.jsx:37 | The score is `overall` unless feedback or `overall` is missing or null, in which case it is `?`. |
| SessionHistory.ScoreColorBands | src/components/SessionHistory.jsx:67-73 | Of `ScoreColor`: muted exactly for a missing or zero score; success for ≥ 8, warning for [6, 8), orange for [4, 6), danger otherwise. Exactly one band applies. |
| SessionHistory.ScoreColorMonotone | src/components/SessionHistory.jsx:67-73 | A higher non-zero score never gets a worse band. |
| ScoreCard.GradeColorByFirstLetter | src/components/ScoreCard.jsx:13-19 | Of `GradeColor`: grey exactly for a missing or empty grade. Otherwise the first character decides: A, B and C have their colours and everything else is red. |
| ScoreCard.DimensionValue | src/components/ScoreCard.jsx:108 | The value is `scores[key]` when present and not null, otherwise 0; without `scores` it is 0. |
| ScoreCard.DimensionValues | src/components/ScoreCard.jsx:107-108 | One value per dimension, in display order. |
| ScoreCard.NoScoresAllZero | src/components/ScoreCard.jsx:108 | Without a scores object every dimension shows 0. |
| ScoreCard.DepthIsNotRequested | src/components/ScoreCard.jsx:4-11 | Of the six dimensions, exactly `depth` is missing from the keys the prompt asks for. |
| ScoreCard.DepthDefaultsToZero | src/components/ScoreCard.jsx:4-11 | A scores object without `depth` shows 0 for the fifth dimension, which is `depth`. |

## Findings

| source | as written | input that shows it | evidently intended | confidence | as-written member | corrected member |
|---|---|---|---|---|---|---|
| src/services/localAIService.js:92-103 | After `response.json()` fails, `response.text()` is called on the same response. The first read has already consumed the body, so the second read rejects with a TypeError, and neither the warning-page message nor the not-JSON message can ever be raised. | A 200 response whose body is `<html>visit the site</html>` | The text is read once and then decoded, so a non-JSON body is classified as the warning page or as not JSON. | high; not executed | FeedbackService.AsWrittenNonJsonBodyIsAlreadyConsumed | FeedbackService.ReadEnvelope |

`FeedbackService.ReadEnvelopeAsWritten` models lines 92-103 as written. `FeedbackService.TunnelWarningPageExample` shows both readings on the input above. The rest of the model uses the corrected `ReadEnvelope`.

## Left out

- Network I/O is not modelled: `fetch` itself, the diagnostic ping request and its logging, and `console` output (src/services/localAIService.js:57-66, 79, 96). An HTTP exchange is a `Transport` value.
- `JSON.parse` is an abstract `Decoder` parameter: JSON syntax is not re-implemented.
- Browser objects are not modelled: `SpeechRecognition` construction and wiring, `getUserMedia`, the AudioContext/Analyser graph and `requestAnimationFrame`. Their events and frames are method calls with explicit inputs. A failed microphone request is `StartAnalysis` with `granted` false; a granted one also receives the bins of the first frame, which `analyze` reads at once.
- The microphone request is modelled as finishing inside `Start`. In the hook, `startAudioAnalysis` is `async` and `start` calls it without waiting (src/hooks/useAudioMetrics.js:12-14, src/hooks/useSpeechRecognition.js:42). A `stop` or `onend` that arrives while `getUserMedia` is still pending runs `stopAudioAnalysis` before the stream and context exist. The frame loop that starts afterwards is then never cancelled. The model does not capture that interleaving, so "no frame stays scheduled" after a stop holds only for a request that has already finished.
- The stability that a result event samples is a parameter. In the hook it is the value captured when `start` was created.
- React state updates are applied at once, in order. The `await` in the screen's handler is collapsed into one call.
- Floating point is not modelled: volumes and weights are exact reals, and `Math.sqrt` is any `SqrtLike` function.
- SpeechRecognition.PauseTenths: rounds exact half tenths up. `toFixed(1)` works on the binary double of the gap in seconds, so a gap such as 1650 ms reads "1.6" in the browser where the model says 1.7.
- DeliveryMetrics.Metrics: keeps pauses as integer tenths. The hook stores the strings `toFixed(1)` returns, which `FormatTenths` reproduces.
- `totalSpeakingTime` is never updated by the code, so the model only carries it along.
- SpeechRecognition.SpeechSession.Start: uses one `now` for both `Date.now()` readings of lines 33 and 37.
- SpeechRecognition.SpeechSession.Stop: the `onend` event that `recognition.stop()` later fires is the separate `OnEnd` call.
- SpeechRecognition.SpeechSession.Start: `start` has no guard against running while a session is live (src/hooks/useSpeechRecognition.js:25-42). A second call starts a second analysis (src/hooks/useAudioMetrics.js:12-70) and overwrites `recognitionRef`, `streamRef`, `audioContextRef` and `frameIdRef`. A later `stop` then cancels only the newest frame loop and recognition and releases only the newest stream and context. The first recognition, frame loop, stream and context keep running. The model has one meter and one recognition flag, so a second `Start` replaces them, and it does not capture these orphaned resources.
- FeedbackService.ResponseText: the engine's own TypeError wording (null envelope, non-string `response`) is the placeholder "TypeError".
- FeedbackService.Message: that the nine messages are pairwise different is not proved.
- SessionHistory.ScoreColor: covers numeric scores only. JavaScript's coercion of non-numeric `overall` values (and NaN) is not modelled.
- ScoreCard.GradeColor: covers string grades only; a non-string grade would throw in the source.
- Strings are sequences of Unicode characters. JavaScript counts UTF-16 code units, so the 60- and 40-character cuts and the length-10 check differ for characters outside the Basic Multilingual Plane.
- The screen's countdown timer is not modelled: its interval is never started in this code, and only the `countdown := 0` resets are kept. The `recording` status set by the recorder component is not modelled either.
- Rendering is not modelled: `useWaveform.js`, the `ArcMeter` animation, the JSX of the feedback panel, home screen and recorder, the static question bank, and `App.jsx` navigation with `localStorage`.
