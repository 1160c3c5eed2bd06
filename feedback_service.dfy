/** The scoring request and the tolerant reading of its reply
    (src/services/localAIService.js, `analyzeAnswer`).

    `analyzeAnswer` validates the answer, builds a fixed prompt and payload,
    normalises the endpoint, POSTs the payload and turns whatever comes back
    into either a decoded feedback object or one of several distinct errors.
    Here each stage is a function returning a `Result`; the HTTP exchange is a
    `Transport` parameter and `JSON.parse` a `Decoder` parameter. */
module FeedbackService {
  import opened Wrappers
  import opened Text
  import opened JsonValues
  import opened DeliveryMetrics

  const MIN_ANSWER_LENGTH: nat := 10
  const DEFAULT_MODEL := "llama3.2"
  const DEFAULT_BASE_URL := "http://localhost:11434"
  const GENERATE_PATH := "/api/generate"
  const TAGS_PATH := "/api/tags"
  const TUNNEL_WARNING_MARKER := "ngrok-skip-browser-warning"
  const VISIT_SITE_MARKER := "visit the site"
  const NO_CONTENT_STATUS: nat := 204

  /** Every way `analyzeAnswer` can fail, one constructor per distinct message. */
  datatype AnalysisError =
    | AnswerTooShort
    | NetworkFailure
    | NoContent
    | HttpFailure(status: nat, statusText: string)
    | TunnelWarningPage
    | BodyNotJson
      /** The TypeError JavaScript raises when the envelope is `null` or its
          `response` field is a truthy value that is not a string. */
    | ResponseNotText
    | Unparseable
      /** The SyntaxError of the second `JSON.parse`, which is not caught. */
    | FallbackSyntaxError(message: string)

  /** The message each error carries; a JavaScript engine's own TypeError
      wording is represented by the word "TypeError". */
  function Message(e: AnalysisError): string {
    match e
    case AnswerTooShort => "Your answer is too short to analyze. Please record a longer response."
    case NetworkFailure => "Failed to connect to local AI. Network error or CORS block. Is Ollama running and accessible via Ngrok?"
    case NoContent => "Local AI returned \"204 No Content\". This often means Ngrok or Ollama is blocking the request (CORS/Preflight). Check your OLLAMA_ORIGINS setting."
    case HttpFailure(status, statusText) => "Local AI returned error: " + NatToString(status) + " " + statusText
    case TunnelWarningPage => "Still hitting Ngrok warning page. The X-Requested-With bypass header might not be working."
    case BodyNotJson => "Could not parse AI response as JSON. The server might be sending an error page instead."
    case ResponseNotText => "TypeError"
    case Unparseable => "Could not parse AI response. Ensure the model supports JSON format."
    case FallbackSyntaxError(message) => message
  }

  /** "<status> <statusText>" determines both parts: digits never include
      the space that follows them. */
  lemma StatusLineInjective(s1: nat, t1: string, s2: nat, t2: string)
    requires NatToString(s1) + " " + t1 == NatToString(s2) + " " + t2
    ensures s1 == s2 && t1 == t2
  {
    var d1, d2 := NatToString(s1), NatToString(s2);
    var x := d1 + " " + t1;
    assert x[..|d1|] == d1 && x[|d1|] == ' ';
    assert x[..|d2|] == d2 && x[|d2|] == ' ';
    FirstIndexOfAt(x, ' ', |d1|);
    FirstIndexOfAt(x, ' ', |d2|);
    assert d1 == x[..|d1|];
    assert d2 == (d2 + " " + t2)[..|d2|];
    NatToStringInjective(s1, s2);
    assert t1 == x[|d1| + 1..];
    assert t2 == (d2 + " " + t2)[|d2| + 1..];
  }

  datatype Payload = Payload(model: string, stream: bool, format: string, prompt: string)

  /** The POST `analyzeAnswer` makes: target URL and JSON body. */
  datatype Request = Request(url: string, payload: Payload)

  /** What `fetch` delivers: a thrown error, or a response whose body text is
      given in full. */
  datatype HttpOutcome = FetchThrew | Response(status: nat, statusText: string, body: string)

  /** The external inference server, seen from the client. */
  type Transport = Request -> HttpOutcome

  // ----- Validation -------------------------------------------------------

  /** An absent answer, or one shorter than ten characters once trimmed, is
      refused before anything else happens. */
  function CheckAnswer(transcript: Option<string>): (r: Result<string, AnalysisError>)
    ensures r.Success? <==> transcript.Some? && |Trim(transcript.value)| >= MIN_ANSWER_LENGTH
    ensures r.Success? ==> r.value == transcript.value
    ensures r.Failure? ==> r.error == AnswerTooShort
  {
    if transcript.None? || |Trim(transcript.value)| < MIN_ANSWER_LENGTH then Failure(AnswerTooShort)
    else Success(transcript.value)
  }

  // ----- Prompt and payload -----------------------------------------------

  /** The score keys the prompt asks the model for, in the prompt's order. */
  const REQUESTED_SCORE_KEYS: seq<string> := ["clarity", "relevance", "confidence", "structure", "delivery"]

  const PROMPT_OPENING := "You are an expert senior interviewer and career coach. Analyze the following interview answer and provide structured feedback.\n\nINTERVIEW QUESTION:\n\""
  const PROMPT_ANSWER_HEADING := "\"\n\nCANDIDATE'S ANSWER (transcribed from speech):\n\""
  const PROMPT_PAUSES_HEADING := "\"\n\nSPEECH DELIVERY METRICS:\n- Pauses detected (durations in seconds): ["
  const PROMPT_STABILITY_HEADING := "]\n- Voice Stability Index (1-100, higher is smoother): "
  const PROMPT_SCHEMA_OPENING := "\n\nPlease evaluate this answer and the delivery. Respond ONLY in valid JSON format:\n{\n  \"scores\": {\n"
  /** The lines after the score keys, each ended by a newline but the last. */
  const PROMPT_CLOSING_LINES: seq<string> := [
    "  },",
    "  \"overall\": <integer 1-10>,",
    "  \"grade\": \"<A+|A|B+|B|C+|C|D|F>\",",
    "  \"summary\": \"<one sentence executive summary of the answer quality>\",",
    "  \"strengths\": [\"<strength 1>\", \"<strength 2>\", \"<strength 3>\"],",
    "  \"improvements\": [\"<improvement 1>\", \"<improvement 2>\", \"<improvement 3>\"],",
    "  \"deliveryFeedback\": \"<specific feedback on pauses and voice stability>\",",
    "  \"tip\": \"<one specific, actionable pro tip to make this answer stronger>\"",
    "}",
    "",
    "Scoring rubric:",
    "- clarity: How clearly and understandably the ideas were communicated (1-10)",
    "- relevance: How directly the answer addressed the interview question (1-10)",
    "- confidence: Tone, assertiveness, and conviction in the answer (1-10)",
    "- structure: Logical flow and organization (e.g., STAR method usage) (1-10)",
    "- delivery: Pacing, use of pauses, and vocal steadiness (1-10)",
    "",
    "Be constructive but honest. Respond ONLY with the JSON object."]

  /** The `"scores"` lines of the requested JSON shape, one per key, every
      line but the last ending in a comma. */
  function ScoreSchema(keys: seq<string>): string {
    if |keys| == 0 then ""
    else
      var line := "    \"" + keys[0] + "\": <integer 1-10>";
      if |keys| == 1 then line + "\n" else line + ",\n" + ScoreSchema(keys[1..])
  }

  /** `deliveryMetrics?.pauses?.join(', ') || 'None'`. */
  function PauseList(metrics: Option<Metrics>): string {
    var joined := if metrics.None? then "" else Join(FormatAll(metrics.value.pauses), ", ");
    if joined == "" then "None" else joined
  }

  function FormatAll(pauses: seq<nat>): (r: seq<string>)
    ensures |r| == |pauses|
    ensures forall k :: 0 <= k < |r| ==> r[k] == FormatTenths(pauses[k])
  {
    if pauses == [] then [] else [FormatTenths(pauses[0])] + FormatAll(pauses[1..])
  }

  /** The pause line reads "None" exactly when there is no pause to report;
      otherwise it lists every pause, to one decimal place. */
  lemma {:induction false} PauseListNoneIffEmpty(metrics: Option<Metrics>)
    ensures PauseList(metrics) == "None" <==> metrics.None? || metrics.value.pauses == []
    ensures metrics.Some? && metrics.value.pauses != [] ==>
              PauseList(metrics) == Join(FormatAll(metrics.value.pauses), ", ")
  {
    if metrics.Some? && metrics.value.pauses != [] {
      var ps := FormatAll(metrics.value.pauses);
      assert ps[0][0] == NatToString(metrics.value.pauses[0] / 10)[0];
      JoinOfPausesStartsWithDigit(ps);
      assert PauseList(metrics) == Join(ps, ", ");
      assert "None"[0] == 'N';
    }
  }

  lemma {:induction false} JoinOfPausesStartsWithDigit(ps: seq<string>)
    requires |ps| > 0
    requires ps[0] != [] && '0' <= ps[0][0] <= '9'
    ensures var j := Join(ps, ", "); j != [] && '0' <= j[0] <= '9'
  {
    if |ps| > 1 {
      assert Join(ps, ", ") == ps[0] + (", " + Join(ps[1..], ", "));
    }
  }

  /** `deliveryMetrics?.avgStability || 'N/A'`: zero counts as absent;
      any other average is written in decimal and reads back as itself. */
  function StabilityValue(metrics: Option<Metrics>): (r: string)
    ensures r == "N/A" <==> metrics.None? || metrics.value.avgStability == 0
    ensures metrics.Some? && metrics.value.avgStability != 0 ==>
              r == NatToString(metrics.value.avgStability)
              && (forall k :: 0 <= k < |r| ==> '0' <= r[k] <= '9')
              && DigitsValue(r) == metrics.value.avgStability
  {
    if metrics.None? || metrics.value.avgStability == 0 then "N/A"
    else
      var r := NatToString(metrics.value.avgStability);
      assert r[0] != 'N';
      NatToStringRoundTrip(metrics.value.avgStability);
      r
  }

  /** The fixed text of the prompt, in the order it is written around the
      four variable parts. */
  datatype PromptTemplate =
    PromptTemplate(opening: string, answerHeading: string, pausesHeading: string,
                   stabilityHeading: string, closing: string)

  const PROMPT_TEMPLATE := PromptTemplate(
    PROMPT_OPENING, PROMPT_ANSWER_HEADING, PROMPT_PAUSES_HEADING, PROMPT_STABILITY_HEADING,
    PROMPT_SCHEMA_OPENING + ScoreSchema(REQUESTED_SCORE_KEYS) + Join(PROMPT_CLOSING_LINES, "\n"))

  /** The template filled in: the question, the answer, the rendered pause
      list and the rendered stability are each quoted verbatim at a place
      fixed by the fixed text and the parts before it. */
  function FillPrompt(t: PromptTemplate, question: string, transcript: string, pauses: string,
                      stability: string): (r: string)
    ensures var q0 := |t.opening|;
            q0 + |question| <= |r| && r[q0..q0 + |question|] == question
    ensures var a0 := |t.opening| + |question| + |t.answerHeading|;
            a0 + |transcript| <= |r| && r[a0..a0 + |transcript|] == transcript
    ensures var p0 := |t.opening| + |question| + |t.answerHeading| + |transcript| + |t.pausesHeading|;
            p0 + |pauses| <= |r| && r[p0..p0 + |pauses|] == pauses
    ensures var s0 := |t.opening| + |question| + |t.answerHeading| + |transcript| + |t.pausesHeading|
                      + |pauses| + |t.stabilityHeading|;
            s0 + |stability| <= |r| && r[s0..s0 + |stability|] == stability
    ensures |r| == |t.opening| + |question| + |t.answerHeading| + |transcript| + |t.pausesHeading|
                   + |pauses| + |t.stabilityHeading| + |stability| + |t.closing|
  {
    Layout(t.opening, question, t.answerHeading, transcript, t.pausesHeading,
           pauses, t.stabilityHeading, stability, t.closing);
    t.opening + (question + (t.answerHeading + (transcript + (t.pausesHeading
    + (pauses + (t.stabilityHeading + (stability + t.closing)))))))
  }

  /** Lines 10-47: the prompt for one recording. */
  function BuildPrompt(question: string, transcript: string, metrics: Option<Metrics>): string {
    FillPrompt(PROMPT_TEMPLATE, question, transcript, PauseList(metrics), StabilityValue(metrics))
  }

  /** Where the even-numbered parts lie in a concatenation of nine parts. */
  lemma Layout(a: string, b: string, c: string, d: string, e: string, f: string, g: string, h: string, t: string)
    ensures var r := a + (b + (c + (d + (e + (f + (g + (h + t)))))));
            && |a| + |b| <= |r| && r[|a|..|a| + |b|] == b
            && |a| + |b| + |c| + |d| <= |r| && r[|a| + |b| + |c|..|a| + |b| + |c| + |d|] == d
            && |a| + |b| + |c| + |d| + |e| + |f| <= |r|
            && r[|a| + |b| + |c| + |d| + |e|..|a| + |b| + |c| + |d| + |e| + |f|] == f
            && |a| + |b| + |c| + |d| + |e| + |f| + |g| + |h| <= |r|
            && r[|a| + |b| + |c| + |d| + |e| + |f| + |g|..|a| + |b| + |c| + |d| + |e| + |f| + |g| + |h|] == h
  {
    var r := a + (b + (c + (d + (e + (f + (g + (h + t)))))));
    PartAt(a, b, c + (d + (e + (f + (g + (h + t))))));
    assert r == (a + b + c) + (d + (e + (f + (g + (h + t)))));
    PartAt(a + b + c, d, e + (f + (g + (h + t))));
    assert r == (a + b + c + d + e) + (f + (g + (h + t)));
    PartAt(a + b + c + d + e, f, g + (h + t));
    assert r == (a + b + c + d + e + f + g) + (h + t);
    PartAt(a + b + c + d + e + f + g, h, t);
  }

  lemma PartAt(p: string, x: string, rest: string)
    ensures |p| + |x| <= |p + (x + rest)| && (p + (x + rest))[|p|..|p| + |x|] == x
  {
    SliceOfAppend(p, x + rest, 0, |x|);
  }

  /** A slice of the right operand of `+`, seen through the left operand. */
  lemma SliceOfAppend(a: string, x: string, i: nat, j: nat)
    requires i <= j <= |x|
    ensures (a + x)[|a| + i..|a| + j] == x[i..j]
  {
  }

  function ModelFor(modelName: Option<string>): (r: string)
    ensures r != []
    ensures modelName.Some? && modelName.value != [] ==> r == modelName.value
    ensures modelName.None? || modelName.value == [] ==> r == DEFAULT_MODEL
  {
    if modelName.None? || modelName.value == [] then DEFAULT_MODEL else modelName.value
  }

  /** The payload never streams, always asks for JSON output, and names a
      model. */
  function BuildPayload(modelName: Option<string>, question: string, transcript: string,
                        metrics: Option<Metrics>): (r: Payload)
    ensures !r.stream && r.format == "json"
    ensures r.model == ModelFor(modelName)
    ensures r.prompt == BuildPrompt(question, transcript, metrics)
  {
    Payload(ModelFor(modelName), false, "json", BuildPrompt(question, transcript, metrics))
  }

  // ----- Endpoints --------------------------------------------------------

  /** `endpoint || 'http://localhost:11434'`. */
  function BaseUrl(endpoint: Option<string>): (r: string)
    ensures r != []
  {
    if endpoint.None? || endpoint.value == [] then DEFAULT_BASE_URL else endpoint.value
  }

  /** `s.replace(/\/$/, '')`: at most one trailing slash goes. */
  function DropTrailingSlash(s: string): (r: string)
    ensures r == s || (s == r + "/")
  {
    if |s| > 0 && s[|s| - 1] == '/' then s[..|s| - 1] else s
  }

  /** `s.replace(/<suffix>$/, '')`. */
  function DropSuffix(s: string, suffix: string): (r: string)
    ensures r == s || (s == r + suffix)
  {
    if EndsWith(s, suffix) then s[..|s| - |suffix|] else s
  }

  /** The POST target: the base when it already ends in `/api/generate`,
      otherwise the base less one trailing slash, followed by `/api/generate`. */
  function GenerateUrl(endpoint: Option<string>): (r: string)
    ensures EndsWith(r, GENERATE_PATH)
    ensures StartsWith(r, DropTrailingSlash(BaseUrl(endpoint)))
    ensures |r| <= |BaseUrl(endpoint)| + |GENERATE_PATH|
    ensures endpoint.None? || endpoint.value == [] ==> r == DEFAULT_BASE_URL + GENERATE_PATH
    ensures EndsWith(BaseUrl(endpoint), GENERATE_PATH) ==> r == BaseUrl(endpoint)
    ensures !EndsWith(BaseUrl(endpoint), GENERATE_PATH) ==> r == DropTrailingSlash(BaseUrl(endpoint)) + GENERATE_PATH
  {
    var base := BaseUrl(endpoint);
    if EndsWith(base, GENERATE_PATH) then base else DropTrailingSlash(base) + GENERATE_PATH
  }

  /** Normalising an already normalised endpoint changes nothing. */
  lemma GenerateUrlIdempotent(endpoint: Option<string>)
    ensures GenerateUrl(Some(GenerateUrl(endpoint))) == GenerateUrl(endpoint)
  {
  }

  /** The diagnostic ping target: the base with one trailing `/api/generate`
      and then one trailing slash removed, followed by `/api/tags`. */
  function PingUrl(endpoint: Option<string>): (r: string)
    ensures EndsWith(r, TAGS_PATH)
    ensures var root := r[..|r| - |TAGS_PATH|];
            var base := BaseUrl(endpoint);
            StartsWith(base, root)
            && base[|root|..] in {"", "/", GENERATE_PATH, "/" + GENERATE_PATH}
    ensures var base := BaseUrl(endpoint);
            !EndsWith(base, GENERATE_PATH) ==> r == DropTrailingSlash(base) + TAGS_PATH
    ensures var base := BaseUrl(endpoint);
            EndsWith(base, GENERATE_PATH) ==> r == DropTrailingSlash(base[..|base| - |GENERATE_PATH|]) + TAGS_PATH
  {
    var base := BaseUrl(endpoint);
    var stem := DropSuffix(base, GENERATE_PATH);
    var root := PingRoot(base);
    var r := root + TAGS_PATH;
    assert r[..|r| - |TAGS_PATH|] == root;
    assert base[..|root|] == root && base[|root|..] in {"", "/", GENERATE_PATH, "/" + GENERATE_PATH} by {
      if stem == base {
        if root == stem {
          assert base == root + "";
        } else {
          assert base == root + "/";
        }
      } else {
        assert base == stem + GENERATE_PATH;
        if root == stem {
          assert base == root + GENERATE_PATH;
        } else {
          assert base == root + ("/" + GENERATE_PATH);
        }
      }
    }
    r
  }

  /** The server's root as the ping derives it from the base URL. */
  function PingRoot(base: string): string {
    DropTrailingSlash(DropSuffix(base, GENERATE_PATH))
  }

  /** The ping and the request talk to the same server: pinging the
      normalised endpoint is pinging the endpoint as configured, unless the
      configured base ends in two slashes (then only one of them is dropped). */
  lemma PingUrlAgreesWithGenerateUrl(endpoint: Option<string>)
    requires !EndsWith(BaseUrl(endpoint), "//")
    ensures PingUrl(Some(GenerateUrl(endpoint))) == PingUrl(endpoint)
  {
    var g := GenerateUrl(endpoint);
    PingRootOfGenerateUrl(endpoint);
    assert BaseUrl(Some(g)) == g;
    PingUrlFromRoot(endpoint);
    PingUrlFromRoot(Some(g));
  }

  /** The normalised URL leads back to the same server root. */
  lemma PingRootOfGenerateUrl(endpoint: Option<string>)
    requires !EndsWith(BaseUrl(endpoint), "//")
    ensures PingRoot(GenerateUrl(endpoint)) == PingRoot(BaseUrl(endpoint))
  {
    var base := BaseUrl(endpoint);
    if !EndsWith(base, GENERATE_PATH) {
      var d := DropTrailingSlash(base);
      assert GenerateUrl(endpoint) == d + GENERATE_PATH;
      DropSuffixOfAppended(d, GENERATE_PATH);
      assert DropSuffix(base, GENERATE_PATH) == base;
      SingleSlashDropped(base);
    }
  }

  lemma DropSuffixOfAppended(d: string, suffix: string)
    ensures DropSuffix(d + suffix, suffix) == d
  {
    var s := d + suffix;
    assert s[|s| - |suffix|..] == suffix;
    assert s[..|s| - |suffix|] == d;
  }

  /** Without two trailing slashes, dropping one leaves none to drop. */
  lemma SingleSlashDropped(base: string)
    requires !EndsWith(base, "//")
    ensures DropTrailingSlash(DropTrailingSlash(base)) == DropTrailingSlash(base)
  {
    var d := DropTrailingSlash(base);
    if d != base && d != [] {
      assert base == d + "/" && d[|d| - 1] == base[|base| - 2];
      assert base[|base| - 2..] == [d[|d| - 1], '/'];
    }
  }

  lemma PingUrlFromRoot(endpoint: Option<string>)
    ensures PingUrl(endpoint) == PingRoot(BaseUrl(endpoint)) + TAGS_PATH
  {
  }

  // ----- Reading the reply ------------------------------------------------

  predicate IsOkStatus(status: nat) {
    200 <= status <= 299
  }

  /** A body that is not JSON is recognised as the tunnel's interstitial
      warning page by either of two marker strings. */
  predicate IsTunnelWarning(text: string) {
    Contains(text, TUNNEL_WARNING_MARKER) || Contains(text, VISIT_SITE_MARKER)
  }

  /** A fetch body, which the Fetch standard lets a reader consume once. */
  datatype BodyStream = BodyStream(content: string, used: bool)

  /** `response.json()`: consumes the body whether or not it decodes; `None`
      when the body was already consumed (a TypeError). */
  function ConsumeJson(b: BodyStream, decode: Decoder): (Option<Result<Json, string>>, BodyStream) {
    if b.used then (None, b) else (Some(decode(b.content)), b.(used := true))
  }

  /** `response.text()`: the body's text, or `None` (a TypeError) when the
      body was already consumed. */
  function ConsumeText(b: BodyStream): (Option<string>, BodyStream) {
    if b.used then (None, b) else (Some(b.content), b.(used := true))
  }

  /** How a failed body read ends as written: a TypeError from reading a
      consumed body, or one of the service's own errors. */
  datatype BodyReadError = BodyAlreadyConsumed | Reported(error: AnalysisError)

  /** Lines 92-103 as written: `response.json()` and then, when that fails,
      `response.text()` on the same, by then consumed, body. */
  function ReadEnvelopeAsWritten(body: string, decode: Decoder): Result<Json, BodyReadError> {
    var (parsed, afterJson) := ConsumeJson(BodyStream(body, false), decode);
    if parsed.Some? && parsed.value.Success? then Success(parsed.value.value)
    else
      var (text, _) := ConsumeText(afterJson);
      match text
      case None => Failure(BodyAlreadyConsumed)
      case Some(t) => if IsTunnelWarning(t) then Failure(Reported(TunnelWarningPage)) else Failure(Reported(BodyNotJson))
  }

  /** As written, a body that is not JSON never reaches the tunnel-page test:
      the second read always fails because the first consumed the body. */
  lemma AsWrittenNonJsonBodyIsAlreadyConsumed(body: string, decode: Decoder)
    requires decode(body).Failure?
    ensures ReadEnvelopeAsWritten(body, decode) == Failure(BodyAlreadyConsumed)
  {
  }

  /** Lines 92-103 as intended: the body's text is read once, then decoded;
      a text that does not decode is checked for the tunnel's warning page. */
  function ReadEnvelope(body: string, decode: Decoder): (r: Result<Json, AnalysisError>)
    ensures decode(body).Success? ==> r == Success(decode(body).value)
    ensures decode(body).Failure? ==> r.Failure? && r.error in {TunnelWarningPage, BodyNotJson}
    ensures decode(body).Failure? ==> (r == Failure(TunnelWarningPage) <==> IsTunnelWarning(body))
  {
    var (text, _) := ConsumeText(BodyStream(body, false));
    var content := text.value;
    match decode(content)
    case Success(v) => Success(v)
    case Failure(_) => if IsTunnelWarning(content) then Failure(TunnelWarningPage) else Failure(BodyNotJson)
  }

  /** A tunnel warning page that is not JSON: as written the user sees the
      engine's "body already read" TypeError, as intended the tunnel message. */
  lemma TunnelWarningPageExample()
    ensures var page := "<html>visit the site</html>";
            var rejectAll: Decoder := (s: string) => Failure("Unexpected token '<'");
            ReadEnvelopeAsWritten(page, rejectAll) == Failure(BodyAlreadyConsumed)
            && ReadEnvelope(page, rejectAll) == Failure(TunnelWarningPage)
  {
    var page := "<html>visit the site</html>";
    assert OccursAt(page, VISIT_SITE_MARKER, 6);
  }

  /** Lines 69-103: a thrown fetch, a 204 and any other status outside
      200-299 are classified before the body is looked at. */
  function ClassifyOutcome(outcome: HttpOutcome, decode: Decoder): Result<Json, AnalysisError> {
    match outcome
    case FetchThrew => Failure(NetworkFailure)
    case Response(status, statusText, body) =>
      if status == NO_CONTENT_STATUS then Failure(NoContent)
      else if !IsOkStatus(status) then Failure(HttpFailure(status, statusText))
      else ReadEnvelope(body, decode)
  }

  /** `result.response || ''`, as the text later cleaned: `null` has no
      properties and a truthy non-string has no `replace` (both TypeErrors). */
  function ResponseText(envelope: Json): (r: Result<string, AnalysisError>)
    ensures r.Success? && r.value != [] ==>
              envelope.Obj? && "response" in envelope.fields && envelope.fields["response"] == Str(r.value)
    ensures envelope.Obj? && "response" !in envelope.fields ==> r == Success("")
    ensures envelope.Null? ==> r == Failure(ResponseNotText)
    ensures !envelope.Null? && !envelope.Obj? ==> r == Success("")
    ensures envelope.Obj? && "response" in envelope.fields ==>
              var v := envelope.fields["response"];
              (v.Str? ==> r == Success(v.s))
              && (!Truthy(v) ==> r == Success(""))
              && (Truthy(v) && !v.Str? ==> r == Failure(ResponseNotText))
  {
    if envelope.Null? then Failure(ResponseNotText)
    else match Property(envelope, "response")
      case None => Success("")
      case Some(v) =>
        if !Truthy(v) then Success("")
        else if v.Str? then Success(v.s)
        else Failure(ResponseNotText)
  }

  /** `text.replace(/<fence>\n?/g, '')`: every occurrence of `fence`, found
      left to right, goes together with one newline right after it. */
  function RemoveFences(s: string, fence: string): (r: string)
    requires fence != []
    ensures |r| <= |s|
    ensures fence[0] !in s ==> r == s
    decreases |s|
  {
    if s == [] then s
    else if StartsWith(s, fence) then
      var rest := s[|fence|..];
      RemoveFences(if rest != [] && rest[0] == '\n' then rest[1..] else rest, fence)
    else
      [s[0]] + RemoveFences(s[1..], fence)
  }

  /** Text before the first character of the fence passes through. */
  lemma {:induction false} RemoveFencesAfterPlain(a: string, b: string, fence: string)
    requires fence != [] && fence[0] !in a
    ensures RemoveFences(a + b, fence) == a + RemoveFences(b, fence)
  {
    if a != [] {
      assert (a + b)[0] == a[0];
      assert !StartsWith(a + b, fence) by {
        if |fence| <= |a + b| { assert (a + b)[..|fence|][0] == a[0]; }
      }
      assert (a + b)[1..] == a[1..] + b;
      RemoveFencesAfterPlain(a[1..], b, fence);
      assert a == [a[0]] + a[1..];
    } else {
      assert a + b == b;
    }
  }

  /** A fence whose first character recurs only in a leading run, and does
      not begin with a newline, as the backtick fences do. */
  predicate LeadingRunFence(fence: string) {
    fence != [] && fence[0] != '\n'
    && forall k :: 0 < k < |fence| && fence[k] == fence[0] ==> fence[k - 1] == fence[0]
  }

  lemma BacktickFencesAreLeadingRun()
    ensures LeadingRunFence("```json") && LeadingRunFence("```")
  {
    var f := "```json";
    assert forall k :: 3 <= k < |f| ==> f[k] != '`';
  }

  /** Text that does not end in the fence's first character, followed by
      the fence, cleans as its two parts: no match can begin in the text and
      run on into the fence. */
  lemma {:induction false} RemoveFencesSplit(p: string, q: string, fence: string)
    requires LeadingRunFence(fence)
    requires p == [] || p[|p| - 1] != fence[0]
    ensures RemoveFences(p + (fence + q), fence) == RemoveFences(p, fence) + RemoveFences(fence + q, fence)
    decreases |p|
  {
    if p == [] {
      assert p + (fence + q) == fence + q;
    } else if StartsWith(p, fence) {
      SplitAtFence(p, q, fence);
    } else {
      SplitAtPlain(p, q, fence);
    }
  }

  lemma {:induction false} SplitAtFence(p: string, q: string, fence: string)
    requires LeadingRunFence(fence)
    requires p != [] && p[|p| - 1] != fence[0] && StartsWith(p, fence)
    ensures RemoveFences(p + (fence + q), fence) == RemoveFences(p, fence) + RemoveFences(fence + q, fence)
    decreases |p|, 0
  {
    var x := fence + q;
    var rest := p[|fence|..];
    assert p == fence + rest;
    assert x != [] && x[0] == fence[0];
    if rest == [] {
      calc {
        RemoveFences(p + x, fence);
        == { assert p + x == fence + x; RemoveFencesAtFront(fence, x); }
        RemoveFences(x, fence);
        == { RemoveFencesAtFront(fence, rest); }
        RemoveFences(p, fence) + RemoveFences(x, fence);
      }
    } else if rest[0] == '\n' {
      assert rest[1..] == [] || rest[1..][|rest[1..]| - 1] == p[|p| - 1];
      calc {
        RemoveFences(p + x, fence);
        == { assert p + x == fence + (rest + x); RemoveFencesAtFront(fence, rest + x); }
        RemoveFences((rest + x)[1..], fence);
        == { assert (rest + x)[1..] == rest[1..] + x; }
        RemoveFences(rest[1..] + x, fence);
        == { RemoveFencesSplit(rest[1..], q, fence); }
        RemoveFences(rest[1..], fence) + RemoveFences(x, fence);
        == { RemoveFencesAtFront(fence, rest); }
        RemoveFences(p, fence) + RemoveFences(x, fence);
      }
    } else {
      assert rest[|rest| - 1] == p[|p| - 1];
      calc {
        RemoveFences(p + x, fence);
        == { assert p + x == fence + (rest + x); RemoveFencesAtFront(fence, rest + x); }
        RemoveFences(rest + x, fence);
        == { RemoveFencesSplit(rest, q, fence); }
        RemoveFences(rest, fence) + RemoveFences(x, fence);
        == { RemoveFencesAtFront(fence, rest); }
        RemoveFences(p, fence) + RemoveFences(x, fence);
      }
    }
  }

  lemma {:induction false} SplitAtPlain(p: string, q: string, fence: string)
    requires LeadingRunFence(fence)
    requires p != [] && p[|p| - 1] != fence[0] && !StartsWith(p, fence)
    ensures RemoveFences(p + (fence + q), fence) == RemoveFences(p, fence) + RemoveFences(fence + q, fence)
    decreases |p|, 0
  {
    var x := fence + q;
    var s := p + x;
    assert !StartsWith(s, fence) by {
      if |fence| <= |p| {
        assert s[..|fence|] == p[..|fence|];
      } else {
        NoFenceAcross(p, q, fence);
      }
    }
    assert p[1..] == [] || p[1..][|p[1..]| - 1] == p[|p| - 1];
    calc {
      RemoveFences(s, fence);
      == { KeepsPlain(s, fence); }
      [s[0]] + RemoveFences(s[1..], fence);
      == { assert s[1..] == p[1..] + x; }
      [p[0]] + RemoveFences(p[1..] + x, fence);
      == { RemoveFencesSplit(p[1..], q, fence); }
      [p[0]] + (RemoveFences(p[1..], fence) + RemoveFences(x, fence));
      == { KeepsPlain(p, fence); }
      RemoveFences(p, fence) + RemoveFences(x, fence);
    }
  }

  /** Text shorter than the fence and not ending in its first character,
      followed by the fence, does not start with the fence. */
  lemma NoFenceAcross(p: string, q: string, fence: string)
    requires LeadingRunFence(fence)
    requires 0 < |p| < |fence| && p[|p| - 1] != fence[0]
    ensures !StartsWith(p + (fence + q), fence)
  {
    var k := |p|;
    var t := p + (fence + q);
    assert t[k - 1] == p[|p| - 1];
    assert t[k] == fence[0];
    if fence[k] == fence[0] {
      NotStartsWithAt(t, fence, k - 1);
    } else {
      NotStartsWithAt(t, fence, k);
    }
  }

  /** A text that does not start with the fence keeps its first character. */
  lemma KeepsPlain(s: string, fence: string)
    requires fence != [] && s != [] && !StartsWith(s, fence)
    ensures RemoveFences(s, fence) == [s[0]] + RemoveFences(s[1..], fence)
  {
  }

  /** Each fence is removed where it stands, with the newline right after
      it: the text before it and the text after it are cleaned on their
      own. */
  lemma FenceRemovedWhereItStands(p: string, q: string, fence: string)
    requires LeadingRunFence(fence)
    requires p == [] || p[|p| - 1] != fence[0]
    ensures RemoveFences(p + fence + "\n" + q, fence) == RemoveFences(p, fence) + RemoveFences(q, fence)
  {
    calc {
      RemoveFences(p + fence + "\n" + q, fence);
      == { assert p + fence + "\n" + q == p + (fence + ("\n" + q)); }
      RemoveFences(p + (fence + ("\n" + q)), fence);
      == { RemoveFencesSplit(p, "\n" + q, fence); }
      RemoveFences(p, fence) + RemoveFences(fence + ("\n" + q), fence);
      == { OpeningFenceRemoved(fence, q); }
      RemoveFences(p, fence) + RemoveFences(q, fence);
    }
  }

  /** A fence with no newline after it is removed alone. */
  lemma FenceWithoutNewlineRemoved(p: string, q: string, fence: string)
    requires LeadingRunFence(fence)
    requires p == [] || p[|p| - 1] != fence[0]
    requires q == [] || q[0] != '\n'
    ensures RemoveFences(p + (fence + q), fence) == RemoveFences(p, fence) + RemoveFences(q, fence)
  {
    RemoveFencesSplit(p, q, fence);
    FenceAloneRemoved(fence, q);
  }

  lemma FenceAloneRemoved(fence: string, q: string)
    requires fence != [] && (q == [] || q[0] != '\n')
    ensures RemoveFences(fence + q, fence) == RemoveFences(q, fence)
  {
    var s := fence + q;
    assert s[..|fence|] == fence && s[|fence|..] == q;
  }

  /** Line 106: both kinds of fence removed, then trimmed. */
  function Clean(text: string): string {
    Trim(RemoveFences(RemoveFences(text, "```json"), "```"))
  }

  /** A fence at the front goes, with the newline right after it. */
  lemma RemoveFencesAtFront(fence: string, rest: string)
    requires fence != []
    ensures RemoveFences(fence + rest, fence)
            == RemoveFences(if rest != [] && rest[0] == '\n' then rest[1..] else rest, fence)
  {
    var s := fence + rest;
    assert s[..|fence|] == fence && s[|fence|..] == rest;
  }

  lemma NotStartsWithAt(s: string, p: string, k: nat)
    requires k < |p| && k < |s| && s[k] != p[k]
    ensures !StartsWith(s, p)
  {
    assert |p| <= |s| ==> s[..|p|][k] == s[k];
  }

  /** Text shorter than the fence cannot hold it. */
  lemma {:induction false} RemoveFencesShort(s: string, fence: string)
    requires |s| < |fence|
    ensures RemoveFences(s, fence) == s
  {
    if s != [] {
      RemoveFencesShort(s[1..], fence);
      assert s == [s[0]] + s[1..];
    }
  }

  /** The closing bare fence goes and leaves the newline before it. */
  lemma ClosingFenceRemoved(j: string)
    requires '`' !in j
    ensures RemoveFences(j + "\n```", "```") == j + "\n"
  {
    assert j + "\n```" == (j + "\n") + "```";
    RemoveFencesAfterPlain(j + "\n", "```", "```");
    RemoveFencesAtFront("```", "");
  }

  /** A reply without backticks cleans to its trimmed self. */
  lemma CleanPlain(j: string)
    requires '`' !in j
    ensures Clean(j) == Trim(j)
  {
    assert "```json"[0] == '`' && "```"[0] == '`';
  }

  /** The opening ```json fence and its newline go; the rest stays. */
  lemma JsonFenceOpening(j: string)
    requires '`' !in j
    ensures RemoveFences("```json\n" + j + "\n```", "```json") == j + "\n```"
  {
    var rest := j + "\n```";
    assert "```json\n" + j + "\n```" == "```json" + ("\n" + rest);
    OpeningFenceRemoved("```json", rest);
    ClosingHoldsNoJsonFence(j);
  }

  lemma ClosingHoldsNoJsonFence(j: string)
    requires '`' !in j
    ensures RemoveFences(j + "\n```", "```json") == j + "\n```"
  {
    assert j + "\n```" == (j + "\n") + "```";
    PlainThenShort(j + "\n", "```", "```json");
  }

  /** A fence followed by a newline goes as a whole. */
  lemma OpeningFenceRemoved(fence: string, rest: string)
    requires fence != []
    ensures RemoveFences(fence + ("\n" + rest), fence) == RemoveFences(rest, fence)
  {
    RemoveFencesAtFront(fence, "\n" + rest);
    assert ("\n" + rest)[1..] == rest;
  }

  lemma PlainThenShort(a: string, b: string, fence: string)
    requires fence != [] && fence[0] !in a && |b| < |fence|
    ensures RemoveFences(a + b, fence) == a + b
  {
    RemoveFencesAfterPlain(a, b, fence);
    RemoveFencesShort(b, fence);
  }

  /** Wrapped in a ```json fence, it cleans to the same. */
  lemma CleanJsonFenced(j: string)
    requires '`' !in j
    ensures Clean("```json\n" + j + "\n```") == Trim(j)
  {
    JsonFenceOpening(j);
    ClosingFenceRemoved(j);
    TrimIgnoresTrailingSpace(j, "\n");
  }

  /** A bare fence holds no ```json fence. */
  lemma BareFenceNoJsonFence(j: string)
    requires '`' !in j
    ensures RemoveFences("```\n" + j + "\n```", "```json") == "```\n" + j + "\n```"
  {
    var b := "\n" + j + "\n```";
    assert RemoveFences(b, "```json") == b by {
      assert b == ("\n" + j + "\n") + "```";
      PlainThenShort("\n" + j + "\n", "```", "```json");
    }
    assert RemoveFences("```" + b, "```json") == "```" + b by {
      assert '\n' !in "```json";
      PrefixBeforeNewlineKept("```", b, "```json");
    }
    assert "```" + b == "```\n" + j + "\n```";
  }

  /** Text shorter than the fence, followed by a character the fence does
      not contain, cannot start a fence. */
  lemma {:induction false} PrefixBeforeNewlineKept(t: string, b: string, fence: string)
    requires |t| < |fence| && b != [] && b[0] !in fence
    requires RemoveFences(b, fence) == b
    ensures RemoveFences(t + b, fence) == t + b
    decreases |t|
  {
    if t == [] {
      assert t + b == b;
    } else {
      var s := t + b;
      assert s[1..] == t[1..] + b;
      PrefixBeforeNewlineKept(t[1..], b, fence);
      assert s[|t|] == b[0];
      KeepsFirst(s, fence, |t|);
    }
  }

  /** A first character that cannot start the fence is kept. */
  lemma KeepsFirst(s: string, fence: string, k: nat)
    requires k < |fence| && k < |s| && s[k] != fence[k]
    requires RemoveFences(s[1..], fence) == s[1..]
    ensures RemoveFences(s, fence) == s
  {
    NotStartsWithAt(s, fence, k);
    assert s == [s[0]] + s[1..];
  }

  /** The opening bare fence and its newline go; the rest stays. */
  lemma BareFenceOpening(j: string)
    requires '`' !in j
    ensures RemoveFences("```\n" + j + "\n```", "```") == RemoveFences(j + "\n```", "```")
  {
    var tail := "\n" + j + "\n```";
    assert "```\n" + j + "\n```" == "```" + tail;
    assert RemoveFences("```" + tail, "```") == RemoveFences(tail[1..], "```") by {
      RemoveFencesAtFront("```", tail);
    }
    assert tail[1..] == j + "\n```";
  }

  /** Wrapped in a bare ``` fence, it cleans to the same. */
  lemma CleanBareFenced(j: string)
    requires '`' !in j
    ensures Clean("```\n" + j + "\n```") == Trim(j)
  {
    BareFenceNoJsonFence(j);
    BareFenceOpening(j);
    ClosingFenceRemoved(j);
    TrimIgnoresTrailingSpace(j, "\n");
  }

  function FirstIndexOf(s: string, c: char): (r: Option<nat>)
    ensures r.None? ==> c !in s
    ensures r.Some? ==> r.value < |s| && s[r.value] == c && c !in s[..r.value]
  {
    if s == [] then None
    else if s[0] == c then Some(0)
    else
      var rest := FirstIndexOf(s[1..], c);
      if rest.None? then None
      else
        assert s[..rest.value + 1] == [s[0]] + s[1..][..rest.value];
        Some(rest.value + 1)
  }

  lemma FirstIndexOfAt(s: string, c: char, i: nat)
    requires i < |s| && s[i] == c && c !in s[..i]
    ensures FirstIndexOf(s, c) == Some(i)
  {
  }

  function LastIndexOf(s: string, c: char): (r: Option<nat>)
    ensures r.None? ==> c !in s
    ensures r.Some? ==> r.value < |s| && s[r.value] == c && c !in s[r.value + 1..]
  {
    if s == [] then None
    else if s[|s| - 1] == c then Some(|s| - 1)
    else
      var rest := LastIndexOf(s[..|s| - 1], c);
      if rest.None? then None
      else
        assert s[rest.value + 1..] == s[..|s| - 1][rest.value + 1..] + [s[|s| - 1]];
        Some(rest.value)
  }

  /** `s.match(/\{[\s\S]*\}/)`: the span from the first `{` to the last `}`,
      present exactly when some `{` comes before some `}`. */
  function OuterBraces(s: string): (r: Option<string>)
    ensures r.Some? <==> exists i, j :: 0 <= i < j < |s| && s[i] == '{' && s[j] == '}'
    ensures r.Some? ==> |r.value| >= 2 && r.value[0] == '{' && r.value[|r.value| - 1] == '}'
    ensures r.Some? ==>
              FirstIndexOf(s, '{').Some? && LastIndexOf(s, '}').Some?
              && FirstIndexOf(s, '{').value < LastIndexOf(s, '}').value
              && r.value == s[FirstIndexOf(s, '{').value..LastIndexOf(s, '}').value + 1]
  {
    var first := FirstIndexOf(s, '{');
    var last := LastIndexOf(s, '}');
    BracePairsWithin(s);
    if first.Some? && last.Some? && first.value < last.value then
      Some(s[first.value..last.value + 1])
    else
      None
  }

  /** Every `{` before a `}` lies within the span from the first `{` to the
      last `}`. */
  lemma BracePairWithin(s: string, i: nat, j: nat)
    requires i < j < |s| && s[i] == '{' && s[j] == '}'
    ensures FirstIndexOf(s, '{').Some? && FirstIndexOf(s, '{').value <= i
    ensures LastIndexOf(s, '}').Some? && j <= LastIndexOf(s, '}').value
  {
    assert s[i] in s && s[j] in s;
  }

  lemma BracePairsWithin(s: string)
    ensures forall i, j :: 0 <= i < j < |s| && s[i] == '{' && s[j] == '}' ==>
              FirstIndexOf(s, '{').Some? && FirstIndexOf(s, '{').value <= i
              && LastIndexOf(s, '}').Some? && j <= LastIndexOf(s, '}').value
  {
    forall i, j | 0 <= i < j < |s| && s[i] == '{' && s[j] == '}'
      ensures FirstIndexOf(s, '{').Some? && FirstIndexOf(s, '{').value <= i
              && LastIndexOf(s, '}').Some? && j <= LastIndexOf(s, '}').value
    {
      BracePairWithin(s, i, j);
    }
  }

  /** The greedy match spans from the `{` that opens the embedded object to
      the `}` that closes it, whatever prose surrounds it. */
  lemma OuterBracesOfWrapped(p: string, x: string, q: string)
    requires '{' !in p && '}' !in q
    requires |x| >= 2 && x[0] == '{' && x[|x| - 1] == '}'
    ensures OuterBraces(p + x + q) == Some(x)
  {
    var s := p + x + q;
    assert s[|p|] == '{';
    assert s[|p| + |x| - 1] == '}';
    assert s[..|p|] == p;
    assert s[|p| + |x|..] == q;
    BracePairWithin(s, |p|, |p| + |x| - 1);
    assert s[|p|..|p| + |x|] == x;
  }

  /** Lines 106-114: decode the cleaned text; failing that, decode its
      greedy brace span; failing that too, the service's own error. */
  function ParseModelText(text: string, decode: Decoder): (r: Result<Json, AnalysisError>)
    ensures decode(Clean(text)).Success? ==> r == Success(decode(Clean(text)).value)
    ensures r.Success? ==>
              (decode(Clean(text)) == Success(r.value)
               || (OuterBraces(Clean(text)).Some? && decode(OuterBraces(Clean(text)).value) == Success(r.value)))
    ensures r == Failure(Unparseable) <==> decode(Clean(text)).Failure? && OuterBraces(Clean(text)).None?
    ensures r.Failure? ==> r.error == Unparseable || r.error.FallbackSyntaxError?
    ensures decode(Clean(text)).Failure? && OuterBraces(Clean(text)).Some? ==>
              var span := OuterBraces(Clean(text)).value;
              (decode(span).Success? ==> r == Success(decode(span).value))
              && (decode(span).Failure? ==> r == Failure(FallbackSyntaxError(decode(span).error)))
  {
    ParseCleaned(Clean(text), decode)
  }

  /** Lines 108-114, on the already cleaned text. */
  function ParseCleaned(cleaned: string, decode: Decoder): Result<Json, AnalysisError> {
    match decode(cleaned)
    case Success(v) => Success(v)
    case Failure(_) =>
      match OuterBraces(cleaned)
      case None => Failure(Unparseable)
      case Some(span) =>
        match decode(span)
        case Success(v) => Success(v)
        case Failure(message) => Failure(FallbackSyntaxError(message))
  }

  /** A fenced reply parses exactly like the bare one. */
  lemma ParseIgnoresFences(j: string, decode: Decoder)
    requires '`' !in j
    ensures ParseModelText("```json\n" + j + "\n```", decode) == ParseModelText(j, decode)
    ensures ParseModelText("```\n" + j + "\n```", decode) == ParseModelText(j, decode)
  {
    CleanPlain(j);
    CleanJsonFenced(j);
    CleanBareFenced(j);
  }

  /** An object wrapped in prose is recovered by the brace fallback. */
  lemma ParseRecoversWrappedObject(p: string, x: string, q: string, decode: Decoder)
    requires '`' !in p + x + q
    requires '{' !in p && '}' !in q
    requires |x| >= 2 && x[0] == '{' && x[|x| - 1] == '}'
    requires decode(x).Success?
    requires Trim(p + x + q) == x || decode(Trim(p + x + q)).Failure?
    ensures ParseModelText(p + x + q, decode) == Success(decode(x).value)
  {
    WrappedObjectSpan(p, x, q);
    CleanPlain(p + x + q);
  }

  lemma WrappedObjectSpan(p: string, x: string, q: string)
    requires '`' !in p + x + q
    requires '{' !in p && '}' !in q
    requires |x| >= 2 && x[0] == '{' && x[|x| - 1] == '}'
    ensures OuterBraces(Clean(p + x + q)) == Some(x)
  {
    CleanPlain(p + x + q);
    assert !IsSpace(x[0]) && !IsSpace(x[|x| - 1]);
    TrimAround(p, x, q);
    TrimKeepsBracesOut(p, q);
    OuterBracesOfWrapped(TrimStart(p), x, TrimEnd(q));
  }

  lemma TrimKeepsBracesOut(p: string, q: string)
    requires '{' !in p && '}' !in q
    ensures '{' !in TrimStart(p) && '}' !in TrimEnd(q)
  {
    var p', q' := TrimStart(p), TrimEnd(q);
    forall k | 0 <= k < |p'|
      ensures p'[k] != '{'
    {
      assert p'[k] == p[|p| - |p'| + k];
    }
    forall k | 0 <= k < |q'|
      ensures q'[k] != '}'
    {
      assert q'[k] == q[k];
    }
  }

  /** An empty reply (a decoder rejects the empty text) has no brace span
      and fails with the service's own message. */
  lemma ParseEmptyFails(decode: Decoder)
    requires decode("").Failure?
    ensures ParseModelText("", decode) == Failure(Unparseable)
  {
    assert RemoveFences("", "```json") == "";
    assert RemoveFences("", "```") == "";
  }

  /** The reply after `fetch` resolved or threw: classification, envelope,
      then the model's text. */
  function HandleOutcome(outcome: HttpOutcome, decode: Decoder): (r: Result<Json, AnalysisError>)
    ensures outcome.FetchThrew? ==> r == Failure(NetworkFailure)
    ensures outcome.Response? && outcome.status == NO_CONTENT_STATUS ==> r == Failure(NoContent)
    ensures outcome.Response? && outcome.status != NO_CONTENT_STATUS && !IsOkStatus(outcome.status) ==>
              r == Failure(HttpFailure(outcome.status, outcome.statusText))
    ensures (outcome.Response? && IsOkStatus(outcome.status) && outcome.status != NO_CONTENT_STATUS
             && decode(outcome.body).Failure?) ==> r == ReadEnvelope(outcome.body, decode)
    ensures (outcome.Response? && IsOkStatus(outcome.status) && outcome.status != NO_CONTENT_STATUS
             && decode(outcome.body).Success?) ==>
              match ResponseText(decode(outcome.body).value)
              case Success(text) => r == ParseModelText(text, decode)
              case Failure(e) => r == Failure(e)
  {
    match ClassifyOutcome(outcome, decode)
    case Failure(e) => Failure(e)
    case Success(envelope) =>
      match ResponseText(envelope)
      case Failure(e) => Failure(e)
      case Success(text) => ParseModelText(text, decode)
  }

  /** A 2xx reply whose envelope carries the model's JSON text under
      `response`, bare or in either fence, yields exactly the object that
      text decodes to. */
  lemma WellFormedReplyBecomesFeedback(status: nat, statusText: string, body: string,
                                       fields: map<string, Json>, reply: string, j: string, decode: Decoder)
    requires IsOkStatus(status) && status != NO_CONTENT_STATUS
    requires decode(body) == Success(Obj(fields)) && "response" in fields && fields["response"] == Str(reply)
    requires reply == j || reply == "```json\n" + j + "\n```" || reply == "```\n" + j + "\n```"
    requires '`' !in j && decode(Trim(j)).Success?
    ensures HandleOutcome(Response(status, statusText, body), decode) == Success(decode(Trim(j)).value)
  {
    var outcome := Response(status, statusText, body);
    assert ResponseText(Obj(fields)) == Success(reply);
    assert HandleOutcome(outcome, decode) == ParseModelText(reply, decode);
    assert ParseModelText(reply, decode) == ParseModelText(j, decode) by {
      if reply != j {
        ParseIgnoresFences(j, decode);
      }
    }
    assert ParseModelText(j, decode) == Success(decode(Trim(j)).value) by {
      CleanPlain(j);
    }
  }

  /** Status errors never depend on the body or on how it would decode: they
      are raised before the body is read. */
  lemma StatusErrorsIgnoreBody(status: nat, statusText: string, body1: string, body2: string,
                               decode1: Decoder, decode2: Decoder)
    requires status == NO_CONTENT_STATUS || !IsOkStatus(status)
    ensures HandleOutcome(Response(status, statusText, body1), decode1)
         == HandleOutcome(Response(status, statusText, body2), decode2)
  {
  }

  /** Lines 2-55: the request `analyzeAnswer` sends for these inputs, or the
      validation error it throws first. */
  function PrepareRequest(endpoint: Option<string>, modelName: Option<string>, question: string,
                          transcript: Option<string>, metrics: Option<Metrics>): (r: Result<Request, AnalysisError>)
    ensures r.Failure? <==> CheckAnswer(transcript).Failure?
    ensures r.Failure? ==> r.error == AnswerTooShort
    ensures r.Success? ==>
              (r.value.url == GenerateUrl(endpoint)
               && r.value.payload == BuildPayload(modelName, question, transcript.value, metrics))
  {
    match CheckAnswer(transcript)
    case Failure(e) => Failure(e)
    case Success(answer) => Success(Request(GenerateUrl(endpoint), BuildPayload(modelName, question, answer, metrics)))
  }

  /** `analyzeAnswer`: the decoded feedback object, or the error it throws. */
  function AnalyzeAnswer(endpoint: Option<string>, modelName: Option<string>, question: string,
                         transcript: Option<string>, metrics: Option<Metrics>,
                         transport: Transport, decode: Decoder): Result<Json, AnalysisError>
  {
    match PrepareRequest(endpoint, modelName, question, transcript, metrics)
    case Failure(e) => Failure(e)
    case Success(request) => HandleOutcome(transport(request), decode)
  }

  /** A too-short answer fails the same way whatever the server would have
      done: no request is made. A long enough answer gets the server's reply
      to exactly the prepared request. */
  lemma AnalyzeAnswerValidatesFirst(endpoint: Option<string>, modelName: Option<string>, question: string,
                                    transcript: Option<string>, metrics: Option<Metrics>,
                                    transport1: Transport, transport2: Transport, decode: Decoder)
    ensures CheckAnswer(transcript).Failure? ==>
              AnalyzeAnswer(endpoint, modelName, question, transcript, metrics, transport1, decode) == Failure(AnswerTooShort)
              && AnalyzeAnswer(endpoint, modelName, question, transcript, metrics, transport2, decode) == Failure(AnswerTooShort)
    ensures CheckAnswer(transcript).Success? ==>
              AnalyzeAnswer(endpoint, modelName, question, transcript, metrics, transport1, decode)
              == HandleOutcome(transport1(Request(GenerateUrl(endpoint),
                                                  BuildPayload(modelName, question, transcript.value, metrics))), decode)
  {
  }

  /** The whole exchange: a long enough answer whose prepared request (to
      the normalised URL, with the built payload) gets a 2xx reply carrying
      the model's JSON text comes back as the object that text decodes to. */
  lemma AnswerGetsModelFeedback(endpoint: Option<string>, modelName: Option<string>, question: string,
                                t: string, metrics: Option<Metrics>, transport: Transport, decode: Decoder,
                                status: nat, statusText: string, body: string, fields: map<string, Json>, j: string)
    requires |Trim(t)| >= MIN_ANSWER_LENGTH
    requires transport(PrepareRequest(endpoint, modelName, question, Some(t), metrics).value)
             == Response(status, statusText, body)
    requires IsOkStatus(status) && status != NO_CONTENT_STATUS
    requires decode(body) == Success(Obj(fields)) && "response" in fields && fields["response"] == Str(j)
    requires '`' !in j && decode(Trim(j)).Success?
    ensures AnalyzeAnswer(endpoint, modelName, question, Some(t), metrics, transport, decode)
            == Success(decode(Trim(j)).value)
  {
    var request := PrepareRequest(endpoint, modelName, question, Some(t), metrics);
    assert AnalyzeAnswer(endpoint, modelName, question, Some(t), metrics, transport, decode)
           == HandleOutcome(transport(request.value), decode);
    WellFormedReplyBecomesFeedback(status, statusText, body, fields, j, j, decode);
  }
}
