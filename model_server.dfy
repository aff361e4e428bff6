/**
 * What the TTS and ASR services share when they talk to the LitServe model server
 * (`backend/app/services/tts_service.py`, `backend/app/services/asr_service.py`): JSON values
 * with Python truthiness, the outcome of an HTTP POST, the pooled client, the health check and
 * the request URLs. The network itself is a `Transport` parameter.
 */
module ModelServer {
  import opened Wrappers

  /** A JSON value as `response.json()` decodes it; objects are dicts. */
  datatype Json = JNull | JBool(b: bool) | JNum(n: real) | JStr(s: string) | JArr(items: seq<Json>)
                | JObj(fields: map<string, Json>)

  /** Python truthiness of a decoded JSON value. */
  predicate Truthy(v: Json) {
    match v
    case JNull => false
    case JBool(b) => b
    case JNum(n) => n != 0.0
    case JStr(s) => s != ""
    case JArr(items) => items != []
    case JObj(fields) => fields != map[]
  }

  /** `d.get(key, default)`. */
  function Get(d: map<string, Json>, key: string, default: Json): (v: Json)
    ensures key in d ==> v == d[key]
    ensures key !in d ==> v == default
  {
    if key in d then d[key] else default
  }

  /** One POST: its URL, its JSON payload and its timeout in seconds. */
  datatype Request = Request(url: string, payload: map<string, Json>, timeout: real)

  /**
   * What a POST gives back: a response (its body None when it is not valid JSON), or one of
   * the exceptions the services tell apart.
   */
  datatype HttpOutcome =
    | Response(status: int, body: Option<Json>)
    | Timeout
    | RequestError(message: string)
    | OtherError(message: string)

  /** The network. */
  type Transport = Request -> HttpOutcome

  /**
   * The decoded body when it is a JSON object; None when `response.json()` or `.get` on the
   * result would raise (invalid JSON, or a value other than an object).
   */
  function ResultObject(body: Option<Json>): (d: Option<map<string, Json>>)
    ensures d.Some? <==> body.Some? && body.value.JObj?
    ensures d.Some? ==> d.value == body.value.fields
  {
    match body
    case Some(JObj(fields)) => Some(fields)
    case _ => None
  }

  /** A Python `Optional[str]` argument counts as given only when it is truthy (non-empty). */
  predicate Given(v: Option<string>) {
    v.Some? && v.value != ""
  }

  /** A 200 response whose body is a JSON object. */
  predicate OkObject(outcome: HttpOutcome) {
    outcome.Response? && outcome.status == 200 && ResultObject(outcome.body).Some?
  }

  const PredictPath: string := "/predict"
  const HealthPath: string := "/health"
  const DefaultTimeout: real := 300.0
  const HealthTimeout: real := 5.0
  const MaxKeepaliveConnections: int := 10
  const MaxConnections: int := 20

  function PredictUrl(modelUrl: string): (url: string)
    ensures |url| == |modelUrl| + |PredictPath| && url[..|modelUrl|] == modelUrl && url[|modelUrl|..] == PredictPath
  {
    modelUrl + PredictPath
  }

  const HealthPayload: map<string, Json> := map["endpoint" := JStr("health")]

  function HealthRequest(modelUrl: string): Request {
    Request(modelUrl + HealthPath, HealthPayload, HealthTimeout)
  }

  /** `is_available`'s verdict: status 200 and a body whose "status" is "healthy"; false on any exception. */
  predicate IsHealthy(outcome: HttpOutcome) {
    outcome.Response? && outcome.status == 200 &&
    match ResultObject(outcome.body)
    case None => false
    case Some(d) => "status" in d && d["status"] == JStr("healthy")
  }

  /** The health verdict is false for every exception and every status but 200. */
  lemma HealthyOnlyOn200(outcome: HttpOutcome)
    ensures IsHealthy(outcome) ==> outcome == Response(200, Some(JObj(outcome.body.value.fields)))
    ensures IsHealthy(outcome) <==>
      outcome.Response? && outcome.status == 200 && outcome.body.Some? && outcome.body.value.JObj? &&
      Get(outcome.body.value.fields, "status", JNull) == JStr("healthy")
  {
  }

  /** The pooled `httpx.AsyncClient`: its default timeout and connection limits. */
  class HttpClient {
    const timeout: real
    const maxKeepaliveConnections: int
    const maxConnections: int

    constructor(timeout: real)
      ensures this.timeout == timeout
      ensures maxKeepaliveConnections == MaxKeepaliveConnections && maxConnections == MaxConnections
    {
      this.timeout := timeout;
      maxKeepaliveConnections := MaxKeepaliveConnections;
      maxConnections := MaxConnections;
    }
  }
}
