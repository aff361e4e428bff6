/**
 * The speech-synthesis client (`backend/app/services/tts_service.py`): the request payload, the
 * classification of the model server's answer, the health check and the lazily created,
 * closable HTTP client.
 */
module TtsService {
  import opened Wrappers
  import opened Base64
  import opened Config
  import opened ModelServer

  /** The JSON form of an optional string: the string, or null. */
  function OrNull(v: Option<string>): Json {
    match v
    case None => JNull
    case Some(s) => JStr(s)
  }

  /**
   * The payload of `synthesize`: the five fixed keys always; "cloneing" only when cloning is
   * asked for; each reference-speaker field only when cloning and that field is given.
   */
  function TtsPayload(text: string, voice: string, language: Option<string>, cloneing: bool,
                      refSpekerBase64: Option<string>, refSpekerName: Option<string>): (p: map<string, Json>)
    ensures "endpoint" in p && "text" in p && "voice" in p && "language" in p && "return_base64" in p
    ensures p["endpoint"] == JStr("tts") && p["text"] == JStr(text) && p["voice"] == JStr(voice)
    ensures p["language"] == OrNull(language) && p["return_base64"] == JBool(true)
    ensures "cloneing" in p <==> cloneing
    ensures "cloneing" in p ==> p["cloneing"] == JBool(true)
    ensures "ref_speker_base64" in p <==> cloneing && Given(refSpekerBase64)
    ensures "ref_speker_base64" in p ==> p["ref_speker_base64"] == JStr(refSpekerBase64.value)
    ensures "ref_speker_name" in p <==> cloneing && Given(refSpekerName)
    ensures "ref_speker_name" in p ==> p["ref_speker_name"] == JStr(refSpekerName.value)
    ensures p.Keys <= {"endpoint", "text", "language", "voice", "return_base64", "cloneing",
                       "ref_speker_base64", "ref_speker_name"}
  {
    var base := map["endpoint" := JStr("tts"), "text" := JStr(text), "language" := OrNull(language),
                    "voice" := JStr(voice), "return_base64" := JBool(true)];
    if !cloneing then base
    else
      var withFlag := base["cloneing" := JBool(true)];
      var withAudio := if Given(refSpekerBase64) then withFlag["ref_speker_base64" := JStr(refSpekerBase64.value)] else withFlag;
      if Given(refSpekerName) then withAudio["ref_speker_name" := JStr(refSpekerName.value)] else withAudio
  }

  /** A truthy "success" and a non-empty "audio_base64" string. */
  predicate SuccessWithAudio(d: map<string, Json>) {
    Truthy(Get(d, "success", JBool(false))) && "audio_base64" in d && d["audio_base64"].JStr? &&
    d["audio_base64"].s != ""
  }

  /**
   * The audio `synthesize` returns for an HTTP outcome: only a 200 response whose JSON object
   * has a truthy "success" and a non-empty "audio_base64" string that decodes. Anything else
   * (another status, a body that is not an object, a failed decode, any exception) is None.
   */
  function ClassifyTts(outcome: HttpOutcome): (audio: Option<Bytes>)
    ensures audio.Some? ==> OkObject(outcome) && SuccessWithAudio(ResultObject(outcome.body).value)
    ensures OkObject(outcome) && SuccessWithAudio(ResultObject(outcome.body).value) ==>
      audio == Decode(ResultObject(outcome.body).value["audio_base64"].s)
  {
    if !outcome.Response? || outcome.status != 200 then None
    else match ResultObject(outcome.body)
      case None => None
      case Some(d) =>
        if !Truthy(Get(d, "success", JBool(false))) then None
        else
          var audioField := Get(d, "audio_base64", JNull);
          if !Truthy(audioField) then None
          else match audioField
            case JStr(s) => Decode(s)
            case _ => None
  }

  /** A success response carrying the base64 text of some audio yields exactly that audio. */
  lemma SuccessfulSynthesis(audio: Bytes, extra: map<string, Json>)
    requires audio != []
    ensures var d := extra["success" := JBool(true)]["audio_base64" := JStr(Encode(audio))];
      ClassifyTts(Response(200, Some(JObj(d)))) == Some(audio)
  {
    DecodeEncode(audio);
  }

  /** Success false or missing, or no audio field, yields None whatever else the body holds. */
  lemma UnsuccessfulSynthesis(status: int, d: map<string, Json>)
    requires status != 200 || !Truthy(Get(d, "success", JBool(false))) || !Truthy(Get(d, "audio_base64", JNull))
    ensures ClassifyTts(Response(status, Some(JObj(d)))) == None
  {
  }

  /** Exceptions and non-object bodies yield None. */
  lemma FailuresYieldNone(message: string, status: int, v: Json)
    requires !v.JObj?
    ensures ClassifyTts(Timeout) == None
    ensures ClassifyTts(RequestError(message)) == None
    ensures ClassifyTts(OtherError(message)) == None
    ensures ClassifyTts(Response(status, None)) == None
    ensures ClassifyTts(Response(status, Some(v))) == None
  {
  }

  /** With the default settings, requests go to the derived URL with "/predict" appended a second time. */
  lemma DefaultSynthesisUrl()
    ensures PredictUrl(Init(NoOverrides).modelBaseUrl) == "http://localhost:8000/predict/predict"
  {
    DefaultModelBaseUrl();
  }

  /** `TTSService`: the model URL and timeout fixed at construction, and the lazily created client. */
  class TtsClient {
    const modelUrl: string
    const timeout: real
    var client: HttpClient?

    /** A client, once created, carries this service's timeout and the pool limits. */
    ghost predicate Valid()
      reads this
    {
      client != null ==>
        client.timeout == timeout &&
        client.maxKeepaliveConnections == MaxKeepaliveConnections && client.maxConnections == MaxConnections
    }

    constructor(s: Settings)
      ensures Valid()
      ensures modelUrl == s.modelBaseUrl && timeout == DefaultTimeout && client == null
    {
      modelUrl := s.modelBaseUrl;
      timeout := DefaultTimeout;
      client := null;
    }

    /** `_get_client`: creates the pooled client on first use and returns the same one afterwards. */
    method GetClient() returns (c: HttpClient)
      requires Valid()
      modifies this
      ensures Valid() && client == c
      ensures old(client) != null ==> c == old(client)
      ensures old(client) == null ==> fresh(c)
    {
      if client == null {
        client := new HttpClient(timeout);
      }
      c := client;
    }

    /**
     * `synthesize`: posts the payload to the predict URL with the client's timeout and classifies
     * the outcome; it never raises. The client exists afterwards.
     */
    method Synthesize(net: Transport, text: string, voice: string, language: Option<string>, cloneing: bool,
                      refSpekerBase64: Option<string>, refSpekerName: Option<string>) returns (audio: Option<Bytes>)
      requires Valid()
      modifies this
      ensures Valid() && client != null && (old(client) != null ==> client == old(client))
      ensures audio == ClassifyTts(net(Request(PredictUrl(modelUrl),
        TtsPayload(text, voice, language, cloneing, refSpekerBase64, refSpekerName), timeout)))
    {
      var c := GetClient();
      var payload := TtsPayload(text, voice, language, cloneing, refSpekerBase64, refSpekerName);
      var outcome := net(Request(PredictUrl(modelUrl), payload, c.timeout));
      audio := ClassifyTts(outcome);
    }

    /** `is_available`: the health POST with its 5-second timeout. */
    method IsAvailable(net: Transport) returns (ok: bool)
      requires Valid()
      modifies this
      ensures ok == IsHealthy(net(HealthRequest(modelUrl)))
      ensures Valid() && client != null && (old(client) != null ==> client == old(client))
    {
      var _ := GetClient();
      ok := IsHealthy(net(HealthRequest(modelUrl)));
    }

    /** `close`: whatever closing the client does, afterwards there is none. */
    method Close()
      modifies this
      ensures Valid() && client == null
    {
      client := null;
    }
  }

  /** After `close`, the next request creates a new client. */
  method CloseThenReuse(t: TtsClient) returns (c: HttpClient)
    requires t.Valid()
    modifies t
    ensures t.Valid() && t.client == c && fresh(c) && c.timeout == t.timeout
  {
    t.Close();
    c := t.GetClient();
  }
}
