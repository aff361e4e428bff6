/**
 * The speech-recognition client (`backend/app/services/asr_service.py`): the request payload
 * carrying the base64 audio, the classification of the model server's answer, the health check
 * and the lazily created, closable HTTP client.
 */
module AsrService {
  import opened Wrappers
  import opened Base64
  import opened ModelServer
  import opened Config

  /**
   * The payload of `transcribe`: the endpoint and the base64 text of the audio always, the
   * language only when it is given (truthy).
   */
  function AsrPayload(audio: Bytes, language: Option<string>): (p: map<string, Json>)
    ensures "endpoint" in p && "audio_base64" in p
    ensures p["endpoint"] == JStr("asr") && p["audio_base64"].JStr?
    ensures Decode(p["audio_base64"].s) == Some(audio)
    ensures "language" in p <==> Given(language)
    ensures "language" in p ==> p["language"] == JStr(language.value)
    ensures p.Keys <= {"endpoint", "audio_base64", "language"}
  {
    DecodeEncode(audio);
    var base := map["endpoint" := JStr("asr"), "audio_base64" := JStr(Encode(audio))];
    if Given(language) then base["language" := JStr(language.value)] else base
  }

  /**
   * What `transcribe` returns for an HTTP outcome: the "transcription" value (default "") of a
   * 200 response whose JSON object has a truthy "success", when that value is truthy; None for
   * everything else, including every exception. The value is returned as the server sent it.
   */
  function ClassifyAsr(outcome: HttpOutcome): (text: Option<Json>)
    ensures text.Some? ==> OkObject(outcome) && Truthy(text.value)
    ensures text.Some? ==> Truthy(Get(ResultObject(outcome.body).value, "success", JBool(false)))
    ensures OkObject(outcome) ==>
      var d := ResultObject(outcome.body).value;
      text.Some? <==> Truthy(Get(d, "success", JBool(false))) && Truthy(Get(d, "transcription", JStr("")))
    ensures text.Some? ==> text.value == ResultObject(outcome.body).value["transcription"]
  {
    if !outcome.Response? || outcome.status != 200 then None
    else match ResultObject(outcome.body)
      case None => None
      case Some(d) =>
        if !Truthy(Get(d, "success", JBool(false))) then None
        else
          var transcription := Get(d, "transcription", JStr(""));
          if Truthy(transcription) then Some(transcription) else None
  }

  /** A success response with a non-empty transcription string yields that string. */
  lemma SuccessfulTranscription(t: string, extra: map<string, Json>)
    requires t != ""
    ensures var d := extra["success" := JBool(true)]["transcription" := JStr(t)];
      ClassifyAsr(Response(200, Some(JObj(d)))) == Some(JStr(t))
  {
  }

  /** A success response with an empty or missing transcription yields None. */
  lemma EmptyTranscription(d: map<string, Json>)
    requires "transcription" !in d || d["transcription"] == JStr("")
    ensures ClassifyAsr(Response(200, Some(JObj(d)))) == None
  {
  }

  /** Success false or missing, another status, a non-object body or any exception yields None. */
  lemma FailedTranscription(status: int, d: map<string, Json>, v: Json, message: string)
    requires !Truthy(Get(d, "success", JBool(false))) && !v.JObj?
    ensures ClassifyAsr(Response(status, Some(JObj(d)))) == None
    ensures status != 200 ==> ClassifyAsr(Response(status, Some(v))) == None
    ensures ClassifyAsr(Response(status, Some(v))) == None
    ensures ClassifyAsr(Response(status, None)) == None
    ensures ClassifyAsr(Timeout) == None && ClassifyAsr(RequestError(message)) == None
    ensures ClassifyAsr(OtherError(message)) == None
  {
  }

  /** The audio sent is recoverable from the request: distinct recordings give distinct payloads. */
  lemma PayloadDeterminesAudio(a: Bytes, b: Bytes, language: Option<string>)
    requires AsrPayload(a, language) == AsrPayload(b, language)
    ensures a == b
  {
    var pa := AsrPayload(a, language);
    assert Decode(pa["audio_base64"].s) == Some(a);
  }

  /** `ASRService`: the model URL and timeout fixed at construction, and the lazily created client. */
  class AsrClient {
    const modelUrl: string
    const timeout: real
    var client: HttpClient?

    /** A client, once created, carries this service's timeout and the pool limits. */
    ghost predicate Valid()
      reads this
    {
      client != null ==>
        client.timeout == timeout &&
        client.maxKeepaliveConnections == MaxKeepaliveConnections && client.maxConnections == MaxConnections
    }

    constructor(s: Settings)
      ensures Valid()
      ensures modelUrl == s.modelBaseUrl && timeout == DefaultTimeout && client == null
    {
      modelUrl := s.modelBaseUrl;
      timeout := DefaultTimeout;
      client := null;
    }

    /** `_get_client`: creates the pooled client on first use and returns the same one afterwards. */
    method GetClient() returns (c: HttpClient)
      requires Valid()
      modifies this
      ensures Valid() && client == c
      ensures old(client) != null ==> c == old(client)
      ensures old(client) == null ==> fresh(c)
    {
      if client == null {
        client := new HttpClient(timeout);
      }
      c := client;
    }

    /**
     * `transcribe`: posts the encoded audio to the predict URL with the client's timeout and
     * classifies the outcome; it never raises. The client exists afterwards.
     */
    method Transcribe(net: Transport, audio: Bytes, language: Option<string>) returns (text: Option<Json>)
      requires Valid()
      modifies this
      ensures Valid() && client != null && (old(client) != null ==> client == old(client))
      ensures text == ClassifyAsr(net(Request(PredictUrl(modelUrl), AsrPayload(audio, language), timeout)))
    {
      var c := GetClient();
      var payload := AsrPayload(audio, language);
      var outcome := net(Request(PredictUrl(modelUrl), payload, c.timeout));
      text := ClassifyAsr(outcome);
    }

    /** `is_available`: the health POST with its 5-second timeout. */
    method IsAvailable(net: Transport) returns (ok: bool)
      requires Valid()
      modifies this
      ensures ok == IsHealthy(net(HealthRequest(modelUrl)))
      ensures Valid() && client != null && (old(client) != null ==> client == old(client))
    {
      var _ := GetClient();
      ok := IsHealthy(net(HealthRequest(modelUrl)));
    }

    /** `close`: whatever closing the client does, afterwards there is none. */
    method Close()
      modifies this
      ensures Valid() && client == null
    {
      client := null;
    }
  }

  /** After `close`, the next request creates a new client. */
  method CloseThenReuse(t: AsrClient) returns (c: HttpClient)
    requires t.Valid()
    modifies t
    ensures t.Valid() && t.client == c && fresh(c) && c.timeout == t.timeout
  {
    t.Close();
    c := t.GetClient();
  }
}
