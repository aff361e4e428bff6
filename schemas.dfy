/**
 * Request and response validation (`backend/app/models/schemas.py`): which fields are required,
 * their defaults and their bounds. A field of the incoming JSON is missing, null, or a value of
 * the field's type; validation either builds the record or names every field that failed, in
 * declaration order.
 */
module Schemas {
  import opened Wrappers

  datatype Field<T> = Missing | Null | Present(value: T)

  /** A required, non-nullable field. */
  function Required<T>(f: Field<T>): (r: Option<T>)
    ensures r.Some? <==> f.Present?
    ensures r.Some? ==> r.value == f.value
  {
    if f.Present? then Some(f.value) else None
  }

  /**
   * An `Optional[...]` field with a default and a constraint on present values: missing gives
   * the default, null gives None, a present value must meet the constraint.
   */
  function OptionalWithDefault<T>(f: Field<T>, default: Option<T>, ok: T -> bool): (r: Option<Option<T>>)
    ensures r.None? <==> f.Present? && !ok(f.value)
    ensures f.Missing? ==> r == Some(default)
    ensures f.Null? ==> r == Some(None)
    ensures f.Present? && ok(f.value) ==> r == Some(Some(f.value))
  {
    match f
    case Missing => Some(default)
    case Null => Some(None)
    case Present(v) => if ok(v) then Some(Some(v)) else None
  }

  /** The names of the fields whose check failed, in order. */
  function Failed(checks: seq<(string, bool)>): (names: seq<string>)
    ensures |names| <= |checks|
    ensures names == [] <==> forall i :: 0 <= i < |checks| ==> checks[i].1
    ensures forall n :: n in names <==> exists i :: 0 <= i < |checks| && checks[i].0 == n && !checks[i].1
  {
    if checks == [] then []
    else (if checks[0].1 then [] else [checks[0].0]) + Failed(checks[1..])
  }

  /** With distinct field names, a field is named exactly when its own check failed. */
  lemma FailedOfDistinct(checks: seq<(string, bool)>, k: int)
    requires forall i, j :: 0 <= i < j < |checks| ==> checks[i].0 != checks[j].0
    requires 0 <= k < |checks|
    ensures checks[k].0 in Failed(checks) <==> !checks[k].1
  {
    if checks[k].0 in Failed(checks) {
      var i :| 0 <= i < |checks| && checks[i].0 == checks[k].0 && !checks[i].1;
      assert i == k;
    }
  }

  // ---------------------------------------------------------------------------
  // TTSRequest

  const MinTextLength: int := 1
  const MaxTextLength: int := 5000

  datatype TtsRequestInput = TtsRequestInput(text: Field<string>, voice: Field<string>, language: Field<string>,
                                             speed: Field<real>, volume: Field<real>, emotion: Field<string>)

  datatype TtsRequest = TtsRequest(text: string, voice: Option<string>, language: Option<string>,
                                   speed: Option<real>, volume: Option<real>, emotion: Option<string>)

  predicate TextOk(t: string) { MinTextLength <= |t| <= MaxTextLength }
  predicate SpeedOk(v: real) { 0.5 <= v <= 2.0 }
  predicate VolumeOk(v: real) { 0.0 <= v <= 2.0 }

  function AnyString(s: string): bool { true }

  /** TTSRequest validation: the record with defaults filled in, or the names of the invalid fields. */
  function MakeTtsRequest(i: TtsRequestInput): (r: Result<TtsRequest, seq<string>>)
    ensures r.Ok? <==>
      i.text.Present? && TextOk(i.text.value) &&
      (i.speed.Present? ==> SpeedOk(i.speed.value)) && (i.volume.Present? ==> VolumeOk(i.volume.value))
    ensures r.Ok? ==> r.value.text == i.text.value && TextOk(r.value.text)
    ensures r.Ok? ==> (r.value.speed.Some? ==> SpeedOk(r.value.speed.value)) &&
                      (r.value.volume.Some? ==> VolumeOk(r.value.volume.value))
    ensures r.Ok? && i.voice.Missing? ==> r.value.voice == Some("Tessa")
    ensures r.Ok? && i.language.Missing? ==> r.value.language == Some("en")
    ensures r.Ok? && i.speed.Missing? ==> r.value.speed == Some(1.0)
    ensures r.Ok? && i.volume.Missing? ==> r.value.volume == Some(1.0)
    ensures r.Ok? && i.emotion.Missing? ==> r.value.emotion == Some("neutral")
    ensures r.Err? ==> r.error != [] && ("text" in r.error <==> !(i.text.Present? && TextOk(i.text.value)))
  {
    var text := Required(i.text);
    var voice := OptionalWithDefault(i.voice, Some("Tessa"), AnyString);
    var language := OptionalWithDefault(i.language, Some("en"), AnyString);
    var speed := OptionalWithDefault(i.speed, Some(1.0), SpeedOk);
    var volume := OptionalWithDefault(i.volume, Some(1.0), VolumeOk);
    var emotion := OptionalWithDefault(i.emotion, Some("neutral"), AnyString);
    var textOk := text.Some? && TextOk(text.value);
    if textOk && speed.Some? && volume.Some? then
      Ok(TtsRequest(text.value, voice.value, language.value, speed.value, volume.value, emotion.value))
    else
      var checks := [("text", textOk), ("speed", speed.Some?), ("volume", volume.Some?)];
      assert !checks[0].1 || !checks[1].1 || !checks[2].1;
      FailedOfDistinct(checks, 0);
      Err(Failed(checks))
  }

  /** Empty text and missing text are both refused, naming "text". */
  lemma EmptyOrMissingTextRefused(i: TtsRequestInput)
    requires i.text == Present("") || i.text.Missing?
    ensures MakeTtsRequest(i).Err? && "text" in MakeTtsRequest(i).error
  {
  }

  /** Text of 5000 characters is accepted when nothing else is given; 5001 is refused. */
  lemma TextLengthBounds(t: string)
    requires |t| == MaxTextLength
    ensures MakeTtsRequest(TtsRequestInput(Present(t), Missing, Missing, Missing, Missing, Missing)) ==
      Ok(TtsRequest(t, Some("Tessa"), Some("en"), Some(1.0), Some(1.0), Some("neutral")))
    ensures MakeTtsRequest(TtsRequestInput(Present(t + "x"), Missing, Missing, Missing, Missing, Missing)).Err?
  {
  }

  // ---------------------------------------------------------------------------
  // ASRResponse

  datatype AsrResponseInput = AsrResponseInput(text: Field<string>, transcript: Field<string>, confidence: Field<real>)

  datatype AsrResponse = AsrResponse(text: string, transcript: Option<string>, confidence: Option<real>)

  predicate ConfidenceOk(c: real) { 0.0 <= c <= 1.0 }

  function MakeAsrResponse(i: AsrResponseInput): (r: Result<AsrResponse, seq<string>>)
    ensures r.Ok? <==> i.text.Present? && (i.confidence.Present? ==> ConfidenceOk(i.confidence.value))
    ensures r.Ok? ==> r.value.text == i.text.value
    ensures r.Ok? ==> (r.value.confidence.Some? ==> ConfidenceOk(r.value.confidence.value))
    ensures r.Ok? && !i.transcript.Present? ==> r.value.transcript == None
    ensures r.Ok? && !i.confidence.Present? ==> r.value.confidence == None
    ensures r.Err? ==> r.error != []
  {
    var text := Required(i.text);
    var transcript := OptionalWithDefault(i.transcript, None, AnyString);
    var confidence := OptionalWithDefault(i.confidence, None, ConfidenceOk);
    if text.Some? && confidence.Some? then Ok(AsrResponse(text.value, transcript.value, confidence.value))
    else
      var checks := [("text", text.Some?), ("confidence", confidence.Some?)];
      assert !checks[0].1 || !checks[1].1;
      Err(Failed(checks))
  }

  // ---------------------------------------------------------------------------
  // ReferenceVoice

  datatype ReferenceVoiceInput = ReferenceVoiceInput(language: Field<string>, gender: Field<string>,
                                                     url: Field<string>, available: Field<bool>)

  datatype ReferenceVoice = ReferenceVoice(language: string, gender: string, url: string, available: bool)

  /** The presence check of each ReferenceVoice field, in declaration order. */
  function ReferenceVoiceChecks(i: ReferenceVoiceInput): seq<(string, bool)> {
    [("language", i.language.Present?), ("gender", i.gender.Present?), ("url", i.url.Present?),
     ("available", i.available.Present?)]
  }

  /** Each of the four fields is reported exactly when it is absent. */
  lemma ReferenceVoiceFailures(i: ReferenceVoiceInput)
    ensures var names := Failed(ReferenceVoiceChecks(i));
      ("language" in names <==> !i.language.Present?) && ("gender" in names <==> !i.gender.Present?) &&
      ("url" in names <==> !i.url.Present?) && ("available" in names <==> !i.available.Present?)
  {
    var checks := ReferenceVoiceChecks(i);
    FailedOfDistinct(checks, 0);
    FailedOfDistinct(checks, 1);
    FailedOfDistinct(checks, 2);
    FailedOfDistinct(checks, 3);
  }

  /** All four fields are required and none may be null. */
  function MakeReferenceVoice(i: ReferenceVoiceInput): (r: Result<ReferenceVoice, seq<string>>)
    ensures r.Ok? <==> i.language.Present? && i.gender.Present? && i.url.Present? && i.available.Present?
    ensures r.Ok? ==> r.value == ReferenceVoice(i.language.value, i.gender.value, i.url.value, i.available.value)
    ensures r.Err? ==> r.error != []
    ensures r.Err? ==> ("language" in r.error <==> !i.language.Present?) && ("gender" in r.error <==> !i.gender.Present?)
    ensures r.Err? ==> ("url" in r.error <==> !i.url.Present?) && ("available" in r.error <==> !i.available.Present?)
  {
    if i.language.Present? && i.gender.Present? && i.url.Present? && i.available.Present? then
      Ok(ReferenceVoice(i.language.value, i.gender.value, i.url.value, i.available.value))
    else
      var checks := ReferenceVoiceChecks(i);
      assert !checks[0].1 || !checks[1].1 || !checks[2].1 || !checks[3].1;
      ReferenceVoiceFailures(i);
      Err(Failed(checks))
  }
}
