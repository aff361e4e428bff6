/**
 * The speech-recognition wrapper (`backend/app/services/asr_utils.py`): segment-text cleaning,
 * the language and batch-size rules of `ASRModel.transcribe`, its English re-run, and the
 * choice of input in `processor.get_input`.
 * The Whisper pipeline, librosa loading and resampling are not modelled: they are function
 * parameters, and a failing call is an `Err` carrying the exception text.
 */
module AsrUtils {
  import opened Wrappers
  import opened Text

  // ---------------------------------------------------------------------------
  // _clean_text

  /**
   * `_clean_text`: None stands for a value that is not a `str`, which gives "". A string is
   * stripped, split on whitespace runs and re-joined with single spaces.
   */
  function CleanText(text: Option<string>): (r: string)
    ensures text.None? ==> r == ""
    ensures text.Some? ==> Words(Python, r) == Words(Python, text.value)
    ensures SingleSpaced(Python, r) && NoEdgeSpace(Python, r)
    ensures text.Some? ==> (r == "" <==> AllSpace(Python, text.value))
  {
    match text
    case None => ""
    case Some(t) =>
      var ws := Words(Python, Strip(Python, t));
      WordsOfStrip(Python, t);
      WordsOfJoin(Python, ws);
      JoinOfWordsShape(Python, ws);
      SingleSpacedNoEdge(Python, Join(" ", ws));
      WordsEmptyIffAllSpace(t);
      Join(" ", ws)
  }

  /** A string has no words exactly when it is all whitespace. */
  lemma {:induction false} WordsEmptyIffAllSpace(s: string)
    ensures Words(Python, s) == [] <==> AllSpace(Python, s)
    decreases |s|
  {
    if s != [] {
      WordsEmptyIffAllSpace(s[1..]);
      if IsSpace(Python, s[0]) {
        assert AllSpace(Python, s) <==> AllSpace(Python, s[1..]) by {
          if AllSpace(Python, s[1..]) {
            forall i | 0 <= i < |s| ensures IsSpace(Python, s[i]) {
              if i > 0 { assert s[i] == s[1..][i - 1]; }
            }
          }
        }
      }
    }
  }

  /** Cleaning an already cleaned text changes nothing. */
  lemma CleanTextIdempotent(text: Option<string>)
    ensures CleanText(Some(CleanText(text))) == CleanText(text)
  {
    var r := CleanText(text);
    var ws := Words(Python, Strip(Python, r));
    WordsOfStrip(Python, r);
    if text.Some? {
      WordsOfStrip(Python, text.value);
      assert ws == Words(Python, Strip(Python, text.value));
    } else {
      assert ws == [];
    }
  }

  // ---------------------------------------------------------------------------
  // ASRModel.transcribe

  /** The `batch_size` argument: absent, an int, a bool (a Python bool is an int) or another value. */
  datatype BatchSetting = NoBatch | IntBatch(n: int) | BoolBatch(flag: bool) | OtherBatch

  /** The batch size handed to the pipeline: the setting when it is an int above 0, else 16. */
  function EffectiveBatchSize(b: BatchSetting): (bs: int)
    ensures bs >= 1
    ensures b.IntBatch? && b.n > 0 ==> bs == b.n
    ensures b == BoolBatch(true) ==> bs == 1
    ensures !(b.IntBatch? && b.n > 0) && b != BoolBatch(true) ==> bs == 16
  {
    match b
    case IntBatch(n) => if n > 0 then n else 16
    case BoolBatch(flag) => if flag then 1 else 16
    case _ => 16
  }

  /** The spellings that leave the language to the model's own detection. */
  const UnspecifiedLanguages: seq<string> := ["", "auto", "none"]

  /**
   * The language passed to the pipeline: None when the configured language, stripped and
   * lowercased, is "", "auto" or "none" (a missing language counts as ""); otherwise the
   * configured string itself, unstripped.
   */
  function EffectiveLanguage(language: Option<string>): (r: Option<string>)
    ensures r.None? <==> Lower(Strip(Python, language.GetOr(""))) in UnspecifiedLanguages
    ensures r.Some? ==> language == r
  {
    if Lower(Strip(Python, language.GetOr(""))) in UnspecifiedLanguages then None else language
  }

  /** The configuration `transcribe` reads. */
  datatype AsrModel = AsrModel(language: Option<string>, vadEnabled: bool, batchSize: BatchSetting, beamSize: int)

  /** The arguments of one pipeline run (timestamps are always off). */
  datatype PipelineCall = PipelineCall(language: Option<string>, vadFilter: bool, beamSize: int, batchSize: int)

  /**
   * What a pipeline run yields: each segment's `text` attribute (None when missing or None)
   * and the detected language (None when neither the info object nor its dict form has one).
   */
  datatype PipelineRun = PipelineRun(segments: seq<Option<string>>, detected: Option<string>)

  /** The Whisper pipeline; `Err` carries the text of the exception it raised. */
  type Pipeline = PipelineCall -> Result<PipelineRun, string>

  datatype Segment = Segment(text: string)

  const TranscriptionErrorPrefix: string := "Error during faster-whisper transcription: "

  function FirstCall(m: AsrModel): PipelineCall {
    PipelineCall(EffectiveLanguage(m.language), m.vadEnabled, m.beamSize, EffectiveBatchSize(m.batchSize))
  }

  function EnglishCall(m: AsrModel): PipelineCall {
    PipelineCall(Some("en"), m.vadEnabled, m.beamSize, EffectiveBatchSize(m.batchSize))
  }

  /** `{"text": _clean_text(seg.text or "")}` for each segment, in order. */
  function Cleaned(segments: seq<Option<string>>): (out: seq<Segment>)
    ensures |out| == |segments|
    ensures forall i :: 0 <= i < |out| ==> out[i].text == CleanText(Some(segments[i].GetOr("")))
  {
    seq(|segments|, i requires 0 <= i < |segments| => Segment(CleanText(Some(segments[i].GetOr("")))))
  }

  /** The English pass runs when no language was specified and none was detected (None or ""). */
  predicate NeedsEnglishPass(m: AsrModel, run: PipelineRun) {
    EffectiveLanguage(m.language).None? && (run.detected.None? || run.detected.value == "")
  }

  /**
   * `ASRModel.transcribe`: one pipeline run with the effective language and batch size, and a
   * second run in English replacing the output when the first left the language undetermined.
   * Every returned segment text is cleaned; a failure of either run becomes a RuntimeError.
   */
  function Transcribe(m: AsrModel, pipeline: Pipeline): (r: Result<seq<Segment>, string>)
    ensures r.Err? ==> StartsWith(r.error, TranscriptionErrorPrefix)
    ensures r.Ok? ==> forall i :: 0 <= i < |r.value| ==>
      SingleSpaced(Python, r.value[i].text) && NoEdgeSpace(Python, r.value[i].text)
    ensures pipeline(FirstCall(m)).Err? ==> r == Err(TranscriptionErrorPrefix + pipeline(FirstCall(m)).error)
  {
    match pipeline(FirstCall(m))
    case Err(e) => Err(TranscriptionErrorPrefix + e)
    case Ok(run) =>
      if NeedsEnglishPass(m, run) then
        match pipeline(EnglishCall(m))
        case Err(e) => Err(TranscriptionErrorPrefix + e)
        case Ok(runEn) => Ok(Cleaned(runEn.segments))
      else Ok(Cleaned(run.segments))
  }

  /** With a language specified, only the first run matters: pipelines agreeing on it agree on the result. */
  lemma SpecifiedLanguageRunsOnce(m: AsrModel, p1: Pipeline, p2: Pipeline)
    requires EffectiveLanguage(m.language).Some?
    requires p1(FirstCall(m)) == p2(FirstCall(m))
    ensures Transcribe(m, p1) == Transcribe(m, p2)
    ensures FirstCall(m).language == m.language
  {
  }

  /** A detected language keeps the first run's output, even when none was specified. */
  lemma DetectedLanguageKeepsFirstRun(m: AsrModel, pipeline: Pipeline, run: PipelineRun)
    requires pipeline(FirstCall(m)) == Ok(run)
    requires run.detected.Some? && run.detected.value != ""
    ensures Transcribe(m, pipeline) == Ok(Cleaned(run.segments))
  {
  }

  /**
   * Without a specified or detected language, the English run's segments replace the first
   * run's, whatever those were.
   */
  lemma EnglishRunReplacesOutput(m: AsrModel, pipeline: Pipeline, run: PipelineRun, runEn: PipelineRun)
    requires EffectiveLanguage(m.language).None?
    requires pipeline(FirstCall(m)) == Ok(run) && (run.detected.None? || run.detected.value == "")
    requires pipeline(EnglishCall(m)) == Ok(runEn)
    ensures Transcribe(m, pipeline) == Ok(Cleaned(runEn.segments))
    ensures EnglishCall(m).language == Some("en") && EnglishCall(m).batchSize == FirstCall(m).batchSize
  {
  }

  /** A missing or blank language leaves the choice to the model. */
  lemma BlankLanguageIsUnspecified(blank: string)
    requires AllSpace(Python, blank)
    ensures EffectiveLanguage(None) == None
    ensures EffectiveLanguage(Some(blank)) == None
  {
  }

  /** "auto" and "none" are recognised in any letter case. */
  lemma AutoIsUnspecified()
    ensures EffectiveLanguage(Some("AUTO")) == None
  {
    TrimStartOfNoEdge(Python, "AUTO");
    assert Lower("AUTO") == "auto";
  }

  lemma NoneIsUnspecified()
    ensures EffectiveLanguage(Some("None")) == None
  {
    TrimStartOfNoEdge(Python, "None");
    assert Lower("None") == "none";
  }

  /** A language code is passed to the pipeline as configured. */
  lemma EnglishIsKept()
    ensures EffectiveLanguage(Some("en")) == Some("en")
  {
    TrimStartOfNoEdge(Python, "en");
    assert Lower("en") == "en";
  }

  // ---------------------------------------------------------------------------
  // processor.get_input

  /** Samples and their rate. */
  datatype AudioInput = AudioInput(samples: seq<real>, sampleRate: int)

  datatype InputError = ValueError(message: string) | RuntimeError(message: string)

  const NoInputMessage: string := "No audio input provided. Please upload a file or provide a recording."

  /** librosa.load at the native rate: the samples and that rate, or the exception text. */
  type Loader = string -> Result<AudioInput, string>

  /** librosa.resample(audio, orig_sr, target_sr). */
  type Resampler = (seq<real>, int, int) -> seq<real>

  /** `preprocess_audio`: loaded audio at the target rate, resampled only when the rates differ. */
  function PreprocessAudio(load: Loader, resample: Resampler, path: string, targetSr: int): (r: Result<AudioInput, InputError>)
    ensures r.Ok? ==> r.value.sampleRate == targetSr
    ensures load(path).Err? ==> r.Err? && r.error.RuntimeError?
    ensures load(path).Ok? && load(path).value.sampleRate == targetSr ==> r == Ok(load(path).value)
  {
    match load(path)
    case Err(e) => Err(RuntimeError("Error loading audio " + path + ": " + e))
    case Ok(a) =>
      if a.sampleRate != targetSr then Ok(AudioInput(resample(a.samples, a.sampleRate, targetSr), targetSr))
      else Ok(a)
  }

  /**
   * `get_input`: an uploaded file wins over a recording; a recording is returned as it is, with
   * the requested rate; neither is a ValueError.
   */
  function GetInput(load: Loader, resample: Resampler, uploadedFile: Option<string>,
                    recording: Option<seq<real>>, sr: int): (r: Result<AudioInput, InputError>)
    ensures r.Ok? ==> r.value.sampleRate == sr
    ensures uploadedFile.Some? ==> r == PreprocessAudio(load, resample, uploadedFile.value, sr)
    ensures uploadedFile.None? && recording.Some? ==> r == Ok(AudioInput(recording.value, sr))
    ensures uploadedFile.None? && recording.None? ==> r == Err(ValueError(NoInputMessage))
  {
    if uploadedFile.Some? then PreprocessAudio(load, resample, uploadedFile.value, sr)
    else if recording.Some? then Ok(AudioInput(recording.value, sr))
    else Err(ValueError(NoInputMessage))
  }

  /** The recording is ignored whenever a file is uploaded. */
  lemma UploadWinsOverRecording(load: Loader, resample: Resampler, path: string, rec1: Option<seq<real>>,
                                rec2: Option<seq<real>>, sr: int)
    ensures GetInput(load, resample, Some(path), rec1, sr) == GetInput(load, resample, Some(path), rec2, sr)
  {
  }
}
