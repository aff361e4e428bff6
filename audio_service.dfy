/**
 * `AudioService` (`backend/app/services/audio_service.py`): validation followed by optional
 * processing, and the two processing entry points.
 */
module AudioService {
  import opened Wrappers
  import opened Base64
  import opened Config
  import opened AudioUtils

  /** The `(is_valid, error_message, processed_audio)` triple. */
  datatype Outcome = Outcome(isValid: bool, error: Option<string>, audio: Option<Bytes>)

  /**
   * `validate_and_process_audio`: file validation, then duration validation, then (when asked)
   * the ASR preparation of the bytes.
   */
  function ValidateAndProcessAudio(s: Settings, libs: AudioLibraries, content: Bytes, filename: string,
                                   applyNoiseReduction: bool): (r: Outcome)
    ensures r.isValid <==>
      ValidateAudioFile(s, content, filename) == Valid && ValidateAudioDuration(s, libs, content) == Valid
    ensures ValidateAudioFile(s, content, filename).Invalid? ==>
      r == Outcome(false, Some(ValidateAudioFile(s, content, filename).message), None)
    ensures !r.isValid ==> r.error.Some? && r.error.value != [] && r.audio.None?
    ensures r.isValid ==> r.error.None? && r.audio.Some?
    ensures r.isValid && !applyNoiseReduction ==> r.audio == Some(content)
    ensures r.isValid && applyNoiseReduction ==> r.audio == Some(ProcessAudioForAsr(s, libs, content, filename))
  {
    match ValidateAudioFile(s, content, filename)
    case Invalid(msg) => Outcome(false, Some(msg), None)
    case Valid =>
      match ValidateAudioDuration(s, libs, content)
      case Invalid(msg) => Outcome(false, Some(msg), None)
      case Valid =>
        var processed := if applyNoiseReduction then PrepareAudioForAsr(s, libs, content) else content;
        Outcome(true, None, Some(processed))
  }

  /** `process_audio_for_tts`: conversion only, no noise suppression. */
  function ProcessAudioForTts(libs: AudioLibraries, content: Bytes, filename: string): Bytes {
    ConvertAudioToWav(libs, content)
  }

  /** `process_audio_for_asr`: noise suppression, then conversion. */
  function ProcessAudioForAsr(s: Settings, libs: AudioLibraries, content: Bytes, filename: string): Bytes {
    PrepareAudioForAsr(s, libs, content)
  }

  /**
   * When file validation fails the duration probe is never consulted: the outcome is the same
   * whatever the audio libraries would report.
   */
  lemma FileCheckShortCircuits(s: Settings, libs1: AudioLibraries, libs2: AudioLibraries,
                               content: Bytes, filename: string, apply: bool)
    requires ValidateAudioFile(s, content, filename).Invalid?
    ensures ValidateAndProcessAudio(s, libs1, content, filename, apply)
         == ValidateAndProcessAudio(s, libs2, content, filename, apply)
  {
  }

  /** A too-long recording is refused with the duration message even though its file checks pass. */
  lemma DurationRefusal(s: Settings, libs: AudioLibraries, content: Bytes, filename: string, apply: bool)
    requires ValidateAudioFile(s, content, filename) == Valid
    requires GetAudioDuration(libs, content) > s.maxAudioDurationSec as real
    ensures ValidateAndProcessAudio(s, libs, content, filename, apply)
         == Outcome(false, Some(DurationMessage(s.maxAudioDurationSec)), None)
  {
  }

  /** The TTS path differs from the ASR path exactly by skipping noise suppression. */
  lemma TtsSkipsSuppression(s: Settings, libs: AudioLibraries, content: Bytes, filename: string)
    ensures ProcessAudioForAsr(s, libs, content, filename)
         == ProcessAudioForTts(libs, ApplyNoiseSuppression(s, libs, content), filename)
    ensures !s.noiseSuppressionEnabled ==>
      ProcessAudioForAsr(s, libs, content, filename) == ProcessAudioForTts(libs, content, filename)
  {
  }
}
