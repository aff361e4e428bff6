/**
 * Upload validation and audio preparation (`backend/app/utils/audio_utils.py`).
 * The audio libraries (librosa, soundfile, noisereduce) are not modelled: whether each one
 * imported, and what each call returns, are inputs collected in `AudioLibraries`.
 */
module AudioUtils {
  import opened Wrappers
  import opened Text
  import opened Base64
  import opened Config
  import opened FileUtils

  /**
   * The optional libraries: whether they imported, and the outcome of each library pipeline on a
   * given input. None stands for a call that raised.
   *  - `duration`: librosa.load at the native rate, then librosa.get_duration (seconds);
   *  - `resampleToWav`: librosa.load at 16 kHz, then soundfile writing WAV;
   *  - `denoiseToWav`: librosa.load at 16 kHz, noisereduce.reduce_noise, then soundfile writing WAV.
   */
  datatype AudioLibraries = AudioLibraries(
    hasLibrosa: bool,
    hasNoisereduce: bool,
    duration: Bytes -> Option<real>,
    resampleToWav: Bytes -> Option<Bytes>,
    denoiseToWav: Bytes -> Option<Bytes>)

  /** The `(is_valid, error_message)` pair: (True, None) or (False, message). */
  datatype Check = Valid | Invalid(message: string)

  /** The whitelist of `validate_audio_file`, the same six entries as `is_audio_file`'s. */
  const AllowedExtensions: seq<string> := AudioExtensions

  function SizeMessage(maxMb: int): string {
    "File size exceeds maximum allowed size of " + IntToString(maxMb) + "MB"
  }

  const FormatMessage: string := "Unsupported file format. Allowed formats: " + Join(", ", AllowedExtensions)

  function DurationMessage(maxSec: int): string {
    "Audio duration exceeds maximum allowed duration of " + IntToString(maxSec) + " seconds"
  }

  function MaxSizeBytes(s: Settings): int {
    s.maxAudioSizeMb * 1024 * 1024
  }

  /**
   * `validate_audio_file`: the size check first, then the extension of the lowercased name.
   * The extension test agrees with `is_audio_file`.
   */
  function ValidateAudioFile(s: Settings, content: Bytes, filename: string): (c: Check)
    ensures c == Valid <==> |content| <= MaxSizeBytes(s) && IsAudioFile(filename)
    ensures |content| > MaxSizeBytes(s) ==> c == Invalid(SizeMessage(s.maxAudioSizeMb))
    ensures |content| <= MaxSizeBytes(s) && !IsAudioFile(filename) ==> c == Invalid(FormatMessage)
    ensures c.Invalid? ==> c.message != []
  {
    IsAudioFileIgnoresCase(filename);
    SplitExtLower(filename);
    if |content| > MaxSizeBytes(s) then Invalid(SizeMessage(s.maxAudioSizeMb))
    else if SplitExt(Lower(filename)).1 !in AllowedExtensions then Invalid(FormatMessage)
    else Valid
  }

  /** `get_audio_duration`: 0.0 when librosa is missing or the probe raises. */
  function GetAudioDuration(libs: AudioLibraries, content: Bytes): real {
    if !libs.hasLibrosa then 0.0
    else match libs.duration(content)
      case None => 0.0
      case Some(d) => d
  }

  /** `validate_audio_duration`: fails only when the duration is strictly above the limit. */
  function ValidateAudioDuration(s: Settings, libs: AudioLibraries, content: Bytes): (c: Check)
    ensures c == Valid <==> GetAudioDuration(libs, content) <= s.maxAudioDurationSec as real
    ensures c.Invalid? ==> c.message == DurationMessage(s.maxAudioDurationSec) && c.message != []
  {
    if GetAudioDuration(libs, content) > s.maxAudioDurationSec as real then
      Invalid(DurationMessage(s.maxAudioDurationSec))
    else Valid
  }

  /** `convert_audio_to_wav`: the 16 kHz WAV rendering, or the input itself as a fallback. */
  function ConvertAudioToWav(libs: AudioLibraries, content: Bytes): Bytes {
    if !libs.hasLibrosa then content
    else match libs.resampleToWav(content)
      case None => content
      case Some(wav) => wav
  }

  /** `apply_noise_suppression`: the denoised WAV, or the input itself as a fallback. */
  function ApplyNoiseSuppression(s: Settings, libs: AudioLibraries, content: Bytes): Bytes {
    if !s.noiseSuppressionEnabled then content
    else if !libs.hasNoisereduce || !libs.hasLibrosa then content
    else match libs.denoiseToWav(content)
      case None => content
      case Some(wav) => wav
  }

  /** `prepare_audio_for_asr`: noise suppression, then WAV conversion. */
  function PrepareAudioForAsr(s: Settings, libs: AudioLibraries, content: Bytes): Bytes {
    ConvertAudioToWav(libs, ApplyNoiseSuppression(s, libs, content))
  }

  /** A file exactly at the size limit passes the size check; one byte more does not. */
  lemma SizeLimitIsInclusive(s: Settings, content: Bytes, filename: string)
    requires |content| == MaxSizeBytes(s) && IsAudioFile(filename)
    ensures ValidateAudioFile(s, content, filename) == Valid
    ensures forall b: Byte :: ValidateAudioFile(s, content + [b], filename) == Invalid(SizeMessage(s.maxAudioSizeMb))
  {
  }

  /** The size check comes first: an oversized file gets the size message whatever its name. */
  lemma SizeCheckFirst(s: Settings, content: Bytes, name1: string, name2: string)
    requires |content| > MaxSizeBytes(s)
    ensures ValidateAudioFile(s, content, name1) == ValidateAudioFile(s, content, name2)
  {
  }

  /** When the duration cannot be measured it counts as 0.0, so a non-negative limit is met. */
  lemma UnknownDurationPasses(s: Settings, libs: AudioLibraries, content: Bytes)
    requires !libs.hasLibrosa || libs.duration(content).None?
    requires s.maxAudioDurationSec >= 0
    ensures ValidateAudioDuration(s, libs, content) == Valid
  {
  }

  /** Without librosa, or when conversion raises, the bytes come back unchanged. */
  lemma ConvertFallsThrough(libs: AudioLibraries, content: Bytes)
    requires !libs.hasLibrosa || libs.resampleToWav(content).None?
    ensures ConvertAudioToWav(libs, content) == content
  {
  }

  /** Disabled, missing a dependency, or failing: noise suppression returns its input. */
  lemma SuppressionFallsThrough(s: Settings, libs: AudioLibraries, content: Bytes)
    requires !s.noiseSuppressionEnabled || !libs.hasNoisereduce || !libs.hasLibrosa
      || libs.denoiseToWav(content).None?
    ensures ApplyNoiseSuppression(s, libs, content) == content
  {
  }

  /** Without librosa the whole preparation is the identity. */
  lemma PrepareWithoutLibrosa(s: Settings, libs: AudioLibraries, content: Bytes)
    requires !libs.hasLibrosa
    ensures PrepareAudioForAsr(s, libs, content) == content
  {
  }

  /** With suppression switched off, preparation is only the WAV conversion. */
  lemma PrepareWhenSuppressionDisabled(s: Settings, libs: AudioLibraries, content: Bytes)
    requires !s.noiseSuppressionEnabled
    ensures PrepareAudioForAsr(s, libs, content) == ConvertAudioToWav(libs, content)
  {
  }

  /** With every library working, preparation converts the denoised audio: suppression runs first. */
  lemma PrepareOrder(s: Settings, libs: AudioLibraries, content: Bytes, denoised: Bytes, wav: Bytes)
    requires s.noiseSuppressionEnabled && libs.hasNoisereduce && libs.hasLibrosa
    requires libs.denoiseToWav(content) == Some(denoised) && libs.resampleToWav(denoised) == Some(wav)
    ensures PrepareAudioForAsr(s, libs, content) == wav
  {
  }
}
