# A verified model of the Somya Lab TTS/ASR platform core

The platform lets a user turn text into speech (TTS), clone a voice from a reference clip and
transcribe speech (ASR). A FastAPI backend validates uploads and forwards requests to a LitServe
model server. A React front end offers a playground, a home page with demo samples, and sign-in
through Supabase. This project models the deterministic core of both halves in Dafny and proves
what each part promises.

The project is one Dafny module per source file, plus five shared modules:

- `Wrappers`: `Option` and `Result`.
- `Text`: whitespace as Python's `str.isspace` and JavaScript's `\s` define it, strip/trim,
  whitespace splitting, joining, single-character splitting, ASCII case mapping and decimals.
- `Base64`: the encoding of section 4 of RFC 4648.
- `JsRuntime`: JavaScript numbers with NaN and the infinities, `Math.floor`, the truncating `%`,
  `padStart`, ToInt32 and the shift, UTF-16 code units, UTF-8, and `encodeURIComponent` with
  its URIError on a lone surrogate and its inverse `decodeURIComponent`. A JavaScript string is
  a Dafny `string` of characters; where the front end indexes or measures one (`s[0]`,
  `length`, `charCodeAt`), the model reads its UTF-16 code units.
- `ModelServer`: what the TTS and ASR clients share: JSON values with Python truthiness, the
  outcome of an HTTP POST, the lazily created HTTP client and the health check.

The backend is modelled as follows:

- `Config`: settings defaults, the derived model URL, the CORS origin list.
- `FileUtils`: file extensions as `os.path.splitext` gives them, the audio-extension test.
- `AudioUtils`: upload validation and the fall-through audio preparation. What each audio
  library returns is an input.
- `AudioService`: validation followed by processing.
- `VoiceService`: the reference-voice and example-text tables. The example listing is a loop.
- `AsrUtils`: text cleaning, the language and batch-size rules, the English re-run, input choice.
- `TtsService` and `AsrService`: payloads, response classification, health checks, the client
  lifecycle.
- `Schemas`: required fields, defaults and bounds of the request and response records.

The front end is modelled as follows:

- `AvatarUtils`: initials, the 32-bit colour hash loop, the avatar URL.
- `VoiceData`: the voice catalogue as an insertion-ordered table, its nested-loop lookups and
  table invariants.
- `AudioPlayer`: the time label, the rate cycle, the progress clamp, and the player as a class.
- `TutorialModal`: the step filter and the step navigation as a class.
- `AccountModal`: the image, name, phone and password checks. The phone pattern is a reader
  proved sound and complete. The form is a class.
- `AuthContext`: the session-to-user mapping, and the user with its `localStorage` mirror as a
  class.
- `AuthModal`: the dialog as a class.
- `Playground`: the word count, and the page state as a class.
- `Home`: the demo sample and text lookups, and the page as a class.
- `NavBar`: the header as a class.

Stateful components are classes. Their handlers are methods that state the whole new state.
Pure helpers are functions with contracts, and the lemmas beside them relate several calls.
Network answers, library results, browser events, clocks and object URLs are parameters. Each
alert, navigation and `onClose()` call is appended to a list or counted.

## Model

| member | source | states |
|---|---|---|
| Config.DeriveModelBaseUrl | backend/app/config.py:60-62 | an explicit non-empty MODEL_BASE_URL is kept as given; an empty one is replaced by a URL ending in "/predict" |
| Config.DerivedModelBaseUrl | backend/app/config.py:61-62 | the derived URL is the server URL with only its trailing '/' characters removed, followed by "/predict"; the part before "/predict" never ends in '/' |
| Config.Init | backend/app/config.py:16-62 | each setting is its override or its default (server URL http://localhost:8000, 50 MB, 300 s, suppression on, three local origins), and MODEL_BASE_URL is derived after the fields are set |
| Config.NonEmptyMembers | backend/app/config.py:67 | the `if origin.strip()` filter keeps a string exactly when it is non-empty and was in the list |
| Config.CorsOrigins | backend/app/config.py:64-67 | CORS_ORIGINS has at most one more entry than the string has commas; every entry is non-empty, has no surrounding whitespace and contains no comma |
| Config.CorsOriginsMembers | backend/app/config.py:67 | a string is an origin exactly when it is the non-empty strip of one of the comma-separated pieces |
| Config.InStripAll | backend/app/config.py:67 | a string is among the stripped pieces exactly when stripping one of the pieces gives it |
| Config.CorsOriginsIdempotent | backend/app/config.py:64-67 | joining a non-empty origin list with commas and reading it back yields the same list |
| Config.NonEmptyAppend | backend/app/config.py:67 | keeping the non-empty strings distributes over concatenation, so the kept origins stay in their input order |
| Config.NonEmptySingleton | backend/app/config.py:67 | a single string is kept exactly when it is non-empty |
| Config.StripAllAppend | backend/app/config.py:67 | stripping piece by piece distributes over concatenation |
| Config.BlankOriginPieces | backend/app/config.py:66 | "b, ,a" splits at its commas into "b", " " and "a" |
| Config.BlankOriginStrips | backend/app/config.py:67 | stripping "b", " " and "a" gives "b", "" and "a" |
| Config.BlankOriginKept | backend/app/config.py:67 | of "b", "" and "a" the filter keeps "b" and "a", in that order |
| Config.BlankOriginDropped | backend/app/config.py:64-67 | "b, ,a" gives ["b", "a"]: the blank piece is dropped and the others keep their order |
| Config.DefaultModelBaseUrl | backend/tests/test_config.py:8-13 | with the default server URL the model URL is http://localhost:8000/predict |
| Config.TrailingSlashModelBaseUrl | backend/tests/test_config.py:23-27 | a server URL ending in '/' still gives http://localhost:8000/predict |
| Config.DefaultCorsOrigins | backend/app/config.py:27 | the default origin string yields the three local development servers, in their written order |
| FileUtils.RFind | backend/app/utils/file_utils.py:33 | the last index holding the character (or -1): no later position holds it |
| FileUtils.SplitExt | backend/app/utils/file_utils.py:33 | `os.path.splitext`: root plus extension is the whole path; the extension is empty or a '.' followed by text with no '/' and no further '.' |
| FileUtils.GetFileExtension | backend/app/utils/file_utils.py:23-33 | the extension is empty or starts with '.', holds no ASCII capital, and is no longer than the name |
| FileUtils.ExtensionIsFinalSuffix | backend/app/utils/file_utils.py:33 | a non-empty extension is a suffix of the path with no '.' or '/' after its first character |
| FileUtils.ExtensionOfFinalComponent | backend/app/utils/file_utils.py:23-33 | for every path: there is an extension exactly when the last '.' follows the last '/' with a character other than '.' between them; the extension is then the text from that '.' on, and `get_file_extension` returns its lowercase |
| FileUtils.MultiDotExample | backend/app/utils/file_utils.py:23-47 | "take.2.wav" has extension ".wav" and is an audio file |
| FileUtils.DirectoryExample | backend/app/utils/file_utils.py:23-47 | "dir/a.mp3" has extension ".mp3" and is an audio file |
| FileUtils.LeadingDotsAreNotAnExtension | backend/app/utils/file_utils.py:33 | a base name whose dots are all leading (".wav", "dir/..bashrc") has no extension |
| FileUtils.SplitExtLower | backend/app/utils/file_utils.py:33 | lowercasing the name first gives the lowercased extension |
| FileUtils.IsAudioFileIgnoresCase | backend/app/utils/file_utils.py:36-47 | `is_audio_file` and `get_file_extension` give the same answer for a name and its lowercase form |
| FileUtils.TestMp3IsAudio | backend/tests/test_audio_processing.py:26-33 | "test.mp3" has extension ".mp3" and is an audio file |
| FileUtils.TestWavIsAudio | backend/tests/test_audio_processing.py:27-34 | "test.wav" has extension ".wav" and is an audio file |
| FileUtils.TestTxtIsNotAudio | backend/tests/test_audio_processing.py:35 | "test.txt" has extension ".txt" and is not an audio file |
| FileUtils.NoDotNoExtension | backend/tests/test_audio_processing.py:28 | a name without a dot ("test") has the empty extension |
| FileUtils.ExtensionAtOnlyDot | backend/app/utils/file_utils.py:33 | in a path with no '/' and exactly one '.', not in front, the extension is everything from that dot |
| FileUtils.GetFileExtensionAtOnlyDot | backend/app/utils/file_utils.py:23-33 | for such a path whose extension is already lowercase, `get_file_extension` returns that extension unchanged |
| FileUtils.GetFileExtensionOfStemDotExt | backend/app/utils/file_utils.py:33 | "stem.ext", with a plain stem and a lowercase extension, has extension ".ext" |
| FileUtils.CaseAndDotFileExamples | backend/app/utils/file_utils.py:46-47 | "X.MP3" is accepted as audio; ".wav" has no extension |
| AudioUtils.ValidateAudioFile | backend/app/utils/audio_utils.py:29-51 | valid exactly when the content is at most MAX_AUDIO_SIZE_MB·1024·1024 bytes and the name has an allowed extension; the size check comes first and each refusal carries its own non-empty message |
| AudioUtils.ValidateAudioDuration | backend/app/utils/audio_utils.py:79-94 | valid exactly when the measured duration (0.0 when librosa is missing or raises) is at most MAX_AUDIO_DURATION_SEC; a refusal carries the duration message |
| AudioUtils.SizeLimitIsInclusive | backend/app/utils/audio_utils.py:41-43 | a file exactly at the limit passes; one byte more is refused with the size message |
| AudioUtils.SizeCheckFirst | backend/app/utils/audio_utils.py:40-49 | an oversized file gets the same verdict whatever its name |
| AudioUtils.UnknownDurationPasses | backend/app/utils/audio_utils.py:65-76 | without librosa, or when the probe raises, the duration counts as 0.0 and passes a non-negative limit |
| AudioUtils.ConvertFallsThrough | backend/app/utils/audio_utils.py:108-126 | without librosa, or when the conversion raises, the bytes come back unchanged |
| AudioUtils.SuppressionFallsThrough | backend/app/utils/audio_utils.py:140-164 | when suppression is disabled, a dependency is missing or the call raises, the input comes back unchanged |
| AudioUtils.PrepareWithoutLibrosa | backend/app/utils/audio_utils.py:167-184 | without librosa the whole ASR preparation returns its input |
| AudioUtils.PrepareWhenSuppressionDisabled | backend/app/utils/audio_utils.py:178-184 | with suppression off, the preparation is only the WAV conversion |
| AudioUtils.PrepareOrder | backend/app/utils/audio_utils.py:178-184 | with every library working, the result is the conversion of the denoised audio: suppression runs before conversion |
| AudioService.ValidateAndProcessAudio | backend/app/services/audio_service.py:20-52 | valid exactly when both validations pass; a failed file check returns its message and never probes the duration; a refusal has a message and no audio; a valid result has the original bytes, or the ASR-prepared bytes when noise reduction is asked for |
| AudioService.FileCheckShortCircuits | backend/app/services/audio_service.py:38-40 | once the file check fails, the outcome does not depend on the audio libraries |
| AudioService.DurationRefusal | backend/app/services/audio_service.py:43-45 | a file that passes the file check but is too long is refused with the duration message and no audio |
| AudioService.TtsSkipsSuppression | backend/app/services/audio_service.py:54-80 | the ASR path is the TTS path applied to the noise-suppressed audio, so the two agree when suppression is off |
| VoiceService.VoicesFor | backend/app/services/voice_service.py:25-38 | the voices of one language, in table order, each taken from the table |
| VoiceService.ReferenceVoicesTable | backend/app/services/voice_service.py:13-39 | twelve voices, all available, every one in a supported language, exactly two for each supported language and none for any other |
| VoiceService.VoicesOfPaired | backend/app/services/voice_service.py:25-38 | in a table laid out as two voices per distinct language, a listed language has exactly two voices and any other has none |
| VoiceService.Lookup | backend/app/services/voice_service.py:100 | `examples.get(language, [])`: the list under the first occurrence of the key, or [] for an unknown key |
| VoiceService.Tag | backend/app/services/voice_service.py:105-109 | each entry of a language, in order, with that language added |
| VoiceService.Untagged | backend/app/services/voice_service.py:99-100 | each entry of a language, in order, without a language key |
| VoiceService.Flatten | backend/app/services/voice_service.py:103-111 | every listed entry carries the language of one of the table's keys |
| VoiceService.WithLanguage | backend/app/services/voice_service.py:103-111 | the entries carrying one language, in order, each from the input |
| VoiceService.GetExampleTexts | backend/app/services/voice_service.py:42-111 | a non-empty language gives that language's stored list (empty for an unknown one); no language or "" gives the nested loop's listing, proved equal to every language's entries tagged, in dictionary order |
| VoiceService.FlattenSnoc | backend/app/services/voice_service.py:104-109 | one more outer-loop round appends that language's tagged entries (the loop invariant's step) |
| VoiceService.WithLanguageAppend | backend/app/services/voice_service.py:103-111 | selecting one language distributes over concatenation |
| VoiceService.WithLanguageOfTag | backend/app/services/voice_service.py:105-109 | selecting a language among one language's tagged entries gives all of them or none |
| VoiceService.WithLanguageOfFlatten | backend/app/services/voice_service.py:99-111 | for any dictionary, the full listing restricted to one language is that language's list, tagged |
| VoiceService.ExamplesTable | backend/app/services/voice_service.py:52-97 | the dictionary's keys are the six supported languages, in config order, each once, and the listing has eight entries |
| VoiceService.FilteredAgreesWithListing | backend/app/services/voice_service.py:99-111 | asking for one language gives what the full listing holds for it, minus the language key; an unsupported language gives [] |
| AsrUtils.CleanText | backend/app/services/asr_utils.py:15-18 | a non-string gives ""; a string gives text with the same words, single-spaced and with no surrounding whitespace, which is empty exactly when the input is all whitespace |
| AsrUtils.WordsEmptyIffAllSpace | backend/app/services/asr_utils.py:18 | `str.split()` yields no words exactly when the string is all whitespace |
| AsrUtils.CleanTextIdempotent | backend/app/services/asr_utils.py:15-18 | cleaning a cleaned text changes nothing |
| AsrUtils.EffectiveBatchSize | backend/app/services/asr_utils.py:64 | the batch size is at least 1: the setting when it is an int above 0 (a True flag counts as 1), else 16 |
| AsrUtils.EffectiveLanguage | backend/app/services/asr_utils.py:65-66 | no language is passed exactly when the configured one, stripped and lowercased, is "", "auto" or "none"; otherwise the configured string is passed unchanged |
| AsrUtils.Cleaned | backend/app/services/asr_utils.py:76 | one cleaned text per segment, in order, with a missing text read as "" |
| AsrUtils.Transcribe | backend/app/services/asr_utils.py:62-97 | a failing run becomes an error that starts with "Error during faster-whisper transcription: "; every returned text is single-spaced with no surrounding whitespace |
| AsrUtils.SpecifiedLanguageRunsOnce | backend/app/services/asr_utils.py:66-95 | with a language specified, only the first run decides the result, and the language is passed as configured |
| AsrUtils.DetectedLanguageKeepsFirstRun | backend/app/services/asr_utils.py:77-95 | a detected language keeps the first run's cleaned segments |
| AsrUtils.EnglishRunReplacesOutput | backend/app/services/asr_utils.py:84-94 | with no language specified or detected, the English run's segments replace the first run's; the batch size is the same for both runs |
| AsrUtils.BlankLanguageIsUnspecified | backend/app/services/asr_utils.py:65-66 | a missing or all-whitespace language leaves detection to the model |
| AsrUtils.AutoIsUnspecified | backend/app/services/asr_utils.py:65-66 | "AUTO" is recognised whatever its letter case |
| AsrUtils.NoneIsUnspecified | backend/app/services/asr_utils.py:65-66 | "None" is recognised whatever its letter case |
| AsrUtils.EnglishIsKept | backend/app/services/asr_utils.py:66 | "en" is passed through to the pipeline |
| AsrUtils.PreprocessAudio | backend/app/services/asr_utils.py:113-121 | the result is at the target rate; a failed load is a RuntimeError; audio already at the target rate is returned unchanged |
| AsrUtils.GetInput | backend/app/services/asr_utils.py:104-111 | an uploaded file is preprocessed; otherwise a recording is returned at the requested rate; with neither it is a ValueError carrying the "No audio input provided" message |
| AsrUtils.UploadWinsOverRecording | backend/app/services/asr_utils.py:105-107 | with an uploaded file the recording does not matter |
| Base64.Encode | backend/app/services/asr_service.py:48 | `base64.b64encode`: four characters per started group of three bytes, each from the RFC 4648 alphabet or the '=' pad |
| Base64.Decode | backend/app/services/tts_service.py:90 | `base64.b64decode` of padded text: a successful decode comes from text whose length is a multiple of four |
| Base64.DecodeEncode | backend/app/services/tts_service.py:87-92 | decoding the encoding of any byte string returns that byte string (the base64 round trip between the two services and the model server) |
| Base64.EncodeInjective | backend/app/services/asr_service.py:48-54 | distinct audio gives distinct base64 text |
| Base64.DecodeEncodeBlock | backend/app/services/asr_service.py:48 | a full three-byte group survives the round trip |
| Base64.DecodeEncodeTail | backend/app/services/asr_service.py:48 | a padded final group of one or two bytes survives the round trip |
| ModelServer.Get | backend/app/services/tts_service.py:85-101 | `dict.get(key, default)`: the stored value when the key is present, the default otherwise |
| ModelServer.ResultObject | backend/app/services/tts_service.py:83-85 | the decoded body is usable exactly when it is a JSON object, and then it is that object's fields |
| ModelServer.PredictUrl | backend/app/services/tts_service.py:76 | the request URL is the model URL followed by "/predict" |
| ModelServer.HealthyOnlyOn200 | backend/app/services/tts_service.py:118-143 | `is_available` is true exactly for a 200 response whose JSON object has "status" equal to "healthy"; every exception and every other status gives false |
| ModelServer.HttpClient.constructor | backend/app/services/tts_service.py:25-28 | the pooled client has the service's timeout, 10 keep-alive connections and 20 connections at most |
| TtsService.TtsPayload | backend/app/services/tts_service.py:55-69 | the five fixed keys always ("endpoint" "tts", text, language or null, voice, return_base64 true); "cloneing" exactly when cloning; each reference field exactly when cloning and that field is non-empty; no other keys |
| TtsService.ClassifyTts | backend/app/services/tts_service.py:81-116 | audio comes back only from a 200 response whose JSON object has a truthy "success" and a non-empty "audio_base64" string, and then it is that string decoded |
| TtsService.SuccessfulSynthesis | backend/app/services/tts_service.py:85-92 | a success response carrying the base64 text of some audio yields exactly that audio, whatever other fields the body has |
| TtsService.UnsuccessfulSynthesis | backend/app/services/tts_service.py:96-106 | another status, a false or missing "success", or a missing or empty audio field gives None |
| TtsService.FailuresYieldNone | backend/app/services/tts_service.py:108-116 | a timeout, a request error, any other exception, invalid JSON or a non-object body give None |
| TtsService.DefaultSynthesisUrl | backend/app/services/tts_service.py:17-76 | with the default settings the request goes to http://localhost:8000/predict/predict: "/predict" is appended to a URL that already ends in it |
| TtsService.TtsClient.constructor | backend/app/services/tts_service.py:15-20 | the model URL is MODEL_BASE_URL, the timeout 300 s, and there is no client yet |
| TtsService.TtsClient.GetClient | backend/app/services/tts_service.py:22-29 | creates the client on first use with the service's timeout and the pool limits; afterwards the same client is returned |
| TtsService.TtsClient.Synthesize | backend/app/services/tts_service.py:31-116 | the result is the classification of one POST of the payload to the predict URL with the service's timeout; the pooled client exists afterwards and is reused |
| TtsService.TtsClient.IsAvailable | backend/app/services/tts_service.py:118-143 | the verdict is the health verdict of one POST to "/health" with a 5-second timeout |
| TtsService.TtsClient.Close | backend/app/services/tts_service.py:145-159 | afterwards there is no client, whether or not closing raised |
| TtsService.CloseThenReuse | backend/app/services/tts_service.py:145-159 | after closing, the next request creates a fresh client with the same timeout |
| AsrService.AsrPayload | backend/app/services/asr_service.py:48-58 | "endpoint" is "asr" and "audio_base64" decodes back to the audio; "language" is present exactly when a non-empty language is given; no other keys |
| AsrService.ClassifyAsr | backend/app/services/asr_service.py:70-100 | for a 200 JSON-object response, a result comes back exactly when "success" and "transcription" (default "") are both truthy, and it is the transcription as sent; every other outcome gives None |
| AsrService.SuccessfulTranscription | backend/app/services/asr_service.py:74-79 | a success response with a non-empty transcription string yields that string |
| AsrService.EmptyTranscription | backend/app/services/asr_service.py:76-82 | a success response with an empty or missing transcription gives None |
| AsrService.FailedTranscription | backend/app/services/asr_service.py:83-100 | a false or missing "success", another status, a non-object or invalid body, or any exception gives None |
| AsrService.PayloadDeterminesAudio | backend/app/services/asr_service.py:48-54 | equal payloads carry equal audio |
| AsrService.AsrClient.constructor | backend/app/services/asr_service.py:15-20 | the model URL is MODEL_BASE_URL, the timeout 300 s, and there is no client yet |
| AsrService.AsrClient.GetClient | backend/app/services/asr_service.py:22-29 | creates the client on first use with the service's timeout and the pool limits; afterwards the same client is returned |
| AsrService.AsrClient.Transcribe | backend/app/services/asr_service.py:31-100 | the result is the classification of one POST of the payload to the predict URL with the service's timeout; the pooled client exists afterwards and is reused |
| AsrService.AsrClient.IsAvailable | backend/app/services/asr_service.py:102-127 | the verdict is the health verdict of one POST to "/health" with a 5-second timeout |
| AsrService.AsrClient.Close | backend/app/services/asr_service.py:129-143 | afterwards there is no client, whether or not closing raised |
| AsrService.CloseThenReuse | backend/app/services/asr_service.py:129-143 | after closing, the next request creates a fresh client with the same timeout |
| Schemas.Required | backend/app/models/schemas.py:8 | a required field validates exactly when it is present (not missing, not null), and then keeps its value |
| Schemas.OptionalWithDefault | backend/app/models/schemas.py:9-13 | an optional field: missing gives the default, null gives None, a present value is kept exactly when it meets the field's bounds |
| Schemas.Failed | backend/app/models/schemas.py:6-28 | the reported names are exactly those whose check failed, and the list is empty exactly when every check passed |
| Schemas.FailedOfDistinct | backend/app/models/schemas.py:6-28 | with distinct field names, a field is reported exactly when its own check failed |
| Schemas.MakeTtsRequest | backend/app/models/schemas.py:6-13 | valid exactly when text is present with 1 to 5000 characters and any given speed lies in [0.5, 2.0] and any given volume in [0.0, 2.0]; missing fields default to "Tessa", "en", 1.0, 1.0 and "neutral"; a refusal names "text" exactly when the text was at fault |
| Schemas.EmptyOrMissingTextRefused | backend/app/models/schemas.py:8 | empty or missing text is refused, naming "text" |
| Schemas.TextLengthBounds | backend/app/models/schemas.py:8 | 5000 characters of text with nothing else given is accepted with every default; 5001 is refused |
| Schemas.MakeAsrResponse | backend/app/models/schemas.py:16-20 | valid exactly when text is present and any given confidence lies in [0, 1]; transcript and confidence default to None |
| Schemas.ReferenceVoiceFailures | backend/app/models/schemas.py:23-28 | of the four reference-voice fields, each is reported exactly when it is absent |
| Schemas.MakeReferenceVoice | backend/app/models/schemas.py:23-28 | valid exactly when language, gender, url and available are all present; a refusal names exactly the absent ones |
| Text.TrimStart | backend/app/services/asr_utils.py:18 | removes exactly the leading whitespace: the result is a suffix, everything dropped is whitespace, and it does not start with whitespace |
| Text.TrimEnd | backend/app/services/asr_utils.py:18 | removes exactly the trailing whitespace: the result is a prefix, everything dropped is whitespace, and it does not end with whitespace |
| Text.Strip | backend/app/services/asr_utils.py:18 | `str.strip()` / `trim()`: no whitespace at either end, no longer than the input, empty exactly when the input is all whitespace |
| Text.StripIsInfix | backend/app/config.py:67 | the stripped text is the slice between the leading and the trailing whitespace |
| Text.Words | backend/app/services/asr_utils.py:18 | `str.split()`: every word is a non-empty run without whitespace |
| Text.WordsOfStrip | backend/app/services/asr_utils.py:18 | stripping does not change the words |
| Text.WordsOfJoin | backend/app/services/asr_utils.py:18 | splitting words joined by single spaces gives the words back |
| Text.JoinOfWordsShape | backend/app/services/asr_utils.py:18 | words joined by single spaces form a single-spaced text: each space lies strictly inside, between two non-space characters |
| Text.WordsDropTrailing | backend/app/services/asr_utils.py:18 | trailing whitespace never adds a word |
| Text.SplitOnSpaceRuns | front-end/src/utils/avatarUtils.js:14 | `split(/\s+/)` always yields at least one piece |
| Text.SplitOnSpaceRunsOfTrimmed | front-end/src/utils/avatarUtils.js:14 | on a non-empty text without whitespace at its ends, `split(/\s+/)` yields exactly the words |
| Text.SplitOnSpaceRunsOfEmpty | front-end/src/utils/avatarUtils.js:14 | the empty string splits into one empty piece |
| Text.SplitOn | backend/app/config.py:67 | `split(",")` yields one more piece than there are separators, and no piece contains the separator |
| Text.SplitOnJoin | backend/app/config.py:67 | joining separator-free pieces and splitting again returns the pieces |
| Text.Before | front-end/src/AuthContext.jsx:19 | `s.split(c)[0]`: a prefix of the text without the separator, followed in the text by the separator unless it is the whole text |
| Text.RStripChar | backend/app/config.py:62 | `rstrip('/')`: a prefix of the text that does not end in the character, with only that character removed |
| Text.Lower | backend/app/utils/file_utils.py:33 | `lower()` on ASCII: the same length, each character mapped by its ASCII lowercase |
| Text.NatToString | front-end/src/components/AudioPlayer.jsx:10 | a number's decimal rendering is a non-empty string of digits |
| Text.DigitsValueOfNatToString | front-end/src/components/AudioPlayer.jsx:10 | reading the rendered digits back gives the number |
| JsRuntime.Floor | front-end/src/components/AudioPlayer.jsx:8-9 | `Math.floor`: the greatest integer not above the value |
| JsRuntime.Trunc | front-end/src/components/AudioPlayer.jsx:9 | truncation toward zero: the floor for non-negative values, minus the floor of the negation otherwise |
| JsRuntime.Rem60 | front-end/src/components/AudioPlayer.jsx:9 | JavaScript `% 60`: the remainder takes the dividend's sign, stays below 60 in magnitude, and differs from the dividend by 60 times the truncated quotient |
| JsRuntime.PadStart2 | front-end/src/components/AudioPlayer.jsx:10 | `padStart(2, '0')`: a text of two or more characters is unchanged; a shorter one gets leading '0's up to length two |
| JsRuntime.ToInt32 | front-end/src/utils/avatarUtils.js:39 | ToInt32 of an integral value lies in [-2^31, 2^31) and is congruent to it modulo 2^32 |
| JsRuntime.Shl5 | front-end/src/utils/avatarUtils.js:39 | `x << 5` lies in [-2^31, 2^31) and is congruent to ToInt32(x)·32 modulo 2^32 |
| JsRuntime.Utf16Char | front-end/src/utils/avatarUtils.js:38-39 | `charCodeAt` units of one character: itself below U+10000, never a surrogate; otherwise a high and a low surrogate whose pair stands for the character |
| JsRuntime.Utf16 | front-end/src/utils/avatarUtils.js:38-39 | the code units of a string are at least as many as its characters, each below 0x10000 |
| JsRuntime.PairCodePoint | front-end/src/utils/avatarUtils.js:30 | a surrogate pair stands for a code point from U+10000 to U+10FFFF |
| JsRuntime.FirstUnit | front-end/src/utils/avatarUtils.js:16-21 | `s[0]` is the first of the string's code units: the character itself below U+10000, else a high surrogate, never a low one |
| JsRuntime.UpperUnit | front-end/src/utils/avatarUtils.js:16-21 | `toUpperCase` on one code unit stays a code unit, leaves surrogates as they are, and on any other unit is the upper-casing of that character |
| JsRuntime.Utf16OfBmpText | front-end/src/utils/avatarUtils.js:30 | code units with no surrogate, read as text, give the same code units back |
| JsRuntime.PercentBytes | front-end/src/utils/avatarUtils.js:30 | each byte becomes a '%' followed by two upper-case hex digits |
| JsRuntime.EncodeUriComponent | front-end/src/utils/avatarUtils.js:30 | on a text: the output is no shorter than the input and holds only unreserved characters and '%'; DecodeEncodeUriComponent reads it back to the text, and EncodeUnitsOfUtf16 shows it is `encodeURIComponent` on the text's code units |
| JsRuntime.EncodeUnreserved | front-end/src/utils/avatarUtils.js:30 | text made of unreserved characters is passed through unchanged |
| JsRuntime.EncodeEscapes | front-end/src/utils/avatarUtils.js:30 | text with a reserved character is changed: it contains a '%' escape and grows by at least two characters |
| JsRuntime.EncodeUnitsOfUtf16 | front-end/src/utils/avatarUtils.js:30 | `encodeURIComponent` on the code units of any text never throws and equals the character-level encoding |
| JsRuntime.EncodeUnitsFails | front-end/src/utils/avatarUtils.js:30 | on code units with no low surrogate, such as first units of words, `encodeURIComponent` throws URIError exactly when one of them is a high surrogate |
| JsRuntime.HexValueOfDigit | front-end/src/utils/avatarUtils.js:30 | a hex digit of an escape reads back as its value |
| JsRuntime.PercentDecodeEscape | front-end/src/utils/avatarUtils.js:30 | one escape in front of more text decodes to its byte first |
| JsRuntime.PercentDecodeBytes | front-end/src/utils/avatarUtils.js:30 | the escapes of some bytes, in front of more text, decode to those bytes first |
| JsRuntime.PercentDecodeEncode | front-end/src/utils/avatarUtils.js:30 | the escaped text decodes to exactly the UTF-8 bytes of the original |
| JsRuntime.DecodeEncodeUriComponent | front-end/src/utils/avatarUtils.js:30 | `decodeURIComponent(encodeURIComponent(s))` is s for every text |
| JsRuntime.LoneSurrogateThrows | front-end/src/utils/avatarUtils.js:30 | the lone high surrogate 0xD83D, the first unit of U+1F600, throws URIError |
| JsRuntime.Utf8OfEmoji | front-end/src/utils/avatarUtils.js:30 | U+1F600 has the UTF-8 bytes F0 9F 98 80 |
| JsRuntime.PercentBytesOfEmoji | front-end/src/utils/avatarUtils.js:30 | those bytes escape as "%F0%9F%98%80" |
| JsRuntime.EmojiEncodes | front-end/src/utils/avatarUtils.js:30 | the whole character U+1F600, as text and as its surrogate pair, encodes as "%F0%9F%98%80" |
| AvatarUtils.Identifier | front-end/src/utils/avatarUtils.js:9 | the colour seed is the id, else the e-mail, else "user", and never empty |
| AvatarUtils.NamePartsAreWords | front-end/src/utils/avatarUtils.js:14 | `name.trim().split(/\s+/)` gives [""] for a blank name and the name's words otherwise |
| AvatarUtils.InitialUnit | front-end/src/utils/avatarUtils.js:16-21 | `w[0].toUpperCase()` is a code unit, never a low surrogate; it is a high surrogate exactly when the word starts above U+FFFF, and otherwise the upper-cased first character |
| AvatarUtils.WordInitials | front-end/src/utils/avatarUtils.js:15-18 | the initials of a list of words are one or two code units, none a low surrogate |
| AvatarUtils.NameInitials | front-end/src/utils/avatarUtils.js:13-19 | the initials taken from `name.trim().split(/\s+/)` are those of the name's words, so "U" for a blank name |
| AvatarUtils.Initials | front-end/src/utils/avatarUtils.js:11-22 | one or two UTF-16 code units, none a low surrogate: those of the words of a non-empty name, else the upper-cased first unit of the e-mail, else "U" |
| AvatarUtils.BlankNameIgnoresEmail | front-end/src/utils/avatarUtils.js:12-19 | a whitespace-only name yields "U" even when an e-mail is present |
| AvatarUtils.HashBound | front-end/src/utils/avatarUtils.js:37-40 | each code unit moves the hash by at most 2^31 + 65535, so the hash stays exactly representable for strings up to 2^21 code units |
| AvatarUtils.HashOfOneUnit | front-end/src/utils/avatarUtils.js:39 | a one-unit string hashes to its own code |
| AvatarUtils.GenerateHash | front-end/src/utils/avatarUtils.js:37-40 | the loop computes the left fold of `code + ((hash << 5) - hash)` over the string's UTF-16 code units, starting at 0 |
| AvatarUtils.HslOf | front-end/src/utils/avatarUtils.js:43-45 | hue in [0, 360), saturation in [60, 80), lightness in [45, 60), the hue being |hash| mod 360 |
| AvatarUtils.HueDeterminesShade | front-end/src/utils/avatarUtils.js:43-45 | because 20 and 15 divide 360, saturation is 60 + hue mod 20 and lightness 45 + hue mod 15 |
| AvatarUtils.GenerateColor | front-end/src/utils/avatarUtils.js:36-56 | the colour is the hex conversion of the HSL triple of the hash of the seed |
| AvatarUtils.AvatarUrl | front-end/src/utils/avatarUtils.js:5-31 | "/male.png" without a user; with one, URIError (None) exactly when an initial is half of a surrogate pair, and otherwise a URL that starts with the ui-avatars.com service address and ends with white bold text |
| AvatarUtils.GetUserAvatarUrl | front-end/src/utils/avatarUtils.js:5-31 | the step-by-step function, which composes the hash loop of GenerateColor, computes AvatarUrl, its URIError included |
| AvatarUtils.AvatarUrlOfInitials | front-end/src/utils/avatarUtils.js:24-30 | for every user whose initials hold no half of a surrogate pair, the URL is the service address, the `encodeURIComponent` of the initials, size 40, the background of the seed's hash and white bold text; `decodeURIComponent` reads the initials back |
| AvatarUtils.AstralInitialThrows | front-end/src/utils/avatarUtils.js:16-30 | a first word or an e-mail that starts above U+FFFF, such as an emoji, makes `getUserAvatarUrl` throw URIError |
| AvatarUtils.AlphanumericInitialsUnescaped | front-end/src/utils/avatarUtils.js:30 | initials made of unreserved characters appear in the URL as they are |
| AvatarUtils.SameIdSameColour | front-end/src/utils/avatarUtils.js:9-27 | users with the same id get the same colour, whatever their names and e-mails |
| AudioPlayer.FormatTime | front-end/src/components/AudioPlayer.jsx:6-11 | "0:00" for a non-finite time; for a time of at least zero, the minutes, ':', and the two-digit seconds of its whole seconds |
| AudioPlayer.MinutesSecondsOfTime | front-end/src/components/AudioPlayer.jsx:8-10 | for a non-negative time, floor(s/60) and floor(s % 60) are the minutes and seconds of floor(s) |
| AudioPlayer.FloorDiv60 | front-end/src/components/AudioPlayer.jsx:8 | for a non-negative time, the floor of a sixtieth is the whole seconds divided by 60 |
| AudioPlayer.FloorRem60 | front-end/src/components/AudioPlayer.jsx:9 | for a non-negative time, the floor of the remainder is the whole seconds mod 60 |
| AudioPlayer.MinutesSecondsOfNonFinite | front-end/src/pages/Playground.jsx:256-260 | without the finiteness guard, NaN renders as "NaN:NaN" and the infinities as "Infinity:NaN" and "-Infinity:NaN" |
| AudioPlayer.ClockReadsBack | front-end/src/components/AudioPlayer.jsx:10 | the label splits at ':' into the minutes and two digits of seconds, and minutes·60 + seconds is the whole seconds |
| AudioPlayer.SecondsReadBack | front-end/src/components/AudioPlayer.jsx:10 | seconds below 60 render as exactly two digits that read back as the seconds |
| AudioPlayer.NextRate | front-end/src/components/AudioPlayer.jsx:71-73 | the next rate is 1, 1.5 or 2: 1 becomes 1.5, 1.5 becomes 2, anything else becomes 1 |
| AudioPlayer.RateCycle | front-end/src/components/AudioPlayer.jsx:71-73 | each of the three rates returns to itself after three clicks, and not sooner |
| AudioPlayer.Clamp | front-end/src/components/AudioPlayer.jsx:49 | `Math.min(hi, Math.max(lo, x))` lies in [lo, hi] and is x when x already does |
| AudioPlayer.ProgressPercent | front-end/src/components/AudioPlayer.jsx:47-50 | within [0, 100]; 0 for a zero, NaN or infinite duration; 100 once the time reaches a positive duration; the elapsed share times 100 in between |
| AudioPlayer.QuotientFacts | front-end/src/components/AudioPlayer.jsx:49 | the elapsed share of a positive duration is at least 1 from the duration on, and in [0, 1] before it |
| AudioPlayer.Player.constructor | front-end/src/components/AudioPlayer.jsx:16-20 | paused at time 0 with duration 0, volume 1 and rate 1 |
| AudioPlayer.Player.Progress | front-end/src/components/AudioPlayer.jsx:47-50 | the player's progress always lies in [0, 100] |
| AudioPlayer.Player.OnLoaded | front-end/src/components/AudioPlayer.jsx:26 | the duration becomes the element's duration, or 0 when that is 0 or NaN; nothing else changes |
| AudioPlayer.Player.OnTime | front-end/src/components/AudioPlayer.jsx:27 | the current time becomes the element's position, or 0 when it is not a number; nothing else changes |
| AudioPlayer.Player.OnEnded | front-end/src/components/AudioPlayer.jsx:28 | playback stops; nothing else changes |
| AudioPlayer.Player.TogglePlay | front-end/src/components/AudioPlayer.jsx:52-61 | without an element nothing happens; while playing it pauses; while paused it plays exactly when `play()` resolves; nothing else changes |
| AudioPlayer.Player.OnSeek | front-end/src/components/AudioPlayer.jsx:63-69 | the chosen value becomes the current time, when there is an element; nothing else changes |
| AudioPlayer.Player.OnVolume | front-end/src/components/AudioPlayer.jsx:111 | the slider value becomes the volume; nothing else changes |
| AudioPlayer.Player.ToggleRate | front-end/src/components/AudioPlayer.jsx:71-73 | the rate moves one step along the cycle, keeping it one of the three rates; nothing else changes |
| AudioPlayer.RateChipCycle | front-end/src/components/AudioPlayer.jsx:101 | three clicks on the rate chip restore the rate |
| Text.SplitOnFirst | front-end/src/AuthContext.jsx:19 | the first piece of `split(c)` is the text up to the first separator, or the whole text without one |
| JsRuntime.Utf8 | front-end/src/utils/avatarUtils.js:30 | one to four bytes per character, below 256, their count announced by the lead byte; a single byte equal to the character exactly below U+0080; Utf8CodePointOfUtf8 and Utf8DecodeEncode read them back |
| JsRuntime.Utf8CodePointOfUtf8 | front-end/src/utils/avatarUtils.js:30 | reading the UTF-8 bytes of a character back gives its code point |
| JsRuntime.Utf8DecodeCons | front-end/src/utils/avatarUtils.js:30 | decoding the bytes of a character in front of more bytes reads that character first |
| JsRuntime.Utf8DecodeEncode | front-end/src/utils/avatarUtils.js:30 | UTF-8 decoding undoes the UTF-8 encoding of every text |
| JsRuntime.Utf8TextInjective | front-end/src/utils/avatarUtils.js:30 | different texts have different UTF-8 bytes |
| AvatarUtils.NameParts | front-end/src/utils/avatarUtils.js:14 | `name.trim().split(/\s+/)` always yields at least one part |
| VoiceData.Find | front-end/src/data/voiceData.js:247 | property access on an insertion-ordered object: absent exactly when no entry has the key, else the value of the first entry with it |
| VoiceData.GetVoiceData | front-end/src/data/voiceData.js:246-248 | null when the language is not a key; with distinct language keys, the gender's record within that language, or null when the gender is not a key |
| VoiceData.Values | front-end/src/data/voiceData.js:266-268 | the records of one language in gender order, one per gender |
| VoiceData.RecordsAppend | front-end/src/data/voiceData.js:265-269 | listing a concatenated catalogue lists each part in turn |
| VoiceData.RecordsSplit | front-end/src/data/voiceData.js:265-269 | the listing is the languages before, one language's records, and the languages after |
| VoiceData.GetAllVoices | front-end/src/data/voiceData.js:263-271 | the nested loops push every record, language by language and gender by gender |
| VoiceData.FirstWithId | front-end/src/data/voiceData.js:251-260 | null exactly when no record has the id; otherwise a record of the listing with that id |
| VoiceData.FirstWithIdSkip | front-end/src/data/voiceData.js:252-257 | records before the first match do not affect the search |
| VoiceData.FirstMatchAt | front-end/src/data/voiceData.js:252-257 | a match at language i, gender j, with no match in the languages before i or the genders before j, is the first match of the whole listing |
| VoiceData.NoMatchThrough | front-end/src/data/voiceData.js:252-257 | a language scanned to its end without a match extends the match-free prefix of the listing by that language's records |
| VoiceData.GetVoiceDataById | front-end/src/data/voiceData.js:251-260 | the nested scan with early return finds the first record, in enumeration order, whose voice id matches, or null |
| VoiceData.CatalogueKeysMatchFields | front-end/src/data/voiceData.js:2-243 | every record's language and gender fields equal the keys it is stored under |
| VoiceData.RecordsOfPairs | front-end/src/data/voiceData.js:263-271 | with a male and a female voice per language, the listing has twice as many records as languages, and record k is gender k mod 2 (male first) of language k / 2 |
| VoiceData.CatalogueRecords | front-end/src/data/voiceData.js:263-271 | enumerating the catalogue gives Patrick, Diana, Surya, Pooja, Ranna, Vidhya, Arush, Bhagya, Kabir, Neha, Raghava, Janki, in that order |
| VoiceData.AllVoicesLayout | front-end/src/data/voiceData.js:263-271 | `getAllVoices()` lists 12 records, male then female for each of en, hi, kn, te, mr, sa |
| VoiceData.VoiceIdsUnique | front-end/src/data/voiceData.js:251-260 | no two records share a voice id, so lookup by id is unambiguous |
| VoiceData.VoiceIdIsNameExceptTeluguMale | front-end/src/data/voiceData.js:125-141 | every voice id is the voice's name, except the Telugu male voice 'arush', whose id is 'voice1' |
| VoiceData.ArushIsNotAnId | front-end/src/data/voiceData.js:125-141 | looking up 'arush' by id returns null |
| VoiceData.Voice1IsArush | front-end/src/data/voiceData.js:125-141 | looking up 'voice1' by id returns the Telugu male record |
| VoiceData.CatalogueLanguages | front-end/src/data/voiceData.js:2-243 | the catalogue's languages are en, hi, kn, te, mr, sa, in that order and each once |
| VoiceData.LanguageNamesMatchTable | front-end/src/data/voiceData.js:274-281 | `LANGUAGE_NAMES` has exactly the catalogue's languages, and names each as its records' `languageName` does |
| VoiceData.UnknownLanguageIsNull | front-end/src/data/voiceData.js:247 | a language outside the catalogue yields null |
| VoiceData.UnknownGenderIsNull | front-end/src/data/voiceData.js:247 | a gender other than male and female yields null |
| VoiceData.KnownKeysFindRecord | front-end/src/data/voiceData.js:247 | each language and gender of the catalogue finds its own record |
| TutorialModal.Filter | front-end/src/components/TutorialModal.jsx:77-84 | the kept steps are no more than the steps, and off mobile none of them is mobile-only |
| TutorialModal.FilterAppend | front-end/src/components/TutorialModal.jsx:77-84 | filtering distributes over concatenation |
| TutorialModal.FilterKeeps | front-end/src/components/TutorialModal.jsx:77-84 | on mobile, or when no step is mobile-only, the filter keeps every step in order |
| TutorialModal.StepCounts | front-end/src/components/TutorialModal.jsx:5-49 | mobile shows all six steps; desktop shows the first five, since only the last is mobile-only |
| TutorialModal.VisibleSteps | front-end/src/components/TutorialModal.jsx:77-86 | six steps on mobile, five on desktop |
| TutorialModal.VisibleStepsArePrefix | front-end/src/components/TutorialModal.jsx:77-86 | the visible steps are always a prefix of the full list, in its order |
| TutorialModal.Progress | front-end/src/components/TutorialModal.jsx:323 | the progress bar is above 0 and at most 100, and exactly 100 on the last step |
| TutorialModal.ShareFacts | front-end/src/components/TutorialModal.jsx:323 | (k / n) lies in (0, 1] for 0 < k <= n and is 1 exactly when k = n |
| TutorialModal.Tutorial.constructor | front-end/src/components/TutorialModal.jsx:51-53 | closed, on the first step, with the given screen class and storage, no close requested |
| TutorialModal.Tutorial.Open | front-end/src/components/TutorialModal.jsx:89-95 | opening starts again from the first step; the screen class, storage and close requests are unchanged |
| TutorialModal.Tutorial.CheckView | front-end/src/components/TutorialModal.jsx:60-64 | an open tutorial outside the text-to-speech view asks once to be closed; otherwise nothing happens |
| TutorialModal.Tutorial.Complete | front-end/src/components/TutorialModal.jsx:314-317 | 'playground_tutorial_completed' is set to 'true' and one close is requested; nothing else changes |
| TutorialModal.Tutorial.Next | front-end/src/components/TutorialModal.jsx:295-302 | before the last visible step, one step forward; on the last one, completion; the step always stays within the visible list |
| TutorialModal.Tutorial.Previous | front-end/src/components/TutorialModal.jsx:304-308 | one step back, never before the first; nothing else changes |
| TutorialModal.Tutorial.ResizeAsWritten | front-end/src/components/TutorialModal.jsx:66-74 | the screen class follows the width (mobile at 900 or less) and the step index is left as it is |
| TutorialModal.ResizeAsWrittenBreaksValid | front-end/src/components/TutorialModal.jsx:319-322 | on the sixth mobile step a resize to a desktop width leaves the index at 5, outside the five desktop steps |
| TutorialModal.Tutorial.Resize | front-end/src/components/TutorialModal.jsx:66-74 | corrected listener: the screen class follows the width and the step is clamped to the last visible step, so it always indexes the list |
| TutorialModal.ResizeClampsLastStep | front-end/src/components/TutorialModal.jsx:319-322 | with the clamp, the same walk ends on the fifth desktop step, which exists |
| AccountModal.CheckImage | front-end/src/components/AccountModal.jsx:46-58 | no file does nothing; a type not starting with 'image/' is refused; an image over 5 MiB is refused; any other image is accepted, each verdict in exactly its own case |
| AccountModal.TypeCheckFirst | front-end/src/components/AccountModal.jsx:50-58 | a large file that is not an image is reported as not an image, since the type is checked first |
| AccountModal.NoCountNoChar | front-end/src/components/AccountModal.jsx:67 | a character occurs nowhere exactly when its count is zero |
| AccountModal.LastPieceIsAfterLastDot | front-end/src/components/AccountModal.jsx:67 | `name.split('.').pop()` is the dot-free tail of the name after its last dot, or the whole name without a dot |
| AccountModal.LastPieceWithoutDot | front-end/src/components/AccountModal.jsx:67 | a name without a dot is its own extension |
| AccountModal.AvatarPathEndsWithExtension | front-end/src/components/AccountModal.jsx:66-69 | the avatar path starts with 'avatars/', the user id and '-', and ends with '.' and the file's extension |
| AccountModal.MergeMetadata | front-end/src/components/AccountModal.jsx:126-131 | the merged metadata has the keys of both; the new values win and every other key keeps its value |
| AccountModal.CheckName | front-end/src/components/AccountModal.jsx:143-150 | a blank name is refused with 'Display name cannot be empty'; otherwise the trimmed name, non-empty and without edge whitespace, is sent |
| AccountModal.TakeCharSplits | front-end/src/components/AccountModal.jsx:166 | reading an optional character splits the text into that character, if present, and the rest |
| AccountModal.TakeSepSplits | front-end/src/components/AccountModal.jsx:166 | reading an optional separator splits the text into at most one separator and the rest |
| AccountModal.ReadExchange | front-end/src/components/AccountModal.jsx:166 | a successful reading of the tail is three digits, at most one separator and four to six digits that spell the text |
| AccountModal.ReadArea | front-end/src/components/AccountModal.jsx:166 | a successful reading from the area code on yields well-formed phone pieces that spell the text |
| AccountModal.ParsePhoneSound | front-end/src/components/AccountModal.jsx:166-167 | every accepted number is made of well-formed pieces that spell it exactly |
| AccountModal.TakeCharComplete | front-end/src/components/AccountModal.jsx:166 | an optional character is read back whenever the rest cannot start with it |
| AccountModal.TakeSepComplete | front-end/src/components/AccountModal.jsx:166 | an optional separator is read back whenever the rest cannot start with one |
| AccountModal.ReadExchangeComplete | front-end/src/components/AccountModal.jsx:166 | any well-formed tail is read back into its own pieces |
| AccountModal.ReadAreaComplete | front-end/src/components/AccountModal.jsx:166 | any well-formed text from the area code on is read back into its own pieces |
| AccountModal.ParsePhoneComplete | front-end/src/components/AccountModal.jsx:166 | every text the pattern describes is accepted, and parses back to the pieces that spell it |
| AccountModal.CheckPhone | front-end/src/components/AccountModal.jsx:159-170 | the trimmed number when accepted; 'Please enter a phone number' when blank; 'Please enter a valid phone number' otherwise |
| AccountModal.CheckPhoneAccepts | front-end/src/components/AccountModal.jsx:159-170 | a number is accepted exactly when it is not blank and its trimmed text matches the phone pattern |
| AccountModal.CheckPasswords | front-end/src/components/AccountModal.jsx:182-196 | no refusal exactly when all fields are filled, the new passwords agree and have 6 or more UTF-16 code units (JavaScript's `length`); otherwise the first failing check's message, in the source's order |
| AccountModal.PasswordLengthCountsUnits | front-end/src/components/AccountModal.jsx:193 | three emoji, six code units, pass the length check; six letters pass and five are refused as short |
| AccountModal.SavePasswordNeverEnabledAsWritten | front-end/src/components/AccountModal.jsx:447-485 | as written, the password form is shown only while `isChangingPassword` holds and its Save button is disabled by that same flag, so Save is never enabled |
| AccountModal.AccountForm.constructor | front-end/src/components/AccountModal.jsx:14-25 | name and phone from the user, no form open, no password change in flight, empty password fields, no alerts |
| AccountModal.AccountForm.CancelNameEdit | front-end/src/components/AccountModal.jsx:319-322 | the name edit closes and the name returns to the user's; nothing else changes |
| AccountModal.AccountForm.CancelPhoneEdit | front-end/src/components/AccountModal.jsx:406-409 | the phone entry closes and the phone returns to the user's; nothing else changes |
| AccountModal.AccountForm.OpenPasswordForm | front-end/src/components/AccountModal.jsx:503-508 | "Change password" shows the password form and changes nothing else; with no change in flight, its Save button is then enabled |
| AccountModal.AccountForm.CancelPassword | front-end/src/components/AccountModal.jsx:489-496 | the password form closes and its three fields are cleared; nothing else changes |
| AccountModal.AccountForm.SaveName | front-end/src/components/AccountModal.jsx:143-157 | a blank name alerts and sends nothing; otherwise the trimmed name is sent, and the alert and the closing of the edit follow the update's outcome |
| AccountModal.AccountForm.AddPhone | front-end/src/components/AccountModal.jsx:159-180 | a refused number alerts its message and sends nothing; otherwise the trimmed number is sent, and the alert and the closing of the entry follow the update's outcome |
| AccountModal.AccountForm.ChangePassword | front-end/src/components/AccountModal.jsx:182-234 | the service is asked exactly when the local checks pass, and a refusal changes only the alerts; then 'Supabase is not configured', 'Current password is incorrect', the update's error (or the fallback) or success is alerted; success clears the fields and closes the form, a failure keeps them and the form; no change is in flight afterwards |
| AuthContext.EmailPrefix | front-end/src/AuthContext.jsx:69 | `email.split('@')[0]`: a prefix of the e-mail without '@', the whole e-mail when it has none, and followed by '@' otherwise |
| AuthContext.UserOfSession | front-end/src/AuthContext.jsx:15-23 | id, e-mail and creation time from the session; the metadata name, else the e-mail prefix; the metadata phone, else null; the app provider, else 'email' |
| AuthContext.SessionNameFallback | front-end/src/AuthContext.jsx:19 | without a metadata name the user is named by a prefix of the e-mail that holds no '@' |
| AuthContext.Auth.SetUser | front-end/src/AuthContext.jsx:46-51 | the user is replaced and 'auth.user' mirrors it: stored when there is a user, removed when there is none; other keys are kept |
| AuthContext.Auth.constructor | front-end/src/AuthContext.jsx:7 | no user, and the mirroring effect removes any stored 'auth.user' while keeping the other keys |
| AuthContext.Auth.InitialSession | front-end/src/AuthContext.jsx:14-25 | a session with a user sets that user; no session leaves the user as it was; storage stays in step |
| AuthContext.Auth.OnAuthStateChange | front-end/src/AuthContext.jsx:28-41 | a session with a user sets that user; no session clears it; storage stays in step |
| AuthContext.Auth.SignInWithGoogle | front-end/src/AuthContext.jsx:53-57 | the user becomes the mocked 'Google User' with provider 'google' and no other fields |
| AuthContext.Auth.SignInWithApple | front-end/src/AuthContext.jsx:59-62 | the user becomes the mocked 'Apple User' with provider 'apple' and no other fields |
| AuthContext.Auth.EmailPasswordSignIn | front-end/src/AuthContext.jsx:65-77 | 'Supabase is not configured' when unconfigured and the service's error otherwise, both leaving the user unchanged; on success the user is named by the e-mail prefix with provider 'password' and the returned id and creation time |
| AuthContext.Auth.SignUp | front-end/src/AuthContext.jsx:80-104 | 'Missing fields' before any call when a field is empty, then 'Supabase is not configured'; the service is called exactly when both checks pass and its answer is returned; a returned user becomes the user under the display name |
| AuthContext.Auth.SignOut | front-end/src/AuthContext.jsx:106-111 | the service is told exactly when configured; the user and 'auth.user' are cleared either way |
| AuthContext.PasswordUserName | front-end/src/AuthContext.jsx:69 | for an e-mail with '@', the name is the text before the first '@', and the e-mail is that name, '@' and the rest |
| AuthModal.ErrorLine | front-end/src/components/AuthModal.jsx:34 | the thrown message when it is non-empty, else the fallback, so the line is never empty |
| AuthModal.Dialog.constructor | front-end/src/components/AuthModal.jsx:7-12 | sign-in mode, empty fields, not loading, no error |
| AuthModal.Dialog.SetOpen | front-end/src/components/AuthModal.jsx:14-22 | closing resets the mode to sign-in and clears the fields and the error; opening changes nothing else |
| AuthModal.Dialog.SwitchMode | front-end/src/components/AuthModal.jsx:84 | the footer links set the mode; nothing else changes |
| AuthModal.Dialog.Type | front-end/src/components/AuthModal.jsx:74-97 | the inputs set the e-mail, password and display name; nothing else changes |
| AuthModal.Dialog.OnSignIn | front-end/src/components/AuthModal.jsx:26-38 | success asks once to close with no error; failure shows the message or 'Sign in failed' and does not ask to close; loading is off afterwards |
| AuthModal.Dialog.OnSignUp | front-end/src/components/AuthModal.jsx:40-61 | a user without a session shows the confirm-e-mail message and schedules the switch to sign-in; other success asks once to close; failure shows the message or 'Sign up failed'; loading is off afterwards |
| AuthModal.Dialog.TimerFires | front-end/src/components/AuthModal.jsx:49-51 | a scheduled switch returns the dialog to sign-in mode; nothing else changes |
| AuthModal.MissingFieldKeepsDialogOpen | front-end/src/components/AuthModal.jsx:40-61 | a sign-up with an empty field never reaches the service, shows 'Missing fields', keeps the dialog open and leaves the user unchanged |
| Playground.NonEmpty | front-end/src/pages/Playground.jsx:264 | `filter(word => word.length > 0)` keeps no more pieces than it is given, none of them empty |
| Playground.NonEmptyOfWords | front-end/src/pages/Playground.jsx:264 | the filter keeps a list of words unchanged |
| Playground.CountWords | front-end/src/pages/Playground.jsx:262-265 | 0 for empty or blank text; in general, the number of maximal runs of non-whitespace characters |
| Playground.CountJoinedWords | front-end/src/pages/Playground.jsx:262-265 | words joined by single spaces count one each |
| Playground.WordLabel | front-end/src/pages/Playground.jsx:419 | the label is 'word' exactly for a count of one |
| Playground.Set | front-end/src/pages/Playground.jsx:141-152 | storing a value under one control changes that setting and no other |
| Playground.NextTheme | front-end/src/pages/Playground.jsx:81-82 | 'dark' after 'light', and 'light' after anything else |
| Playground.ThemeToggleTwice | front-end/src/pages/Playground.jsx:81-86 | two toggles restore 'light' or 'dark'; any other stored theme becomes 'light' |
| Playground.Page.constructor | front-end/src/pages/Playground.jsx:18-60 | the initial page: empty text, not sending, no audio, model 'Sonic 3.0', voice 'Tessa', no language, speed and volume 1, the card closed, the theme from storage or 'light', no clip, an empty clone form |
| Playground.Page.ToggleTheme | front-end/src/pages/Playground.jsx:81-86 | the theme flips and is stored under 'theme'; nothing else changes |
| Playground.Page.EditText | front-end/src/pages/Playground.jsx:411 | the text box takes the typed text; nothing else changes |
| Playground.Page.Speak | front-end/src/pages/Playground.jsx:88-122 | nothing is sent, and nothing changes, exactly while a request is in flight or the text is blank; otherwise the trimmed text is sent and the page ends as `Request` leaves it |
| Playground.Page.Request | front-end/src/pages/Playground.jsx:90-121 | the request is recorded, then the audio URL is set on success or the failure alert raised; the page is not sending afterwards and nothing else changes |
| Playground.Page.ControlSelect | front-end/src/pages/Playground.jsx:135-139 | the card opens on the chosen control, holding its current value; nothing else changes |
| Playground.Page.ChooseValue | front-end/src/pages/Playground.jsx:593 | the card holds the picked value; nothing else changes |
| Playground.Page.ControlDone | front-end/src/pages/Playground.jsx:141-156 | the held value goes into exactly the selected setting and the card returns to its menu, still shown; nothing else changes |
| Playground.Page.ControlClose | front-end/src/pages/Playground.jsx:158-162 | the card closes and forgets the selection; nothing else changes |
| Playground.Page.FileUpload | front-end/src/pages/Playground.jsx:164-180 | a file whose type starts with 'audio/' becomes the uploaded clip with its object URL; anything else raises 'Please upload an audio file only.' and clears the input; nothing else changes |
| Playground.Page.UploadedMetadata | front-end/src/pages/Playground.jsx:173-175 | the clip's duration is recorded; nothing else changes |
| Playground.Page.RemoveFile | front-end/src/pages/Playground.jsx:182-191 | no file, URL or blob, duration 0, the whole clip used, the input cleared; nothing else changes |
| Playground.Page.EditClone | front-end/src/pages/Playground.jsx:40-42 | the clone form takes the typed name, language and description; nothing else changes |
| Playground.Page.CloneClick | front-end/src/pages/Playground.jsx:931-945 | when a name, a language and a clip are present it navigates once to the cloned voice's page with that name, language and description; otherwise nothing changes |
| Playground.RemoveDisablesClone | front-end/src/pages/Playground.jsx:932-945 | after the clip is removed the clone button is disabled whatever the form holds |
| Playground.DoneChangesOneSetting | front-end/src/pages/Playground.jsx:135-156 | select, pick and Done change the chosen setting to the picked value and no other setting |
| Playground.ToggleTwice | front-end/src/pages/Playground.jsx:81-86 | two theme toggles restore the theme and leave it stored |
| Home.SelectsOfferCodes | front-end/src/pages/Home.jsx:173-226 | the text-to-speech and the speech-to-text selects offer the same twelve language codes |
| Home.TablesCoverOptions | front-end/src/pages/Home.jsx:35-81 | every offered language has a female and a male sample, a speech-to-text sample and a demo text, and the speech-to-text tables have no other keys |
| Home.AsrUsesMaleSample | front-end/src/pages/Home.jsx:50-64 | the speech-to-text sample of a language is its male text-to-speech sample |
| Home.TtsSource | front-end/src/pages/Home.jsx:83-90 | '' without a language; the table's file for a known language and voice; '/en-female.mp3' otherwise |
| Home.TtsSourceOfOption | front-end/src/pages/Home.jsx:35-48 | each offered language and voice plays '/<code>-<voice>', '.mp3' for English and Kannada and '.wav' for the rest |
| Home.AsrSource | front-end/src/pages/Home.jsx:92-98 | '' without a language; the table's file for a known language; '/en-male.mp3' otherwise |
| Home.DemoText | front-end/src/pages/Home.jsx:109 | never empty: the language's own demo text, or the English one for a language without a text |
| Home.ShownDemoText | front-end/src/pages/Home.jsx:170 | 'Please select a language to see demo text.' without a language, else the demo text |
| Home.HomePage.constructor | front-end/src/pages/Home.jsx:22-32 | no language chosen, voice 'male', both players silent, no transcript, the dialog closed, nothing pending |
| Home.HomePage.SelectTts | front-end/src/pages/Home.jsx:83-90 | the selection changes and the text-to-speech player follows it; the rest of the page is unchanged |
| Home.HomePage.SelectAsr | front-end/src/pages/Home.jsx:92-101 | the selection changes, the speech-to-text player follows it and the transcript is cleared; the rest is unchanged |
| Home.HomePage.Transcribe | front-end/src/pages/Home.jsx:103-111 | without a language, the 'Please select a language first' alert and no change; otherwise the demo text becomes the transcript |
| Home.HomePage.PlaygroundClick | front-end/src/pages/Home.jsx:117-125 | signed out, the wish is remembered and the dialog opens; signed in, the page goes to '/playground' |
| Home.HomePage.AuthClose | front-end/src/pages/Home.jsx:127-129 | the dialog closes; nothing else changes |
| Home.HomePage.NavigateAfterLogin | front-end/src/pages/Home.jsx:132-137 | the effect fires exactly with a user, the wish pending and the dialog closed; firing consumes the wish and goes to '/playground' once |
| Home.ClickThenSignIn | front-end/src/pages/Home.jsx:117-137 | a signed-out click, a sign-in and closing the dialog reach the playground exactly once, however often the effect runs |
| NavBar.OnLight | front-end/src/components/NavBar.jsx:34-44 | not light without the blog section or the header; otherwise light when the header's bottom reaches to within a pixel of the blog's top |
| NavBar.OnLightIgnoresScroll | front-end/src/components/NavBar.jsx:41-43 | the scroll offset cancels out: the header is light exactly when the blog's viewport top is at most a pixel below the header's height |
| NavBar.Header.constructor | front-end/src/components/NavBar.jsx:11-19 | on mount the scroll and theme handlers run once; the menu and the dialog are closed and nothing is pending |
| NavBar.Header.Scroll | front-end/src/components/NavBar.jsx:14-19 | scrolled exactly beyond 10 pixels, and the theme is measured again; nothing else changes |
| NavBar.Header.Resize | front-end/src/components/NavBar.jsx:24-30 | wider than 860 pixels closes the menu, otherwise it stays as it was; the theme is measured again |
| NavBar.Header.ToggleMenu | front-end/src/components/NavBar.jsx:95 | the menu flips; nothing else changes |
| NavBar.Header.FollowLink | front-end/src/components/NavBar.jsx:103-106 | a page link closes the menu and goes to its path; nothing else changes |
| NavBar.Header.LoginClick | front-end/src/components/NavBar.jsx:110 | the menu closes and the dialog opens; nothing else changes |
| NavBar.Header.ScrimClick | front-end/src/components/NavBar.jsx:134 | the scrim of an open menu closes it; nothing else changes |
| NavBar.Header.PlaygroundClick | front-end/src/components/NavBar.jsx:57-66 | the menu always closes; signed out, the wish is remembered and the dialog opens; signed in, the page goes to '/playground' |
| NavBar.Header.AuthClose | front-end/src/components/NavBar.jsx:68-70 | the dialog closes; nothing else changes |
| NavBar.Header.NavigateAfterLogin | front-end/src/components/NavBar.jsx:73-78 | the effect fires exactly with a user, the wish pending and the dialog closed; firing consumes the wish and goes to '/playground' once |
| NavBar.ToggleTwice | front-end/src/components/NavBar.jsx:95 | two presses of the menu button leave the header as it was |
| NavBar.ClickThenSignIn | front-end/src/components/NavBar.jsx:57-78 | a signed-out click, a sign-in and closing the dialog reach the playground exactly once, and the menu stays closed |

## Left out

- Network and SMTP transport are not modelled: HTTP calls, timeouts and exceptions, e-mail
  sending, and Supabase auth and storage calls. Each call is one step whose outcome is a
  parameter; a raised exception is the `Failed` outcome.
- Audio signal processing and speech inference are not modelled (librosa, soundfile,
  noisereduce, torch, faster-whisper). Their results are inputs, as are the durations they
  report.
- Filesystem helpers, local storage of files, and the FastAPI application are not modelled:
  routing, middleware, rate limits, exception handlers and the API modules. Several call sites
  there pass arguments the services do not take; they are not contracts of the services.
- `TtsService.ClassifyTts` decodes base64 strictly. Python's `b64decode` discards characters
  outside the alphabet before decoding, so some malformed strings that Python decodes are
  failures in the model.
- `Text.Lower` and `Text.UpperChar` map ASCII letters only. Python's `lower()` and
  JavaScript's `toUpperCase()` also map other scripts, and may change a string's length.
- `JsRuntime.UpperUnit` raises ASCII letters only, like `Text.UpperChar`.
- `JsRuntime.Number` holds finite values as exact reals. Rounding of IEEE doubles is not
  modelled, for example in the progress percentage and the time label.
- `AvatarUtils.GenerateColor` takes the HSL-to-hex conversion as the parameter `toHex`. That
  conversion is floating-point presentation code; the integer hash and the HSL triple are modelled.
- `VoiceData.Voice` drops each record's description, metadata and preview text; they are only
  displayed. Keys inherited through the JavaScript prototype chain are not modelled.
- `Home.DemoTable` fixes the keys of the demo-text table and its English sentence. The other
  eleven sentences are not reproduced, so the table is a parameter.
- `TutorialModal` does not model the card and highlight geometry (DOM measurement and
  positioning) or the blur class.
- `Playground` does not model the mobile sidebar flags, microphone recording, the
  recording timer, the download button, the experimental settings, the speech-to-text view or
  the audio autoplay fallback. The 'Audio' element whose metadata reports the uploaded clip's
  duration is the method `UploadedMetadata`.
- `Playground.Page.Speak` receives the request's result, an object URL or a failure, as a
  parameter. Which HTTP statuses and bodies lead to each is not modelled.
- `AccountModal` does not model the image upload itself: storage, the base64 fallback and the
  page reload. It models the checks, the avatar path and the metadata merge. The buttons that
  only open the name, phone and password forms are not modelled either.
- `AccountModal.AccountForm.ChangePassword` and `AccountModal.AccountForm.OpenPasswordForm` use
  the corrected password-form flags of the Findings row, so the handler can be reached; as
  written it cannot.
- `AccountModal.AccountForm.SaveName` and `AccountModal.AccountForm.AddPhone` report success
  when the service is not configured, because the metadata update then returns without raising.
- `AuthContext.AppUser` stores a missing phone as `None`, both when the session mapping writes
  `null` and when a sign-in leaves the key out. JSON serialisation and the swallowed storage
  errors are not modelled.
- `AuthContext.Auth.InitialSession` and `AuthContext.Auth.OnAuthStateChange` run only when
  Supabase is configured, as the effect subscribes only then. The unsubscribe on unmount is
  not modelled.
- Async interleavings of React state updates are not modelled: each handler runs to completion
  in one step. The three-second timer of `AuthModal` is a flag plus `AuthModal.Dialog.TimerFires`.
- `Schemas` models `TTSRequest`, `ASRResponse` and `ReferenceVoice`. The other response classes
  only declare fields, and Pydantic's coercion of other JSON types into strings and numbers is
  not modelled.
- `NavBar` does not model rendering: class names and which links are shown.
- `Config.DerivedModelBaseUrl` proves that the part before "/predict" does not end in '/'. It
  does not prove that the URL never contains "//predict": a server URL such as
  "http://predict" gives a URL that does.
- The Marathi code is 'ma' in the backend tables and 'mr' in the front-end tables. Each table
  is modelled as it stands.

## Findings

| source | as written | input that shows it | evidently intended | confidence | as-written member | corrected member |
|---|---|---|---|---|---|---|
| front-end/src/components/TutorialModal.jsx:66-74 | the resize listener switches between the six-step mobile list and the five-step desktop list without touching `currentStep`, and the render at lines 319-324 reads `steps[currentStep].highlight` | open the tutorial on a mobile width, press Next five times to reach step index 5, then widen the window past 900 pixels: the index stays 5 while the list has five steps, so `step` is undefined | the current step is clamped to the last visible step whenever the list shrinks | not executed | TutorialModal.Tutorial.ResizeAsWritten, TutorialModal.ResizeAsWrittenBreaksValid | TutorialModal.Tutorial.Resize, TutorialModal.ResizeClampsLastStep |
| front-end/src/components/AccountModal.jsx:447-485 | the password form is rendered only while `isChangingPassword` is true, and its "Save Password" button is `disabled={isChangingPassword}` | press "Change password", fill in the three fields and try "Save Password": the button is disabled, so `handleChangePassword` (lines 182-234) never runs | the button is disabled only while a change is in flight, a flag of its own; success closes the form (line 227) and the `finally` clause resets only the busy flag | not executed | AccountModal.SavePasswordNeverEnabledAsWritten | AccountModal.AccountForm.OpenPasswordForm, AccountModal.AccountForm.ChangePassword |
