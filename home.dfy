/**
 * The demo section of the home page (`front-end/src/pages/Home.jsx`): the sample audio chosen
 * for a text-to-speech language and voice, the sample audio and demo transcript of a
 * speech-to-text language, and the "try the playground" button that waits for a sign-in.
 * Navigation and alerts are appended to lists; the signed-in user is a parameter.
 */
module Home {
  /** The twelve language codes both selects offer, in the order of the speech-to-text select. */
  const Codes: seq<string> := ["en", "hi", "kn", "mr", "te", "sa", "bn", "bh", "mh", "mg", "ch", "gu"]

  /** The options of the text-to-speech language select, in their order. */
  const TtsOptions: seq<string> := ["sa", "hi", "kn", "mr", "te", "en", "bn", "bh", "mh", "mg", "ch", "gu"]

  /** The options of the speech-to-text language select. */
  const AsrOptions: seq<string> := Codes

  const Voices: seq<string> := ["female", "male"]

  /** The file of a language and voice under `public/`: MP3 for English and Kannada, WAV otherwise. */
  function AudioPath(code: string, voice: string): string {
    "/" + code + "-" + voice + (if code == "en" || code == "kn" then ".mp3" else ".wav")
  }

  /** `AUDIO_FILES`: a female and a male sample for every code. */
  const AudioFiles: map<string, map<string, string>> :=
    map code | code in Codes :: map["female" := AudioPath(code, "female"), "male" := AudioPath(code, "male")]

  /** `ASR_AUDIO_FILES`. */
  const AsrAudioFiles: map<string, string> := map code | code in Codes :: AudioPath(code, "male")

  const DefaultTtsSource: string := "/en-female.mp3"
  const DefaultAsrSource: string := "/en-male.mp3"
  const SelectLanguageMessage: string := "Please select a language first"
  const NoLanguageText: string := "Please select a language to see demo text."
  const EnglishDemoText: string :=
    "We warmly welcome you to Somya Lab, a home for celebrating and preserving the world's many voices"

  /**
   * `DEMO_TEXTS`: one sentence per code, the English one as above; the other eleven sentences
   * are not reproduced, so the table is passed in and this predicate fixes what is known of it.
   */
  predicate DemoTable(texts: map<string, string>) {
    texts.Keys == (set code | code in Codes) && "en" in texts && texts["en"] == EnglishDemoText &&
    forall code :: code in texts ==> texts[code] != ""
  }

  /** Both selects offer the same twelve codes. */
  lemma SelectsOfferCodes()
    ensures forall code :: code in TtsOptions <==> code in Codes
    ensures forall code :: code in AsrOptions <==> code in Codes
  {
  }

  /** The twelve codes key every table, so no fallback fires for an option of either select. */
  lemma TablesCoverOptions(texts: map<string, string>)
    requires DemoTable(texts)
    ensures forall code :: code in TtsOptions ==> code in AudioFiles && "female" in AudioFiles[code] && "male" in AudioFiles[code]
    ensures forall code :: code in AsrOptions <==> code in AsrAudioFiles
    ensures forall code :: code in AsrOptions <==> code in texts
  {
    SelectsOfferCodes();
  }

  /** The speech-to-text demo plays the male text-to-speech sample of the same language. */
  lemma AsrUsesMaleSample(code: string)
    requires code in AsrAudioFiles
    ensures code in AudioFiles && AsrAudioFiles[code] == AudioFiles[code]["male"]
  {
  }

  /** The text-to-speech sample: none without a language, else the table entry, else English female. */
  function TtsSource(language: string, voice: string): (src: string)
    ensures language == "" ==> src == ""
    ensures language != "" && language in AudioFiles && voice in AudioFiles[language] ==> src == AudioFiles[language][voice]
    ensures language != "" && !(language in AudioFiles && voice in AudioFiles[language]) ==> src == DefaultTtsSource
  {
    if language == "" then ""
    else if language in AudioFiles && voice in AudioFiles[language] then AudioFiles[language][voice]
    else DefaultTtsSource
  }

  /** Every offered language and voice has its own sample, named after both. */
  lemma TtsSourceOfOption(language: string, voice: string)
    requires language in Codes && voice in Voices
    ensures TtsSource(language, voice) == AudioPath(language, voice)
  {
  }

  /** The speech-to-text sample: none without a language, else the table entry, else English male. */
  function AsrSource(language: string): (src: string)
    ensures language == "" ==> src == ""
    ensures language != "" && language in AsrAudioFiles ==> src == AsrAudioFiles[language]
    ensures language != "" && language !in AsrAudioFiles ==> src == DefaultAsrSource
  {
    if language == "" then "" else if language in AsrAudioFiles then AsrAudioFiles[language] else DefaultAsrSource
  }

  /** `DEMO_TEXTS[lang] || DEMO_TEXTS.en`. */
  function DemoText(texts: map<string, string>, language: string): (text: string)
    requires DemoTable(texts)
    ensures text != ""
    ensures language in texts ==> text == texts[language]
    ensures language !in texts ==> text == EnglishDemoText
  {
    if language in texts && texts[language] != "" then texts[language] else texts["en"]
  }

  /** The sentence shown above the text-to-speech player. */
  function ShownDemoText(texts: map<string, string>, language: string): (text: string)
    requires DemoTable(texts)
    ensures language == "" ==> text == NoLanguageText
    ensures language != "" ==> text == DemoText(texts, language)
  {
    if language == "" then NoLanguageText else DemoText(texts, language)
  }

  class HomePage {
    var ttsLanguage: string
    var ttsVoice: string
    var ttsSrc: string
    var asrLanguage: string
    var asrSrc: string
    var transcribedText: string
    var authOpen: bool
    var shouldNavigateAfterLogin: bool
    var navigations: seq<string>
    var alerts: seq<string>

    /** The two players always play the sample of the current selection. */
    ghost predicate Valid()
      reads this
    {
      ttsSrc == TtsSource(ttsLanguage, ttsVoice) && asrSrc == AsrSource(asrLanguage)
    }

    /** Mounting: no language chosen, the male voice, and the effects have set both sources to ''. */
    constructor()
      ensures Valid()
      ensures ttsLanguage == "" && ttsVoice == "male" && ttsSrc == "" && asrLanguage == "" && asrSrc == ""
      ensures transcribedText == "" && !authOpen && !shouldNavigateAfterLogin && navigations == [] && alerts == []
    {
      ttsLanguage := "";
      ttsVoice := "male";
      ttsSrc := "";
      asrLanguage := "";
      asrSrc := "";
      transcribedText := "";
      authOpen := false;
      shouldNavigateAfterLogin := false;
      navigations := [];
      alerts := [];
    }

    /** Choosing a text-to-speech language or voice; the effect picks the sample. */
    method SelectTts(language: string, voice: string)
      requires Valid()
      modifies this
      ensures Valid() && ttsLanguage == language && ttsVoice == voice && ttsSrc == TtsSource(language, voice)
      ensures asrLanguage == old(asrLanguage) && asrSrc == old(asrSrc) && transcribedText == old(transcribedText)
      ensures authOpen == old(authOpen) && shouldNavigateAfterLogin == old(shouldNavigateAfterLogin)
      ensures navigations == old(navigations) && alerts == old(alerts)
    {
      ttsLanguage := language;
      ttsVoice := voice;
      ttsSrc := TtsSource(language, voice);
    }

    /** Choosing a speech-to-text language: the sample follows and the transcript is cleared. */
    method SelectAsr(language: string)
      requires Valid()
      modifies this
      ensures Valid() && asrLanguage == language && asrSrc == AsrSource(language) && transcribedText == ""
      ensures ttsLanguage == old(ttsLanguage) && ttsVoice == old(ttsVoice) && ttsSrc == old(ttsSrc)
      ensures authOpen == old(authOpen) && shouldNavigateAfterLogin == old(shouldNavigateAfterLogin)
      ensures navigations == old(navigations) && alerts == old(alerts)
    {
      asrLanguage := language;
      asrSrc := AsrSource(language);
      transcribedText := "";
    }

    /** `handleTranscribe`: without a language, an alert and no change; otherwise the demo text. */
    method Transcribe(texts: map<string, string>)
      requires Valid() && DemoTable(texts)
      modifies this
      ensures Valid()
      ensures asrLanguage == "" ==> transcribedText == old(transcribedText) && alerts == old(alerts) + [SelectLanguageMessage]
      ensures asrLanguage != "" ==> transcribedText == DemoText(texts, asrLanguage) && alerts == old(alerts)
      ensures ttsLanguage == old(ttsLanguage) && ttsVoice == old(ttsVoice) && ttsSrc == old(ttsSrc)
      ensures asrLanguage == old(asrLanguage) && asrSrc == old(asrSrc)
      ensures authOpen == old(authOpen) && shouldNavigateAfterLogin == old(shouldNavigateAfterLogin)
      ensures navigations == old(navigations)
    {
      if asrLanguage == "" {
        alerts := alerts + [SelectLanguageMessage];
        return;
      }
      transcribedText := DemoText(texts, asrLanguage);
    }

    /** `handlePlaygroundClick`: signed out, remember the wish and open sign-in; signed in, go. */
    method PlaygroundClick(signedIn: bool)
      requires Valid()
      modifies this
      ensures Valid()
      ensures !signedIn ==> shouldNavigateAfterLogin && authOpen && navigations == old(navigations)
      ensures signedIn ==> navigations == old(navigations) + ["/playground"] &&
                           shouldNavigateAfterLogin == old(shouldNavigateAfterLogin) && authOpen == old(authOpen)
      ensures ttsSrc == old(ttsSrc) && asrSrc == old(asrSrc) && transcribedText == old(transcribedText)
      ensures ttsLanguage == old(ttsLanguage) && ttsVoice == old(ttsVoice) && asrLanguage == old(asrLanguage)
      ensures alerts == old(alerts)
    {
      if !signedIn {
        shouldNavigateAfterLogin := true;
        authOpen := true;
      } else {
        navigations := navigations + ["/playground"];
      }
    }

    /** `handleAuthClose`. */
    method AuthClose()
      requires Valid()
      modifies this
      ensures Valid() && !authOpen
      ensures shouldNavigateAfterLogin == old(shouldNavigateAfterLogin) && navigations == old(navigations)
      ensures ttsSrc == old(ttsSrc) && asrSrc == old(asrSrc) && transcribedText == old(transcribedText)
      ensures ttsLanguage == old(ttsLanguage) && ttsVoice == old(ttsVoice) && asrLanguage == old(asrLanguage)
      ensures alerts == old(alerts)
    {
      authOpen := false;
    }

    /**
     * The effect on the user and the dialog: with a user, the wish pending and the dialog
     * closed, the wish is consumed and the page goes to the playground.
     */
    method NavigateAfterLogin(signedIn: bool) returns (fired: bool)
      requires Valid()
      modifies this
      ensures Valid()
      ensures fired <==> signedIn && old(shouldNavigateAfterLogin) && !authOpen
      ensures fired ==> !shouldNavigateAfterLogin && navigations == old(navigations) + ["/playground"]
      ensures !fired ==> shouldNavigateAfterLogin == old(shouldNavigateAfterLogin) && navigations == old(navigations)
      ensures authOpen == old(authOpen) && alerts == old(alerts)
      ensures ttsSrc == old(ttsSrc) && asrSrc == old(asrSrc) && transcribedText == old(transcribedText)
      ensures ttsLanguage == old(ttsLanguage) && ttsVoice == old(ttsVoice) && asrLanguage == old(asrLanguage)
    {
      fired := signedIn && shouldNavigateAfterLogin && !authOpen;
      if fired {
        shouldNavigateAfterLogin := false;
        navigations := navigations + ["/playground"];
      }
    }
  }

  /**
   * A signed-out click, a sign-in and the dialog closing lead to the playground exactly once,
   * however often the effect runs afterwards.
   */
  method ClickThenSignIn(h: HomePage)
    requires h.Valid()
    modifies h
    ensures h.Valid() && h.navigations == old(h.navigations) + ["/playground"] && !h.shouldNavigateAfterLogin
  {
    h.PlaygroundClick(false);
    var early := h.NavigateAfterLogin(true);
    assert !early;
    h.AuthClose();
    var first := h.NavigateAfterLogin(true);
    var second := h.NavigateAfterLogin(true);
    assert first && !second;
  }
}
