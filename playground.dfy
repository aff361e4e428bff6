/**
 * The Playground page (`front-end/src/pages/Playground.jsx`): the word count of the text box,
 * and the page state its handlers update: the speak request, the control card, the uploaded
 * reference clip, the clone button and the colour theme. Playground's `formatTime` is the same
 * expression as the audio player's unguarded label, `AudioPlayer.MinutesSeconds`. The speech
 * request, object URLs, `Audio` elements, alerts and navigation are outside the model: results
 * arrive as parameters, and alerts, requests and navigations are appended to lists.
 */
module Playground {
  import opened Wrappers
  import opened Text

  // ---------------------------------------------------------------------------
  // Word count

  /** `filter(word => word.length > 0)`. */
  function NonEmpty(parts: seq<string>): (r: seq<string>)
    ensures |r| <= |parts|
    ensures forall i :: 0 <= i < |r| ==> r[i] != ""
  {
    if parts == [] then []
    else if parts[0] == "" then NonEmpty(parts[1..])
    else [parts[0]] + NonEmpty(parts[1..])
  }

  lemma {:induction false} NonEmptyOfWords(ws: seq<string>)
    requires forall i :: 0 <= i < |ws| ==> IsWord(JavaScript, ws[i])
    ensures NonEmpty(ws) == ws
  {
    if ws != [] {
      NonEmptyOfWords(ws[1..]);
    }
  }

  /**
   * `countWords`: 0 for empty or blank text, otherwise the number of pieces of the trimmed text
   * split at whitespace runs, which is the number of maximal non-whitespace runs.
   */
  function CountWords(text: string): (n: nat)
    ensures AllSpace(JavaScript, text) ==> n == 0
    ensures n == |Words(JavaScript, text)|
  {
    if AllSpace(JavaScript, text) then
      WordsOfAllSpace(JavaScript, text);
      0
    else
      var t := Strip(JavaScript, text);
      WordsOfStrip(JavaScript, text);
      SplitOnSpaceRunsOfTrimmed(JavaScript, t);
      NonEmptyOfWords(Words(JavaScript, t));
      |NonEmpty(SplitOnSpaceRuns(JavaScript, t))|
  }

  /** Words joined by single spaces are counted one by one. */
  lemma CountJoinedWords(ws: seq<string>)
    requires forall i :: 0 <= i < |ws| ==> IsWord(JavaScript, ws[i])
    ensures CountWords(Join(" ", ws)) == |ws|
  {
    WordsOfJoin(JavaScript, ws);
  }

  /** The label beside the count: "word" for exactly one, "words" otherwise. */
  function WordLabel(n: nat): (noun: string)
    ensures noun == "word" <==> n == 1
  {
    if n == 1 then "word" else "words"
  }

  // ---------------------------------------------------------------------------
  // Page state

  /** The five settings the control card edits. */
  datatype Control = Model | Voice | Language | Speed | Volume

  /** A setting's value: the names are strings, speed and volume numbers; JavaScript does not tell them apart. */
  datatype Value = Str(s: string) | Num(r: real) | Null

  datatype Settings = Settings(model: Value, voice: Value, language: Value, speed: Value, volume: Value)

  /** The setting a control names. */
  function Get(c: Settings, control: Control): Value {
    match control
    case Model => c.model
    case Voice => c.voice
    case Language => c.language
    case Speed => c.speed
    case Volume => c.volume
  }

  /** The settings with one of them replaced. */
  function Set(c: Settings, control: Control, v: Value): (r: Settings)
    ensures Get(r, control) == v
    ensures forall other :: other != control ==> Get(r, other) == Get(c, other)
  {
    match control
    case Model => c.(model := v)
    case Voice => c.(voice := v)
    case Language => c.(language := v)
    case Speed => c.(speed := v)
    case Volume => c.(volume := v)
  }

  /** A file the browser hands over. */
  datatype AudioFile = AudioFile(name: string, mimeType: string)

  /** Where the clone button leads: the voice page, with the clone's name, language and description. */
  datatype Navigation = Navigation(path: string, voiceName: string, language: string, description: string)

  const ThemeKey: string := "theme"
  const ClonedVoicePath: string := "/voices/47a3e1f3-3988-4578-adc0-1b9f96b42c16"
  const SpeakFailedMessage: string := "Failed to generate speech. Please try again."
  const AudioOnlyMessage: string := "Please upload an audio file only."

  /** `theme === 'light' ? 'dark' : 'light'`. */
  function NextTheme(theme: string): (next: string)
    ensures next == "dark" || next == "light"
    ensures next == (if theme == "light" then "dark" else "light")
  {
    if theme == "light" then "dark" else "light"
  }

  /** Two toggles restore 'light' or 'dark'; any other stored value becomes 'light' on the first. */
  lemma ThemeToggleTwice(theme: string)
    ensures theme == "light" || theme == "dark" ==> NextTheme(NextTheme(theme)) == theme
    ensures theme != "light" && theme != "dark" ==> NextTheme(theme) == "light"
  {
  }

  /** The control card: whether it shows, the control being edited and the value being chosen. */
  datatype Card = Card(show: bool, selected: Option<Control>, temp: Value)

  /** The reference clip: the file input, the uploaded file, its object URL and blob, its length. */
  datatype Clip = Clip(fileInput: Option<AudioFile>, uploadedFile: Option<AudioFile>, recordedUrl: Option<string>,
                       recordedBlob: Option<AudioFile>, duration: real, useEntireClip: bool)

  /** The instant-clone form. */
  datatype CloneForm = CloneForm(name: string, language: string, description: string)

  const NoClip: Clip := Clip(None, None, None, None, 0.0, true)

  /** Every field of the page state at once, so that a handler can say what it leaves alone. */
  datatype PageState = PageState(
    textToSpeak: string, isSending: bool, audioUrl: Option<string>, settings: Settings, card: Card,
    theme: string, storage: map<string, string>, clip: Clip, clone: CloneForm,
    alerts: seq<string>, requests: seq<string>, navigations: seq<Navigation>)

  /** The clone button is enabled only with a name, a language and a recorded or uploaded clip. */
  predicate CloneEnabled(clone: CloneForm, clip: Clip) {
    clone.name != "" && clone.language != "" && clip.recordedUrl.Some? && clip.recordedUrl.value != ""
  }

  /** The state after sending `t`: the request recorded, then the audio URL or the failure alert. */
  function Sent(s: PageState, t: string, response: Option<string>): PageState {
    s.(requests := s.requests + [t],
       audioUrl := if response.Some? then response else s.audioUrl,
       alerts := s.alerts + (if response.Some? then [] else [SpeakFailedMessage]))
  }

  class Page {
    var textToSpeak: string
    var isSending: bool
    var audioUrl: Option<string>
    var settings: Settings
    var card: Card
    var theme: string
    var storage: map<string, string>
    var clip: Clip
    var clone: CloneForm
    var alerts: seq<string>
    var requests: seq<string>
    var navigations: seq<Navigation>

    function State(): PageState
      reads this
    {
      PageState(textToSpeak, isSending, audioUrl, settings, card, theme, storage, clip, clone,
                alerts, requests, navigations)
    }

    /** Mounting: defaults, with the theme read from storage ('light' when missing or empty). */
    constructor(storage: map<string, string>)
      ensures State() == PageState(
        "", false, None, Settings(Str("Sonic 3.0"), Str("Tessa"), Str(""), Num(1.0), Num(1.0)), Card(false, None, Null),
        if ThemeKey in storage && storage[ThemeKey] != "" then storage[ThemeKey] else "light", storage,
        NoClip, CloneForm("", "", ""), [], [], [])
    {
      textToSpeak := "";
      isSending := false;
      audioUrl := None;
      settings := Settings(Str("Sonic 3.0"), Str("Tessa"), Str(""), Num(1.0), Num(1.0));
      card := Card(false, None, Null);
      theme := if ThemeKey in storage && storage[ThemeKey] != "" then storage[ThemeKey] else "light";
      this.storage := storage;
      clip := NoClip;
      clone := CloneForm("", "", "");
      alerts := [];
      requests := [];
      navigations := [];
    }

    /** `toggleTheme`: the other theme, stored under 'theme'. */
    method ToggleTheme()
      modifies this
      ensures theme == NextTheme(old(theme))
      ensures State() == old(State()).(theme := theme, storage := old(storage)[ThemeKey := theme])
    {
      theme := NextTheme(theme);
      storage := storage[ThemeKey := theme];
    }

    /** Typing into the text box. */
    method EditText(text: string)
      modifies this
      ensures State() == old(State()).(textToSpeak := text)
    {
      textToSpeak := text;
    }

    /**
     * `handleSpeak`: nothing while a request is in flight or when the trimmed text is empty;
     * otherwise the trimmed text is sent. `response` is the object URL of the returned audio,
     * or `None` when the request fails, which raises the failure alert. The sending flag is off
     * at the end.
     */
    method Speak(response: Option<string>) returns (sent: Option<string>)
      modifies this
      ensures sent.None? <==> old(isSending) || AllSpace(JavaScript, old(textToSpeak))
      ensures sent.None? ==> State() == old(State())
      ensures sent.Some? ==> sent.value == Strip(JavaScript, old(textToSpeak)) && State() == Sent(old(State()), sent.value, response)
    {
      var t := Strip(JavaScript, textToSpeak);
      if isSending || t == "" {
        return None;
      }
      Request(t, response);
      sent := Some(t);
    }

    /** The request itself: recorded, then the audio URL or the failure alert; not sending afterwards. */
    method Request(t: string, response: Option<string>)
      requires !isSending
      modifies this
      ensures State() == Sent(old(State()), t, response)
    {
      isSending := true;
      requests := requests + [t];
      if response.Some? {
        audioUrl := response;
      } else {
        alerts := alerts + [SpeakFailedMessage];
      }
      isSending := false;
    }

    /** `handleControlSelect`: remember the control and its current value, and show the card. */
    method ControlSelect(control: Control)
      modifies this
      ensures State() == old(State()).(card := Card(true, Some(control), Get(old(settings), control)))
    {
      card := Card(true, Some(control), Get(settings, control));
    }

    /** Picking a value on the card. */
    method ChooseValue(v: Value)
      modifies this
      ensures State() == old(State()).(card := old(card).(temp := v))
    {
      card := card.(temp := v);
    }

    /**
     * `handleControlDone`: the chosen value goes into exactly the selected setting; the card
     * stays open and goes back to its menu.
     */
    method ControlDone()
      modifies this
      ensures State() == old(State()).(
        settings := if old(card).selected.Some? then Set(old(settings), old(card).selected.value, old(card).temp)
                    else old(settings),
        card := Card(old(card).show, None, Null))
    {
      if card.selected.Some? {
        settings := Set(settings, card.selected.value, card.temp);
      }
      card := Card(card.show, None, Null);
    }

    /** `handleControlClose`: the card closes and forgets the selection. */
    method ControlClose()
      modifies this
      ensures State() == old(State()).(card := Card(false, None, Null))
    {
      card := Card(false, None, Null);
    }

    /**
     * `handleFileUpload`: a file whose type starts with 'audio/' becomes the uploaded clip, its
     * object URL `url` the recorded URL; anything else raises the alert and clears the input.
     */
    method FileUpload(chosen: Option<AudioFile>, url: string) returns (accepted: bool)
      modifies this
      ensures accepted <==> chosen.Some? && StartsWith(chosen.value.mimeType, "audio/")
      ensures accepted ==>
        State() == old(State()).(clip := old(clip).(fileInput := chosen, uploadedFile := chosen,
                                                     recordedBlob := chosen, recordedUrl := Some(url)))
      ensures !accepted ==>
        State() == old(State()).(clip := old(clip).(fileInput := None), alerts := old(alerts) + [AudioOnlyMessage])
    {
      accepted := chosen.Some? && StartsWith(chosen.value.mimeType, "audio/");
      if accepted {
        clip := clip.(fileInput := chosen, uploadedFile := chosen, recordedBlob := chosen, recordedUrl := Some(url));
      } else {
        alerts := alerts + [AudioOnlyMessage];
        clip := clip.(fileInput := None);
      }
    }

    /** The uploaded clip's metadata has loaded: its duration is recorded. */
    method UploadedMetadata(duration: real)
      modifies this
      ensures State() == old(State()).(clip := old(clip).(duration := duration))
    {
      clip := clip.(duration := duration);
    }

    /** `handleRemoveFile`: no clip, no URL, duration 0, the whole clip used, the input cleared. */
    method RemoveFile()
      modifies this
      ensures State() == old(State()).(clip := NoClip)
    {
      clip := NoClip;
    }

    /** The clone form fields. */
    method EditClone(form: CloneForm)
      modifies this
      ensures State() == old(State()).(clone := form)
    {
      clone := form;
    }

    /**
     * The clone button: when enabled, it navigates to the voice page with the clone's name and
     * language (their fallbacks 'google' and 'en' can never apply) and its description.
     */
    method CloneClick()
      modifies this
      ensures State() == old(State()).(navigations := old(navigations) +
        if CloneEnabled(old(clone), old(clip)) then [Navigation(ClonedVoicePath, clone.name, clone.language, clone.description)]
        else [])
    {
      if !(clone.name != "" && clone.language != "" && clip.recordedUrl.Some? && clip.recordedUrl.value != "") {
        return;
      }
      var voiceName := if clone.name != "" then clone.name else "google";
      var language := if clone.language != "" then clone.language else "en";
      navigations := navigations + [Navigation(ClonedVoicePath, voiceName, language, clone.description)];
    }
  }

  /** After the clip is removed the clone button is disabled, whatever the form holds. */
  method RemoveDisablesClone(p: Page)
    modifies p
    ensures !CloneEnabled(p.clone, p.clip) && p.clone == old(p.clone)
  {
    p.RemoveFile();
  }

  /** Choosing a value for one setting and pressing Done changes that setting and no other. */
  method DoneChangesOneSetting(p: Page, control: Control, v: Value)
    modifies p
    ensures Get(p.settings, control) == v
    ensures forall other :: other != control ==> Get(p.settings, other) == Get(old(p.settings), other)
    ensures p.card == Card(true, None, Null)
  {
    p.ControlSelect(control);
    p.ChooseValue(v);
    p.ControlDone();
  }

  /** Toggling twice restores a 'light' or 'dark' theme and leaves it stored. */
  method ToggleTwice(p: Page)
    requires p.theme == "light" || p.theme == "dark"
    modifies p
    ensures p.theme == old(p.theme) && p.storage == old(p.storage)[ThemeKey := old(p.theme)]
  {
    ThemeToggleTwice(p.theme);
    p.ToggleTheme();
    p.ToggleTheme();
  }
}
