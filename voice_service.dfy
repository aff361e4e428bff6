/**
 * Reference voices and example texts (`backend/app/services/voice_service.py`).
 * Both are static tables; the example texts are an insertion-ordered dictionary from language
 * code to a list of entries, returned either for one language or flattened in order.
 */
module VoiceService {
  import opened Wrappers
  import opened Config

  /** One entry of `get_reference_voices`. */
  datatype ReferenceVoice = ReferenceVoice(language: string, voiceName: string, available: bool)

  const ReferenceVoices: seq<ReferenceVoice> := [
    ReferenceVoice("en", "patrick", true), ReferenceVoice("en", "diana", true),
    ReferenceVoice("hi", "surya", true), ReferenceVoice("hi", "pooja", true),
    ReferenceVoice("kn", "ranna", true), ReferenceVoice("kn", "vidhya", true),
    ReferenceVoice("te", "arush", true), ReferenceVoice("te", "bhagya", true),
    ReferenceVoice("ma", "kabir", true), ReferenceVoice("ma", "neha", true),
    ReferenceVoice("sa", "raghava", true), ReferenceVoice("sa", "janki", true)]

  /** The voices of one language, in table order. */
  function VoicesFor(vs: seq<ReferenceVoice>, l: string): (r: seq<ReferenceVoice>)
    ensures |r| <= |vs|
    ensures forall i :: 0 <= i < |r| ==> r[i].language == l && r[i] in vs
  {
    if vs == [] then []
    else if vs[0].language == l then [vs[0]] + VoicesFor(vs[1..], l)
    else VoicesFor(vs[1..], l)
  }

  /** An example as stored under its language: `{"text": ..., "description": ...}`. */
  datatype ExampleText = ExampleText(text: string, description: string)

  /**
   * An example as returned: with the `language` key when the whole table is listed, without it
   * (None) when one language was asked for.
   */
  datatype ExampleEntry = ExampleEntry(language: Option<string>, text: string, description: string)

  type ExampleTable = seq<(string, seq<ExampleText>)>

  const EnWelcome: string := "Welcome to Somya Labs. We provide cutting-edge speech technology solutions."
  const EnCloning: string := "I'm in the process of recording some audio so I can create a digital clone of my voice. Once it's ready, I'll be able to generate speech that sounds exactly like me — same tone, rhythm, and personality."
  const EnGreeting: string := "It's nice to meet you. Hope you're having a great day."
  const HiWelcome: string := "सोम्या लैब्स में आपका स्वागत है। हम अत्याधुनिक भाषण प्रौद्योगिकी समाधान प्रदान करते हैं।"
  const KnWelcome: string := "ಸೋಮ್ಯಾ ಲ್ಯಾಬ್ಸ್ಗೆ ಸ್ವಾಗತ. ನಾವು ಅತ್ಯಾಧುನಿಕ ಭಾಷಣ ತಂತ್ರಜ್ಞಾನ ಪರಿಹಾರಗಳನ್ನು ಒದಗಿಸುತ್ತೇವೆ।"
  const TeWelcome: string := "సోమ్యా ల్యాబ్స్\U{200C}కు స్వాగతం. మేము అత్యాధునిక స్పీచ్ టెక్నాలజీ పరిష్కారాలను అందిస్తాము."
  const MaWelcome: string := "सोम्या लॅब्समध्ये आपले स्वागत आहे. आम्ही अत्याधुनिक भाषण तंत्रज्ञान उपाय प्रदान करतो."
  const SaWelcome: string := "सोम्यालैब्से स्वागतम्। वयं अत्याधुनिक वाक्-तकनीकी समाधानानि प्रददामः।"

  const Welcome: string := "Welcome message"

  /** The `examples` dictionary, in insertion order. */
  const Examples: ExampleTable := [
    ("en", [ExampleText(EnWelcome, Welcome), ExampleText(EnCloning, "Voice cloning example"),
            ExampleText(EnGreeting, "Greeting")]),
    ("hi", [ExampleText(HiWelcome, Welcome)]),
    ("kn", [ExampleText(KnWelcome, Welcome)]),
    ("te", [ExampleText(TeWelcome, Welcome)]),
    ("ma", [ExampleText(MaWelcome, Welcome)]),
    ("sa", [ExampleText(SaWelcome, Welcome)])]

  function Keys(t: ExampleTable): (ks: seq<string>)
    ensures |ks| == |t| && forall i :: 0 <= i < |t| ==> ks[i] == t[i].0
  {
    seq(|t|, i requires 0 <= i < |t| => t[i].0)
  }

  /** A dictionary has each key once. */
  predicate DistinctKeys(t: ExampleTable) {
    forall i, j :: 0 <= i < j < |t| ==> t[i].0 != t[j].0
  }

  /** `examples.get(language, [])`. */
  function Lookup(t: ExampleTable, l: string): (ts: seq<ExampleText>)
    ensures l !in Keys(t) ==> ts == []
    ensures forall i :: 0 <= i < |t| && t[i].0 == l && l !in Keys(t[..i]) ==> ts == t[i].1
  {
    if t == [] then []
    else if t[0].0 == l then t[0].1
    else
      assert forall i :: 0 < i <= |t| ==> Keys(t[..i]) == [t[0].0] + Keys(t[1..][..i - 1]);
      Lookup(t[1..], l)
  }

  /** The entries of one language, each given its `language` key. */
  function Tag(l: string, ts: seq<ExampleText>): (es: seq<ExampleEntry>)
    ensures |es| == |ts|
    ensures forall k :: 0 <= k < |ts| ==> es[k] == ExampleEntry(Some(l), ts[k].text, ts[k].description)
  {
    seq(|ts|, k requires 0 <= k < |ts| => ExampleEntry(Some(l), ts[k].text, ts[k].description))
  }

  /** The entries of one language as stored, without a `language` key. */
  function Untagged(ts: seq<ExampleText>): (es: seq<ExampleEntry>)
    ensures |es| == |ts|
    ensures forall k :: 0 <= k < |ts| ==> es[k] == ExampleEntry(None, ts[k].text, ts[k].description)
  {
    seq(|ts|, k requires 0 <= k < |ts| => ExampleEntry(None, ts[k].text, ts[k].description))
  }

  /** Every language's entries, tagged, language after language in table order. */
  function Flatten(t: ExampleTable): (es: seq<ExampleEntry>)
    ensures forall k :: 0 <= k < |es| ==> es[k].language.Some? && es[k].language.value in Keys(t)
  {
    if t == [] then [] else Tag(t[0].0, t[0].1) + Flatten(t[1..])
  }

  /** The entries carrying a given `language` key, in order. */
  function WithLanguage(es: seq<ExampleEntry>, l: string): (r: seq<ExampleEntry>)
    ensures |r| <= |es|
    ensures forall k :: 0 <= k < |r| ==> r[k].language == Some(l) && r[k] in es
  {
    if es == [] then []
    else if es[0].language == Some(l) then [es[0]] + WithLanguage(es[1..], l)
    else WithLanguage(es[1..], l)
  }

  /**
   * `get_example_texts`: a non-empty language selects that language's list (empty when the
   * language is unknown); no language, or the empty string, lists every entry with its language.
   */
  method GetExampleTexts(language: Option<string>) returns (result: seq<ExampleEntry>)
    ensures language.Some? && language.value != "" ==> result == Untagged(Lookup(Examples, language.value))
    ensures language.None? || language.value == "" ==> result == Flatten(Examples)
  {
    if language.Some? && language.value != "" {
      return Untagged(Lookup(Examples, language.value));
    }
    result := [];
    var i := 0;
    while i < |Examples|
      invariant 0 <= i <= |Examples|
      invariant result == Flatten(Examples[..i])
    {
      var (lang, texts) := Examples[i];
      var j := 0;
      while j < |texts|
        invariant 0 <= j <= |texts|
        invariant result == Flatten(Examples[..i]) + Tag(lang, texts[..j])
      {
        result := result + [ExampleEntry(Some(lang), texts[j].text, texts[j].description)];
        assert Tag(lang, texts[..j + 1]) == Tag(lang, texts[..j]) + [ExampleEntry(Some(lang), texts[j].text, texts[j].description)];
        j := j + 1;
      }
      assert texts[..j] == texts;
      FlattenSnoc(Examples[..i + 1]);
      assert Examples[..i + 1][..i] == Examples[..i];
      i := i + 1;
    }
    assert Examples[..i] == Examples;
  }

  /** Listing a table with one more language appends that language's tagged entries. */
  lemma {:induction false} FlattenSnoc(t: ExampleTable)
    requires t != []
    ensures Flatten(t) == Flatten(t[..|t| - 1]) + Tag(t[|t| - 1].0, t[|t| - 1].1)
    decreases |t|
  {
    if |t| > 1 {
      FlattenSnoc(t[1..]);
      assert t[1..][..|t| - 2] == t[..|t| - 1][1..];
    }
  }

  lemma {:induction false} WithLanguageAppend(a: seq<ExampleEntry>, b: seq<ExampleEntry>, l: string)
    ensures WithLanguage(a + b, l) == WithLanguage(a, l) + WithLanguage(b, l)
    decreases |a|
  {
    if a != [] {
      WithLanguageAppend(a[1..], b, l);
      assert (a + b)[0] == a[0];
      assert (a + b)[1..] == a[1..] + b;
    } else {
      assert a + b == b;
    }
  }

  lemma {:induction false} WithLanguageOfTag(k: string, ts: seq<ExampleText>, l: string)
    ensures WithLanguage(Tag(k, ts), l) == if k == l then Tag(k, ts) else []
    decreases |ts|
  {
    if ts != [] {
      WithLanguageOfTag(k, ts[1..], l);
      assert Tag(k, ts)[1..] == Tag(k, ts[1..]);
    }
  }

  /**
   * The two shapes of the answer agree: keeping the flattened entries of one language gives that
   * language's list, tagged, for any dictionary (keys distinct).
   */
  lemma {:induction false} WithLanguageOfFlatten(t: ExampleTable, l: string)
    requires DistinctKeys(t)
    ensures WithLanguage(Flatten(t), l) == Tag(l, Lookup(t, l))
    decreases |t|
  {
    if t != [] {
      WithLanguageAppend(Tag(t[0].0, t[0].1), Flatten(t[1..]), l);
      WithLanguageOfTag(t[0].0, t[0].1, l);
      WithLanguageOfFlatten(t[1..], l);
      if t[0].0 == l {
        assert l !in Keys(t[1..]);
      }
    }
  }

  /** The table's keys are the six supported languages, each once, and it holds eight examples. */
  lemma ExamplesTable()
    ensures Keys(Examples) == SupportedLanguages && DistinctKeys(Examples)
    ensures |Flatten(Examples)| == 8
  {
    ExamplesKeys();
    ExamplesCount();
  }

  lemma ExamplesKeys()
    ensures Keys(Examples) == SupportedLanguages && DistinctKeys(Examples)
  {
    assert Keys(Examples) == ["en", "hi", "kn", "te", "ma", "sa"];
  }

  lemma ExamplesCount()
    ensures |Flatten(Examples)| == 8
  {
    var t := Examples;
    assert |Flatten(t[5..])| == 1;
    assert |Flatten(t[4..])| == 2;
    assert |Flatten(t[3..])| == 3;
    assert |Flatten(t[2..])| == 4;
    assert |Flatten(t[1..])| == 5;
  }

  /**
   * Asking for one language returns what the full listing holds for it, without the language
   * key; an unsupported language gets the empty list.
   */
  lemma FilteredAgreesWithListing(l: string)
    ensures Untagged(Lookup(Examples, l)) ==
      seq(|WithLanguage(Flatten(Examples), l)|, k requires 0 <= k < |WithLanguage(Flatten(Examples), l)| =>
        WithLanguage(Flatten(Examples), l)[k].(language := None))
    ensures l !in SupportedLanguages ==> Lookup(Examples, l) == []
  {
    ExamplesTable();
    WithLanguageOfFlatten(Examples, l);
  }

  /** `vs` holds, for each language of `langs` in order, two voices of that language. */
  predicate Paired(vs: seq<ReferenceVoice>, langs: seq<string>) {
    |vs| == 2 * |langs| && forall j :: 0 <= j < |vs| ==> vs[j].language == langs[j / 2]
  }

  predicate Distinct(langs: seq<string>) {
    forall i, j :: 0 <= i < j < |langs| ==> langs[i] != langs[j]
  }

  /** In a paired table over distinct languages, each listed language has exactly two voices. */
  lemma {:induction false} VoicesOfPaired(vs: seq<ReferenceVoice>, langs: seq<string>, l: string)
    requires Paired(vs, langs) && Distinct(langs)
    ensures |VoicesFor(vs, l)| == if l in langs then 2 else 0
    decreases |langs|
  {
    if langs != [] {
      assert vs[0].language == langs[0] && vs[1].language == langs[0];
      var rest := vs[2..];
      assert Paired(rest, langs[1..]) by {
        forall j | 0 <= j < |rest| ensures rest[j].language == langs[1..][j / 2] {
          assert rest[j] == vs[j + 2] && (j + 2) / 2 == j / 2 + 1;
        }
      }
      VoicesOfPaired(rest, langs[1..], l);
      assert vs[1..][1..] == rest;
      assert l in langs <==> l == langs[0] || l in langs[1..];
      assert l == langs[0] ==> l !in langs[1..];
    } else {
      assert vs == [];
    }
  }

  /** Twelve voices, all available, two for each supported language, all in supported languages. */
  lemma ReferenceVoicesTable()
    ensures |ReferenceVoices| == 12
    ensures forall v :: v in ReferenceVoices ==> v.available && v.language in SupportedLanguages
    ensures forall l :: |VoicesFor(ReferenceVoices, l)| == if l in SupportedLanguages then 2 else 0
  {
    ReferenceVoicesInSupported();
    ReferenceVoicesPaired();
    SupportedLanguagesDistinct();
    forall l ensures |VoicesFor(ReferenceVoices, l)| == if l in SupportedLanguages then 2 else 0 {
      VoicesOfPaired(ReferenceVoices, SupportedLanguages, l);
    }
  }

  lemma ReferenceVoicesInSupported()
    ensures forall v :: v in ReferenceVoices ==> v.available && v.language in SupportedLanguages
  {
  }

  lemma ReferenceVoicesPaired()
    ensures Paired(ReferenceVoices, SupportedLanguages)
  {
  }

  lemma SupportedLanguagesDistinct()
    ensures Distinct(SupportedLanguages)
  {
  }
}
