/**
 * The front end's voice catalogue (`front-end/src/data/voiceData.js`): a table from language
 * code to gender to voice record, kept in insertion order as a JavaScript object is enumerated,
 * with lookup by language and gender, lookup by voice id, the list of all voices and the
 * language-name map.
 */
module VoiceData {
  import opened Wrappers

  /** A voice record; the description, metadata and preview text are presentation only. */
  datatype Voice = Voice(name: string, displayName: string, image: string, language: string,
                         languageName: string, gender: string, voiceId: string)

  const Languages: seq<string> := ["en", "hi", "kn", "te", "mr", "sa"]

  /** The genders of one language, in insertion order. */
  type Genders = seq<(string, Voice)>

  /** The whole catalogue: languages in insertion order, each with its genders. */
  type Catalogue = seq<(string, Genders)>

  const Patrick: Voice := Voice("patrick", "Patrick", "/English-male.png", "en", "English", "male", "patrick")
  const Diana: Voice := Voice("diana", "Diana", "/English-female.png", "en", "English", "female", "diana")
  const Surya: Voice := Voice("surya", "Surya", "/hindi-male.png", "hi", "Hindi", "male", "surya")
  const Pooja: Voice := Voice("pooja", "Pooja", "/hindi-female.png", "hi", "Hindi", "female", "pooja")
  const Ranna: Voice := Voice("ranna", "Ranna", "/Kannada-male.png", "kn", "Kannada", "male", "ranna")
  const Vidhya: Voice := Voice("vidhya", "Vidhya", "/Kannada-female.png", "kn", "Kannada", "female", "vidhya")
  const Arush: Voice := Voice("arush", "Arush", "/telugu-male.png", "te", "Telugu", "male", "voice1")
  const Bhagya: Voice := Voice("bhagya", "Bhagya", "/telugu-female.png", "te", "Telugu", "female", "bhagya")
  const Kabir: Voice := Voice("kabir", "Kabir", "/marathi-male.png", "mr", "Marathi", "male", "kabir")
  const Neha: Voice := Voice("neha", "Neha", "/marathi-female.png", "mr", "Marathi", "female", "neha")
  const Raghava: Voice := Voice("raghava", "Raghava", "/Sanskrit-male.png", "sa", "Sanskrit", "male", "raghava")
  const Janki: Voice := Voice("janki", "Janki", "/Sanskrit-female.png", "sa", "Sanskrit", "female", "janki")

  const English: Genders := [("male", Patrick), ("female", Diana)]
  const Hindi: Genders := [("male", Surya), ("female", Pooja)]
  const Kannada: Genders := [("male", Ranna), ("female", Vidhya)]
  const Telugu: Genders := [("male", Arush), ("female", Bhagya)]
  const Marathi: Genders := [("male", Kabir), ("female", Neha)]
  const Sanskrit: Genders := [("male", Raghava), ("female", Janki)]

  /** `VOICE_METADATA`: language, then gender, then the record. */
  const VoiceMetadata: Catalogue :=
    [("en", English), ("hi", Hindi), ("kn", Kannada), ("te", Telugu), ("mr", Marathi), ("sa", Sanskrit)]

  const LanguageNames: map<string, string> :=
    map["en" := "English", "hi" := "Hindi", "kn" := "Kannada", "te" := "Telugu", "mr" := "Marathi",
        "sa" := "Sanskrit"]

  /** `obj[key]` on an insertion-ordered object: the value of the first entry with that key. */
  function Find<T>(entries: seq<(string, T)>, key: string): (r: Option<T>)
    ensures r.None? <==> forall i :: 0 <= i < |entries| ==> entries[i].0 != key
    ensures forall i :: 0 <= i < |entries| && entries[i].0 == key && (forall k :: 0 <= k < i ==> entries[k].0 != key) ==>
      r == Some(entries[i].1)
  {
    if entries == [] then None
    else if entries[0].0 == key then Some(entries[0].1)
    else
      assert forall i :: 1 <= i < |entries| ==> entries[i] == entries[1..][i - 1];
      Find(entries[1..], key)
  }

  /** Each language of the catalogue appears once. */
  predicate DistinctLanguages(t: Catalogue) {
    forall i, k :: 0 <= k < i < |t| ==> t[k].0 != t[i].0
  }

  /**
   * `getVoiceData(language, gender)` on catalogue `t`: the record under both keys, or null when
   * either key is absent.
   */
  function GetVoiceData(t: Catalogue, language: string, gender: string): (r: Option<Voice>)
    ensures (forall i :: 0 <= i < |t| ==> t[i].0 != language) ==> r == None
    ensures DistinctLanguages(t) ==>
      forall i :: 0 <= i < |t| && t[i].0 == language ==> r == Find(t[i].1, gender)
  {
    match Find(t, language)
    case None => None
    case Some(genders) => Find(genders, gender)
  }

  /** The records of one language, in gender order. */
  function Values(gs: Genders): (vs: seq<Voice>)
    ensures |vs| == |gs| && forall j :: 0 <= j < |gs| ==> vs[j] == gs[j].1
  {
    seq(|gs|, j requires 0 <= j < |gs| => gs[j].1)
  }

  /** Every record, language by language. */
  function Records(t: Catalogue): seq<Voice> {
    if t == [] then [] else Values(t[0].1) + Records(t[1..])
  }

  lemma {:induction false} RecordsAppend(a: Catalogue, b: Catalogue)
    ensures Records(a + b) == Records(a) + Records(b)
  {
    if a != [] {
      assert (a + b)[1..] == a[1..] + b;
      RecordsAppend(a[1..], b);
    } else {
      assert a + b == b;
    }
  }

  lemma RecordsSplit(t: Catalogue, i: int)
    requires 0 <= i < |t|
    ensures Records(t) == Records(t[..i]) + Values(t[i].1) + Records(t[i + 1..])
  {
    assert t == t[..i] + t[i..];
    RecordsAppend(t[..i], t[i..]);
  }

  /** `getAllVoices` on catalogue `t`: every record pushed in enumeration order. */
  method GetAllVoices(t: Catalogue) returns (voices: seq<Voice>)
    ensures voices == Records(t)
  {
    voices := [];
    var i := 0;
    while i < |t|
      invariant 0 <= i <= |t|
      invariant voices == Records(t[..i])
    {
      var gs := t[i].1;
      var j := 0;
      while j < |gs|
        invariant 0 <= j <= |gs|
        invariant voices == Records(t[..i]) + Values(gs)[..j]
      {
        assert Values(gs)[..j + 1] == Values(gs)[..j] + [gs[j].1];
        voices := voices + [gs[j].1];
        j := j + 1;
      }
      RecordsSplit(t[..i + 1], i);
      assert t[..i + 1][..i] == t[..i] && t[..i + 1][i + 1..] == [];
      assert Values(gs)[..j] == Values(gs);
      i := i + 1;
    }
    assert t[..i] == t;
  }

  /** No record of `vs` has the given voice id. */
  predicate NoneWithId(vs: seq<Voice>, voiceId: string) {
    forall k :: 0 <= k < |vs| ==> vs[k].voiceId != voiceId
  }

  /** The first record with the given voice id, in enumeration order. */
  function FirstWithId(vs: seq<Voice>, voiceId: string): (r: Option<Voice>)
    ensures r.None? <==> forall k :: 0 <= k < |vs| ==> vs[k].voiceId != voiceId
    ensures r.Some? ==> r.value in vs && r.value.voiceId == voiceId
  {
    if vs == [] then None
    else if vs[0].voiceId == voiceId then Some(vs[0])
    else FirstWithId(vs[1..], voiceId)
  }

  lemma {:induction false} FirstWithIdSkip(a: seq<Voice>, b: seq<Voice>, voiceId: string)
    requires NoneWithId(a, voiceId)
    ensures FirstWithId(a + b, voiceId) == FirstWithId(b, voiceId)
  {
    if a != [] {
      assert (a + b)[1..] == a[1..] + b;
      FirstWithIdSkip(a[1..], b, voiceId);
    } else {
      assert a + b == b;
    }
  }

  /** A match at language i, gender j, with no match before it, is the first match of the listing. */
  lemma FirstMatchAt(t: Catalogue, i: int, j: int, voiceId: string)
    requires 0 <= i < |t| && 0 <= j < |t[i].1| && t[i].1[j].1.voiceId == voiceId
    requires NoneWithId(Records(t[..i]), voiceId)
    requires forall k :: 0 <= k < j ==> t[i].1[k].1.voiceId != voiceId
    ensures FirstWithId(Records(t), voiceId) == Some(t[i].1[j].1)
  {
    var gs := t[i].1;
    var seen := Records(t[..i]) + Values(gs)[..j];
    var after := Values(gs)[j..] + Records(t[i + 1..]);
    RecordsSplit(t, i);
    assert Values(gs) == Values(gs)[..j] + Values(gs)[j..];
    assert Records(t) == seen + after;
    FirstWithIdSkip(seen, after, voiceId);
  }

  /** Scanning language i without a match extends the match-free prefix of the listing. */
  lemma NoMatchThrough(t: Catalogue, i: int, voiceId: string)
    requires 0 <= i < |t|
    requires NoneWithId(Records(t[..i]), voiceId)
    requires forall k :: 0 <= k < |t[i].1| ==> t[i].1[k].1.voiceId != voiceId
    ensures NoneWithId(Records(t[..i + 1]), voiceId)
  {
    RecordsSplit(t[..i + 1], i);
    assert t[..i + 1][..i] == t[..i] && t[..i + 1][i + 1..] == [];
    assert Records(t[..i + 1]) == Records(t[..i]) + Values(t[i].1);
  }

  /** `getVoiceDataById` on catalogue `t`: the nested scan with early return. */
  method GetVoiceDataById(t: Catalogue, voiceId: string) returns (r: Option<Voice>)
    ensures r == FirstWithId(Records(t), voiceId)
  {
    var i := 0;
    while i < |t|
      invariant 0 <= i <= |t|
      invariant NoneWithId(Records(t[..i]), voiceId)
    {
      var gs := t[i].1;
      var j := 0;
      while j < |gs|
        invariant 0 <= j <= |gs|
        invariant forall k :: 0 <= k < j ==> gs[k].1.voiceId != voiceId
      {
        if gs[j].1.voiceId == voiceId {
          FirstMatchAt(t, i, j, voiceId);
          r := Some(gs[j].1);
          return;
        }
        j := j + 1;
      }
      NoMatchThrough(t, i, voiceId);
      i := i + 1;
    }
    assert t[..i] == t;
    r := None;
  }

  // ---------------------------------------------------------------------------
  // Table invariants

  /** Every record's language and gender are its own table keys. */
  predicate KeysMatchFields(t: Catalogue) {
    forall i, j :: 0 <= i < |t| && 0 <= j < |t[i].1| ==>
      t[i].1[j].1.language == t[i].0 && t[i].1[j].0 == t[i].1[j].1.gender
  }

  lemma CatalogueKeysMatchFields()
    ensures KeysMatchFields(VoiceMetadata)
  {
  }

  /** Each language has a male voice followed by a female one. */
  predicate MaleThenFemale(t: Catalogue) {
    forall i :: 0 <= i < |t| ==> |t[i].1| == 2 && t[i].1[0].0 == "male" && t[i].1[1].0 == "female"
  }

  lemma {:induction false} RecordsOfPairs(t: Catalogue)
    requires MaleThenFemale(t)
    ensures |Records(t)| == 2 * |t|
    ensures forall k :: 0 <= k < |Records(t)| ==> Records(t)[k] == t[k / 2].1[k % 2].1
  {
    if t != [] {
      RecordsOfPairs(t[1..]);
      var rest := Records(t[1..]);
      var first := Values(t[0].1);
      assert first == [t[0].1[0].1, t[0].1[1].1];
      assert Records(t) == first + rest;
      forall k | 2 <= k < |Records(t)|
        ensures Records(t)[k] == t[k / 2].1[k % 2].1
      {
        assert Records(t)[k] == rest[k - 2];
        assert (k - 2) / 2 == k / 2 - 1 && (k - 2) % 2 == k % 2;
        assert t[1..][k / 2 - 1] == t[k / 2];
      }
    }
  }

  /** `getAllVoices` on the catalogue lists its twelve records in table order. */
  lemma CatalogueRecords()
    ensures Records(VoiceMetadata) ==
      [Patrick, Diana, Surya, Pooja, Ranna, Vidhya, Arush, Bhagya, Kabir, Neha, Raghava, Janki]
  {
    RecordsOfPairs(VoiceMetadata);
  }

  /**
   * `getAllVoices` lists 12 records: for the i-th language of the table, its male voice at 2i
   * and its female voice at 2i + 1, each carrying that language.
   */
  lemma AllVoicesLayout()
    ensures |Records(VoiceMetadata)| == 12
    ensures forall i :: 0 <= i < 6 ==>
      Records(VoiceMetadata)[2 * i].gender == "male" && Records(VoiceMetadata)[2 * i + 1].gender == "female" &&
      Records(VoiceMetadata)[2 * i].language == Languages[i] && Records(VoiceMetadata)[2 * i + 1].language == Languages[i]
  {
    CatalogueRecords();
  }

  /** No two records share a voice id. */
  lemma VoiceIdsUnique()
    ensures forall a, b :: 0 <= a < b < |Records(VoiceMetadata)| ==>
      Records(VoiceMetadata)[a].voiceId != Records(VoiceMetadata)[b].voiceId
  {
    CatalogueRecords();
  }

  /** The voice id is the name, except for the Telugu male voice, whose id is "voice1". */
  lemma VoiceIdIsNameExceptTeluguMale()
    ensures forall k :: 0 <= k < |Records(VoiceMetadata)| && k != 6 ==>
      Records(VoiceMetadata)[k].voiceId == Records(VoiceMetadata)[k].name
    ensures |Records(VoiceMetadata)| == 12
    ensures Records(VoiceMetadata)[6].name == "arush" && Records(VoiceMetadata)[6].voiceId == "voice1"
  {
    CatalogueRecords();
  }

  /** So looking up "arush" by id finds nothing. */
  lemma ArushIsNotAnId()
    ensures FirstWithId(Records(VoiceMetadata), "arush") == None
  {
    CatalogueRecords();
    var vs := Records(VoiceMetadata);
    assert forall k :: 0 <= k < |vs| ==> vs[k].voiceId != "arush";
  }

  /** "voice1" finds the Telugu male voice, Arush. */
  lemma Voice1IsArush()
    ensures FirstWithId(Records(VoiceMetadata), "voice1") == Some(VoiceMetadata[3].1[0].1)
  {
    CatalogueRecords();
    var vs := Records(VoiceMetadata);
    assert vs == vs[..6] + vs[6..];
    FirstWithIdSkip(vs[..6], vs[6..], "voice1");
  }

  /** The catalogue's languages, in order, are `Languages`. */
  lemma CatalogueLanguages()
    ensures |VoiceMetadata| == |Languages| && forall i :: 0 <= i < |Languages| ==> VoiceMetadata[i].0 == Languages[i]
    ensures DistinctLanguages(VoiceMetadata)
  {
  }

  /** `LANGUAGE_NAMES` has exactly the table's languages, named as their records name them. */
  lemma LanguageNamesMatchTable()
    ensures forall l :: l in LanguageNames <==> l in Languages
    ensures forall i, j :: 0 <= i < |VoiceMetadata| && 0 <= j < |VoiceMetadata[i].1| ==>
      VoiceMetadata[i].0 in LanguageNames && LanguageNames[VoiceMetadata[i].0] == VoiceMetadata[i].1[j].1.languageName
  {
  }

  /** A language outside the table yields null. */
  lemma UnknownLanguageIsNull(language: string, gender: string)
    requires language !in Languages
    ensures GetVoiceData(VoiceMetadata, language, gender) == None
  {
    CatalogueLanguages();
  }

  /** A gender other than "male" and "female" yields null. */
  lemma UnknownGenderIsNull(language: string, gender: string)
    requires gender != "male" && gender != "female"
    ensures GetVoiceData(VoiceMetadata, language, gender) == None
  {
    CatalogueLanguages();
    if i :| 0 <= i < |VoiceMetadata| && VoiceMetadata[i].0 == language {
      assert Find(VoiceMetadata[i].1, gender) == None;
    }
  }

  /** Every language and gender of the table finds its own record. */
  lemma KnownKeysFindRecord(i: int, j: int)
    requires 0 <= i < |VoiceMetadata| && 0 <= j < |VoiceMetadata[i].1|
    ensures GetVoiceData(VoiceMetadata, VoiceMetadata[i].0, VoiceMetadata[i].1[j].0) == Some(VoiceMetadata[i].1[j].1)
  {
    CatalogueLanguages();
    var gs := VoiceMetadata[i].1;
    assert |gs| == 2 && gs[0].0 == "male" && gs[1].0 == "female";
  }
}
