/**
 * The avatar of a signed-in user (`front-end/src/utils/avatarUtils.js`): initials taken from the
 * display name or the e-mail, a colour derived from a 32-bit string hash of the user's id or
 * e-mail, and the ui-avatars.com URL built from both.
 */
module AvatarUtils {
  import opened Wrappers
  import opened Text
  import opened JsRuntime

  /** The user record as the avatar sees it; an empty string is a falsy (absent) field. */
  datatype User = User(id: string, email: string, name: string)

  /** The colour seed: the id, else the e-mail, else "user". */
  function Identifier(u: User): (s: string)
    ensures s != ""
    ensures u.id != "" ==> s == u.id
    ensures u.id == "" ==> s == (if u.email != "" then u.email else "user")
  {
    if u.id != "" then u.id else if u.email != "" then u.email else "user"
  }

  /** `name.trim().split(/\s+/)`. */
  function NameParts(name: string): (parts: seq<string>)
    ensures |parts| >= 1
  {
    SplitOnSpaceRuns(JavaScript, Strip(JavaScript, name))
  }

  /** The name parts are the name's words, except that a blank name gives one empty part. */
  lemma NamePartsAreWords(name: string)
    ensures AllSpace(JavaScript, name) ==> NameParts(name) == [""]
    ensures !AllSpace(JavaScript, name) ==> NameParts(name) == Words(JavaScript, name)
  {
    var t := Strip(JavaScript, name);
    WordsOfStrip(JavaScript, name);
    if t == [] {
      SplitOnSpaceRunsOfEmpty(JavaScript);
    } else {
      SplitOnSpaceRunsOfTrimmed(JavaScript, t);
    }
  }

  /**
   * `w[0].toUpperCase()`: the upper-cased first code unit of a word. A word that starts above
   * U+FFFF gives only the high half of its surrogate pair.
   */
  function InitialUnit(w: string): (c: int)
    requires w != []
    ensures 0 <= c < 0x1_0000 && !IsLowSurrogate(c)
    ensures IsHighSurrogate(c) <==> w[0] as int >= 0x1_0000
    ensures w[0] as int < 0x1_0000 ==> c == UpperChar(w[0]) as int
  {
    UpperUnit(FirstUnit(w))
  }

  /** The initials of a name's words: first and last word, the only word, or "U" for none. */
  function WordInitials(ws: seq<string>): (r: seq<int>)
    requires forall i :: 0 <= i < |ws| ==> ws[i] != []
    ensures 1 <= |r| <= 2
    ensures forall i :: 0 <= i < |r| ==> 0 <= r[i] < 0x1_0000 && !IsLowSurrogate(r[i])
  {
    if |ws| >= 2 then [InitialUnit(ws[0]), InitialUnit(ws[|ws| - 1])]
    else if |ws| == 1 then [InitialUnit(ws[0])]
    else ['U' as int]
  }

  /**
   * The initials of a non-empty name, from `name.trim().split(/\s+/)`: those of its words,
   * so "U" for a blank name.
   */
  function NameInitials(name: string): (r: seq<int>)
    ensures r == WordInitials(Words(JavaScript, name))
  {
    NamePartsAreWords(name);
    if AllSpace(JavaScript, name) then
      WordsOfAllSpace(JavaScript, name);
      ['U' as int]
    else WordInitials(NameParts(name))
  }

  /**
   * The initials, as the code units JavaScript builds them: from the words of a non-empty name
   * (even a blank one, when there is also an e-mail); with no name, the first unit of the
   * e-mail; with neither, "U".
   */
  function Initials(u: User): (r: seq<int>)
    ensures 1 <= |r| <= 2
    ensures forall i :: 0 <= i < |r| ==> 0 <= r[i] < 0x1_0000 && !IsLowSurrogate(r[i])
    ensures u.name != "" ==> r == WordInitials(Words(JavaScript, u.name))
    ensures u.name == "" && u.email != "" ==> r == [InitialUnit(u.email)]
    ensures u.name == "" && u.email == "" ==> r == ['U' as int]
  {
    if u.name != "" then NameInitials(u.name)
    else if u.email != "" then [InitialUnit(u.email)]
    else ['U' as int]
  }

  // ---------------------------------------------------------------------------
  // The colour hash

  /** One step of the hash: `code + ((hash << 5) - hash)`, where only the shift truncates to 32 bits. */
  function HashStep(h: int, code: int): int {
    code + (Shl5(h) - h)
  }

  /** The hash of a sequence of UTF-16 code units, folded from the left starting at 0. */
  function HashOf(units: seq<int>): int {
    if units == [] then 0 else HashStep(HashOf(units[..|units| - 1]), units[|units| - 1])
  }

  /**
   * The hash grows by at most 2^31 + 65535 in magnitude per code unit, so it stays an exact
   * integer double for strings of up to 2^21 code units.
   */
  lemma {:induction false} HashBound(units: seq<int>)
    requires forall i :: 0 <= i < |units| ==> 0 <= units[i] < 0x1_0000
    ensures -|units| * (Two31 + 0xFFFF) <= HashOf(units) <= |units| * (Two31 + 0xFFFF)
  {
    if units != [] {
      var init := units[..|units| - 1];
      HashBound(init);
      var h := HashOf(init);
      var s := Shl5(h);
      assert -Two31 <= s < Two31;
      assert HashOf(units) == units[|units| - 1] + (s - h);
      assert |units| * (Two31 + 0xFFFF) == |init| * (Two31 + 0xFFFF) + (Two31 + 0xFFFF);
    }
  }

  /** A one-character ASCII or BMP string hashes to its own character code. */
  lemma HashOfOneUnit(code: int)
    ensures HashOf([code]) == code
  {
    assert [code][..0] == [];
  }

  /** The loop of `generateColorFromString` over the UTF-16 code units of `str`. */
  method GenerateHash(str: string) returns (hash: int)
    ensures hash == HashOf(Utf16(str))
  {
    var units := Utf16(str);
    hash := 0;
    var i := 0;
    while i < |units|
      invariant 0 <= i <= |units|
      invariant hash == HashOf(units[..i])
    {
      assert units[..i + 1][..i] == units[..i];
      hash := units[i] + (Shl5(hash) - hash);
      i := i + 1;
    }
    assert units[..|units|] == units;
  }

  /** Hue, saturation and lightness as whole numbers. */
  datatype Hsl = Hsl(hue: int, saturation: int, lightness: int)

  function Abs(x: int): nat {
    if x < 0 then -x else x
  }

  /** The HSL triple of a hash: hue in [0, 360), saturation in [60, 80), lightness in [45, 60). */
  function HslOf(hash: int): (c: Hsl)
    ensures 0 <= c.hue < 360 && 60 <= c.saturation < 80 && 45 <= c.lightness < 60
    ensures c.hue == Abs(hash) % 360
  {
    Hsl(Abs(hash) % 360, 60 + Abs(hash) % 20, 45 + Abs(hash) % 15)
  }

  /** Euclidean division by 20 is unique: a remainder in range is the one `%` finds. */
  lemma ModTwentyOfDecomposition(x: int, a: int, b: int)
    requires 0 <= b < 20 && x == 20 * a + b
    ensures x % 20 == b
  {
  }

  /** Euclidean division by 15 is unique: a remainder in range is the one `%` finds. */
  lemma ModFifteenOfDecomposition(x: int, a: int, b: int)
    requires 0 <= b < 15 && x == 15 * a + b
    ensures x % 15 == b
  {
  }

  /** Since 20 and 15 divide 360, the hue alone determines saturation and lightness. */
  lemma {:induction false} HueDeterminesShade(hash: int)
    ensures HslOf(hash).saturation == 60 + HslOf(hash).hue % 20
    ensures HslOf(hash).lightness == 45 + HslOf(hash).hue % 15
  {
    var x := Abs(hash);
    var q := x / 360;
    var r := x % 360;
    ModTwentyOfDecomposition(x, 18 * q + r / 20, r % 20);
    ModFifteenOfDecomposition(x, 24 * q + r / 15, r % 15);
  }

  /**
   * `generateColorFromString` up to the HSL-to-hex step: the hash loop, then the HSL triple,
   * then `toHex`, the floating-point conversion to six hex digits.
   */
  method GenerateColor(str: string, toHex: Hsl -> string) returns (hex: string)
    ensures hex == toHex(HslOf(HashOf(Utf16(str))))
  {
    var hash := GenerateHash(str);
    hex := toHex(HslOf(hash));
  }

  // ---------------------------------------------------------------------------
  // The avatar URL

  const DefaultAvatar: string := "/male.png"
  const AvatarService: string := "https://ui-avatars.com/api/?name="
  const AvatarSize: string := "40"
  const TextColor: string := "ffffff"

  /** The end of every avatar URL: white bold text. */
  const TextTail: string := "&color=" + TextColor + "&bold=true"

  /**
   * The URL for a user: the default image without one, else the service URL with the encoded
   * initials, or None where `encodeURIComponent` throws URIError because the initials hold half
   * of a surrogate pair.
   */
  function AvatarUrl(user: Option<User>, toHex: Hsl -> string): (url: Option<string>)
    ensures user.None? ==> url == Some(DefaultAvatar)
    ensures user.Some? ==>
      (url.None? <==> exists i :: 0 <= i < |Initials(user.value)| && IsHighSurrogate(Initials(user.value)[i]))
    ensures user.Some? && url.Some? ==> StartsWith(url.value, AvatarService) && EndsWith(url.value, TextTail)
  {
    match user
    case None => Some(DefaultAvatar)
    case Some(u) =>
      EncodeUnitsFails(Initials(u));
      match EncodeUnits(Initials(u))
      case None => None
      case Some(name) =>
        var query := Query(toHex(HslOf(HashOf(Utf16(Identifier(u))))));
        Framed(AvatarService, name, query);
        Some(AvatarService + name + query)
  }

  /** The query after the name up to the text colour: fixed size 40 and the background colour. */
  function SizeAndBackground(background: string): string {
    "&size=" + AvatarSize + "&background=" + background
  }

  /** The whole query after the name. */
  function Query(background: string): (q: string)
    ensures EndsWith(q, TextTail)
  {
    var q := SizeAndBackground(background) + TextTail;
    assert q[|q| - |TextTail|..] == TextTail;
    q
  }

  /** A URL made of the service, a name and a query starts with the service and ends with the text colour. */
  lemma Framed(a: string, m: string, q: string)
    requires EndsWith(q, TextTail)
    ensures StartsWith(a + m + q, a) && EndsWith(a + m + q, TextTail)
  {
    assert (a + m + q)[..|a|] == a;
    assert (a + m + q)[|a + m + q| - |q|..] == q;
    assert q[|q| - |TextTail|..] == (a + m + q)[|a + m + q| - |TextTail|..];
  }

  /**
   * `getUserAvatarUrl` step by step: the initials, the background from the hash loop of
   * `GenerateColor`, then the escaping, which throws (None) on half a surrogate pair.
   */
  method GetUserAvatarUrl(user: Option<User>, toHex: Hsl -> string) returns (url: Option<string>)
    ensures url == AvatarUrl(user, toHex)
  {
    match user
    case None =>
      url := Some(DefaultAvatar);
    case Some(u) =>
      var initials := Initials(u);
      var background := GenerateColor(Identifier(u), toHex);
      var name := EncodeUnits(initials);
      if name.None? {
        url := None;
      } else {
        url := Some(AvatarService + name.value + Query(background));
      }
  }

  /**
   * Initials with no half of a surrogate pair, which is every case but a word or e-mail that
   * starts above U+FFFF, are escaped as text, and `decodeURIComponent` reads them back.
   */
  lemma AvatarUrlOfInitials(u: User, toHex: Hsl -> string)
    requires forall i :: 0 <= i < |Initials(u)| ==> !IsHighSurrogate(Initials(u)[i])
    ensures AvatarUrl(Some(u), toHex) ==
      Some(AvatarService + EncodeUriComponent(BmpText(Initials(u))) + Query(toHex(HslOf(HashOf(Utf16(Identifier(u)))))))
    ensures DecodeUriComponent(EncodeUriComponent(BmpText(Initials(u)))) == Some(BmpText(Initials(u)))
  {
    var us := Initials(u);
    var t := BmpText(us);
    Utf16OfBmpText(us);
    EncodeUnitsOfUtf16(t);
    assert EncodeUnits(us) == Some(EncodeUriComponent(t));
    DecodeEncodeUriComponent(t);
  }

  /** Initials made of unreserved characters appear in the URL as they are. */
  lemma AlphanumericInitialsUnescaped(u: User, toHex: Hsl -> string)
    requires forall i :: 0 <= i < |Initials(u)| ==> BmpUnit(Initials(u)[i]) && Unreserved(UnitChar(Initials(u)[i]))
    ensures AvatarUrl(Some(u), toHex) ==
      Some(AvatarService + BmpText(Initials(u)) + Query(toHex(HslOf(HashOf(Utf16(Identifier(u)))))))
  {
    AvatarUrlOfInitials(u, toHex);
    EncodeUnreserved(BmpText(Initials(u)));
  }

  /** A word or e-mail starting above U+FFFF, such as an emoji, makes `getUserAvatarUrl` throw. */
  lemma AstralInitialThrows(u: User, toHex: Hsl -> string)
    ensures u.name == "" && u.email != "" && u.email[0] as int >= 0x1_0000 ==> AvatarUrl(Some(u), toHex).None?
    ensures u.name != "" && Words(JavaScript, u.name) != [] && Words(JavaScript, u.name)[0][0] as int >= 0x1_0000 ==>
      AvatarUrl(Some(u), toHex).None?
  {
  }

  /** Users with the same id share a background colour, whatever their names and e-mails. */
  lemma SameIdSameColour(u: User, v: User, toHex: Hsl -> string)
    requires u.id != "" && u.id == v.id
    ensures HslOf(HashOf(Utf16(Identifier(u)))) == HslOf(HashOf(Utf16(Identifier(v))))
  {
  }

  /** A blank name yields "U" even when an e-mail is present. */
  lemma BlankNameIgnoresEmail(u: User)
    requires u.name != "" && AllSpace(JavaScript, u.name)
    ensures Initials(u) == ['U' as int]
  {
    WordsOfAllSpace(JavaScript, u.name);
  }
}
