/**
 * The pieces of the JavaScript runtime the front end relies on: numbers with NaN and the
 * infinities, `Math.floor` and the truncating `%`, number-to-string for integral values,
 * `padStart`, the 32-bit conversion of the shift operators, UTF-16 code units and
 * `encodeURIComponent`.
 */
module JsRuntime {
  import opened Wrappers
  import opened Text

  /** A JavaScript number. Finite values are exact reals; rounding of doubles is not modelled. */
  datatype Number = NaN | PosInf | NegInf | Finite(r: real)

  /** The global `isFinite`. */
  predicate IsFinite(n: Number) {
    n.Finite?
  }

  /** Truthiness: 0 and NaN are falsy. */
  predicate Truthy(n: Number) {
    match n
    case NaN => false
    case Finite(r) => r != 0.0
    case _ => true
  }

  /** `Math.floor` of a finite value. */
  function Floor(r: real): (k: int)
    ensures k as real <= r < k as real + 1.0
  {
    r.Floor
  }

  /** Truncation toward zero. */
  function Trunc(r: real): (k: int)
    ensures r >= 0.0 ==> k == Floor(r)
    ensures r < 0.0 ==> k == -Floor(-r)
  {
    if r >= 0.0 then r.Floor else -((-r).Floor)
  }

  /**
   * `a % 60` for a finite `a`, the only remainder the front end takes: the result has the sign
   * of the dividend and is smaller than the divisor in magnitude.
   */
  function Rem60(a: real): (m: real)
    ensures a >= 0.0 ==> 0.0 <= m < 60.0
    ensures a < 0.0 ==> -60.0 < m <= 0.0
    ensures (a - m) / 60.0 == Trunc(a / 60.0) as real
  {
    a - Trunc(a / 60.0) as real * 60.0
  }

  /** `Math.floor` on any number. */
  function FloorN(n: Number): Number {
    match n
    case Finite(r) => Finite(Floor(r) as real)
    case _ => n
  }

  /** `n / 60`: the infinities and NaN stay what they are. */
  function Div60N(n: Number): Number {
    match n
    case Finite(r) => Finite(r / 60.0)
    case _ => n
  }

  /** `n % 60`: NaN for a non-finite dividend. */
  function Rem60N(n: Number): Number {
    match n
    case Finite(r) => Finite(Rem60(r))
    case _ => NaN
  }

  /**
   * `String(n)` for NaN, the infinities and integral values; None for other values, which this
   * model never renders.
   */
  function IntegralToString(n: Number): string {
    match n
    case NaN => "NaN"
    case PosInf => "Infinity"
    case NegInf => "-Infinity"
    case Finite(r) => IntToString(Floor(r))
  }

  /** `s.padStart(2, '0')`. */
  function PadStart2(s: string): (r: string)
    ensures |s| >= 2 ==> r == s
    ensures |s| < 2 ==> |r| == 2 && r[2 - |s|..] == s && forall i :: 0 <= i < 2 - |s| ==> r[i] == '0'
  {
    if |s| >= 2 then s else if |s| == 1 then "0" + s else "00"
  }

  // ---------------------------------------------------------------------------
  // 32-bit integers

  const Two32: int := 0x1_0000_0000
  const Two31: int := 0x8000_0000

  /** ECMAScript ToInt32 of an integral value: reduction modulo 2^32 into [-2^31, 2^31). */
  function ToInt32(x: int): (r: int)
    ensures -Two31 <= r < Two31
    ensures (r - x) % Two32 == 0
  {
    var m := x % Two32;
    if m >= Two31 then m - Two32 else m
  }

  /** `x << 5` on an integral value. */
  function Shl5(x: int): (r: int)
    ensures -Two31 <= r < Two31
    ensures (r - ToInt32(x) * 32) % Two32 == 0
  {
    ToInt32(ToInt32(x) * 32)
  }

  // ---------------------------------------------------------------------------
  // UTF-16 code units (`s.length`, `s.charCodeAt(i)`)

  predicate IsHighSurrogate(u: int) {
    0xD800 <= u < 0xDC00
  }

  predicate IsLowSurrogate(u: int) {
    0xDC00 <= u < 0xE000
  }

  /** The code point a surrogate pair stands for. */
  function PairCodePoint(hi: int, lo: int): (cp: int)
    requires IsHighSurrogate(hi) && IsLowSurrogate(lo)
    ensures 0x1_0000 <= cp < 0x11_0000
  {
    0x1_0000 + (hi - 0xD800) * 0x400 + (lo - 0xDC00)
  }

  /** The UTF-16 code units of one character: itself, or a surrogate pair above U+FFFF. */
  function Utf16Char(c: char): (us: seq<int>)
    ensures 1 <= |us| <= 2 && forall i :: 0 <= i < |us| ==> 0 <= us[i] < 0x1_0000
    ensures |us| == 1 <==> (c as int) < 0x1_0000
    ensures |us| == 1 ==> us[0] == c as int && !IsHighSurrogate(us[0]) && !IsLowSurrogate(us[0])
    ensures |us| == 2 ==> IsHighSurrogate(us[0]) && IsLowSurrogate(us[1]) && PairCodePoint(us[0], us[1]) == c as int
  {
    var cp := c as int;
    if cp < 0x1_0000 then [cp]
    else [0xD800 + (cp - 0x1_0000) / 0x400, 0xDC00 + (cp - 0x1_0000) % 0x400]
  }

  /** The code units of a string: what `s.length`, `s[i]` and `s.charCodeAt(i)` see. */
  function Utf16(s: string): (us: seq<int>)
    ensures |us| >= |s|
    ensures forall i :: 0 <= i < |us| ==> 0 <= us[i] < 0x1_0000
  {
    if s == [] then [] else Utf16Char(s[0]) + Utf16(s[1..])
  }

  /** `s[0]` of a non-empty string: its first code unit, half of a surrogate pair for a character above U+FFFF. */
  function FirstUnit(s: string): (u: int)
    requires s != []
    ensures u == Utf16(s)[0]
    ensures 0 <= u < 0x1_0000 && !IsLowSurrogate(u)
    ensures (s[0] as int) < 0x1_0000 ==> u == s[0] as int
    ensures (s[0] as int) >= 0x1_0000 ==> IsHighSurrogate(u)
  {
    Utf16Char(s[0])[0]
  }

  /** `toUpperCase` on one code unit: ASCII letters are raised, surrogates are left alone. */
  function UpperUnit(u: int): (r: int)
    requires 0 <= u < 0x1_0000
    ensures 0 <= r < 0x1_0000
    ensures IsHighSurrogate(r) <==> IsHighSurrogate(u)
    ensures IsLowSurrogate(r) <==> IsLowSurrogate(u)
    ensures !IsHighSurrogate(u) && !IsLowSurrogate(u) ==> r == UpperChar(u as char) as int
  {
    if IsHighSurrogate(u) || IsLowSurrogate(u) then u else UpperChar(u as char) as int
  }

  /** A code unit outside the surrogate range is a character of its own. */
  predicate BmpUnit(u: int) {
    0 <= u < 0x1_0000 && !IsHighSurrogate(u) && !IsLowSurrogate(u)
  }

  function UnitChar(u: int): (c: char)
    requires BmpUnit(u)
    ensures c as int == u
  {
    u as char
  }

  /** The text whose code units are the given ones, when none of them is a surrogate. */
  function BmpText(us: seq<int>): (s: string)
    requires forall i :: 0 <= i < |us| ==> BmpUnit(us[i])
    ensures |s| == |us| && forall i :: 0 <= i < |us| ==> s[i] as int == us[i]
  {
    seq(|us|, i requires 0 <= i < |us| => UnitChar(us[i]))
  }

  /** Reading surrogate-free code units as text and taking its code units again gives them back. */
  lemma {:induction false} Utf16OfBmpText(us: seq<int>)
    requires forall i :: 0 <= i < |us| ==> BmpUnit(us[i])
    ensures Utf16(BmpText(us)) == us
    decreases |us|
  {
    if us != [] {
      var s := BmpText(us);
      assert s[1..] == BmpText(us[1..]);
      Utf16OfBmpText(us[1..]);
    }
  }

  // ---------------------------------------------------------------------------
  // encodeURIComponent

  /** The characters `encodeURIComponent` leaves alone: letters, digits and - _ . ! ~ * ' ( ). */
  predicate Unreserved(c: char) {
    'A' <= c <= 'Z' || 'a' <= c <= 'z' || '0' <= c <= '9' ||
    c == '-' || c == '_' || c == '.' || c == '!' || c == '~' || c == '*' || c == '\'' || c == '(' || c == ')'
  }

  /** A code point that is a character: not a surrogate and at most U+10FFFF. */
  predicate IsScalar(cp: int) {
    0 <= cp < 0xD800 || 0xE000 <= cp < 0x11_0000
  }

  /** The UTF-8 bytes of a character. */
  function Utf8(c: char): (bs: seq<int>)
    ensures 1 <= |bs| <= 4 && forall i :: 0 <= i < |bs| ==> 0 <= bs[i] < 256
    ensures |bs| == 1 <==> (c as int) < 0x80
    ensures |bs| == 1 ==> bs[0] == c as int
    ensures |bs| == Utf8Length(bs[0])
  {
    var cp := c as int;
    if cp < 0x80 then [cp]
    else if cp < 0x800 then [0xC0 + cp / 64, 0x80 + cp % 64]
    else if cp < 0x1_0000 then [0xE0 + cp / 4096, 0x80 + (cp / 64) % 64, 0x80 + cp % 64]
    else [0xF0 + cp / 262144, 0x80 + (cp / 4096) % 64, 0x80 + (cp / 64) % 64, 0x80 + cp % 64]
  }

  /** The length of a UTF-8 sequence, read from its lead byte. */
  function Utf8Length(lead: int): (n: nat)
    ensures 1 <= n <= 4
  {
    if lead < 0x80 then 1 else if lead < 0xE0 then 2 else if lead < 0xF0 then 3 else 4
  }

  /** The code point of one UTF-8 sequence whose length its lead byte announces. */
  function Utf8CodePoint(bs: seq<int>): int
    requires 1 <= |bs| <= 4
  {
    if |bs| == 1 then bs[0]
    else if |bs| == 2 then (bs[0] - 0xC0) * 64 + (bs[1] - 0x80)
    else if |bs| == 3 then (bs[0] - 0xE0) * 4096 + (bs[1] - 0x80) * 64 + (bs[2] - 0x80)
    else (bs[0] - 0xF0) * 262144 + (bs[1] - 0x80) * 4096 + (bs[2] - 0x80) * 64 + (bs[3] - 0x80)
  }

  /** Base-64 digits of a number below 64^3, most significant first, put back together. */
  lemma SixBitDigits(cp: int)
    requires 0 <= cp
    ensures cp == (cp / 64) * 64 + cp % 64
    ensures cp / 64 == (cp / 4096) * 64 + (cp / 64) % 64
    ensures cp / 4096 == (cp / 262144) * 64 + (cp / 4096) % 64
  {
  }

  /** Reading the bytes of a character back gives its code point. */
  lemma Utf8CodePointOfUtf8(c: char)
    ensures Utf8CodePoint(Utf8(c)) == c as int
  {
    SixBitDigits(c as int);
  }

  /** The bytes a decoder reads as text: one character per UTF-8 sequence; None when a sequence is cut short or is no character. */
  function Utf8Decode(bs: seq<int>): (s: Option<string>)
    decreases |bs|
  {
    if bs == [] then Some("")
    else
      var n := Utf8Length(bs[0]);
      if |bs| < n || !IsScalar(Utf8CodePoint(bs[..n])) then None
      else Prepend([Utf8CodePoint(bs[..n]) as char], Utf8Decode(bs[n..]))
  }

  /** A known prefix in front of an optional sequence. */
  function Prepend<T>(xs: seq<T>, o: Option<seq<T>>): (r: Option<seq<T>>)
    ensures r.Some? <==> o.Some?
    ensures r.Some? ==> r.value == xs + o.value
  {
    if o.None? then None else Some(xs + o.value)
  }

  /** The UTF-8 bytes of a text. */
  function Utf8Text(s: string): (bs: seq<int>)
    ensures forall i :: 0 <= i < |bs| ==> 0 <= bs[i] < 256
  {
    if s == [] then [] else Utf8(s[0]) + Utf8Text(s[1..])
  }

  /** Decoding a character's bytes in front of more bytes reads that character first. */
  lemma Utf8DecodeCons(c: char, rest: seq<int>)
    ensures Utf8Decode(Utf8(c) + rest) == Prepend([c], Utf8Decode(rest))
  {
    var bs := Utf8(c) + rest;
    var n := |Utf8(c)|;
    assert bs[0] == Utf8(c)[0];
    assert bs[..n] == Utf8(c) && bs[n..] == rest;
    Utf8CodePointOfUtf8(c);
  }

  /** UTF-8 decoding undoes UTF-8 encoding. */
  lemma {:induction false} Utf8DecodeEncode(s: string)
    ensures Utf8Decode(Utf8Text(s)) == Some(s)
  {
    if s != [] {
      Utf8DecodeEncode(s[1..]);
      Utf8DecodeCons(s[0], Utf8Text(s[1..]));
      assert [s[0]] + s[1..] == s;
    }
  }

  /** Different texts have different UTF-8 bytes. */
  lemma Utf8TextInjective(s: string, t: string)
    requires Utf8Text(s) == Utf8Text(t)
    ensures s == t
  {
    Utf8DecodeEncode(s);
    Utf8DecodeEncode(t);
  }

  function HexDigit(v: int): (c: char)
    requires 0 <= v < 16
    ensures Unreserved(c)
  {
    if v < 10 then ('0' as int + v) as char else ('A' as int + (v - 10)) as char
  }

  /** The escapes of a byte sequence: "%XY" per byte, upper-case hex. */
  function PercentBytes(bs: seq<int>): (r: string)
    requires forall i :: 0 <= i < |bs| ==> 0 <= bs[i] < 256
    ensures |r| == 3 * |bs|
    ensures forall i :: 0 <= i < |r| ==> Unreserved(r[i]) || r[i] == '%'
    ensures forall k :: 0 <= k < |bs| ==> r[3 * k] == '%'
    ensures bs != [] ==> r[0] == '%'
  {
    if bs == [] then ""
    else
      var rest := PercentBytes(bs[1..]);
      var r := ['%', HexDigit(bs[0] / 16), HexDigit(bs[0] % 16)] + rest;
      assert forall k :: 1 <= k < |bs| ==> r[3 * k] == rest[3 * (k - 1)];
      r
  }

  function EncodeUriComponent(s: string): (r: string)
    ensures |r| >= |s|
    ensures forall i :: 0 <= i < |r| ==> Unreserved(r[i]) || r[i] == '%'
  {
    if s == [] then ""
    else (if Unreserved(s[0]) then [s[0]] else PercentBytes(Utf8(s[0]))) + EncodeUriComponent(s[1..])
  }

  /**
   * `encodeURIComponent` on the code units of a JavaScript string: an unreserved unit stays,
   * a surrogate pair and every other unit become the escapes of their UTF-8 bytes, and a
   * surrogate without its partner raises URIError (None).
   */
  function EncodeUnits(us: seq<int>): (r: Option<string>)
    requires forall i :: 0 <= i < |us| ==> 0 <= us[i] < 0x1_0000
    decreases |us|
  {
    if us == [] then Some("")
    else if IsLowSurrogate(us[0]) then None
    else if IsHighSurrogate(us[0]) then
      if |us| >= 2 && IsLowSurrogate(us[1]) then
        Prepend(PercentBytes(Utf8(PairCodePoint(us[0], us[1]) as char)), EncodeUnits(us[2..]))
      else None
    else
      var c := UnitChar(us[0]);
      Prepend(if Unreserved(c) then [c] else PercentBytes(Utf8(c)), EncodeUnits(us[1..]))
  }

  /** On the code units of a text, the unit-level encoder never fails and agrees with the character-level one. */
  lemma {:induction false} EncodeUnitsOfUtf16(s: string)
    ensures EncodeUnits(Utf16(s)) == Some(EncodeUriComponent(s))
  {
    if s != [] {
      var us := Utf16(s);
      var head := Utf16Char(s[0]);
      assert us == head + Utf16(s[1..]);
      EncodeUnitsOfUtf16(s[1..]);
      if |head| == 1 {
        assert us[1..] == Utf16(s[1..]);
        assert UnitChar(us[0]) == s[0];
      } else {
        assert us[2..] == Utf16(s[1..]);
        assert PairCodePoint(us[0], us[1]) as char == s[0];
      }
    }
  }

  /**
   * Code units with no low surrogate, such as first units of texts, fail to encode exactly
   * when one of them is a high surrogate: nothing can follow it to complete the pair.
   */
  lemma {:induction false} EncodeUnitsFails(us: seq<int>)
    requires forall i :: 0 <= i < |us| ==> 0 <= us[i] < 0x1_0000 && !IsLowSurrogate(us[i])
    ensures EncodeUnits(us).None? <==> exists i :: 0 <= i < |us| && IsHighSurrogate(us[i])
    decreases |us|
  {
    if us != [] && !IsHighSurrogate(us[0]) {
      EncodeUnitsFails(us[1..]);
      if exists i :: 0 <= i < |us| && IsHighSurrogate(us[i]) {
        var i :| 0 <= i < |us| && IsHighSurrogate(us[i]);
        assert us[1..][i - 1] == us[i];
      }
    }
  }

  /** The value of a hexadecimal digit, either case. */
  function HexValue(c: char): (v: Option<int>)
    ensures v.Some? ==> 0 <= v.value < 16
  {
    if '0' <= c <= '9' then Some(c as int - '0' as int)
    else if 'A' <= c <= 'F' then Some(c as int - 'A' as int + 10)
    else if 'a' <= c <= 'f' then Some(c as int - 'a' as int + 10)
    else None
  }

  /**
   * The bytes an escaped text stands for, the first stage of `decodeURIComponent`: "%XY" is the
   * byte with hex digits XY, any other ASCII character its own code; None for a bad escape.
   */
  function PercentDecode(r: string): (bs: Option<seq<int>>)
    decreases |r|
  {
    if r == [] then Some([])
    else if r[0] == '%' then
      if |r| >= 3 && HexValue(r[1]).Some? && HexValue(r[2]).Some? then
        Prepend([HexValue(r[1]).value * 16 + HexValue(r[2]).value], PercentDecode(r[3..]))
      else None
    else if (r[0] as int) < 0x80 then Prepend([r[0] as int], PercentDecode(r[1..]))
    else None
  }

  /** `decodeURIComponent`: the escapes read as bytes, and the bytes read as UTF-8 text. */
  function DecodeUriComponent(r: string): Option<string> {
    match PercentDecode(r)
    case None => None
    case Some(bs) => Utf8Decode(bs)
  }

  /** A hex digit reads back as its value. */
  lemma HexValueOfDigit(v: int)
    requires 0 <= v < 16
    ensures HexValue(HexDigit(v)) == Some(v)
  {
  }

  /** One escape in front of more text decodes to its byte first. */
  lemma PercentDecodeEscape(b: int, t: string)
    requires 0 <= b < 256
    ensures PercentDecode(['%', HexDigit(b / 16), HexDigit(b % 16)] + t) == Prepend([b], PercentDecode(t))
  {
    var r := ['%', HexDigit(b / 16), HexDigit(b % 16)] + t;
    HexValueOfDigit(b / 16);
    HexValueOfDigit(b % 16);
    assert r[3..] == t;
  }

  /** Two known prefixes in a row are one. */
  lemma PrependPrepend<T>(xs: seq<T>, ys: seq<T>, o: Option<seq<T>>)
    ensures Prepend(xs, Prepend(ys, o)) == Prepend(xs + ys, o)
  {
    if o.Some? {
      assert xs + (ys + o.value) == (xs + ys) + o.value;
    }
  }

  /** Escaped bytes in front of more text decode to those bytes first. */
  lemma {:induction false} PercentDecodeBytes(bs: seq<int>, rest: string)
    requires forall i :: 0 <= i < |bs| ==> 0 <= bs[i] < 256
    ensures PercentDecode(PercentBytes(bs) + rest) == Prepend(bs, PercentDecode(rest))
    decreases |bs|
  {
    if bs == [] {
      assert PercentBytes(bs) + rest == rest;
      PrependPrepend([], [], PercentDecode(rest));
      var d := PercentDecode(rest);
      if d.Some? {
        assert bs + d.value == d.value;
      }
    } else {
      var t := PercentBytes(bs[1..]) + rest;
      assert PercentBytes(bs) + rest == ['%', HexDigit(bs[0] / 16), HexDigit(bs[0] % 16)] + t;
      PercentDecodeEscape(bs[0], t);
      PercentDecodeBytes(bs[1..], rest);
      PrependPrepend([bs[0]], bs[1..], PercentDecode(rest));
      assert [bs[0]] + bs[1..] == bs;
    }
  }

  /** The escaped text reads back as the UTF-8 bytes of the original. */
  lemma {:induction false} PercentDecodeEncode(s: string)
    ensures PercentDecode(EncodeUriComponent(s)) == Some(Utf8Text(s))
  {
    if s != [] {
      var tail := EncodeUriComponent(s[1..]);
      PercentDecodeEncode(s[1..]);
      if Unreserved(s[0]) {
        assert ([s[0]] + tail)[1..] == tail;
      } else {
        PercentDecodeBytes(Utf8(s[0]), tail);
      }
    }
  }

  /** `decodeURIComponent(encodeURIComponent(s)) === s`. */
  lemma DecodeEncodeUriComponent(s: string)
    ensures DecodeUriComponent(EncodeUriComponent(s)) == Some(s)
  {
    PercentDecodeEncode(s);
    Utf8DecodeEncode(s);
  }

  /** A lone high surrogate, the first unit of U+1F600, cannot be encoded. */
  lemma LoneSurrogateThrows()
    ensures EncodeUnits([0xD83D]) == None
  {
  }

  /** The UTF-8 bytes of U+1F600. */
  lemma Utf8OfEmoji()
    ensures Utf8('\U{1F600}') == [0xF0, 0x9F, 0x98, 0x80]
  {
  }

  /** Its escapes, upper-case hex after each '%'. */
  lemma PercentBytesOfEmoji()
    ensures PercentBytes([0xF0, 0x9F, 0x98, 0x80]) == "%F0%9F%98%80"
  {
    assert PercentBytes([0x80]) == "%80";
    assert PercentBytes([0x98, 0x80]) == "%98%80";
    assert PercentBytes([0x9F, 0x98, 0x80]) == "%9F%98%80";
  }

  /** The whole character U+1F600, a surrogate pair, encodes as the escapes of its four bytes. */
  lemma EmojiEncodes()
    ensures EncodeUriComponent("\U{1F600}") == "%F0%9F%98%80"
    ensures EncodeUnits(Utf16("\U{1F600}")) == Some("%F0%9F%98%80")
  {
    var e := "\U{1F600}";
    Utf8OfEmoji();
    PercentBytesOfEmoji();
    assert e[0] == '\U{1F600}' && e[1..] == [] && !Unreserved(e[0]);
    assert EncodeUriComponent(e) == PercentBytes(Utf8(e[0])) + EncodeUriComponent(e[1..]);
    EncodeUnitsOfUtf16(e);
  }

  /** Text made only of unreserved characters is passed through unchanged. */
  lemma {:induction false} EncodeUnreserved(s: string)
    requires forall i :: 0 <= i < |s| ==> Unreserved(s[i])
    ensures EncodeUriComponent(s) == s
  {
    if s != [] {
      EncodeUnreserved(s[1..]);
    }
  }

  /** Text with a reserved character gets a '%' escape, so the output differs from the input. */
  lemma {:induction false} EncodeEscapes(s: string, k: int)
    requires 0 <= k < |s| && !Unreserved(s[k])
    ensures '%' in EncodeUriComponent(s) && EncodeUriComponent(s) != s
    ensures |EncodeUriComponent(s)| >= |s| + 2
    decreases |s|
  {
    var head := if Unreserved(s[0]) then [s[0]] else PercentBytes(Utf8(s[0]));
    var tail := EncodeUriComponent(s[1..]);
    assert EncodeUriComponent(s) == head + tail;
    if k == 0 {
      assert head[0] == '%';
    } else {
      EncodeEscapes(s[1..], k - 1);
    }
  }
}
