/**
 * Base64 with the standard alphabet and '=' padding, as defined in section 4 of RFC 4648.
 * `Encode` is what Python's `base64.b64encode(...).decode("utf-8")` produces; `Decode` is
 * the decoder applied to well-formed input.
 */
module Base64 {
  import opened Wrappers

  type Byte = b: int | 0 <= b < 256
  type Bytes = seq<Byte>
  type Sextet = v: int | 0 <= v < 64

  /** The character for a 6-bit value (table 1 of RFC 4648). */
  function CharOf(v: Sextet): (c: char)
    ensures InAlphabet(c)
  {
    if v < 26 then ('A' as int + v) as char
    else if v < 52 then ('a' as int + (v - 26)) as char
    else if v < 62 then ('0' as int + (v - 52)) as char
    else if v == 62 then '+'
    else '/'
  }

  /** The characters of the base64 alphabet ('=' is not one of them). */
  predicate InAlphabet(c: char) {
    'A' <= c <= 'Z' || 'a' <= c <= 'z' || '0' <= c <= '9' || c == '+' || c == '/'
  }

  /** The 6-bit value of an alphabet character. */
  function Val(c: char): (v: Sextet)
    requires InAlphabet(c)
    ensures CharOf(v) == c
  {
    if 'A' <= c <= 'Z' then c as int - 'A' as int
    else if 'a' <= c <= 'z' then c as int - 'a' as int + 26
    else if '0' <= c <= '9' then c as int - '0' as int + 52
    else if c == '+' then 62
    else 63
  }

  lemma ValCharOf(v: Sextet)
    ensures InAlphabet(CharOf(v)) && Val(CharOf(v)) == v
  {
  }

  /** Three bytes as four characters. */
  function EncodeBlock(b0: Byte, b1: Byte, b2: Byte): (q: string)
    ensures |q| == 4 && forall i :: 0 <= i < 4 ==> InAlphabet(q[i])
  {
    [CharOf(b0 / 4), CharOf((b0 % 4) * 16 + b1 / 16), CharOf((b1 % 16) * 4 + b2 / 64), CharOf(b2 % 64)]
  }

  /** The final one or two bytes, padded with '=' to four characters. */
  function EncodeTail(b: Bytes): (q: string)
    requires 1 <= |b| <= 2
    ensures |q| == 4 && forall i :: 0 <= i < 4 ==> InAlphabet(q[i]) || q[i] == '='
  {
    if |b| == 1 then [CharOf(b[0] / 4), CharOf((b[0] % 4) * 16), '=', '=']
    else [CharOf(b[0] / 4), CharOf((b[0] % 4) * 16 + b[1] / 16), CharOf((b[1] % 16) * 4), '=']
  }

  function Encode(b: Bytes): (s: string)
    ensures |s| == (|b| + 2) / 3 * 4
    ensures forall i :: 0 <= i < |s| ==> InAlphabet(s[i]) || s[i] == '='
    decreases |b|
  {
    if |b| == 0 then ""
    else if |b| <= 2 then EncodeTail(b)
    else EncodeBlock(b[0], b[1], b[2]) + Encode(b[3..])
  }

  /** The bytes carried by consecutive sextets (section 4 of RFC 4648, figure of 24-bit groups). */
  function First(v0: Sextet, v1: Sextet): Byte { v0 * 4 + v1 / 16 }
  function Second(v1: Sextet, v2: Sextet): Byte { (v1 % 16) * 16 + v2 / 4 }
  function Third(v2: Sextet, v3: Sextet): Byte { (v2 % 4) * 64 + v3 }

  /** Four alphabet characters as three bytes. */
  function DecodeBlock(q: string): Option<Bytes>
    requires |q| == 4
  {
    if InAlphabet(q[0]) && InAlphabet(q[1]) && InAlphabet(q[2]) && InAlphabet(q[3]) then
      Some([First(Val(q[0]), Val(q[1])), Second(Val(q[1]), Val(q[2])), Third(Val(q[2]), Val(q[3]))])
    else None
  }

  /** The last quad, which may end in "=" or "==". */
  function DecodeLast(q: string): Option<Bytes>
    requires |q| == 4
  {
    if q[2] == '=' && q[3] == '=' then
      if InAlphabet(q[0]) && InAlphabet(q[1]) then Some([First(Val(q[0]), Val(q[1]))]) else None
    else if q[3] == '=' then
      if InAlphabet(q[0]) && InAlphabet(q[1]) && InAlphabet(q[2]) then
        Some([First(Val(q[0]), Val(q[1])), Second(Val(q[1]), Val(q[2]))])
      else None
    else DecodeBlock(q)
  }

  /** Decoding of padded base64 text; None when the text is not a sequence of valid quads. */
  function Decode(s: string): (r: Option<Bytes>)
    ensures r.Some? ==> |s| % 4 == 0
    decreases |s|
  {
    if s == [] then Some([])
    else if |s| % 4 != 0 || |s| < 4 then None
    else if |s| == 4 then DecodeLast(s)
    else
      match DecodeBlock(s[..4])
      case None => None
      case Some(head) =>
        match Decode(s[4..])
        case None => None
        case Some(tail) => Some(head + tail)
  }

  lemma SplitByte(b0: Byte, b1: Byte, b2: Byte)
    ensures First(b0 / 4, (b0 % 4) * 16 + b1 / 16) == b0
    ensures Second((b0 % 4) * 16 + b1 / 16, (b1 % 16) * 4 + b2 / 64) == b1
    ensures Third((b1 % 16) * 4 + b2 / 64, b2 % 64) == b2
  {
  }

  lemma DecodeEncodeBlock(b0: Byte, b1: Byte, b2: Byte)
    ensures DecodeBlock(EncodeBlock(b0, b1, b2)) == Some([b0, b1, b2])
  {
    var v0: Sextet, v1: Sextet, v2: Sextet, v3: Sextet := b0 / 4, (b0 % 4) * 16 + b1 / 16, (b1 % 16) * 4 + b2 / 64, b2 % 64;
    ValCharOf(v0);
    ValCharOf(v1);
    ValCharOf(v2);
    ValCharOf(v3);
    SplitByte(b0, b1, b2);
    var q := EncodeBlock(b0, b1, b2);
    assert q == [CharOf(v0), CharOf(v1), CharOf(v2), CharOf(v3)];
    assert DecodeBlock(q) == Some([First(v0, v1), Second(v1, v2), Third(v2, v3)]);
  }

  lemma CharOfNotPad(v: Sextet)
    ensures CharOf(v) != '='
  {
  }

  lemma DecodeEncodeOne(b0: Byte)
    ensures DecodeLast(EncodeTail([b0])) == Some([b0])
  {
    var v0, v1 := b0 / 4, (b0 % 4) * 16;
    ValCharOf(v0);
    ValCharOf(v1);
    assert First(v0, v1) == b0;
  }

  lemma DecodeEncodeTwo(b0: Byte, b1: Byte)
    ensures DecodeLast(EncodeTail([b0, b1])) == Some([b0, b1])
  {
    var v0, v1, v2 := b0 / 4, (b0 % 4) * 16 + b1 / 16, (b1 % 16) * 4;
    ValCharOf(v0);
    ValCharOf(v1);
    ValCharOf(v2);
    CharOfNotPad(v2);
    SplitByte(b0, b1, 0);
  }

  lemma DecodeEncodeTail(b: Bytes)
    requires 1 <= |b| <= 2
    ensures DecodeLast(EncodeTail(b)) == Some(b)
  {
    if |b| == 1 {
      DecodeEncodeOne(b[0]);
      assert b == [b[0]];
    } else {
      DecodeEncodeTwo(b[0], b[1]);
      assert b == [b[0], b[1]];
    }
  }

  lemma AddFourKeepsMod(n: nat)
    ensures (n + 4) % 4 == n % 4
  {
  }

  /** A decodable full block followed by decodable quads decodes to the concatenation. */
  lemma DecodeCons(q: string, rest: string, head: Bytes, tail: Bytes)
    requires |q| == 4 && rest != []
    requires DecodeBlock(q) == Some(head) && Decode(rest) == Some(tail)
    ensures Decode(q + rest) == Some(head + tail)
  {
    var s := q + rest;
    assert s[..4] == q && s[4..] == rest;
    assert |rest| % 4 == 0;
    assert |s| == |rest| + 4;
    AddFourKeepsMod(|rest|);
    assert |s| > 4;
    assert s != [];
    assert Decode(s) == match DecodeBlock(s[..4]) case None => None case Some(h) => (match Decode(s[4..]) case None => None case Some(t) => Some(h + t));
  }

  /** A single full block is its own last quad and carries no padding. */
  lemma DecodeEncodeLastBlock(b0: Byte, b1: Byte, b2: Byte)
    ensures Decode(EncodeBlock(b0, b1, b2)) == Some([b0, b1, b2])
  {
    var q := EncodeBlock(b0, b1, b2);
    CharOfNotPad((b1 % 16) * 4 + b2 / 64);
    CharOfNotPad(b2 % 64);
    DecodeEncodeBlock(b0, b1, b2);
    assert Decode(q) == DecodeLast(q);
  }

  /** Exactly three bytes: one unpadded quad. */
  lemma DecodeEncodeThree(b: Bytes)
    requires |b| == 3
    ensures Decode(Encode(b)) == Some(b)
  {
    FirstThree(b);
    assert b[3..] == [];
    assert [b[0], b[1], b[2]] + b[3..] == [b[0], b[1], b[2]];
    assert Encode(b) == EncodeBlock(b[0], b[1], b[2]);
    DecodeEncodeLastBlock(b[0], b[1], b[2]);
  }

  /** More than three bytes encode as a full quad followed by the non-empty encoding of the rest. */
  lemma EncodeSplit(b: Bytes)
    requires |b| > 3
    ensures Encode(b) == EncodeBlock(b[0], b[1], b[2]) + Encode(b[3..]) && Encode(b[3..]) != []
  {
  }

  lemma FirstThree(b: Bytes)
    requires |b| >= 3
    ensures b == [b[0], b[1], b[2]] + b[3..]
  {
  }

  /** More than three bytes: a full quad in front of the encoding of the rest. */
  lemma DecodeEncodeStep(b: Bytes)
    requires |b| > 3 && Decode(Encode(b[3..])) == Some(b[3..])
    ensures Decode(Encode(b)) == Some(b)
  {
    EncodeSplit(b);
    FirstThree(b);
    DecodeEncodeBlock(b[0], b[1], b[2]);
    DecodeCons(EncodeBlock(b[0], b[1], b[2]), Encode(b[3..]), [b[0], b[1], b[2]], b[3..]);
  }

  /** Decoding the encoding of any byte string returns that byte string. */
  lemma {:induction false} DecodeEncode(b: Bytes)
    ensures Decode(Encode(b)) == Some(b)
    decreases |b|
  {
    if |b| == 0 {
    } else if |b| <= 2 {
      DecodeEncodeTail(b);
    } else if |b| == 3 {
      DecodeEncodeThree(b);
    } else {
      DecodeEncode(b[3..]);
      DecodeEncodeStep(b);
    }
  }

  /** Encoding is injective: distinct audio gives distinct payload text. */
  lemma EncodeInjective(a: Bytes, b: Bytes)
    requires Encode(a) == Encode(b)
    ensures a == b
  {
    DecodeEncode(a);
    DecodeEncode(b);
  }
}
