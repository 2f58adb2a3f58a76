/**
 * `encodeURIComponent` (section 19.2.6 of ECMA-262, 2023 edition): every
 * character outside the unreserved set `A-Z a-z 0-9 - _ . ! ~ * ' ( )` is
 * written as the UTF-8 bytes of its code point, each as `%` and two
 * upper-case hexadecimal digits (the percent-encoding of section 2.1 of
 * RFC 3986). A Dafny `char` is a Unicode scalar value, so the URIError that
 * JavaScript raises for a lone surrogate cannot arise.
 *
 * `DecodeUriComponent` is the inverse used to state what the encoding
 * preserves.
 */
module UriEncoding {
  import opened Wrappers

  type Byte = b: int | 0 <= b < 256

  /** The characters `encodeURIComponent` leaves as they are. */
  predicate IsUnreserved(c: char) {
    || ('A' <= c <= 'Z') || ('a' <= c <= 'z') || ('0' <= c <= '9')
    || c == '-' || c == '_' || c == '.' || c == '!' || c == '~'
    || c == '*' || c == '\'' || c == '(' || c == ')'
  }

  predicate IsUpperHex(c: char) {
    ('0' <= c <= '9') || ('A' <= c <= 'F')
  }

  predicate IsHex(c: char) {
    IsUpperHex(c) || ('a' <= c <= 'f')
  }

  function HexValue(c: char): (d: nat)
    requires IsHex(c)
    ensures d < 16
  {
    if '0' <= c <= '9' then c as int - '0' as int
    else if 'A' <= c <= 'F' then c as int - 'A' as int + 10
    else c as int - 'a' as int + 10
  }

  function HexDigit(d: nat): (c: char)
    requires d < 16
    ensures IsUpperHex(c) && HexValue(c) == d
  {
    if d < 10 then ('0' as int + d) as char else ('A' as int + d - 10) as char
  }

  /** The UTF-8 encoding of the code point of `c`. */
  function Utf8(c: char): (bs: seq<Byte>)
    ensures 1 <= |bs| <= 4
  {
    var cp := c as int;
    if cp < 0x80 then [cp]
    else if cp < 0x800 then [0xC0 + cp / 64, 0x80 + cp % 64]
    else if cp < 0x10000 then [0xE0 + cp / 4096, 0x80 + (cp / 64) % 64, 0x80 + cp % 64]
    else [0xF0 + cp / 262144, 0x80 + (cp / 4096) % 64, 0x80 + (cp / 64) % 64, 0x80 + cp % 64]
  }

  /** `%HH` for every byte. */
  function PercentBytes(bs: seq<Byte>): (r: string)
    ensures |r| == 3 * |bs|
    ensures forall i | 0 <= i < |r| :: r[i] == '%' || IsUpperHex(r[i])
  {
    if bs == [] then [] else ['%', HexDigit(bs[0] / 16), HexDigit(bs[0] % 16)] + PercentBytes(bs[1..])
  }

  function EncodeChar(c: char): (r: string)
    ensures r != []
    ensures forall i | 0 <= i < |r| :: IsUnreserved(r[i]) || r[i] == '%' || IsUpperHex(r[i])
  {
    if IsUnreserved(c) then [c] else PercentBytes(Utf8(c))
  }

  /**
   * `encodeURIComponent(s)`. Its result consists of unreserved characters,
   * `%` and hexadecimal digits only, so it cannot carry a separator such as
   * `&`, `=`, `?` or `#` into a URI; text made of unreserved characters is
   * left unchanged.
   */
  function EncodeUriComponent(s: string): (r: string)
    ensures forall i | 0 <= i < |r| :: IsUnreserved(r[i]) || r[i] == '%' || IsUpperHex(r[i])
    ensures (forall i | 0 <= i < |s| :: IsUnreserved(s[i])) ==> r == s
    decreases |s|
  {
    if s == [] then [] else EncodeChar(s[0]) + EncodeUriComponent(s[1..])
  }

  /** The byte written as `%HH` at position `i` of `s`, if there is one. */
  function ByteAt(s: string, i: nat): (r: Option<Byte>)
  {
    if i + 3 <= |s| && s[i] == '%' && IsHex(s[i + 1]) && IsHex(s[i + 2])
    then Some(16 * HexValue(s[i + 1]) + HexValue(s[i + 2]))
    else None
  }

  /** The six payload bits of a UTF-8 continuation byte at position `i`. */
  function ContinuationAt(s: string, i: nat): (r: Option<nat>)
    ensures r.Some? ==> r.value < 64
  {
    match ByteAt(s, i)
    case Some(b) => if 0x80 <= b < 0xC0 then Some(b - 0x80) else None
    case None => None
  }

  /** Decodes the first character of `s`, with the number of characters it took up. */
  function DecodeOne(s: string): (r: Option<(char, nat)>)
    requires s != []
    ensures r.Some? ==> 1 <= r.value.1 <= |s|
  {
    if s[0] != '%' then Some((s[0], 1))
    else match ByteAt(s, 0)
      case None => None
      case Some(b0) =>
        if b0 < 0x80 then Some((b0 as char, 3))
        else if 0xC2 <= b0 < 0xE0 then
          match ContinuationAt(s, 3)
          case None => None
          case Some(b1) => Some((((b0 - 0xC0) * 64 + b1) as char, 6))
        else if 0xE0 <= b0 < 0xF0 then
          match (ContinuationAt(s, 3), ContinuationAt(s, 6))
          case (Some(b1), Some(b2)) =>
            var cp := (b0 - 0xE0) * 4096 + b1 * 64 + b2;
            if 0x800 <= cp && !(0xD800 <= cp < 0xE000) then Some((cp as char, 9)) else None
          case _ => None
        else if 0xF0 <= b0 < 0xF5 then
          match (ContinuationAt(s, 3), ContinuationAt(s, 6), ContinuationAt(s, 9))
          case (Some(b1), Some(b2), Some(b3)) =>
            var cp := (b0 - 0xF0) * 262144 + b1 * 4096 + b2 * 64 + b3;
            if 0x10000 <= cp < 0x110000 then Some((cp as char, 12)) else None
          case _ => None
        else None
  }

  /** `decodeURIComponent(s)`; `None` stands for the URIError on malformed input. */
  function DecodeUriComponent(s: string): (r: Option<string>)
    decreases |s|
  {
    if s == [] then Some([])
    else match DecodeOne(s)
      case None => None
      case Some((c, n)) =>
        match DecodeUriComponent(s[n..])
        case None => None
        case Some(rest) => Some([c] + rest)
  }

  lemma {:induction false} PercentBytesAt(bs: seq<Byte>, rest: string, k: nat)
    requires k < |bs|
    ensures ByteAt(PercentBytes(bs) + rest, 3 * k) == Some(bs[k])
    decreases k
  {
    var h := ['%', HexDigit(bs[0] / 16), HexDigit(bs[0] % 16)];
    var t' := PercentBytes(bs[1..]) + rest;
    assert PercentBytes(bs) + rest == h + t';
    if k == 0 {
      assert (h + t')[..3] == h;
    } else {
      PercentBytesAt(bs[1..], rest, k - 1);
      ByteAtShift(h, t', 3 * (k - 1));
    }
  }

  /** Three characters in front move every `%HH` by three positions. */
  lemma ByteAtShift(h: string, t: string, i: nat)
    requires |h| == 3
    ensures ByteAt(h + t, i + 3) == ByteAt(t, i)
  {
    var s := h + t;
    if i + 3 <= |t| {
      assert s[i + 3] == t[i] && s[i + 4] == t[i + 1] && s[i + 5] == t[i + 2];
    }
  }

  lemma Split64(x: int)
    requires 0 <= x
    ensures (x / 64) * 64 + x % 64 == x
  {
  }

  lemma Compose3(cp: int)
    requires 0 <= cp
    ensures (cp / 4096) * 4096 + ((cp / 64) % 64) * 64 + cp % 64 == cp
  {
    Split64(cp);
    Split64(cp / 64);
    assert cp / 64 / 64 == cp / 4096;
  }

  lemma Compose4(cp: int)
    requires 0 <= cp
    ensures (cp / 262144) * 262144 + ((cp / 4096) % 64) * 4096 + ((cp / 64) % 64) * 64 + cp % 64 == cp
  {
    Compose3(cp);
    Split64(cp / 4096);
    assert cp / 4096 / 64 == cp / 262144;
  }

  lemma DecodeTwo(c: char, rest: string)
    requires 0x80 <= c as int < 0x800
    ensures DecodeOne(PercentBytes(Utf8(c)) + rest) == Some((c, 6))
  {
    var cp := c as int;
    var bs := Utf8(c);
    var s := PercentBytes(bs) + rest;
    PercentBytesAt(bs, rest, 0);
    PercentBytesAt(bs, rest, 1);
    assert s[0] == '%';
    assert ContinuationAt(s, 3) == Some(cp % 64);
    Split64(cp);
  }

  lemma DecodeThree(c: char, rest: string)
    requires 0x800 <= c as int < 0x10000
    ensures DecodeOne(PercentBytes(Utf8(c)) + rest) == Some((c, 9))
  {
    var cp := c as int;
    var bs := Utf8(c);
    var s := PercentBytes(bs) + rest;
    PercentBytesAt(bs, rest, 0);
    PercentBytesAt(bs, rest, 1);
    PercentBytesAt(bs, rest, 2);
    assert s[0] == '%';
    assert ContinuationAt(s, 3) == Some((cp / 64) % 64);
    assert ContinuationAt(s, 6) == Some(cp % 64);
    Compose3(cp);
  }

  lemma DecodeFour(c: char, rest: string)
    requires 0x10000 <= c as int
    ensures DecodeOne(PercentBytes(Utf8(c)) + rest) == Some((c, 12))
  {
    var cp := c as int;
    var bs := Utf8(c);
    var s := PercentBytes(bs) + rest;
    PercentBytesAt(bs, rest, 0);
    PercentBytesAt(bs, rest, 1);
    PercentBytesAt(bs, rest, 2);
    PercentBytesAt(bs, rest, 3);
    assert s[0] == '%';
    assert ContinuationAt(s, 3) == Some((cp / 4096) % 64);
    assert ContinuationAt(s, 6) == Some((cp / 64) % 64);
    assert ContinuationAt(s, 9) == Some(cp % 64);
    Compose4(cp);
  }

  /** Decoding the encoding of one character, followed by anything, reads back that character. */
  lemma DecodeOneOfEncodeChar(c: char, rest: string)
    ensures DecodeOne(EncodeChar(c) + rest) == Some((c, |EncodeChar(c)|))
  {
    if !IsUnreserved(c) {
      var cp := c as int;
      if cp < 0x80 {
        PercentBytesAt(Utf8(c), rest, 0);
      } else if cp < 0x800 {
        DecodeTwo(c, rest);
      } else if cp < 0x10000 {
        DecodeThree(c, rest);
      } else {
        DecodeFour(c, rest);
      }
    }
  }

  /** Round trip: `decodeURIComponent(encodeURIComponent(s)) == s` for every string. */
  lemma {:induction false} DecodeOfEncode(s: string)
    ensures DecodeUriComponent(EncodeUriComponent(s)) == Some(s)
    decreases |s|
  {
    if s != [] {
      var e := EncodeChar(s[0]);
      var tail := EncodeUriComponent(s[1..]);
      DecodeOneOfEncodeChar(s[0], tail);
      DecodeOfEncode(s[1..]);
      DecodeStep(s, e, tail);
    }
  }

  /** A text whose first character decodes from `e` and whose remaining ones from `tail` decodes from `e + tail`. */
  lemma DecodeStep(s: string, e: string, tail: string)
    requires s != [] && e != []
    requires DecodeOne(e + tail) == Some((s[0], |e|))
    requires DecodeUriComponent(tail) == Some(s[1..])
    ensures DecodeUriComponent(e + tail) == Some(s)
  {
    assert (e + tail)[|e|..] == tail;
    assert s == [s[0]] + s[1..];
  }

  /** Different texts have different encodings. */
  lemma EncodeInjective(s: string, t: string)
    ensures EncodeUriComponent(s) == EncodeUriComponent(t) ==> s == t
  {
    DecodeOfEncode(s);
    DecodeOfEncode(t);
  }
}
