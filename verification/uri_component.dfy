/** `encodeURIComponent` and `decodeURIComponent` of JavaScript
    (sections 19.2.6.4 and 19.2.6.2 of ECMA-262): every character other than
    the unreserved ones is written as the `%XX` escapes of its UTF-8 bytes;
    decoding reads the escapes back and throws `URIError` on a malformed
    escape, a bad UTF-8 sequence, an overlong form or a surrogate. A Dafny
    `char` is a Unicode scalar value, so the lone surrogates on which
    `encodeURIComponent` throws cannot occur here. */
module UriComponent {

  import opened Wrappers
  import opened Text

  const UriError := "URIError"

  /** The characters `encodeURIComponent` leaves alone. */
  predicate Unreserved(c: char) {
    ('A' <= c <= 'Z') || ('a' <= c <= 'z') || ('0' <= c <= '9') ||
    c == '-' || c == '_' || c == '.' || c == '!' || c == '~' || c == '*' || c == '\'' || c == '(' || c == ')'
  }

  /** The upper-case hex digit of `d`. */
  function HexUpper(d: nat): (c: char)
    requires d < 16
    ensures IsHexDigit(c) && HexDigitValue(c) == d
  {
    if d < 10 then ('0' as int + d) as char else ('A' as int + d - 10) as char
  }

  /** The UTF-8 bytes of a scalar value. */
  function Utf8(c: char): (bs: seq<nat>)
    ensures 1 <= |bs| <= 4
    ensures forall i :: 0 <= i < |bs| ==> bs[i] < 256
  {
    var v := c as int;
    if v < 0x80 then [v]
    else if v < 0x800 then [0xC0 + v / 64, 0x80 + v % 64]
    else if v < 0x10000 then [0xE0 + v / 4096, 0x80 + (v / 64) % 64, 0x80 + v % 64]
    else [0xF0 + v / 262144, 0x80 + (v / 4096) % 64, 0x80 + (v / 64) % 64, 0x80 + v % 64]
  }

  /** `%XX` for each byte, with upper-case hex digits. */
  function Percent(bs: seq<nat>): (s: string)
    requires forall i :: 0 <= i < |bs| ==> bs[i] < 256
    ensures |s| == 3 * |bs|
  {
    seq(3 * |bs|, k requires 0 <= k < 3 * |bs| =>
      if k % 3 == 0 then '%' else if k % 3 == 1 then HexUpper(bs[k / 3] / 16) else HexUpper(bs[k / 3] % 16))
  }

  function EncodeChar(c: char): string {
    if Unreserved(c) then [c] else Percent(Utf8(c))
  }

  /** `encodeURIComponent(s)` */
  function Encode(s: string): string {
    if |s| == 0 then "" else EncodeChar(s[0]) + Encode(s[1..])
  }

  /** The byte of the escape `%XX` at position `i`, if there is one. */
  function ByteAt(s: string, i: nat): (r: Option<nat>)
    ensures r.Some? ==> r.value < 256
  {
    if i + 3 <= |s| && s[i] == '%' && IsHexDigit(s[i + 1]) && IsHexDigit(s[i + 2])
    then Some(16 * HexDigitValue(s[i + 1]) + HexDigitValue(s[i + 2]))
    else None
  }

  /** The six payload bits of a continuation byte `10xxxxxx` at `i`. */
  function ContAt(s: string, i: nat): (r: Option<nat>)
    ensures r.Some? ==> r.value < 64
  {
    var b :- ByteAt(s, i);
    if 0x80 <= b < 0xC0 then Some(b - 0x80) else None
  }

  /** A scalar value as a `char`, when it is one. */
  function ToChar(v: int): Option<char> {
    if 0 <= v < 0xD800 || 0xE000 <= v < 0x11_0000 then Some(v as char) else None
  }

  /** The character the escapes at the start of `s` stand for, and how many
      characters of `s` they take; None where JavaScript throws. */
  function DecodeEscape(s: string): (r: Option<(char, nat)>)
    ensures r.Some? ==> 3 <= r.value.1 <= |s|
  {
    var b :- ByteAt(s, 0);
    if b < 0x80 then Some((b as char, 3))
    else if b < 0xC0 then None
    else if b < 0xE0 then
      var c1 :- ContAt(s, 3);
      var v := (b - 0xC0) * 64 + c1;
      if v < 0x80 then None else var c :- ToChar(v); Some((c, 6))
    else if b < 0xF0 then
      var c1 :- ContAt(s, 3);
      var c2 :- ContAt(s, 6);
      var v := (b - 0xE0) * 4096 + c1 * 64 + c2;
      if v < 0x800 then None else var c :- ToChar(v); Some((c, 9))
    else if b < 0xF8 then
      var c1 :- ContAt(s, 3);
      var c2 :- ContAt(s, 6);
      var c3 :- ContAt(s, 9);
      var v := (b - 0xF0) * 262144 + c1 * 4096 + c2 * 64 + c3;
      if v < 0x10000 then None else var c :- ToChar(v); Some((c, 12))
    else None
  }

  function Prepend(c: char, r: Result<string>): Result<string> {
    match r
    case Success(t) => Success([c] + t)
    case Failure(e) => Failure(e)
  }

  /** `decodeURIComponent(s)`: the only error it raises is `URIError`. */
  function Decode(s: string): (r: Result<string>)
    ensures r.Failure? ==> r.error == UriError
    decreases |s|
  {
    if |s| == 0 then Success("")
    else if s[0] != '%' then Prepend(s[0], Decode(s[1..]))
    else match DecodeEscape(s)
      case None => Failure(UriError)
      case Some((c, n)) => Prepend(c, Decode(s[n..]))
  }

  // ---------------------------------------------------------------------
  // Round trip
  // ---------------------------------------------------------------------

  /** The escapes of `bs` read back byte by byte. */
  lemma PercentByteAt(bs: seq<nat>, rest: string, i: nat)
    requires forall j :: 0 <= j < |bs| ==> bs[j] < 256
    requires i < |bs|
    ensures ByteAt(Percent(bs) + rest, 3 * i) == Some(bs[i])
  {
    var s := Percent(bs) + rest;
    assert s[3 * i] == '%';
    assert s[3 * i + 1] == HexUpper(bs[i] / 16);
    assert s[3 * i + 2] == HexUpper(bs[i] % 16);
  }

  /** The escapes of a character's UTF-8 bytes decode to that character. */
  lemma DecodeEscapeUtf8(c: char, rest: string)
    ensures DecodeEscape(Percent(Utf8(c)) + rest) == Some((c, 3 * |Utf8(c)|))
  {
    var v := c as int;
    if v < 0x80 {
      PercentByteAt(Utf8(c), rest, 0);
    } else if v < 0x800 {
      Escape2(c, rest);
    } else if v < 0x10000 {
      Escape3(c, rest);
    } else {
      Escape4(c, rest);
    }
  }

  lemma Escape2(c: char, rest: string)
    requires 0x80 <= c as int < 0x800
    ensures DecodeEscape(Percent(Utf8(c)) + rest) == Some((c, 6))
  {
    var v := c as int;
    var bs := Utf8(c);
    var s := Percent(bs) + rest;
    PercentByteAt(bs, rest, 0);
    PercentByteAt(bs, rest, 1);
    assert ByteAt(s, 0) == Some(0xC0 + v / 64);
    assert ContAt(s, 3) == Some(v % 64);
    assert (v / 64) * 64 + v % 64 == v;
    assert ToChar(v) == Some(c);
  }

  lemma Escape3(c: char, rest: string)
    requires 0x800 <= c as int < 0x10000
    ensures DecodeEscape(Percent(Utf8(c)) + rest) == Some((c, 9))
  {
    var v := c as int;
    var bs := Utf8(c);
    var s := Percent(bs) + rest;
    PercentByteAt(bs, rest, 0);
    PercentByteAt(bs, rest, 1);
    PercentByteAt(bs, rest, 2);
    assert ByteAt(s, 0) == Some(0xE0 + v / 4096);
    assert ContAt(s, 3) == Some((v / 64) % 64);
    assert ContAt(s, 6) == Some(v % 64);
    Split64(v);
    assert ToChar(v) == Some(c);
  }

  lemma Escape4(c: char, rest: string)
    requires 0x10000 <= c as int
    ensures DecodeEscape(Percent(Utf8(c)) + rest) == Some((c, 12))
  {
    var v := c as int;
    var bs := Utf8(c);
    var s := Percent(bs) + rest;
    PercentByteAt(bs, rest, 0);
    PercentByteAt(bs, rest, 1);
    PercentByteAt(bs, rest, 2);
    PercentByteAt(bs, rest, 3);
    Value4(v);
    Decode4(s, 0xF0 + v / 262144, (v / 4096) % 64, (v / 64) % 64, v % 64);
    assert ToChar(v) == Some(c);
  }

  /** The four bytes of a scalar value above 0xFFFF put its bits back
      together. */
  lemma Value4(v: nat)
    requires 0x10000 <= v < 0x11_0000
    ensures 0xF0 <= 0xF0 + v / 262144 < 0xF8
    ensures (v / 262144) * 262144 + ((v / 4096) % 64) * 4096 + ((v / 64) % 64) * 64 + v % 64 == v
  {
    Split64(v);
    Split64(v / 64);
    assert v / 64 / 64 == v / 4096 && v / 4096 / 64 == v / 262144;
  }

  /** A four-byte escape decodes to the value of its payload bits. */
  lemma Decode4(s: string, b: nat, c1: nat, c2: nat, c3: nat)
    requires ByteAt(s, 0) == Some(b) && 0xF0 <= b < 0xF8
    requires ByteAt(s, 3) == Some(0x80 + c1) && c1 < 64
    requires ByteAt(s, 6) == Some(0x80 + c2) && c2 < 64
    requires ByteAt(s, 9) == Some(0x80 + c3) && c3 < 64
    ensures var v := (b - 0xF0) * 262144 + c1 * 4096 + c2 * 64 + c3;
      DecodeEscape(s) == (if v < 0x10000 then None else match ToChar(v) case None => None case Some(c) => Some((c, 12)))
  {
    assert ContAt(s, 3) == Some(c1) && ContAt(s, 6) == Some(c2) && ContAt(s, 9) == Some(c3);
  }

  /** Six bits at a time. */
  lemma Split64(v: nat)
    ensures v == (v / 4096) * 4096 + ((v / 64) % 64) * 64 + v % 64
  {
    assert v == (v / 64) * 64 + v % 64;
    assert v / 64 == (v / 4096) * 64 + (v / 64) % 64;
  }

  /** One encoded character decodes back in front of whatever follows. */
  lemma DecodeEncodeChar(c: char, rest: string)
    ensures Decode(EncodeChar(c) + rest) == Prepend(c, Decode(rest))
  {
    var s := EncodeChar(c) + rest;
    if Unreserved(c) {
      assert s[0] == c && s[1..] == rest;
    } else {
      DecodeEscapeUtf8(c, rest);
      var n := 3 * |Utf8(c)|;
      assert s[0] == '%';
      assert s[n..] == rest;
    }
  }

  /** `decodeURIComponent(encodeURIComponent(s)) === s` for every string. */
  lemma {:induction false} DecodeEncode(s: string)
    ensures Decode(Encode(s)) == Success(s)
    decreases |s|
  {
    if |s| > 0 {
      DecodeEncodeChar(s[0], Encode(s[1..]));
      DecodeEncode(s[1..]);
      assert [s[0]] + s[1..] == s;
    }
  }

  /** `encodeURIComponent` never writes a `/`, so the encoded text is one
      path segment. */
  lemma {:induction false} EncodeHasNoSlash(s: string)
    ensures '/' !in Encode(s)
    decreases |s|
  {
    if |s| > 0 {
      EncodeHasNoSlash(s[1..]);
      var e := EncodeChar(s[0]);
      if !Unreserved(s[0]) {
        forall k | 0 <= k < |e|
          ensures e[k] != '/'
        {
        }
      }
      assert Encode(s) == e + Encode(s[1..]);
    }
  }

  /** A lone `%` is malformed. */
  lemma DecodeLonePercent()
    ensures Decode("%") == Failure(UriError)
  {
  }
}
