/**
 The two percent-encodings the request layer relies on: `encodeURIComponent`
 (used for image paths) and the application/x-www-form-urlencoded serializer
 behind `URLSearchParams.toString()` (used for the discover query). Both encode
 a character as the UTF-8 bytes of its code point, each byte written `%XY` with
 upper-case hexadecimal digits.
 */
module UrlEncoding {
  import opened JsStrings

  /** The UTF-8 encoding of one Unicode scalar value. */
  function Utf8(c: char): (bytes: seq<int>)
    ensures 1 <= |bytes| <= 4
    ensures forall i :: 0 <= i < |bytes| ==> 0 <= bytes[i] < 256
    ensures |bytes| == 1 <==> c as int < 0x80
    ensures c as int < 0x80 ==> bytes == [c as int]
  {
    var v := c as int;
    if v < 0x80 then [v]
    else if v < 0x800 then [0xC0 + v / 64, 0x80 + v % 64]
    else if v < 0x1_0000 then [0xE0 + v / 4096, 0x80 + (v / 64) % 64, 0x80 + v % 64]
    else [0xF0 + v / 262144, 0x80 + (v / 4096) % 64, 0x80 + (v / 64) % 64, 0x80 + v % 64]
  }

  predicate IsAsciiAlnum(c: char) {
    ('0' <= c <= '9') || ('A' <= c <= 'Z') || ('a' <= c <= 'z')
  }

  predicate IsUpperHex(c: char) {
    ('0' <= c <= '9') || ('A' <= c <= 'F')
  }

  function HexDigit(d: int): (c: char)
    requires 0 <= d < 16
    ensures IsUpperHex(c)
  {
    if d < 10 then ('0' as int + d) as char else ('A' as int + d - 10) as char
  }

  function HexValue(c: char): (d: int)
    requires IsUpperHex(c)
    ensures 0 <= d < 16
  {
    if c <= '9' then c as int - '0' as int else c as int - 'A' as int + 10
  }

  /** `%XY` for one byte. */
  function PercentByte(b: int): (r: string)
    requires 0 <= b < 256
    ensures |r| == 3 && r[0] == '%' && IsUpperHex(r[1]) && IsUpperHex(r[2])
    ensures HexValue(r[1]) * 16 + HexValue(r[2]) == b
  {
    ['%', HexDigit(b / 16), HexDigit(b % 16)]
  }

  function PercentBytes(bytes: seq<int>): (r: string)
    requires forall i :: 0 <= i < |bytes| ==> 0 <= bytes[i] < 256
    ensures forall i :: 0 <= i < |r| ==> r[i] == '%' || IsUpperHex(r[i])
  {
    if |bytes| == 0 then "" else PercentByte(bytes[0]) + PercentBytes(bytes[1..])
  }

  /** The characters `encodeURIComponent` leaves as they are. */
  predicate UriUnreserved(c: char) {
    IsAsciiAlnum(c) || c in "-_.!~*'()"
  }

  /** The characters the form-urlencoded serializer leaves as they are. */
  predicate FormUnreserved(c: char) {
    IsAsciiAlnum(c) || c in "*-._"
  }

  /** `encodeURIComponent(s)`: only unreserved characters and escapes remain, so
      the result never contains a separator of a URL (`/ ? # & = +` or a space). */
  function EncodeUriComponent(s: string): (r: string)
    ensures forall i :: 0 <= i < |r| ==> UriUnreserved(r[i]) || r[i] == '%'
  {
    if |s| == 0 then ""
    else
      var c := s[0];
      (if UriUnreserved(c) then [c] else PercentBytes(Utf8(c))) + EncodeUriComponent(s[1..])
  }

  /** `decodeURIComponent` on a string of ASCII escapes: `%XY` is the character
      with code XY, every other character stands for itself. */
  function PercentDecode(t: string): string
    decreases |t|
  {
    if |t| == 0 then ""
    else if t[0] == '%' && |t| >= 3 && IsUpperHex(t[1]) && IsUpperHex(t[2]) then
      [(HexValue(t[1]) * 16 + HexValue(t[2])) as char] + PercentDecode(t[3..])
    else [t[0]] + PercentDecode(t[1..])
  }

  /** An ASCII character is escaped as the one `%XY` of its code. */
  lemma AsciiEscape(c: char)
    requires c as int < 0x80
    ensures PercentBytes(Utf8(c)) == PercentByte(c as int)
  {
    assert PercentBytes([c as int]) == PercentByte(c as int) + PercentBytes([]);
  }

  lemma PercentDecodeLiteral(c: char, rest: string)
    requires c != '%'
    ensures PercentDecode([c] + rest) == [c] + PercentDecode(rest)
  {
    assert ([c] + rest)[1..] == rest;
  }

  lemma PercentDecodeEscape(c: char, rest: string)
    requires c as int < 0x80
    ensures PercentDecode(PercentByte(c as int) + rest) == [c] + PercentDecode(rest)
  {
    assert (PercentByte(c as int) + rest)[3..] == rest;
  }

  /** Decoding `encodeURIComponent` of an ASCII string gives the string back. */
  lemma {:induction false} EncodeUriComponentRoundTrip(s: string)
    requires IsAscii(s)
    ensures PercentDecode(EncodeUriComponent(s)) == s
    decreases |s|
  {
    if |s| > 0 {
      var c := s[0];
      var rest := EncodeUriComponent(s[1..]);
      EncodeUriComponentRoundTrip(s[1..]);
      if UriUnreserved(c) {
        assert EncodeUriComponent(s) == [c] + rest;
        PercentDecodeLiteral(c, rest);
      } else {
        AsciiEscape(c);
        assert EncodeUriComponent(s) == PercentByte(c as int) + rest;
        PercentDecodeEscape(c, rest);
      }
      assert [c] + s[1..] == s;
    }
  }

  /** The form-urlencoded serialization of one name or value: a space becomes
      `+`, and only form-unreserved characters, `+` and escapes remain. */
  function FormEncode(s: string): (r: string)
    ensures forall i :: 0 <= i < |r| ==> FormUnreserved(r[i]) || r[i] == '%' || r[i] == '+'
  {
    if |s| == 0 then ""
    else
      var c := s[0];
      (if c == ' ' then "+" else if FormUnreserved(c) then [c] else PercentBytes(Utf8(c)))
        + FormEncode(s[1..])
  }

  /** Reads a form-urlencoded string of ASCII characters back: `+` is a space
      and `%XY` is the character with code XY. */
  function FormDecode(t: string): string
    decreases |t|
  {
    if |t| == 0 then ""
    else if t[0] == '+' then " " + FormDecode(t[1..])
    else if t[0] == '%' && |t| >= 3 && IsUpperHex(t[1]) && IsUpperHex(t[2]) then
      [(HexValue(t[1]) * 16 + HexValue(t[2])) as char] + FormDecode(t[3..])
    else [t[0]] + FormDecode(t[1..])
  }

  predicate IsAscii(s: string) {
    forall i :: 0 <= i < |s| ==> s[i] as int < 0x80
  }

  lemma FormDecodeLiteral(c: char, rest: string)
    requires c != '%' && c != '+'
    ensures FormDecode([c] + rest) == [c] + FormDecode(rest)
  {
    assert ([c] + rest)[1..] == rest;
  }

  lemma FormDecodePlus(rest: string)
    ensures FormDecode("+" + rest) == " " + FormDecode(rest)
  {
    assert ("+" + rest)[1..] == rest;
  }

  lemma FormDecodeEscape(c: char, rest: string)
    requires c as int < 0x80
    ensures FormDecode(PercentByte(c as int) + rest) == [c] + FormDecode(rest)
  {
    assert (PercentByte(c as int) + rest)[3..] == rest;
  }

  /** Decoding the serialization of an ASCII string gives the string back. */
  lemma {:induction false} FormEncodeRoundTrip(s: string)
    requires IsAscii(s)
    ensures FormDecode(FormEncode(s)) == s
    decreases |s|
  {
    if |s| > 0 {
      var c := s[0];
      var rest := FormEncode(s[1..]);
      FormEncodeRoundTrip(s[1..]);
      if c == ' ' {
        assert FormEncode(s) == "+" + rest;
        FormDecodePlus(rest);
      } else if FormUnreserved(c) {
        assert FormEncode(s) == [c] + rest;
        FormDecodeLiteral(c, rest);
      } else {
        AsciiEscape(c);
        assert FormEncode(s) == PercentByte(c as int) + rest;
        FormDecodeEscape(c, rest);
      }
      assert [c] + s[1..] == s;
    }
  }

  /** The serialization of a name or value never contains `&`, `=` or a space,
      so it cannot be confused with the separators of a query string. */
  lemma FormEncodeHasNoSeparator(s: string)
    ensures '&' !in FormEncode(s) && '=' !in FormEncode(s) && ' ' !in FormEncode(s)
  {
    var r := FormEncode(s);
    assert forall i :: 0 <= i < |r| ==> r[i] != '&' && r[i] != '=' && r[i] != ' ';
  }

  /** One `name=value` field of a query string. */
  function Field(pair: (string, string)): string {
    FormEncode(pair.0) + "=" + FormEncode(pair.1)
  }

  function Fields(pairs: seq<(string, string)>): (r: seq<string>)
    ensures |r| == |pairs|
    ensures forall i :: 0 <= i < |pairs| ==> r[i] == Field(pairs[i])
  {
    if |pairs| == 0 then [] else [Field(pairs[0])] + Fields(pairs[1..])
  }

  /** `URLSearchParams.toString()`: the fields in insertion order, joined by `&`. */
  function SerializeQuery(pairs: seq<(string, string)>): string {
    Join(Fields(pairs), "&")
  }

  /** Splitting a serialized query at `&` yields exactly one field per pair, in order. */
  lemma SerializeQuerySplits(pairs: seq<(string, string)>)
    requires |pairs| >= 1
    ensures Split(SerializeQuery(pairs), '&') == Fields(pairs)
  {
    var fs := Fields(pairs);
    forall i | 0 <= i < |fs|
      ensures '&' !in fs[i]
    {
      FormEncodeHasNoSeparator(pairs[i].0);
      FormEncodeHasNoSeparator(pairs[i].1);
    }
    SplitJoin(fs, '&');
  }
}
