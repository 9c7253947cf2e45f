/** `Patron::Session#urlencode` (libcurl's escape): the UTF-8 bytes of a
    string, each kept when it is an unreserved character (letters, digits,
    `-`, `.`, `_`, `~`) and written `%XY` in upper-case hex otherwise. Also
    its inverse, used to read a query string back. */
module UrlEncoding {
  import opened Values

  newtype byte = x: int | 0 <= x < 256

  /** The UTF-8 encoding of one Unicode scalar value. */
  function Utf8Char(c: char): (bs: seq<byte>)
    ensures 1 <= |bs| <= 4
  {
    var cp := c as int;
    if cp < 0x80 then [cp as byte]
    else if cp < 0x800 then [(0xC0 + cp / 64) as byte, (0x80 + cp % 64) as byte]
    else if cp < 0x10000 then
      [(0xE0 + cp / 4096) as byte, (0x80 + (cp / 64) % 64) as byte, (0x80 + cp % 64) as byte]
    else
      [(0xF0 + cp / 262144) as byte, (0x80 + (cp / 4096) % 64) as byte,
       (0x80 + (cp / 64) % 64) as byte, (0x80 + cp % 64) as byte]
  }

  function Utf8(s: string): seq<byte> {
    if |s| == 0 then [] else Utf8Char(s[0]) + Utf8(s[1..])
  }

  predicate Unreserved(b: byte) {
    ('A' as byte <= b <= 'Z' as byte) || ('a' as byte <= b <= 'z' as byte)
    || ('0' as byte <= b <= '9' as byte)
    || b == '-' as byte || b == '.' as byte || b == '_' as byte || b == '~' as byte
  }

  /** The upper-case hexadecimal digit of `d`. */
  function HexDigit(d: int): (c: char)
    requires 0 <= d < 16
  {
    if d < 10 then ('0' as int + d) as char else ('A' as int + d - 10) as char
  }

  predicate IsHex(c: char) {
    ('0' <= c <= '9') || ('A' <= c <= 'F') || ('a' <= c <= 'f')
  }

  function HexValue(c: char): (d: int)
    requires IsHex(c)
    ensures 0 <= d < 16
  {
    if '0' <= c <= '9' then c as int - '0' as int
    else if 'A' <= c <= 'F' then c as int - 'A' as int + 10
    else c as int - 'a' as int + 10
  }

  function EscapeByte(b: byte): (t: string)
    ensures t == [b as int as char] || (|t| == 3 && t[0] == '%' && IsHex(t[1]) && IsHex(t[2]))
  {
    if Unreserved(b) then [b as int as char]
    else ['%', HexDigit(b as int / 16), HexDigit(b as int % 16)]
  }

  function EscapeBytes(bs: seq<byte>): string {
    if |bs| == 0 then "" else EscapeByte(bs[0]) + EscapeBytes(bs[1..])
  }

  /** `urlencode(s)`. */
  function Encode(s: string): string {
    EscapeBytes(Utf8(s))
  }

  /** Percent-decoding; `None` when a character is not a single byte. */
  function Decode(t: string): Option<seq<byte>> {
    if |t| == 0 then Some([])
    else if t[0] == '%' && |t| >= 3 && IsHex(t[1]) && IsHex(t[2]) then
      match Decode(t[3..])
      case Some(rest) => Some([(HexValue(t[1]) * 16 + HexValue(t[2])) as byte] + rest)
      case None => None
    else if t[0] as int < 256 then
      match Decode(t[1..])
      case Some(rest) => Some([t[0] as int as byte] + rest)
      case None => None
    else None
  }

  lemma HexRoundTrip(d: int)
    requires 0 <= d < 16
    ensures IsHex(HexDigit(d)) && HexValue(HexDigit(d)) == d
  {
  }

  lemma DecodeEscapeByte(b: byte, rest: string, tail: seq<byte>)
    requires Decode(rest) == Some(tail)
    ensures Decode(EscapeByte(b) + rest) == Some([b] + tail)
  {
    var t := EscapeByte(b) + rest;
    if Unreserved(b) {
      assert t[0] == b as int as char && t[1..] == rest;
    } else {
      HexRoundTrip(b as int / 16);
      HexRoundTrip(b as int % 16);
      assert t[0] == '%' && t[1] == HexDigit(b as int / 16) && t[2] == HexDigit(b as int % 16);
      assert t[3..] == rest;
    }
  }

  lemma {:induction false} DecodeEscapeBytes(bs: seq<byte>)
    ensures Decode(EscapeBytes(bs)) == Some(bs)
  {
    if |bs| > 0 {
      DecodeEscapeBytes(bs[1..]);
      DecodeEscapeByte(bs[0], EscapeBytes(bs[1..]), bs[1..]);
      assert [bs[0]] + bs[1..] == bs;
    }
  }

  /** Decoding an encoded string gives back its UTF-8 bytes. */
  lemma DecodeEncode(s: string)
    ensures Decode(Encode(s)) == Some(Utf8(s))
  {
    DecodeEscapeBytes(Utf8(s));
  }

  lemma {:induction false} EscapeBytesFree(bs: seq<byte>, c: char)
    requires c == '&' || c == '=' || c == ','
    ensures c !in EscapeBytes(bs)
  {
    if |bs| > 0 {
      EscapeBytesFree(bs[1..], c);
    }
  }

  /** An encoded string holds no `&`, `=` or `,`, so these can delimit it. */
  lemma EncodeFree(s: string, c: char)
    requires c == '&' || c == '=' || c == ','
    ensures c !in Encode(s)
  {
    EscapeBytesFree(Utf8(s), c);
  }

  lemma {:induction false} EscapeUnreserved(bs: seq<byte>)
    requires forall i :: 0 <= i < |bs| ==> Unreserved(bs[i])
    ensures EscapeBytes(bs) == seq(|bs|, i requires 0 <= i < |bs| => bs[i] as int as char)
  {
    if |bs| > 0 {
      EscapeUnreserved(bs[1..]);
    }
  }
}
