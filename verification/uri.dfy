/** `encodeURIComponent` over Unicode scalar values: characters outside the
    unreserved set are written as the percent-escaped bytes of their UTF-8
    encoding, with upper-case hexadecimal digits. */
module Uri {

  /** Characters `encodeURIComponent` leaves as they are. */
  predicate Unreserved(c: char)
  {
    ('A' <= c <= 'Z') || ('a' <= c <= 'z') || ('0' <= c <= '9') ||
    c == '-' || c == '_' || c == '.' || c == '!' || c == '~' || c == '*' || c == '\'' || c == '(' || c == ')'
  }

  predicate IsHexDigit(c: char)
  {
    ('0' <= c <= '9') || ('A' <= c <= 'F')
  }

  const HexDigits := "0123456789ABCDEF"

  /** The UTF-8 encoding of one character. */
  function Utf8Char(c: char): (r: seq<int>)
    ensures 1 <= |r| <= 4
    ensures forall i :: 0 <= i < |r| ==> 0 <= r[i] < 256
    ensures |r| == 1 <==> (c as int) < 0x80
    ensures |r| == 1 ==> r[0] == c as int
  {
    var n := c as int;
    if n < 0x80 then [n]
    else if n < 0x800 then [0xC0 + n / 64, 0x80 + n % 64]
    else if n < 0x10000 then [0xE0 + n / 4096, 0x80 + (n / 64) % 64, 0x80 + n % 64]
    else [0xF0 + n / 262144, 0x80 + (n / 4096) % 64, 0x80 + (n / 64) % 64, 0x80 + n % 64]
  }

  function Utf8(s: string): seq<int>
  {
    if |s| == 0 then [] else Utf8Char(s[0]) + Utf8(s[1..])
  }

  /** `%XY` for one byte. */
  function Escape(b: int): (r: string)
    requires 0 <= b < 256
    ensures |r| == 3 && r[0] == '%' && IsHexDigit(r[1]) && IsHexDigit(r[2])
  {
    ['%', HexDigits[b / 16], HexDigits[b % 16]]
  }

  function EscapeAll(bs: seq<int>): (r: string)
    requires forall i :: 0 <= i < |bs| ==> 0 <= bs[i] < 256
    ensures |r| == 3 * |bs|
    ensures forall i :: 0 <= i < |r| ==> r[i] == '%' || IsHexDigit(r[i])
  {
    if |bs| == 0 then [] else Escape(bs[0]) + EscapeAll(bs[1..])
  }

  function EncodeChar(c: char): (r: string)
    ensures forall i :: 0 <= i < |r| ==> Unreserved(r[i]) || r[i] == '%' || IsHexDigit(r[i])
  {
    if Unreserved(c) then [c] else EscapeAll(Utf8Char(c))
  }

  /** `encodeURIComponent`. */
  function EncodeUriComponent(s: string): (r: string)
    ensures forall i :: 0 <= i < |r| ==> Unreserved(r[i]) || r[i] == '%' || IsHexDigit(r[i])
    ensures (forall i :: 0 <= i < |s| ==> Unreserved(s[i])) ==> r == s
  {
    if |s| == 0 then "" else EncodeChar(s[0]) + EncodeUriComponent(s[1..])
  }

  // ---------------------------------------------------------------- decoding, the partner of encoding

  function HexValue(c: char): nat
  {
    if '0' <= c <= '9' then c as int - '0' as int
    else if 'A' <= c <= 'F' then c as int - 'A' as int + 10
    else 0
  }

  /** Percent-decoding to bytes: `%XY` is one byte, any other character is its code. */
  function DecodeBytes(s: string): seq<int>
  {
    if |s| == 0 then []
    else if s[0] == '%' && |s| >= 3 then [16 * HexValue(s[1]) + HexValue(s[2])] + DecodeBytes(s[3..])
    else [s[0] as int] + DecodeBytes(s[1..])
  }

  lemma HexRoundTrip(d: nat)
    requires d < 16
    ensures HexValue(HexDigits[d]) == d
  {
  }

  lemma {:induction false} DecodeEscapes(bs: seq<int>, rest: string)
    requires forall i :: 0 <= i < |bs| ==> 0 <= bs[i] < 256
    ensures DecodeBytes(EscapeAll(bs) + rest) == bs + DecodeBytes(rest)
  {
    if |bs| > 0 {
      var b := bs[0];
      HexRoundTrip(b / 16);
      HexRoundTrip(b % 16);
      var t := EscapeAll(bs) + rest;
      assert t == Escape(b) + (EscapeAll(bs[1..]) + rest);
      assert t[3..] == EscapeAll(bs[1..]) + rest;
      DecodeEscapes(bs[1..], rest);
    } else {
      assert EscapeAll(bs) + rest == rest;
    }
  }

  lemma DecodeChar(c: char, rest: string)
    ensures DecodeBytes(EncodeChar(c) + rest) == Utf8Char(c) + DecodeBytes(rest)
  {
    if Unreserved(c) {
      assert (EncodeChar(c) + rest)[1..] == rest;
    } else {
      DecodeEscapes(Utf8Char(c), rest);
    }
  }

  /** Decoding the encoded text gives back the UTF-8 bytes of the original. */
  lemma {:induction false} DecodeEncode(s: string)
    ensures DecodeBytes(EncodeUriComponent(s)) == Utf8(s)
  {
    if |s| > 0 {
      DecodeEncode(s[1..]);
      DecodeChar(s[0], EncodeUriComponent(s[1..]));
    }
  }

  /** The encoded text contains none of the characters that would end or
      split a query parameter. */
  lemma EncodedHasNoDelimiters(s: string)
    ensures forall i :: 0 <= i < |EncodeUriComponent(s)| ==>
      EncodeUriComponent(s)[i] !in {' ', '&', '=', '#', '?', '+', '/'}
  {
  }
}
