/**
 * `encodeURIComponent`: every character outside the component-safe set is
 * written as the UTF-8 bytes of its code point, each byte as '%' followed by
 * two upper-case hexadecimal digits (the percent-encoding of section 2.1 of
 * RFC 3986). The safe set is ECMAScript's: ASCII letters and digits and
 * - _ . ! ~ * ' ( ).
 *
 * What the callers rely on is that the output never holds a URI delimiter,
 * so an encoded value cannot end a query parameter or start a new one.
 */
module UriEncoding {

  /** The characters `encodeURIComponent` leaves as they are. */
  predicate Unescaped(c: char) {
    || ('a' <= c <= 'z')
    || ('A' <= c <= 'Z')
    || ('0' <= c <= '9')
    || c in "-_.!~*'()"
  }

  predicate IsUpperHexDigit(c: char) {
    ('0' <= c <= '9') || ('A' <= c <= 'F')
  }

  /** A character that may appear in the output of `EncodeUriComponent`. */
  predicate EncodedChar(c: char) {
    Unescaped(c) || c == '%' || IsUpperHexDigit(c)
  }

  function HexDigit(d: nat): (c: char)
    requires d < 16
    ensures IsUpperHexDigit(c)
  {
    "0123456789ABCDEF"[d]
  }

  /** A continuation byte of UTF-8: `10xxxxxx`. */
  predicate Continuation(b: nat) {
    0x80 <= b < 0xC0
  }

  /**
   * The UTF-8 encoding of one code point: one byte below 0x80, two below
   * 0x800, three below 0x10000 and four above; a lead byte announcing the
   * length, then continuation bytes.
   */
  function Utf8(c: char): (bytes: seq<nat>)
    ensures forall i :: 0 <= i < |bytes| ==> bytes[i] < 256
    ensures (c as int) < 0x80 ==> bytes == [c as int]
    ensures 0x80 <= (c as int) < 0x800 ==> |bytes| == 2 && 0xC0 <= bytes[0] < 0xE0
    ensures 0x800 <= (c as int) < 0x1_0000 ==> |bytes| == 3 && 0xE0 <= bytes[0] < 0xF0
    ensures 0x1_0000 <= (c as int) ==> |bytes| == 4 && 0xF0 <= bytes[0] < 0xF8
    ensures forall i :: 1 <= i < |bytes| ==> Continuation(bytes[i])
  {
    var cp := c as int;
    if cp < 0x80 then [cp]
    else if cp < 0x800 then [0xC0 + cp / 0x40, 0x80 + cp % 0x40]
    else if cp < 0x1_0000 then [0xE0 + cp / 0x1000, 0x80 + (cp / 0x40) % 0x40, 0x80 + cp % 0x40]
    else [0xF0 + cp / 0x4_0000, 0x80 + (cp / 0x1000) % 0x40, 0x80 + (cp / 0x40) % 0x40, 0x80 + cp % 0x40]
  }

  /** The code point a UTF-8 sequence of one to four bytes stands for. */
  function Utf8CodePoint(bytes: seq<nat>): int
    requires 1 <= |bytes| <= 4
  {
    var b := seq(|bytes|, i requires 0 <= i < |bytes| => bytes[i] as int);
    if |b| == 1 then b[0]
    else if |b| == 2 then (b[0] - 0xC0) * 0x40 + (b[1] - 0x80)
    else if |b| == 3 then (b[0] - 0xE0) * 0x1000 + (b[1] - 0x80) * 0x40 + (b[2] - 0x80)
    else (b[0] - 0xF0) * 0x4_0000 + (b[1] - 0x80) * 0x1000 + (b[2] - 0x80) * 0x40 + (b[3] - 0x80)
  }

  /** Splitting a number into base-64 digits and putting them back together gives the number. */
  lemma SixBitDigits(cp: nat)
    ensures cp == (cp / 0x40) * 0x40 + cp % 0x40
    ensures cp / 0x40 == ((cp / 0x40) / 0x40) * 0x40 + (cp / 0x40) % 0x40
    ensures cp / 0x1000 == (cp / 0x40) / 0x40
    ensures cp / 0x1000 == ((cp / 0x1000) / 0x40) * 0x40 + (cp / 0x1000) % 0x40
    ensures cp / 0x4_0000 == (cp / 0x1000) / 0x40
  {
  }

  /** Reading the bytes of a character back gives its code point: the encoding loses nothing. */
  lemma Utf8RoundTrip(c: char)
    ensures Utf8CodePoint(Utf8(c)) == c as int
  {
    var cp := c as int;
    SixBitDigits(cp);
  }

  /** Distinct characters have distinct UTF-8 encodings. */
  lemma Utf8Injective(c: char, d: char)
    requires Utf8(c) == Utf8(d)
    ensures c == d
  {
    Utf8RoundTrip(c);
    Utf8RoundTrip(d);
  }

  /** The high four bits of a byte. */
  function High(b: nat): (d: nat)
    requires b < 256
    ensures d < 16
  {
    b / 16
  }

  /** The low four bits of a byte; with the high four bits they make up the byte. */
  function Low(b: nat): (d: nat)
    requires b < 256
    ensures d < 16
    ensures 16 * High(b) + d == b
  {
    b % 16
  }

  /** `%HH` for one byte. */
  function PercentTriple(b: nat): (t: string)
    requires b < 256
    ensures |t| == 3 && t[0] == '%' && IsUpperHexDigit(t[1]) && IsUpperHexDigit(t[2])
  {
    ['%', HexDigit(High(b)), HexDigit(Low(b))]
  }

  /** Byte i's triple sits at 3i. */
  predicate TriplesAt(s: string, bytes: seq<nat>)
    requires forall i :: 0 <= i < |bytes| ==> bytes[i] < 256
  {
    && |s| == 3 * |bytes|
    && forall i :: 0 <= i < |bytes| ==>
         s[3 * i] == '%' && s[3 * i + 1] == HexDigit(High(bytes[i])) && s[3 * i + 2] == HexDigit(Low(bytes[i]))
  }

  /** Putting one byte's triple in front of the triples of the following bytes. */
  lemma TriplesCons(bytes: seq<nat>, rest: string)
    requires bytes != [] && forall i :: 0 <= i < |bytes| ==> bytes[i] < 256
    requires TriplesAt(rest, bytes[1..])
    ensures TriplesAt(PercentTriple(bytes[0]) + rest, bytes)
  {
    var s := PercentTriple(bytes[0]) + rest;
    forall i | 1 <= i < |bytes|
      ensures s[3 * i] == '%' && s[3 * i + 1] == HexDigit(High(bytes[i])) && s[3 * i + 2] == HexDigit(Low(bytes[i]))
    {
      var k := 3 * (i - 1);
      assert bytes[i] == bytes[1..][i - 1];
      assert s[3 * i] == rest[k] && s[3 * i + 1] == rest[k + 1] && s[3 * i + 2] == rest[k + 2];
    }
  }

  /**
   * `%HH` for each byte: byte i becomes the triple at 3i, '%' and the hex
   * digits of its high and low four bits.
   */
  function PercentBytes(bytes: seq<nat>): (s: string)
    requires forall i :: 0 <= i < |bytes| ==> bytes[i] < 256
    ensures |s| == 3 * |bytes|
    ensures forall i :: 0 <= i < |bytes| ==>
      s[3 * i] == '%' && s[3 * i + 1] == HexDigit(High(bytes[i])) && s[3 * i + 2] == HexDigit(Low(bytes[i]))
    ensures forall i :: 0 <= i < |s| ==> s[i] == '%' || IsUpperHexDigit(s[i])
  {
    if bytes == [] then ""
    else
      var head := PercentTriple(bytes[0]);
      var rest := PercentBytes(bytes[1..]);
      TriplesCons(bytes, rest);
      assert forall j :: 3 <= j < |head + rest| ==> (head + rest)[j] == rest[j - 3];
      head + rest
  }

  /** One character: itself if it is safe, otherwise `%HH` for each byte of its UTF-8 encoding. */
  function EncodeChar(c: char): (s: string)
    ensures Unescaped(c) ==> s == [c]
    ensures !Unescaped(c) ==> |s| == 3 * |Utf8(c)| && 3 <= |s| <= 12
    ensures !Unescaped(c) ==> forall i :: 0 <= i < |Utf8(c)| ==>
      s[3 * i] == '%' && s[3 * i + 1] == HexDigit(High(Utf8(c)[i])) && s[3 * i + 2] == HexDigit(Low(Utf8(c)[i]))
    ensures forall i :: 0 <= i < |s| ==> EncodedChar(s[i])
  {
    if Unescaped(c) then [c] else PercentBytes(Utf8(c))
  }

  /** `encodeURIComponent(s)` */
  function EncodeUriComponent(s: string): (e: string)
    ensures |e| >= |s|
    ensures forall i :: 0 <= i < |e| ==> EncodedChar(e[i])
  {
    if s == [] then "" else EncodeChar(s[0]) + EncodeUriComponent(s[1..])
  }

  /** Encoding commutes with concatenation, character by character. */
  lemma {:induction false} EncodeAppend(a: string, b: string)
    ensures EncodeUriComponent(a + b) == EncodeUriComponent(a) + EncodeUriComponent(b)
  {
    if a != [] {
      assert (a + b)[0] == a[0] && (a + b)[1..] == a[1..] + b;
      assert EncodeUriComponent(a + b) == EncodeChar(a[0]) + EncodeUriComponent(a[1..] + b);
      EncodeAppend(a[1..], b);
      assert EncodeUriComponent(a) == EncodeChar(a[0]) + EncodeUriComponent(a[1..]);
    } else {
      assert a + b == b;
    }
  }

  /** A text made only of safe characters is its own encoding. */
  lemma {:induction false} EncodeUnescapedIdentity(s: string)
    requires forall i :: 0 <= i < |s| ==> Unescaped(s[i])
    ensures EncodeUriComponent(s) == s
  {
    if s != [] {
      EncodeUnescapedIdentity(s[1..]);
    }
  }

  /** The delimiters that end or split a URI query: none of them survives encoding. */
  predicate QueryDelimiter(c: char) {
    c in "?&=#/:"
  }

  /** No character of the encoder's output alphabet is a delimiter. */
  lemma EncodedCharIsNoDelimiter(c: char)
    requires EncodedChar(c)
    ensures !QueryDelimiter(c)
  {
    assert "?&=#/:" == ['?', '&', '=', '#', '/', ':'];
    assert "-_.!~*'()" == ['-', '_', '.', '!', '~', '*', '\'', '(', ')'];
  }

  lemma EncodedHasNoDelimiter(s: string)
    ensures forall i :: 0 <= i < |EncodeUriComponent(s)| ==> !QueryDelimiter(EncodeUriComponent(s)[i])
  {
    var e := EncodeUriComponent(s);
    forall i | 0 <= i < |e|
      ensures !QueryDelimiter(e[i])
    {
      EncodedCharIsNoDelimiter(e[i]);
    }
  }
}
