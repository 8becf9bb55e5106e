/** Byte strings, and UTF-8 as section 3 of RFC 3629 defines it.

    A byte is a character below 256, so that ordinary string literals denote
    byte strings.  `Encode` is what the layout-file parser appends for a `\u`
    escape; `WellFormed` and `Decode` are the table of RFC 3629, written
    without reference to the encoder. */
module Utf8 {
  type Byte = c: char | c as int < 256 witness 'a'
  type ByteString = seq<Byte>

  function ToByte(n: nat): (b: Byte)
    requires n < 256
  {
    n as char
  }

  // Unicode scalar values: every code point that is not a surrogate.
  predicate IsScalar(codePoint: nat) {
    codePoint < 0xD800 || 0xE000 <= codePoint <= 0x10FFFF
  }

  /** The bytes the parser appends for a code point.  Each `|` of the source
      joins disjoint bits, so it is written as an addition. */
  function Encode(codePoint: nat): ByteString
    requires codePoint <= 0x10FFFF
  {
    if codePoint <= 0x7F then
      [ToByte(codePoint)]
    else if codePoint <= 0x7FF then
      [ToByte(0xC0 + codePoint / 0x40), Tail(codePoint)]
    else if codePoint <= 0xFFFF then
      [ToByte(0xE0 + codePoint / 0x1000), Tail(codePoint / 0x40), Tail(codePoint)]
    else
      [ToByte(0xF0 + codePoint / 0x40000), Tail(codePoint / 0x1000), Tail(codePoint / 0x40), Tail(codePoint)]
  }

  // A continuation byte holding the low six bits.
  function Tail(bits: nat): Byte {
    ToByte(0x80 + bits % 0x40)
  }

  predicate InRange(b: Byte, low: nat, high: nat) {
    low <= b as int <= high
  }

  /** The ABNF of section 4 of RFC 3629: UTF8-1 to UTF8-4, one character. */
  predicate WellFormed(s: ByteString) {
    || (|s| == 1 && InRange(s[0], 0x00, 0x7F))
    || (|s| == 2 && InRange(s[0], 0xC2, 0xDF) && InRange(s[1], 0x80, 0xBF))
    || (|s| == 3 && InRange(s[2], 0x80, 0xBF)
        && (|| (s[0] as int == 0xE0 && InRange(s[1], 0xA0, 0xBF))
            || (InRange(s[0], 0xE1, 0xEC) && InRange(s[1], 0x80, 0xBF))
            || (s[0] as int == 0xED && InRange(s[1], 0x80, 0x9F))
            || (InRange(s[0], 0xEE, 0xEF) && InRange(s[1], 0x80, 0xBF))))
    || (|s| == 4 && InRange(s[2], 0x80, 0xBF) && InRange(s[3], 0x80, 0xBF)
        && (|| (s[0] as int == 0xF0 && InRange(s[1], 0x90, 0xBF))
            || (InRange(s[0], 0xF1, 0xF3) && InRange(s[1], 0x80, 0xBF))
            || (s[0] as int == 0xF4 && InRange(s[1], 0x80, 0x8F))))
  }

  /** The code point a well-formed sequence stands for (the table in section 3
      of RFC 3629): the free bits of the bytes, most significant first. */
  function Decode(s: ByteString): nat
    requires WellFormed(s)
  {
    if |s| == 1 then s[0] as int
    else if |s| == 2 then (s[0] as int - 0xC0) * 0x40 + (s[1] as int - 0x80)
    else if |s| == 3 then
      (s[0] as int - 0xE0) * 0x1000 + (s[1] as int - 0x80) * 0x40 + (s[2] as int - 0x80)
    else
      (s[0] as int - 0xF0) * 0x40000 + (s[1] as int - 0x80) * 0x1000
      + (s[2] as int - 0x80) * 0x40 + (s[3] as int - 0x80)
  }

  /** The bytes appended for a scalar value are well formed and decode to it. */
  lemma EncodeDecodes(codePoint: nat)
    requires IsScalar(codePoint)
    ensures WellFormed(Encode(codePoint))
    ensures Decode(Encode(codePoint)) == codePoint
  {
    SplitSextets(codePoint);
  }

  lemma SplitSextets(n: nat)
    ensures n == n / 0x40 * 0x40 + n % 0x40
    ensures n / 0x40 == n / 0x1000 * 0x40 + n / 0x40 % 0x40
    ensures n / 0x1000 == n / 0x40000 * 0x40 + n / 0x1000 % 0x40
  {
  }

  lemma JoinSextet(high: nat, low: nat)
    requires low < 0x40
    ensures (high * 0x40 + low) / 0x40 == high
    ensures (high * 0x40 + low) % 0x40 == low
  {
  }

  /** They are the only such bytes: a well-formed sequence is the encoding of
      the scalar value it stands for. */
  lemma EncodingIsUnique(s: ByteString)
    requires WellFormed(s)
    ensures IsScalar(Decode(s))
    ensures Encode(Decode(s)) == s
  {
    if |s| == 2 {
      JoinSextet(s[0] as int - 0xC0, s[1] as int - 0x80);
    } else if |s| == 3 {
      ThreeBytesUnique(s);
    } else if |s| == 4 {
      FourBytesUnique(s);
    }
  }

  lemma ThreeBytesUnique(s: ByteString)
    requires WellFormed(s) && |s| == 3
    ensures IsScalar(Decode(s)) && Encode(Decode(s)) == s
  {
    var a, b, c := s[0] as int - 0xE0, s[1] as int - 0x80, s[2] as int - 0x80;
    var n := Decode(s);
    assert n == (a * 0x40 + b) * 0x40 + c;
    JoinSextet(a * 0x40 + b, c);
    JoinSextet(a, b);
    assert n / 0x1000 == n / 0x40 / 0x40;
  }

  lemma FourBytesUnique(s: ByteString)
    requires WellFormed(s) && |s| == 4
    ensures IsScalar(Decode(s)) && Encode(Decode(s)) == s
  {
    var a, b, c, d := s[0] as int - 0xF0, s[1] as int - 0x80, s[2] as int - 0x80, s[3] as int - 0x80;
    var n := Decode(s);
    assert n == ((a * 0x40 + b) * 0x40 + c) * 0x40 + d;
    JoinSextet((a * 0x40 + b) * 0x40 + c, d);
    JoinSextet(a * 0x40 + b, c);
    JoinSextet(a, b);
    assert n / 0x1000 == n / 0x40 / 0x40 && n / 0x40000 == n / 0x1000 / 0x40;
  }
}
