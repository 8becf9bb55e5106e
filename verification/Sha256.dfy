/** SHA-256: the in-place loops of the source against a recursive form of FIPS 180-4.
    Bytes are numbers below 256 and words are 32-bit vectors. */
module Sha256 {
  import opened Sha256Words

  type Byte = b: int | 0 <= b < 256

  const TWO_32: nat := 0x1_0000_0000
  const TWO_61: nat := 0x2000_0000_0000_0000
  const TWO_64: nat := 0x1_0000_0000_0000_0000

  // The round constants of section 4.2.2, sixteen to a row.
  const K0: seq<bv32> := [
    0x428a2f98, 0x71374491, 0xb5c0fbcf, 0xe9b5dba5, 0x3956c25b, 0x59f111f1, 0x923f82a4, 0xab1c5ed5,
    0xd807aa98, 0x12835b01, 0x243185be, 0x550c7dc3, 0x72be5d74, 0x80deb1fe, 0x9bdc06a7, 0xc19bf174]
  const K1: seq<bv32> := [
    0xe49b69c1, 0xefbe4786, 0x0fc19dc6, 0x240ca1cc, 0x2de92c6f, 0x4a7484aa, 0x5cb0a9dc, 0x76f988da,
    0x983e5152, 0xa831c66d, 0xb00327c8, 0xbf597fc7, 0xc6e00bf3, 0xd5a79147, 0x06ca6351, 0x14292967]
  const K2: seq<bv32> := [
    0x27b70a85, 0x2e1b2138, 0x4d2c6dfc, 0x53380d13, 0x650a7354, 0x766a0abb, 0x81c2c92e, 0x92722c85,
    0xa2bfe8a1, 0xa81a664b, 0xc24b8b70, 0xc76c51a3, 0xd192e819, 0xd6990624, 0xf40e3585, 0x106aa070]
  const K3: seq<bv32> := [
    0x19a4c116, 0x1e376c08, 0x2748774c, 0x34b0bcb5, 0x391c0cb3, 0x4ed8aa4a, 0x5b9cca4f, 0x682e6ff3,
    0x748f82ee, 0x78a5636f, 0x84c87814, 0x8cc70208, 0x90befffa, 0xa4506ceb, 0xbef9a3f7, 0xc67178f2]

  function K(t: nat): bv32
    requires t < 64
  {
    if t < 16 then K0[t] else if t < 32 then K1[t - 16] else if t < 48 then K2[t - 32] else K3[t - 48]
  }

  // The first 64 primes.
  const PRIMES0: seq<nat> := [2, 3, 5, 7, 11, 13, 17, 19, 23, 29, 31, 37, 41, 43, 47, 53]
  const PRIMES1: seq<nat> := [59, 61, 67, 71, 73, 79, 83, 89, 97, 101, 103, 107, 109, 113, 127, 131]
  const PRIMES2: seq<nat> := [137, 139, 149, 151, 157, 163, 167, 173, 179, 181, 191, 193, 197, 199, 211, 223]
  const PRIMES3: seq<nat> := [227, 229, 233, 239, 241, 251, 257, 263, 269, 271, 277, 281, 283, 293, 307, 311]

  function Prime(t: nat): nat
    requires t < 64
  {
    if t < 16 then PRIMES0[t]
    else if t < 32 then PRIMES1[t - 16]
    else if t < 48 then PRIMES2[t - 32]
    else PRIMES3[t - 48]
  }

  datatype Eight = Eight(a: bv32, b: bv32, c: bv32, d: bv32, e: bv32, f: bv32, g: bv32, h: bv32) {
    function Words(): (words: seq<bv32>)
      ensures |words| == 8
    {
      [a, b, c, d, e, f, g, h]
    }
  }

  const INITIAL := Eight(0x6a09e667, 0xbb67ae85, 0x3c6ef372, 0xa54ff53a, 0x510e527f, 0x9b05688c, 0x1f83d9ab, 0x5be0cd19)

  // Section 5.1.1: padding

  // The `n` low bytes of a number, most significant first.
  function BigEndian(v: nat, n: nat): (bytes: seq<Byte>)
    ensures |bytes| == n
  {
    if n == 0 then [] else BigEndian(v / 256, n - 1) + [v % 256]
  }

  function FromBigEndian(bytes: seq<Byte>): nat {
    if bytes == [] then 0 else FromBigEndian(bytes[..|bytes| - 1]) * 256 + bytes[|bytes| - 1]
  }

  function Power256(n: nat): (p: nat)
    ensures p > 0
  {
    if n == 0 then 1 else 256 * Power256(n - 1)
  }

  lemma {:induction false} BigEndianReads(v: nat, n: nat)
    requires v < Power256(n)
    ensures FromBigEndian(BigEndian(v, n)) == v
  {
    if n > 0 {
      BigEndianReads(v / 256, n - 1);
      assert BigEndian(v, n)[..n - 1] == BigEndian(v / 256, n - 1);
    }
  }

  /** The smallest number of zero bytes that, after the 0x80 byte, leaves room for
      exactly the eight bytes of the length in the last block. */
  predicate IsZeroCount(length: nat, zeros: nat) {
    && LeavesRoom(length, zeros)
    && forall fewer :: 0 <= fewer < zeros ==> !LeavesRoom(length, fewer)
  }

  predicate LeavesRoom(length: nat, zeros: nat) {
    (length + 1 + zeros) % 64 == 56
  }

  function Zeros(n: nat): (z: seq<Byte>)
    ensures |z| == n && forall i :: 0 <= i < n ==> z[i] == 0
  {
    seq(n, _ => 0)
  }

  ghost predicate IsPadded(message: seq<Byte>, padded: seq<Byte>) {
    exists zeros: nat :: IsZeroCount(|message|, zeros)
      && padded == message + [0x80] + Zeros(zeros) + BigEndian(|message| * 8 % TWO_64, 8)
  }

  lemma ZeroCountIsUnique(length: nat, x: nat, y: nat)
    requires IsZeroCount(length, x) && IsZeroCount(length, y)
    ensures x == y && x < 64
  {
    assert x < 64 by {
      if x >= 64 {
        assert (length + 1 + (x - 64)) % 64 == (length + 1 + x) % 64;
        assert LeavesRoom(length, x - 64);
      }
    }
  }

  /** A message has one padding; it is a whole number of blocks, at most one of them
      more than the message and the nine fixed bytes need. */
  lemma PaddedIsUnique(message: seq<Byte>, p: seq<Byte>, q: seq<Byte>)
    requires IsPadded(message, p) && IsPadded(message, q)
    ensures p == q && |p| % 64 == 0 && |message| + 9 <= |p| < |message| + 9 + 64
  {
    hide BigEndian, Zeros, IsZeroCount;
    var x: nat :| IsZeroCount(|message|, x)
      && p == message + [0x80] + Zeros(x) + BigEndian(|message| * 8 % TWO_64, 8);
    var y: nat :| IsZeroCount(|message|, y)
      && q == message + [0x80] + Zeros(y) + BigEndian(|message| * 8 % TWO_64, 8);
    ZeroCountIsUnique(|message|, x, y);
    RoomForLength(|message|, x);
  }

  lemma RoomForLength(length: nat, zeros: nat)
    requires IsZeroCount(length, zeros)
    ensures (length + 1 + zeros + 8) % 64 == 0
  {
  }

  /** Padding is injective on the messages the standard covers. */
  lemma PaddingIsInjective(m: seq<Byte>, n: seq<Byte>, padded: seq<Byte>)
    requires |m| < TWO_61 && |n| < TWO_61 && IsPadded(m, padded) && IsPadded(n, padded)
    ensures m == n
  {
    LengthIsRecorded(m, padded);
    LengthIsRecorded(n, padded);
    assert m == padded[..|m|];
    assert n == padded[..|n|];
  }

  lemma LengthIsRecorded(m: seq<Byte>, padded: seq<Byte>)
    requires |m| < TWO_61 && IsPadded(m, padded)
    ensures |padded| >= |m| + 8 && padded[..|m|] == m && FromBigEndian(padded[|padded| - 8..]) == |m| * 8
  {
    hide BigEndian, Zeros, IsZeroCount, FromBigEndian, Power256;
    var zeros: nat :| IsZeroCount(|m|, zeros)
      && padded == m + [0x80] + Zeros(zeros) + BigEndian(|m| * 8 % TWO_64, 8);
    var front, tail := m + [0x80] + Zeros(zeros), BigEndian(|m| * 8, 8);
    assert padded == front + tail;
    assert padded[|padded| - 8..] == tail;
    EightBytes();
    BigEndianReads(|m| * 8, 8);
  }

  lemma EightBytes()
    ensures Power256(8) == TWO_64
  {
    assert Power256(4) == TWO_32;
    assert Power256(8) == 256 * 256 * 256 * 256 * Power256(4);
  }

  // Addition modulo 2^32, as the standard and the source write it.

  function Plus(x: bv32, y: bv32): bv32 { x + y }

  function ScheduleWord(w16: bv32, w15: bv32, w7: bv32, w2: bv32): bv32 {
    w16 + SmallSigma0(w15) + w7 + SmallSigma1(w2)
  }

  function Temp1(e: bv32, f: bv32, g: bv32, h: bv32, k: bv32, w: bv32): bv32 {
    h + BigSigma1(e) + Choice(e, f, g) + k + w
  }

  function Temp2(a: bv32, b: bv32, c: bv32): bv32 { BigSigma0(a) + Majority(a, b, c) }

  // Section 6.2: hash computation

  function WordAt(bytes: seq<Byte>, i: nat): bv32
    requires i + 4 <= |bytes|
  {
    Word(AsWord(bytes[i]), AsWord(bytes[i + 1]), AsWord(bytes[i + 2]), AsWord(bytes[i + 3]))
  }

  lemma WordAtIs(bytes: seq<Byte>, i: nat, a: Byte, b: Byte, c: Byte, d: Byte)
    requires i + 4 <= |bytes| && bytes[i] == a && bytes[i + 1] == b && bytes[i + 2] == c && bytes[i + 3] == d
    ensures WordAt(bytes, i) == Word(AsWord(a), AsWord(b), AsWord(c), AsWord(d))
  {
    hide Word, AsWord;
  }

  /** A word of a block is the big-endian number of its four bytes. */
  lemma WordAtReads(bytes: seq<Byte>, i: nat)
    requires i + 4 <= |bytes|
    ensures WordAt(bytes, i) as int == FromBigEndian(bytes[i..i + 4])
  {
    hide FromBigEndian, Word, AsWord;
    var a: int, b: int, c: int, d: int := bytes[i], bytes[i + 1], bytes[i + 2], bytes[i + 3];
    ByteIsKept(a);
    ByteIsKept(b);
    ByteIsKept(c);
    ByteIsKept(d);
    WordReads(AsWord(a), AsWord(b), AsWord(c), AsWord(d));
    FromFour(bytes[i..i + 4]);
  }

  lemma FromFour(bytes: seq<Byte>)
    requires |bytes| == 4
    ensures var a: int, b: int, c: int, d: int := bytes[0], bytes[1], bytes[2], bytes[3];
            FromBigEndian(bytes) == a * 0x100_0000 + b * 0x1_0000 + c * 0x100 + d
  {
    var a: int, b: int, c: int := bytes[0], bytes[1], bytes[2];
    assert bytes[..3][..2] == bytes[..2] && bytes[..2][..1] == bytes[..1];
    assert FromBigEndian(bytes[..1]) == a;
    assert FromBigEndian(bytes[..2]) == a * 256 + b;
    assert FromBigEndian(bytes[..3]) == (a * 256 + b) * 256 + c;
  }

  // The message schedule of the block at `offset`.
  function Scheduled(bytes: seq<Byte>, offset: nat, t: nat): bv32
    requires offset + 64 <= |bytes| && t < 64
    decreases t
  {
    if t < 16 then WordAt(bytes, offset + 4 * t)
    else
      ScheduleWord(Scheduled(bytes, offset, t - 16), Scheduled(bytes, offset, t - 15), Scheduled(bytes, offset, t - 7),
                   Scheduled(bytes, offset, t - 2))
  }

  function OneRound(s: Eight, k: bv32, w: bv32): Eight {
    var temp1, temp2 := Temp1(s.e, s.f, s.g, s.h, k, w), Temp2(s.a, s.b, s.c);
    Eight(Plus(temp1, temp2), s.a, s.b, s.c, Plus(s.d, temp1), s.e, s.f, s.g)
  }

  // The working variables after `t` rounds on the block at `offset`.
  function Rounds(bytes: seq<Byte>, offset: nat, start: Eight, t: nat): Eight
    requires offset + 64 <= |bytes| && t <= 64
    decreases t
  {
    if t == 0 then start else OneRound(Rounds(bytes, offset, start, t - 1), K(t - 1), Scheduled(bytes, offset, t - 1))
  }

  function Sum(x: Eight, y: Eight): Eight {
    Eight(x.a + y.a, x.b + y.b, x.c + y.c, x.d + y.d, x.e + y.e, x.f + y.f, x.g + y.g, x.h + y.h)
  }

  // The hash value after `n` blocks.
  function Hashed(bytes: seq<Byte>, n: nat): Eight
    requires 64 * n <= |bytes|
    decreases n
  {
    if n == 0 then INITIAL
    else
      var before := Hashed(bytes, n - 1);
      Sum(before, Rounds(bytes, 64 * (n - 1), before, 64))
  }

  // Hexadecimal output

  const DIGITS: string := "0123456789abcdef"

  function Hex(v: nat, n: nat): (text: string)
    ensures |text| == n
  {
    if n == 0 then "" else Hex(v / 16, n - 1) + [DIGITS[v % 16]]
  }

  function WordsText(words: seq<bv32>): (text: string)
    ensures |text| == 8 * |words|
  {
    if words == [] then "" else Hex(words[0] as int, 8) + WordsText(words[1..])
  }

  function HexOf(h: Eight): (text: string)
    ensures |text| == 64
  {
    WordsText(h.Words())
  }

  function HexDigitValue(c: char): nat {
    if '0' <= c <= '9' then c as int - '0' as int
    else if 'a' <= c <= 'f' then c as int - 'a' as int + 10
    else 16
  }

  function FromHex(text: string): nat {
    if text == "" then 0 else FromHex(text[..|text| - 1]) * 16 + HexDigitValue(text[|text| - 1])
  }

  function Power16(n: nat): (p: nat)
    ensures p > 0
  {
    if n == 0 then 1 else 16 * Power16(n - 1)
  }

  lemma {:induction false} HexReads(v: nat, n: nat)
    requires v < Power16(n)
    ensures FromHex(Hex(v, n)) == v
  {
    if n > 0 {
      HexReads(v / 16, n - 1);
      assert Hex(v, n)[..n - 1] == Hex(v / 16, n - 1);
    }
  }

  lemma OneMoreDigit(v: nat, d: nat, n: nat)
    requires d < 16
    ensures Hex(v * 16 + d, n + 1) == Hex(v, n) + [DIGITS[d]]
  {
    assert (v * 16 + d) / 16 == v && (v * 16 + d) % 16 == d;
  }

  lemma HexOfNothing()
    ensures Hex(0, 0) == ""
  {
  }

  // And a text of lower-case digits is the text of its value.
  lemma {:induction false} HexShows(text: string)
    requires forall i :: 0 <= i < |text| ==> HexDigitValue(text[i]) < 16
    ensures Hex(FromHex(text), |text|) == text
  {
    hide HexDigitValue, Hex;
    HexOfNothing();
    if text != "" {
      var front, d := text[..|text| - 1], HexDigitValue(text[|text| - 1]);
      HexShows(front);
      DigitShows(text[|text| - 1]);
      OneMoreDigit(FromHex(front), d, |front|);
    }
  }

  lemma DigitShows(c: char)
    requires HexDigitValue(c) < 16
    ensures DIGITS[HexDigitValue(c)] == c
  {
  }

  lemma HexWordReads(w: bv32)
    ensures FromHex(Hex(w as int, 8)) == w as int
  {
    assert Power16(4) == 0x1_0000;
    assert Power16(8) == 16 * 16 * 16 * 16 * Power16(4);
    HexReads(w as int, 8);
  }

  lemma {:induction false} WordsTextAt(words: seq<bv32>, i: nat)
    requires i < |words|
    ensures WordsText(words)[8 * i..8 * i + 8] == Hex(words[i] as int, 8)
  {
    hide Hex;
    var first, rest := Hex(words[0] as int, 8), WordsText(words[1..]);
    if i == 0 {
      FirstSlice(first, rest);
    } else {
      WordsTextAt(words[1..], i - 1);
      LaterSlice(first, rest, 8 * i - 8);
    }
  }

  lemma FirstSlice(first: string, rest: string)
    requires |first| == 8
    ensures (first + rest)[0..8] == first
  {
  }

  lemma LaterSlice(first: string, rest: string, k: nat)
    requires |first| == 8 && k + 8 <= |rest|
    ensures (first + rest)[k + 8..k + 16] == rest[k..k + 8]
  {
  }

  /** The text of a hash value reads back to its eight words. */
  lemma HexOfReads(h: Eight, i: nat)
    requires i < 8
    ensures FromHex(HexOf(h)[8 * i..8 * i + 8]) == h.Words()[i] as int
  {
    hide Hex, FromHex, WordsText;
    WordsTextAt(h.Words(), i);
    HexWordReads(h.Words()[i]);
  }

  /** SHA-256 of a message as the standard defines it. */
  ghost predicate IsSha256(message: seq<Byte>, text: string) {
    exists padded :: IsPadded(message, padded) && |padded| % 64 == 0 && text == HexOf(Hashed(padded, |padded| / 64))
  }

  // The constants

  // The first 32 bits of the fractional part of the n-th root of `p` are `k`.
  predicate RootBits(p: nat, n: nat, whole: nat, k: nat) {
    var r := whole * TWO_32 + k;
    if n == 2 then r * r <= p * TWO_32 * TWO_32 < (r + 1) * (r + 1)
    else r * r * r <= p * TWO_32 * TWO_32 * TWO_32 < (r + 1) * (r + 1) * (r + 1)
  }

  function CubeRootFloor(p: nat): nat {
    if p < 8 then 1 else if p < 27 then 2 else if p < 64 then 3 else if p < 125 then 4 else if p < 216 then 5 else 6
  }

  lemma RoundConstants0To3(t: nat)
    requires 0 <= t < 4
    ensures RootBits(Prime(t), 3, CubeRootFloor(Prime(t)), K(t) as int)
  {
  }

  lemma RoundConstants4To8(t: nat)
    requires 4 <= t < 9
    ensures RootBits(Prime(t), 3, CubeRootFloor(Prime(t)), K(t) as int)
  {
  }

  lemma RoundConstants9To15(t: nat)
    requires 9 <= t < 16
    ensures RootBits(Prime(t), 3, CubeRootFloor(Prime(t)), K(t) as int)
  {
  }

  lemma RoundConstants16To17(t: nat)
    requires 16 <= t < 18
    ensures RootBits(Prime(t), 3, CubeRootFloor(Prime(t)), K(t) as int)
  {
  }

  lemma RoundConstants18To29(t: nat)
    requires 18 <= t < 30
    ensures RootBits(Prime(t), 3, CubeRootFloor(Prime(t)), K(t) as int)
  {
  }

  lemma RoundConstants30To31(t: nat)
    requires 30 <= t < 32
    ensures RootBits(Prime(t), 3, CubeRootFloor(Prime(t)), K(t) as int)
  {
  }

  lemma RoundConstants32To46(t: nat)
    requires 32 <= t < 47
    ensures RootBits(Prime(t), 3, CubeRootFloor(Prime(t)), K(t) as int)
  {
  }

  lemma RoundConstants47To47(t: nat)
    requires 47 <= t < 48
    ensures RootBits(Prime(t), 3, CubeRootFloor(Prime(t)), K(t) as int)
  {
  }

  lemma RoundConstants48To63(t: nat)
    requires 48 <= t < 64
    ensures RootBits(Prime(t), 3, CubeRootFloor(Prime(t)), K(t) as int)
  {
  }

  /** The round constants are the first 32 bits of the fractional parts of the cube
      roots of the first 64 primes (section 4.2.2). */
  lemma RoundConstantsAreCubeRoots(t: nat)
    requires t < 64
    ensures RootBits(Prime(t), 3, CubeRootFloor(Prime(t)), K(t) as int)
  {
    hide RootBits, K, Prime, CubeRootFloor;
    if t < 4 { RoundConstants0To3(t); }
    else if t < 9 { RoundConstants4To8(t); }
    else if t < 16 { RoundConstants9To15(t); }
    else if t < 18 { RoundConstants16To17(t); }
    else if t < 30 { RoundConstants18To29(t); }
    else if t < 32 { RoundConstants30To31(t); }
    else if t < 47 { RoundConstants32To46(t); }
    else if t < 48 { RoundConstants47To47(t); }
    else { RoundConstants48To63(t); }
  }

  /** The initial hash value comes from the square roots of the first eight primes
      (section 5.3.3). */
  lemma InitialHashIsSquareRoots()
    ensures RootBits(Prime(0), 2, 1, INITIAL.a as int) && RootBits(Prime(1), 2, 1, INITIAL.b as int)
    ensures RootBits(Prime(2), 2, 2, INITIAL.c as int) && RootBits(Prime(3), 2, 2, INITIAL.d as int)
    ensures RootBits(Prime(4), 2, 3, INITIAL.e as int) && RootBits(Prime(5), 2, 3, INITIAL.f as int)
    ensures RootBits(Prime(6), 2, 4, INITIAL.g as int) && RootBits(Prime(7), 2, 4, INITIAL.h as int)
  {
  }

  // The implementation

  method Pad(data: seq<Byte>) returns (bytes: seq<Byte>)
    ensures IsPadded(data, bytes)
  {
    var bitLength := |data| * 8 % TWO_64;
    bytes := data + [0x80];
    ghost var zeros := 0;
    while |bytes| % 64 != 56
      invariant bytes == data + [0x80] + Zeros(zeros)
      invariant forall fewer :: 0 <= fewer < zeros ==> !LeavesRoom(|data|, fewer)
      invariant |data| + 1 + zeros <= FullLength(|data|)
      decreases FullLength(|data|) - |bytes|
    {
      assert !LeavesRoom(|data|, zeros);
      bytes := bytes + [0];
      zeros := zeros + 1;
    }
    assert LeavesRoom(|data|, zeros);
    var tail := LengthBytes(bitLength);
    bytes := bytes + tail;
    assert IsZeroCount(|data|, zeros);
  }

  // Where the zero bytes end: the first length with room for the last eight bytes.
  function FullLength(length: nat): (full: nat)
    ensures full % 64 == 56 && length + 1 <= full < length + 1 + 64
  {
    (length + 1 + 7) / 64 * 64 + 56
  }

  method LengthBytes(bitLength: nat) returns (bytes: seq<Byte>)
    requires bitLength < TWO_64
    ensures bytes == BigEndian(bitLength, 8)
  {
    bytes := [];
    var shift := 8;
    while shift > 0
      invariant 0 <= shift <= 8 && |bytes| == 8 - shift
      invariant bytes == BigEndian(bitLength, 8)[..8 - shift]
    {
      shift := shift - 1;
      BigEndianAt(bitLength, 8, 7 - shift);
      bytes := bytes + [bitLength / Power256(shift) % 256];
    }
  }

  lemma {:induction false} BigEndianAt(v: nat, n: nat, i: nat)
    requires i < n
    ensures BigEndian(v, n)[i] == v / Power256(n - 1 - i) % 256
  {
    if i < n - 1 {
      BigEndianAt(v / 256, n - 1, i);
      DivideTwice(v, 256, Power256(n - 2 - i));
    }
  }

  lemma DivideTwice(v: nat, a: nat, b: nat)
    requires a > 0 && b > 0
    ensures v / a / b == v / (a * b)
  {
    var q, r := v / a, v % a;
    var p, t := q / b, q % b;
    Division(v, a);
    Division(q, b);
    Expand(p, b, t, a);
    AtLeast(b - t, a);
    Distribute(b, t, a);
    AtLeast(a, b);
    QuotientIs(v, a * b, p, t * a + r);
  }

  lemma Division(v: nat, d: nat)
    requires d > 0
    ensures v == (v / d) * d + v % d
  {
  }

  lemma Expand(p: int, b: int, t: int, a: int)
    ensures (p * b + t) * a == p * (a * b) + t * a
  {
  }

  lemma Distribute(b: int, t: int, a: int)
    ensures (b - t) * a == a * b - t * a
  {
  }

  lemma AtLeast(k: int, d: int)
    requires k >= 1 && d > 0
    ensures k * d >= d
  {
  }

  lemma QuotientIs(v: nat, d: nat, q: nat, r: nat)
    requires d > 0 && v == q * d + r && r < d
    ensures v / d == q
  {
    var k := v / d - q;
    Division(v, d);
    Distribute(v / d, q, d);
    if k >= 1 {
      AtLeast(k, d);
    } else if k <= -1 {
      AtLeast(-k, d);
    }
  }

  lemma ScheduledUnfolds(bytes: seq<Byte>, offset: nat, t: nat)
    requires offset + 64 <= |bytes| && t < 64
    ensures t < 16 ==> Scheduled(bytes, offset, t) == WordAt(bytes, offset + 4 * t)
    ensures t >= 16 ==>
        Scheduled(bytes, offset, t) == ScheduleWord(Scheduled(bytes, offset, t - 16), Scheduled(bytes, offset, t - 15),
                                                    Scheduled(bytes, offset, t - 7), Scheduled(bytes, offset, t - 2))
  {
    hide WordAt, ScheduleWord;
  }

  method BuildSchedule(bytes: seq<Byte>, offset: nat, words: array<bv32>)
    requires offset + 64 <= |bytes| && words.Length == 64
    modifies words
    ensures forall t :: 0 <= t < 64 ==> words[t] == Scheduled(bytes, offset, t)
  {
    hide Scheduled, WordAt, ScheduleWord;
    for i := 0 to 16
      invariant forall t :: 0 <= t < i ==> words[t] == Scheduled(bytes, offset, t)
    {
      ScheduledUnfolds(bytes, offset, i);
      var base := offset + i * 4;
      words[i] := WordAt(bytes, base);
    }
    for i := 16 to 64
      invariant forall t :: 0 <= t < i ==> words[t] == Scheduled(bytes, offset, t)
    {
      ScheduledUnfolds(bytes, offset, i);
      words[i] := ScheduleWord(words[i - 16], words[i - 15], words[i - 7], words[i - 2]);
    }
  }

  method Compress(bytes: seq<Byte>, offset: nat, words: array<bv32>, start: Eight) returns (end: Eight)
    requires offset + 64 <= |bytes| && words.Length == 64
    requires forall t :: 0 <= t < 64 ==> words[t] == Scheduled(bytes, offset, t)
    ensures end == Rounds(bytes, offset, start, 64)
  {
    hide Temp1, Temp2, Plus, Scheduled, K;
    var a, b, c, d := start.a, start.b, start.c, start.d;
    var e, f, g, h := start.e, start.f, start.g, start.h;
    for i := 0 to 64
      invariant Eight(a, b, c, d, e, f, g, h) == Rounds(bytes, offset, start, i)
    {
      var temp1 := Temp1(e, f, g, h, K(i), words[i]);
      var temp2 := Temp2(a, b, c);
      h := g;
      g := f;
      f := e;
      e := Plus(d, temp1);
      d := c;
      c := b;
      b := a;
      a := Plus(temp1, temp2);
    }
    end := Eight(a, b, c, d, e, f, g, h);
  }

  /** The source's function: for every message the standard covers, and with the
      length counted modulo 2^64 beyond, it is SHA-256. */
  method Sha256Hex(data: seq<Byte>) returns (text: string)
    ensures IsSha256(data, text)
  {
    hide IsPadded, Scheduled, Rounds, HexOf, WordAt;
    var bytes := Pad(data);
    PaddedIsUnique(data, bytes, bytes);
    var words := new bv32[64];
    var hash := INITIAL;
    var offset := 0;
    while offset < |bytes|
      invariant offset % 64 == 0 && offset <= |bytes|
      invariant hash == Hashed(bytes, offset / 64)
    {
      BuildSchedule(bytes, offset, words);
      var worked := Compress(bytes, offset, words, hash);
      hash := Sum(hash, worked);
      offset := offset + 64;
    }
    text := HexOf(hash);
  }

  /** The digest of a message is unique, and so is the text that shows it. */
  lemma DigestIsUnique(message: seq<Byte>, x: string, y: string)
    requires IsSha256(message, x) && IsSha256(message, y)
    ensures x == y && |x| == 64
  {
    hide IsPadded, Hashed, HexOf;
    var p :| IsPadded(message, p) && |p| % 64 == 0 && x == HexOf(Hashed(p, |p| / 64));
    var q :| IsPadded(message, q) && |q| % 64 == 0 && y == HexOf(Hashed(q, |q| / 64));
    PaddedIsUnique(message, p, q);
  }
}
