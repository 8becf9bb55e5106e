/** The functions on words of FIPS 180-4, section 4.1.2, and what they do to the bits. */
module Sha256Words {
  // Section 4.1.2: functions on words

  function RotateRight(value: bv32, count: bv32): bv32
    requires 0 < count < 32
  {
    (value >> count) | (value << (32 - count))
  }

  function Xor(x: bv32, y: bv32, z: bv32): bv32 { x ^ y ^ z }

  function BigSigma0(x: bv32): bv32 { Xor(RotateRight(x, 2), RotateRight(x, 13), RotateRight(x, 22)) }

  function BigSigma1(x: bv32): bv32 { Xor(RotateRight(x, 6), RotateRight(x, 11), RotateRight(x, 25)) }

  function SmallSigma0(x: bv32): bv32 { Xor(RotateRight(x, 7), RotateRight(x, 18), x >> 3) }

  function SmallSigma1(x: bv32): bv32 { Xor(RotateRight(x, 17), RotateRight(x, 19), x >> 10) }

  function Choice(x: bv32, y: bv32, z: bv32): bv32 { (x & y) ^ (!x & z) }

  function Majority(x: bv32, y: bv32, z: bv32): bv32 { (x & y) ^ (x & z) ^ (y & z) }

  // A bit of a word, counted from the low end.
  predicate Bit(x: bv32, j: bv32)
    requires j < 32
  {
    (x >> j) & 1 == 1
  }

  /** The bits are those of division and remainder. */
  lemma BitsByDivision(x: bv32)
    ensures Bit(x, 0) == (x % 2 == 1) && Bit(x, 1) == (x / 0x2 % 2 == 1) && Bit(x, 2) == (x / 0x4 % 2 == 1)
        && Bit(x, 3) == (x / 0x8 % 2 == 1)
    ensures Bit(x, 4) == (x / 0x10 % 2 == 1) && Bit(x, 5) == (x / 0x20 % 2 == 1) && Bit(x, 6) == (x / 0x40 % 2 == 1)
    ensures Bit(x, 7) == (x / 0x80 % 2 == 1) && Bit(x, 8) == (x / 0x100 % 2 == 1) && Bit(x, 9) == (x / 0x200 % 2 == 1)
    ensures Bit(x, 10) == (x / 0x400 % 2 == 1) && Bit(x, 11) == (x / 0x800 % 2 == 1)
        && Bit(x, 12) == (x / 0x1000 % 2 == 1)
    ensures Bit(x, 13) == (x / 0x2000 % 2 == 1) && Bit(x, 14) == (x / 0x4000 % 2 == 1)
        && Bit(x, 15) == (x / 0x8000 % 2 == 1)
    ensures Bit(x, 16) == (x / 0x1_0000 % 2 == 1) && Bit(x, 17) == (x / 0x2_0000 % 2 == 1)
        && Bit(x, 18) == (x / 0x4_0000 % 2 == 1)
    ensures Bit(x, 19) == (x / 0x8_0000 % 2 == 1) && Bit(x, 20) == (x / 0x10_0000 % 2 == 1)
        && Bit(x, 21) == (x / 0x20_0000 % 2 == 1)
    ensures Bit(x, 22) == (x / 0x40_0000 % 2 == 1) && Bit(x, 23) == (x / 0x80_0000 % 2 == 1)
        && Bit(x, 24) == (x / 0x100_0000 % 2 == 1)
    ensures Bit(x, 25) == (x / 0x200_0000 % 2 == 1) && Bit(x, 26) == (x / 0x400_0000 % 2 == 1) 
    ensures Bit(x, 27) == (x / 0x800_0000 % 2 == 1)
    ensures Bit(x, 28) == (x / 0x1000_0000 % 2 == 1) && Bit(x, 29) == (x / 0x2000_0000 % 2 == 1)
    ensures Bit(x, 30) == (x / 0x4000_0000 % 2 == 1) && Bit(x, 31) == (x / 0x8000_0000 % 2 == 1)
  {
  }

  // The bit that a rotation to the right by `n` brings to place `j`.
  predicate RotatedBit(x: bv32, j: bv32, n: bv32)
    requires j < 32 && n < 32
  {
    if j + n < 32 then Bit(x, j + n) else Bit(x, j + n - 32)
  }

  // The bit that a shift to the right by `n` brings to place `j`, if any.
  predicate ShiftedBit(x: bv32, j: bv32, n: bv32)
    requires j < 32 && n < 32
  {
    j + n < 32 && Bit(x, j + n)
  }

  lemma RotationMovesDown(x: bv32, j: bv32, n: bv32)
    requires j < 32 && 0 < n < 32 && j + n < 32
    ensures Bit((x >> n) | (x << (32 - n)), j) == Bit(x, j + n)
  {
  }

  lemma RotationMovesAround(x: bv32, j: bv32, n: bv32)
    requires j < 32 && 0 < n < 32 && j + n >= 32
    ensures Bit((x >> n) | (x << (32 - n)), j) == Bit(x, j + n - 32)
  {
  }

  lemma RotationMoves(x: bv32, j: bv32, n: bv32)
    requires j < 32 && 0 < n < 32
    ensures Bit(RotateRight(x, n), j) == RotatedBit(x, j, n)
  {
    hide Bit;
    if j + n < 32 {
      RotationMovesDown(x, j, n);
    } else {
      RotationMovesAround(x, j, n);
    }
  }

  lemma ShiftMoves(x: bv32, j: bv32)
    requires j < 32
    ensures Bit(x >> 3, j) == ShiftedBit(x, j, 3) && Bit(x >> 10, j) == ShiftedBit(x, j, 10)
  {
  }

  // The exclusive or of three bits.
  predicate Odd(x: bool, y: bool, z: bool) {
    (x != y) != z
  }

  lemma XorOfBits(x: bv32, y: bv32, z: bv32, j: bv32)
    requires j < 32
    ensures Bit(x ^ y ^ z, j) == Odd(Bit(x, j), Bit(y, j), Bit(z, j))
  {
  }

  lemma BitOfXor(x: bv32, y: bv32, z: bv32, j: bv32)
    requires j < 32
    ensures Bit(Xor(x, y, z), j) == Odd(Bit(x, j), Bit(y, j), Bit(z, j))
  {
    hide Bit;
    XorOfBits(x, y, z, j);
  }

  lemma BigSigma0Bits(x: bv32, j: bv32)
    requires j < 32
    ensures Bit(BigSigma0(x), j) == Odd(RotatedBit(x, j, 2), RotatedBit(x, j, 13), RotatedBit(x, j, 22))
  {
    hide Bit, RotatedBit, ShiftedBit, RotateRight, Xor;
    BitOfXor(RotateRight(x, 2), RotateRight(x, 13), RotateRight(x, 22), j);
    RotationMoves(x, j, 2);
    RotationMoves(x, j, 13);
    RotationMoves(x, j, 22);
  }

  lemma BigSigma1Bits(x: bv32, j: bv32)
    requires j < 32
    ensures Bit(BigSigma1(x), j) == Odd(RotatedBit(x, j, 6), RotatedBit(x, j, 11), RotatedBit(x, j, 25))
  {
    hide Bit, RotatedBit, ShiftedBit, RotateRight, Xor;
    BitOfXor(RotateRight(x, 6), RotateRight(x, 11), RotateRight(x, 25), j);
    RotationMoves(x, j, 6);
    RotationMoves(x, j, 11);
    RotationMoves(x, j, 25);
  }

  lemma SmallSigma0Bits(x: bv32, j: bv32)
    requires j < 32
    ensures Bit(SmallSigma0(x), j) == Odd(RotatedBit(x, j, 7), RotatedBit(x, j, 18), ShiftedBit(x, j, 3))
  {
    hide Bit, RotatedBit, ShiftedBit, RotateRight, Xor;
    BitOfXor(RotateRight(x, 7), RotateRight(x, 18), x >> 3, j);
    RotationMoves(x, j, 7);
    RotationMoves(x, j, 18);
    ShiftMoves(x, j);
  }

  lemma SmallSigma1Bits(x: bv32, j: bv32)
    requires j < 32
    ensures Bit(SmallSigma1(x), j) == Odd(RotatedBit(x, j, 17), RotatedBit(x, j, 19), ShiftedBit(x, j, 10))
  {
    hide Bit, RotatedBit, ShiftedBit, RotateRight, Xor;
    BitOfXor(RotateRight(x, 17), RotateRight(x, 19), x >> 10, j);
    RotationMoves(x, j, 17);
    RotationMoves(x, j, 19);
    ShiftMoves(x, j);
  }

  /** Section 4.1.2, bit by bit: each sigma function is the exclusive or of three bits of
      its argument. */
  lemma SigmaBits(x: bv32, j: bv32)
    requires j < 32
    ensures Bit(BigSigma0(x), j) == Odd(RotatedBit(x, j, 2), RotatedBit(x, j, 13), RotatedBit(x, j, 22))
    ensures Bit(BigSigma1(x), j) == Odd(RotatedBit(x, j, 6), RotatedBit(x, j, 11), RotatedBit(x, j, 25))
    ensures Bit(SmallSigma0(x), j) == Odd(RotatedBit(x, j, 7), RotatedBit(x, j, 18), ShiftedBit(x, j, 3))
    ensures Bit(SmallSigma1(x), j) == Odd(RotatedBit(x, j, 17), RotatedBit(x, j, 19), ShiftedBit(x, j, 10))
  {
    hide Bit, RotatedBit, ShiftedBit, RotateRight, Xor;
    BigSigma0Bits(x, j);
    BigSigma1Bits(x, j);
    SmallSigma0Bits(x, j);
    SmallSigma1Bits(x, j);
  }

  /** Choice takes its second argument where the first has a bit, else its third. */
  lemma ChoiceSelects(x: bv32, y: bv32, z: bv32)
    ensures Choice(x, y, z) & x == y & x && Choice(x, y, z) & !x == z & !x
  {
  }

  /** Majority has exactly the bits that at least two of its arguments have. */
  lemma MajorityVotes(x: bv32, y: bv32, z: bv32)
    ensures Majority(x, y, z) == (x & y) | (x & z) | (y & z)
  {
  }

  // Four bytes and their word

  function Word(a: bv32, b: bv32, c: bv32, d: bv32): bv32 {
    (a << 24) | (b << 16) | (c << 8) | d
  }

  lemma Byte0To31(b: int)
    requires 0 <= b < 32
    ensures (b as bv8) as int == b
  {
  }

  lemma Byte32To63(b: int)
    requires 32 <= b < 64
    ensures (b as bv8) as int == b
  {
  }

  lemma Byte64To95(b: int)
    requires 64 <= b < 96
    ensures (b as bv8) as int == b
  {
  }

  lemma Byte96To127(b: int)
    requires 96 <= b < 128
    ensures (b as bv8) as int == b
  {
  }

  lemma Byte128To159(b: int)
    requires 128 <= b < 160
    ensures (b as bv8) as int == b
  {
  }

  lemma Byte160To191(b: int)
    requires 160 <= b < 192
    ensures (b as bv8) as int == b
  {
  }

  lemma Byte192To223(b: int)
    requires 192 <= b < 224
    ensures (b as bv8) as int == b
  {
  }

  lemma Byte224To255(b: int)
    requires 224 <= b < 256
    ensures (b as bv8) as int == b
  {
  }

  lemma ByteAsEightBits(b: int)
    requires 0 <= b < 256
    ensures (b as bv8) as int == b
  {
    if b < 32 { Byte0To31(b); }
    else if b < 64 { Byte32To63(b); }
    else if b < 96 { Byte64To95(b); }
    else if b < 128 { Byte96To127(b); }
    else if b < 160 { Byte128To159(b); }
    else if b < 192 { Byte160To191(b); }
    else if b < 224 { Byte192To223(b); }
    else { Byte224To255(b); }
  }

  lemma EightBitsAsWord(b: int)
    requires 0 <= b < 256
    ensures b as bv32 == (b as bv8) as bv32
  {
  }

  lemma EightBitsValue(v: bv8)
    ensures (v as bv32) as int == v as int && (v as bv32) < 256
  {
  }

  function AsWord(b: int): bv32
    requires 0 <= b < 256
  {
    b as bv32
  }

  lemma ByteIsKept(b: int)
    requires 0 <= b < 256
    ensures AsWord(b) as int == b && AsWord(b) < 256
  {
    ByteAsEightBits(b);
    EightBitsAsWord(b);
    EightBitsValue(b as bv8);
  }

  lemma PartsOfWord(w: bv32, a: bv32, b: bv32, c: bv32, d: bv32, low: bv32, rest: bv32)
    requires a < 256 && b < 256 && c < 256 && d < 256
    requires w == (a << 24) | (b << 16) | (c << 8) | d && low == w & 0xff_ffff && rest == w & 0xffff
    ensures w >> 24 == a && (w >> 16) & 0xff == b && (w >> 8) & 0xff == c && w & 0xff == d
  {
  }

  lemma SplitWord(w: bv32)
    ensures w as int == (w >> 24) as int * 0x100_0000 + (w & 0xff_ffff) as int
  {
  }

  lemma SplitThree(w: bv32)
    ensures (w & 0xff_ffff) as int == ((w >> 16) & 0xff) as int * 0x1_0000 + (w & 0xffff) as int
  {
  }

  lemma SplitTwo(w: bv32)
    ensures (w & 0xffff) as int == ((w >> 8) & 0xff) as int * 0x100 + (w & 0xff) as int
  {
  }

  lemma JoinWord(w: bv32, a: bv32, low: bv32)
    requires w >> 24 == a && w & 0xff_ffff == low
    ensures w as int == a as int * 0x100_0000 + low as int
  {
    SplitWord(w);
  }

  lemma JoinThree(w: bv32, low: bv32, b: bv32, rest: bv32)
    requires w & 0xff_ffff == low && (w >> 16) & 0xff == b && w & 0xffff == rest
    ensures low as int == b as int * 0x1_0000 + rest as int
  {
    SplitThree(w);
  }

  lemma JoinTwo(w: bv32, rest: bv32, c: bv32, d: bv32)
    requires w & 0xffff == rest && (w >> 8) & 0xff == c && w & 0xff == d
    ensures rest as int == c as int * 0x100 + d as int
  {
    SplitTwo(w);
  }

  lemma WordByParts(w: bv32, a: bv32, b: bv32, c: bv32, d: bv32, low: bv32, rest: bv32)
    requires w >> 24 == a && (w >> 16) & 0xff == b && (w >> 8) & 0xff == c && w & 0xff == d
    requires w & 0xff_ffff == low && w & 0xffff == rest
    ensures w as int == a as int * 0x100_0000 + b as int * 0x1_0000 + c as int * 0x100 + d as int
  {
    JoinWord(w, a, low);
    JoinThree(w, low, b, rest);
    JoinTwo(w, rest, c, d);
  }

  /** The first of four bytes is the most significant one. */
  lemma WordReads(a: bv32, b: bv32, c: bv32, d: bv32)
    requires a < 256 && b < 256 && c < 256 && d < 256
    ensures Word(a, b, c, d) as int == a as int * 0x100_0000 + b as int * 0x1_0000 + c as int * 0x100 + d as int
  {
    var w := Word(a, b, c, d);
    var low, rest := w & 0xff_ffff, w & 0xffff;
    PartsOfWord(w, a, b, c, d, low, rest);
    WordByParts(w, a, b, c, d, low, rest);
  }
}
