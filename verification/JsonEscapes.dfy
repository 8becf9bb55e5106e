/** What an escape in a JSON string means, said from the side of a writer.

    Section 7 of RFC 8259 spells a character by two letters, by four hexadecimal
    digits, or by the digits of a surrogate pair.  `Spells` takes a character apart by
    division, in the way a writer does, and shares nothing with the reader: the lemmas
    say that every spelling of a character, anywhere in a string, reads back to the
    UTF-8 bytes of that character. */
module JsonEscapes {
  import opened Utf8
  import opened JsonGrammar
  import opened JsonScanner
  import opened JsonCompleteness
  import LayoutNames

  const LOWER: string := "0123456789abcdef"
  const UPPER: string := "0123456789ABCDEF"

  // A hexadecimal digit, in either case.
  predicate Shows(c: Byte, digit: nat) {
    digit < 16 && (c == LOWER[digit] || c == UPPER[digit])
  }

  predicate SpellsQuad(quad: ByteString, v: nat) {
    && |quad| == 4 && v < 0x10000
    && Shows(quad[0], v / 0x1000) && Shows(quad[1], v / 0x100 % 16)
    && Shows(quad[2], v / 0x10 % 16) && Shows(quad[3], v % 16)
  }

  // The escapes that spell the character `v`.
  predicate Spells(i: StringItem, v: nat) {
    match i
    case Unescaped(_) => false
    case Short(letter) =>
      || (letter == '"' && v == 0x22) || (letter == '\\' && v == 0x5C) || (letter == '/' && v == 0x2F)
      || (letter == 'b' && v == 0x08) || (letter == 'f' && v == 0x0C) || (letter == 'n' && v == 0x0A)
      || (letter == 'r' && v == 0x0D) || (letter == 't' && v == 0x09)
    case Unit(quad) => SpellsQuad(quad, v)
    case Pair(high, low) =>
      && 0x10000 <= v <= 0x10FFFF
      && SpellsQuad(high, 0xD800 + (v - 0x10000) / 0x400) && SpellsQuad(low, 0xDC00 + (v - 0x10000) % 0x400)
  }

  /** Every character has a spelling by hexadecimal digits. */
  function Spelling(v: nat): (i: StringItem)
    requires IsScalar(v)
    ensures Spells(i, v)
  {
    if v < 0x10000 then Unit(Quad(v))
    else Pair(Quad(0xD800 + (v - 0x10000) / 0x400), Quad(0xDC00 + (v - 0x10000) % 0x400))
  }

  function Quad(v: nat): (quad: ByteString)
    requires v < 0x10000
    ensures SpellsQuad(quad, v)
  {
    var digits := [v / 0x1000, v / 0x100 % 16, v / 0x10 % 16, v % 16];
    [LOWER[digits[0]], LOWER[digits[1]], LOWER[digits[2]], LOWER[digits[3]]]
  }

  lemma DigitReads(c: Byte, digit: nat)
    ensures Shows(c, digit) <==> IsHexDigit(c) && HexValue(c) == digit
  {
  }

  lemma JoinDigit(high: nat, low: nat)
    requires low < 16
    ensures (high * 16 + low) / 16 == high && (high * 16 + low) % 16 == low
  {
  }

  lemma DivideAgain(v: nat)
    ensures v / 0x10 / 0x10 == v / 0x100 && v / 0x100 / 0x10 == v / 0x1000
  {
  }

  lemma JoinDigits(a: nat, b: nat, c: nat, d: nat)
    requires a < 16 && b < 16 && c < 16 && d < 16
    ensures var v := a * 0x1000 + b * 0x100 + c * 0x10 + d;
            v / 0x1000 == a && v / 0x100 % 16 == b && v / 0x10 % 16 == c && v % 16 == d
  {
    var ab := a * 16 + b;
    var abc := ab * 16 + c;
    JoinDigit(a, b);
    JoinDigit(ab, c);
    JoinDigit(abc, d);
    DivideAgain(abc * 16 + d);
  }

  lemma SplitDigits(v: nat)
    requires v < 0x10000
    ensures v / 0x1000 < 16
    ensures v == v / 0x1000 * 0x1000 + v / 0x100 % 16 * 0x100 + v / 0x10 % 16 * 0x10 + v % 16
  {
    DivideAgain(v);
    var abc, ab, a := v / 0x10, v / 0x100, v / 0x1000;
    assert v == abc * 16 + v % 16;
    assert abc == ab * 16 + abc % 16;
    assert ab == a * 16 + ab % 16;
  }

  /** Four digits have the value `v` exactly when they are its digits by division. */
  lemma QuadReads(quad: ByteString, v: nat)
    ensures SpellsQuad(quad, v) <==> QuadOk(quad) && QuadValue(quad) == v
  {
    hide Shows, IsHexDigit, HexValue;
    if SpellsQuad(quad, v) {
      DigitReads(quad[0], v / 0x1000);
      DigitReads(quad[1], v / 0x100 % 16);
      DigitReads(quad[2], v / 0x10 % 16);
      DigitReads(quad[3], v % 16);
      SplitDigits(v);
    }
    if QuadOk(quad) && QuadValue(quad) == v {
      QuadDigits(quad);
    }
  }

  lemma QuadDigits(quad: ByteString)
    requires QuadOk(quad)
    ensures SpellsQuad(quad, QuadValue(quad))
  {
    hide Shows, IsHexDigit, HexValue;
    var a, b, c, d := HexValue(quad[0]), HexValue(quad[1]), HexValue(quad[2]), HexValue(quad[3]);
    DigitReads(quad[0], a);
    DigitReads(quad[1], b);
    DigitReads(quad[2], c);
    DigitReads(quad[3], d);
    DigitIsSmall(quad[0], a);
    DigitIsSmall(quad[1], b);
    DigitIsSmall(quad[2], c);
    DigitIsSmall(quad[3], d);
    JoinDigits(a, b, c, d);
  }

  lemma DigitIsSmall(c: Byte, digit: nat)
    requires Shows(c, digit)
    ensures digit < 16
  {
  }

  /** A surrogate pair has the value `v` exactly when it is the split of `v - 0x10000`
      into ten and ten bits. */
  lemma PairReads(high: nat, low: nat, v: nat)
    requires 0x10000 <= v <= 0x10FFFF
    ensures high == 0xD800 + (v - 0x10000) / 0x400 && low == 0xDC00 + (v - 0x10000) % 0x400
       <==> IsHighSurrogate(high) && IsLowSurrogate(low) && PairValue(high, low) == v
  {
  }

  /** An item is an escape of the grammar exactly when it spells a character, which is
      then the one its bytes decode to. */
  lemma EscapeReads(i: StringItem, v: nat)
    ensures Spells(i, v) && IsScalar(v)
       <==> !i.Unescaped? && ItemOk(i) && WellFormed(ItemValue(i)) && Decode(ItemValue(i)) == v
  {
    hide SpellsQuad, QuadOk, QuadValue, WellFormed, Decode, Encode;
    match i {
      case Unescaped(_) =>
      case Short(letter) => ShortReads(letter, v);
      case Unit(quad) =>
        QuadReads(quad, v);
        if QuadOk(quad) && IsScalar(QuadValue(quad)) {
          EncodeDecodes(QuadValue(quad));
        }
      case Pair(high, low) => PairSpells(high, low, v);
    }
  }

  lemma ShortReads(letter: Byte, v: nat)
    ensures Spells(Short(letter), v) <==> ItemOk(Short(letter)) && [v] == [ShortValue(letter) as nat]
    ensures ItemOk(Short(letter)) ==> WellFormed([ShortValue(letter)])
    ensures ItemOk(Short(letter)) ==> Decode([ShortValue(letter)]) == ShortValue(letter) as nat
    ensures Spells(Short(letter), v) ==> IsScalar(v)
  {
  }

  lemma PairSpells(high: ByteString, low: ByteString, v: nat)
    ensures Spells(Pair(high, low), v) && IsScalar(v)
       <==> && ItemOk(Pair(high, low)) && WellFormed(ItemValue(Pair(high, low)))
            && Decode(ItemValue(Pair(high, low))) == v
  {
    hide SpellsQuad, QuadOk, QuadValue, WellFormed, Decode, Encode;
    if ItemOk(Pair(high, low)) {
      var w := PairValue(QuadValue(high), QuadValue(low));
      EncodeDecodes(w);
      PairReads(QuadValue(high), QuadValue(low), w);
      QuadReads(high, QuadValue(high));
      QuadReads(low, QuadValue(low));
    }
    if Spells(Pair(high, low), v) {
      PairReads(0xD800 + (v - 0x10000) / 0x400, 0xDC00 + (v - 0x10000) % 0x400, v);
      QuadReads(high, 0xD800 + (v - 0x10000) / 0x400);
      QuadReads(low, 0xDC00 + (v - 0x10000) % 0x400);
      EncodeDecodes(v);
    }
  }

  lemma {:induction false} ItemsValueOfConcat(x: seq<StringItem>, y: seq<StringItem>)
    requires ItemsOk(x) && ItemsOk(y)
    ensures ItemsOk(x + y) && ItemsValue(x + y) == ItemsValue(x) + ItemsValue(y)
  {
    hide ItemOk, ItemValue;
    if x == [] {
      assert x + y == y;
    } else {
      assert (x + y)[1..] == x[1..] + y;
      ItemsValueOfConcat(x[1..], y);
    }
  }

  /** Wherever it stands in a string, every spelling of a character is read as the UTF-8
      bytes of that character. */
  lemma StringReadsEscape(
      s: ByteString, p: nat, before: seq<StringItem>, i: StringItem, after: seq<StringItem>, v: nat)
    requires ItemsOk(before) && ItemsOk(after) && IsScalar(v) && Spells(i, v)
    requires Has(s, p, StringText(before + [i] + after))
    ensures exists bytes ::
        && WellFormed(bytes) && Decode(bytes) == v
        && ScanString(s, p)
           == At(ItemsValue(before) + bytes + ItemsValue(after), p + |StringText(before + [i] + after)|)
  {
    hide ItemOk, ItemValue, ScanString, WellFormed, Decode, Spells, Has, StringText;
    EscapeReads(i, v);
    ItemsValueOfConcat([i], after);
    ItemsValueOfConcat(before, [i] + after);
    assert before + ([i] + after) == before + [i] + after;
    assert ItemsValue([i]) == ItemValue(i) + ItemsValue([]);
    StringComplete(s, p, before + [i] + after);
    assert ItemsValue(before) + (ItemValue(i) + ItemsValue(after))
        == ItemsValue(before) + ItemValue(i) + ItemsValue(after);
  }

  /** An integer has the value `v` exactly when its digits are the decimal number. */
  lemma IntegerReads(n: Number, v: nat)
    requires NumberOk(n) && IsInteger(n)
    ensures IntegerValue(n) == (if n.negative then -(v as int) else v) <==> n.whole == LayoutNames.Decimal(v)
  {
    hide DigitsValue, LayoutNames.Decimal;
    DecimalReads(v);
    DigitsShow(n.whole);
  }

  lemma {:induction false} DecimalReads(v: nat)
    ensures DigitsValue(LayoutNames.Decimal(v)) == v
  {
    if v >= 10 {
      DecimalReads(v / 10);
    }
  }

  lemma {:induction false} DigitsShow(digits: ByteString)
    requires DigitsOk(digits) && (digits[0] == '0' ==> |digits| == 1)
    ensures digits == LayoutNames.Decimal(DigitsValue(digits))
  {
    if |digits| > 1 {
      DigitsShow(digits[..|digits| - 1]);
    }
  }

  /** White space and digits by their codes. */
  lemma CharacterClasses(c: Byte)
    ensures IsWhitespace(c) <==> c as int in {0x20, 0x09, 0x0A, 0x0D}
    ensures IsDigit(c) <==> 0x30 <= c as int <= 0x39
    ensures IsHexDigit(c) <==> c in LOWER || c in UPPER
  {
    if IsHexDigit(c) {
      DigitReads(c, HexValue(c));
    }
    if c in LOWER {
      var d :| 0 <= d < |LOWER| && LOWER[d] == c;
      DigitReads(c, d);
    }
    if c in UPPER {
      var d :| 0 <= d < |UPPER| && UPPER[d] == c;
      DigitReads(c, d);
    }
  }
}
