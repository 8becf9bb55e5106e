/** Whatever the scanner accepts is derived by the grammar: each lemma returns
    the derivation tree of the text that was consumed. */
module JsonSoundness {
  import opened Prelude
  import opened Utf8
  import opened JsonGrammar
  import opened JsonScanner
  import opened JsonCompleteness

  lemma HasSlice(s: ByteString, p: nat, q: nat)
    requires p <= q <= |s|
    ensures Has(s, p, s[p..q])
  {
  }

  // The white space in front of a position.
  lemma SpaceBefore(s: ByteString, p: nat) returns (w: ByteString)
    requires p <= |s|
    ensures WhitespaceOk(w) && Has(s, p, w)
    ensures SkipWhitespace(s, p) == p + |w|
  {
    WhitespaceSpan(s, p);
    w := s[p..SkipWhitespace(s, p)];
  }

  // A run of digits.
  lemma DigitsBefore(s: ByteString, p: nat) returns (d: ByteString)
    requires p <= |s| && p < SkipDigits(s, p)
    ensures DigitsOk(d) && Has(s, p, d)
    ensures SkipDigits(s, p) == p + |d|
  {
    DigitSpan(s, p);
    d := s[p..SkipDigits(s, p)];
  }

  // Strings

  lemma ItemSound(s: ByteString, p: nat) returns (i: StringItem)
    requires p < |s| && s[p] != '"' && ScanItem(s, p).At?
    ensures ItemOk(i) && Has(s, p, ItemText(i))
    ensures ScanItem(s, p) == At(ItemValue(i), p + |ItemText(i)|)
  {
    if s[p] != '\\' {
      i := Unescaped(s[p]);
    } else if s[p + 1] != 'u' {
      i := Short(s[p + 1]);
      HasChar(s, p, '\\');
      HasChar(s, p + 1, s[p + 1]);
      HasConcat(s, p, ['\\'], [s[p + 1]]);
      assert ItemText(i) == ['\\'] + [s[p + 1]];
    } else {
      i := UnicodeSound(s, p);
    }
  }

  lemma UnicodeSound(s: ByteString, p: nat) returns (i: StringItem)
    requires CharAt(s, p, '\\') && CharAt(s, p + 1, 'u') && ScanUnicodeEscape(s, p + 2).At?
    ensures ItemOk(i) && Has(s, p, ItemText(i))
    ensures ScanUnicodeEscape(s, p + 2) == At(ItemValue(i), p + |ItemText(i)|)
  {
    hide Has;
    var high := s[p + 2..p + 6];
    HasEscape(s, p);
    HasSlice(s, p + 2, p + 6);
    HasConcat(s, p, "\\u", high);
    if IsHighSurrogate(QuadValue(high)) {
      var low := s[p + 8..p + 12];
      HasSlice(s, p + 8, p + 12);
      HasConcat(s, p, "\\u" + high, "\\u");
      HasConcat(s, p, "\\u" + high + "\\u", low);
      i := Pair(high, low);
    } else {
      i := Unit(high);
    }
  }

  lemma BodySound(s: ByteString, p: nat) returns (items: seq<StringItem>)
    requires ScanStringBody(s, p).At?
    ensures ItemsOk(items) && Has(s, p, ItemsText(items) + "\"")
    ensures ScanStringBody(s, p) == At(ItemsValue(items), p + |ItemsText(items)| + 1)
    decreases |s| - p
  {
    if CharAt(s, p, '"') {
      items := [];
      HasChar(s, p, '"');
      assert ItemsText(items) + "\"" == ['"'];
    } else {
      hide Has, ItemText, ScanItem, ItemOk, ItemValue;
      var head := ItemSound(s, p);
      var q := p + |ItemText(head)|;
      var rest := BodySound(s, q);
      items := [head] + rest;
      ItemsJoined(s, p, head, rest);
    }
  }

  lemma ItemsJoined(s: ByteString, p: nat, head: StringItem, rest: seq<StringItem>)
    requires ItemOk(head) && ItemsOk(rest)
    requires Has(s, p, ItemText(head)) && Has(s, p + |ItemText(head)|, ItemsText(rest) + "\"")
    ensures ItemsOk([head] + rest) && Has(s, p, ItemsText([head] + rest) + "\"")
    ensures |ItemsText([head] + rest)| == |ItemText(head)| + |ItemsText(rest)|
    ensures ItemsValue([head] + rest) == ItemValue(head) + ItemsValue(rest)
  {
    hide Has, ItemText, ItemValue, ItemOk;
    var items := [head] + rest;
    assert items[1..] == rest;
    HasConcat(s, p, ItemText(head), ItemsText(rest) + "\"");
    assert ItemsText(items) + "\"" == ItemText(head) + (ItemsText(rest) + "\"");
  }

  lemma StringSound(s: ByteString, p: nat) returns (items: seq<StringItem>)
    requires ScanString(s, p).At?
    ensures ItemsOk(items) && Has(s, p, StringText(items))
    ensures ScanString(s, p) == At(ItemsValue(items), p + |StringText(items)|)
  {
    items := BodySound(s, p + 1);
    HasChar(s, p, '"');
    HasConcat(s, p, "\"", ItemsText(items) + "\"");
    assert StringText(items) == "\"" + (ItemsText(items) + "\"");
  }

  // Numbers

  lemma WholeSound(s: ByteString, p: nat) returns (negative: bool, whole: ByteString)
    requires ScanWhole(s, p).At?
    ensures DigitsOk(whole) && (whole[0] == '0' ==> |whole| == 1)
    ensures Has(s, p, SignText(negative) + whole)
    ensures ScanWhole(s, p) == At((), p + |SignText(negative) + whole|)
  {
    negative := CharAt(s, p, '-');
    HasChar(s, p, '-');
    var q := if negative then p + 1 else p;
    if s[q] == '0' {
      whole := ['0'];
    } else {
      whole := DigitsBefore(s, q);
      HasFirst(s, q, whole);
    }
    HasConcat(s, p, SignText(negative), whole);
  }

  lemma FractionSound(s: ByteString, p: nat) returns (f: Option<ByteString>)
    requires p <= |s| && ScanFraction(s, p).At?
    ensures f.Some? ==> DigitsOk(f.value)
    ensures Has(s, p, FractionText(f))
    ensures ScanFraction(s, p) == At((), p + |FractionText(f)|)
  {
    if CharAt(s, p, '.') {
      var d := DigitsBefore(s, p + 1);
      HasChar(s, p, '.');
      HasConcat(s, p, ".", d);
      f := Some(d);
    } else {
      f := None;
    }
  }

  lemma ExponentSound(s: ByteString, p: nat) returns (e: Option<Exponent>)
    requires p <= |s| && ScanExponent(s, p).At?
    ensures e.Some? ==>
        && (e.value.letter == 'e' || e.value.letter == 'E')
        && (e.value.sign == [] || e.value.sign == "+" || e.value.sign == "-")
        && DigitsOk(e.value.digits)
    ensures Has(s, p, ExponentText(e))
    ensures ScanExponent(s, p) == At((), p + |ExponentText(e)|)
  {
    if p < |s| && IsExponentLetter(s[p]) {
      var sign := if CharAt(s, p + 1, '+') || CharAt(s, p + 1, '-') then [s[p + 1]] else [];
      var d := DigitsBefore(s, p + 1 + |sign|);
      HasChar(s, p, s[p]);
      HasConcat(s, p, [s[p]], sign);
      HasConcat(s, p, [s[p]] + sign, d);
      e := Some(Exponent(s[p], sign, d));
    } else {
      e := None;
    }
  }

  lemma NumberSound(s: ByteString, p: nat) returns (n: Number)
    requires ScanNumber(s, p).At?
    ensures NumberOk(n) && Has(s, p, NumberText(n))
    ensures ScanNumber(s, p) == At((), p + |NumberText(n)|)
  {
    hide ScanWhole, ScanFraction, ScanExponent, Has;
    var negative, whole := WholeSound(s, p);
    var q := p + |SignText(negative) + whole|;
    var fraction := FractionSound(s, q);
    var exponent := ExponentSound(s, q + |FractionText(fraction)|);
    n := Number(negative, whole, fraction, exponent);
    HasConcat(s, p, SignText(negative) + whole, FractionText(fraction));
    HasConcat(s, p, SignText(negative) + whole + FractionText(fraction), ExponentText(exponent));
  }

  lemma IntegerSound(s: ByteString, p: nat) returns (n: Number)
    requires ScanInteger(s, p).At?
    ensures NumberOk(n) && IsInteger(n) && Has(s, p, NumberText(n))
    ensures ScanInteger(s, p) == At(IntegerValue(n), p + |NumberText(n)|)
  {
    hide DigitsValue;
    var negative := CharAt(s, p, '-');
    HasChar(s, p, '-');
    var q := if negative then p + 1 else p;
    var whole := DigitsBefore(s, q);
    HasFirst(s, q, whole);
    HasConcat(s, p, SignText(negative), whole);
    n := Number(negative, whole, None, None);
    assert NumberText(n) == SignText(negative) + whole;
    assert s[q..q + |whole|] == whole;
  }

  // Values

  lemma ValueSound(s: ByteString, p: nat) returns (w: ByteString, v: Value)
    requires ScanValue(s, p).At?
    ensures WhitespaceOk(w) && ValueOk(v)
    ensures Has(s, p, w) && Has(s, p + |w|, ValueText(v))
    ensures ScanValue(s, p) == At((), p + |w| + |ValueText(v)|)
    decreases |s| - p, 1
  {
    hide Has, StringText, NumberText, MembersText, ElementsText, ScanString, ScanNumber, ScanLiteral, ScanObject,
         ScanArray;
    w := SpaceBefore(s, p);
    var q := p + |w|;
    if s[q] == '"' {
      var items := StringSound(s, q);
      v := VString(items);
    } else if s[q] == '{' {
      v := ObjectSound(s, q);
    } else if s[q] == '[' {
      v := ArraySound(s, q);
    } else if s[q] == '-' || IsDigit(s[q]) {
      var n := NumberSound(s, q);
      v := VNumber(n);
    } else {
      v := LiteralSound(s, q);
    }
  }

  lemma LiteralSound(s: ByteString, p: nat) returns (v: Value)
    requires ScanLiteral(s, p).At?
    ensures ValueOk(v) && Has(s, p, ValueText(v))
    ensures ScanLiteral(s, p) == At((), p + |ValueText(v)|)
  {
    v := VLiteral(if Has(s, p, "true") then "true" else if Has(s, p, "false") then "false" else "null");
  }

  // Brackets around white space only.
  lemma EmptySound(s: ByteString, p: nat, open: Byte, w: ByteString, close: Byte)
    requires CharAt(s, p, open) && Has(s, p + 1, w) && CharAt(s, p + 1 + |w|, close)
    ensures Has(s, p, [open] + w + [close])
  {
    HasChar(s, p, open);
    HasChar(s, p + 1 + |w|, close);
    HasConcat(s, p, [open], w);
    HasConcat(s, p, [open] + w, [close]);
  }

  lemma ObjectSound(s: ByteString, p: nat) returns (v: Value)
    requires ScanObject(s, p).At?
    ensures ValueOk(v) && (v.VEmptyObject? || v.VObject?)
    ensures Has(s, p, ValueText(v))
    ensures ScanObject(s, p) == At((), p + |ValueText(v)|)
    decreases |s| - p, 0
  {
    hide Has, ScanMembers, MembersText;
    var w := SpaceBefore(s, p + 1);
    if CharAt(s, p + 1 + |w|, '}') {
      v := VEmptyObject(w);
      EmptySound(s, p, '{', w, '}');
    } else {
      var ms := MembersSound(s, p + 1);
      v := VObject(ms);
      HasChar(s, p, '{');
      HasConcat(s, p, "{", MembersText(ms) + "}");
      assert ValueText(v) == "{" + (MembersText(ms) + "}");
    }
  }

  lemma ArraySound(s: ByteString, p: nat) returns (v: Value)
    requires ScanArray(s, p).At?
    ensures ValueOk(v) && (v.VEmptyArray? || v.VArray?)
    ensures Has(s, p, ValueText(v))
    ensures ScanArray(s, p) == At((), p + |ValueText(v)|)
    decreases |s| - p, 0
  {
    hide Has, ScanElements, ElementsText;
    var w := SpaceBefore(s, p + 1);
    if CharAt(s, p + 1 + |w|, ']') {
      v := VEmptyArray(w);
      EmptySound(s, p, '[', w, ']');
    } else {
      var es := ElementsSound(s, p + 1);
      v := VArray(es);
      HasChar(s, p, '[');
      HasConcat(s, p, "[", ElementsText(es) + "]");
      assert ValueText(v) == "[" + (ElementsText(es) + "]");
    }
  }

  // Puts the pieces of a member together.
  lemma MemberAssembled(s: ByteString, p: nat, m: Member)
    requires Has(s, p, m.before)
    requires Has(s, p + |m.before|, StringText(m.key))
    requires Has(s, KeyEnd(p, m), m.beforeColon)
    requires CharAt(s, KeyEnd(p, m) + |m.beforeColon|, ':')
    requires Has(s, KeyEnd(p, m) + |m.beforeColon| + 1, m.afterColon)
    requires Has(s, ValueBegin(p, m), ValueText(m.value))
    requires Has(s, ValueEnd(p, m), m.after)
    ensures Has(s, p, MemberText(m))
    ensures p + |MemberText(m)| == ValueEnd(p, m) + |m.after|
  {
    hide Has, StringText, ValueText;
    var a := m.before + StringText(m.key);
    var b := a + m.beforeColon;
    var c := b + ":";
    var d := c + m.afterColon;
    var e := d + ValueText(m.value);
    HasConcat(s, p, m.before, StringText(m.key));
    HasConcat(s, p, a, m.beforeColon);
    HasChar(s, p + |b|, ':');
    HasConcat(s, p, b, ":");
    HasConcat(s, p, c, m.afterColon);
    HasConcat(s, p, d, ValueText(m.value));
    HasConcat(s, p, e, m.after);
  }

  /** A key, colon and value; `m.after` is left to the caller. */
  lemma KeySound(s: ByteString, p: nat) returns (key: seq<StringItem>, beforeColon: ByteString)
    requires ScanKey(s, p).At?
    ensures ItemsOk(key) && WhitespaceOk(beforeColon)
    ensures Has(s, p, StringText(key)) && Has(s, p + |StringText(key)|, beforeColon)
    ensures CharAt(s, p + |StringText(key)| + |beforeColon|, ':')
    ensures ScanKey(s, p) == At(ItemsValue(key), p + |StringText(key)| + |beforeColon| + 1)
    ensures ScanString(s, p) == At(ItemsValue(key), p + |StringText(key)|)
  {
    hide Has, StringText, ItemsValue, ScanString;
    key := StringSound(s, p);
    beforeColon := SpaceBefore(s, p + |StringText(key)|);
  }

  lemma MemberSound(s: ByteString, p: nat) returns (m: Member)
    requires p <= |s| && ScanMember(s, SkipWhitespace(s, p)).At?
    ensures MemberOk(m) && Has(s, p, MemberText(m))
    ensures ScanMember(s, SkipWhitespace(s, p)) == At((), ValueEnd(p, m))
    ensures SkipWhitespace(s, ValueEnd(p, m)) == p + |MemberText(m)|
    decreases |s| - p, 2
  {
    hide Has, StringText, ScanKey, ScanValue, ValueText, MemberText, ItemsValue;
    var before := SpaceBefore(s, p);
    var key, beforeColon := KeySound(s, p + |before|);
    var colon := p + |before| + |StringText(key)| + |beforeColon|;
    var afterColon, value := ValueSound(s, colon + 1);
    var after := SpaceBefore(s, colon + 1 + |afterColon| + |ValueText(value)|);
    m := Member(before, key, beforeColon, afterColon, value, after);
    MemberAssembled(s, p, m);
  }

  lemma MembersSound(s: ByteString, p: nat) returns (ms: Members)
    requires p <= |s| && ScanMembers(s, SkipWhitespace(s, p)).At?
    ensures MembersOk(ms) && Has(s, p, MembersText(ms) + "}")
    ensures ScanMembers(s, SkipWhitespace(s, p)) == At((), p + |MembersText(ms)| + 1)
    decreases |s| - p, 3
  {
    hide Has, ScanMember, MemberText, ValueEnd;
    var m := MemberSound(s, p);
    var k := p + |MemberText(m)|;
    HasChar(s, k, '}');
    if CharAt(s, k, '}') {
      ms := OneMember(m);
      HasConcat(s, p, MemberText(m), "}");
    } else {
      var rest := MembersSound(s, k + 1);
      ms := MoreMembers(m, rest);
      MembersJoined(s, p, ms);
    }
  }

  lemma MembersJoined(s: ByteString, p: nat, ms: Members)
    requires ms.MoreMembers? && Has(s, p, MemberText(ms.first))
    requires CharAt(s, p + |MemberText(ms.first)|, ',')
    requires Has(s, p + |MemberText(ms.first)| + 1, MembersText(ms.rest) + "}")
    ensures Has(s, p, MembersText(ms) + "}")
    ensures |MembersText(ms)| == |MemberText(ms.first)| + 1 + |MembersText(ms.rest)|
  {
    hide Has, MemberText;
    var first, rest := MemberText(ms.first), MembersText(ms.rest) + "}";
    HasChar(s, p + |first|, ',');
    HasConcat(s, p, first, ",");
    HasConcat(s, p, first + ",", rest);
    assert MembersText(ms) + "}" == first + "," + rest;
  }

  lemma ElementsJoined(s: ByteString, p: nat, es: Elements)
    requires es.MoreElements? && Has(s, p, ElementText(es.head))
    requires CharAt(s, p + |ElementText(es.head)|, ',')
    requires Has(s, p + |ElementText(es.head)| + 1, ElementsText(es.tail) + "]")
    ensures Has(s, p, ElementsText(es) + "]")
    ensures |ElementsText(es)| == |ElementText(es.head)| + 1 + |ElementsText(es.tail)|
  {
    hide Has, ElementText;
    var first, rest := ElementText(es.head), ElementsText(es.tail) + "]";
    HasChar(s, p + |first|, ',');
    HasConcat(s, p, first, ",");
    HasConcat(s, p, first + ",", rest);
    assert ElementsText(es) + "]" == first + "," + rest;
  }

  lemma ElementSound(s: ByteString, p: nat) returns (e: Element)
    requires p <= |s| && ScanValue(s, p).At?
    ensures WhitespaceOk(e.before) && ValueOk(e.value) && WhitespaceOk(e.after)
    ensures Has(s, p, ElementText(e))
    ensures SkipWhitespace(s, ScanValue(s, p).pos) == p + |ElementText(e)|
    decreases |s| - p, 2
  {
    hide Has, ScanValue, ValueText;
    var before, value := ValueSound(s, p);
    var after := SpaceBefore(s, p + |before| + |ValueText(value)|);
    e := Element(before, value, after);
    HasConcat(s, p, before, ValueText(value));
    HasConcat(s, p, before + ValueText(value), after);
  }

  lemma ElementsSound(s: ByteString, p: nat) returns (es: Elements)
    requires p <= |s| && ScanElements(s, SkipWhitespace(s, p)).At?
    ensures ElementsOk(es) && Has(s, p, ElementsText(es) + "]")
    ensures ScanElements(s, SkipWhitespace(s, p)) == At((), p + |ElementsText(es)| + 1)
    decreases |s| - p, 3
  {
    hide Has, ScanValue, ElementText;
    var w := SpaceBefore(s, p);
    ScanPastSpace(s, p, w);
    var e := ElementSound(s, p);
    var k := p + |ElementText(e)|;
    HasChar(s, k, ']');
    if CharAt(s, k, ']') {
      es := OneElement(e);
      HasConcat(s, p, ElementText(e), "]");
    } else {
      var tail := ElementsSound(s, k + 1);
      es := MoreElements(e, tail);
      ElementsJoined(s, p, es);
    }
  }

  lemma ScanPastSpace(s: ByteString, p: nat, w: ByteString)
    requires p <= |s| && WhitespaceOk(w) && Has(s, p, w) && SkipWhitespace(s, p) == p + |w|
    ensures ScanValue(s, p + |w|) == ScanValue(s, p)
  {
    WhitespaceSpan(s, p);
    ValueAfterSpace(s, p, w);
  }
}
