/** The scanner accepts every text the grammar derives, consumes exactly that
    text, and decodes strings and integers to what their trees denote. */
module JsonCompleteness {
  import opened Prelude
  import opened Utf8
  import opened JsonGrammar
  import opened JsonScanner

  // What may follow a value: the end of the input, white space, `,`, `}` or `]`.
  predicate Delimited(s: ByteString, p: nat) {
    p < |s| ==> IsWhitespace(s[p]) || s[p] == ',' || s[p] == '}' || s[p] == ']'
  }

  lemma HasConcat(s: ByteString, p: nat, t: ByteString, u: ByteString)
    ensures Has(s, p, t + u) <==> Has(s, p, t) && Has(s, p + |t|, u)
  {
    if Has(s, p, t + u) {
      assert s[p..p + |t|] == (t + u)[..|t|];
      assert s[p + |t|..p + |t| + |u|] == (t + u)[|t|..];
    }
    if Has(s, p, t) && Has(s, p + |t|, u) {
      assert s[p..p + |t| + |u|] == s[p..p + |t|] + s[p + |t|..p + |t| + |u|];
    }
  }

  lemma HasChar(s: ByteString, p: nat, c: Byte)
    ensures Has(s, p, [c]) <==> CharAt(s, p, c)
  {
  }

  lemma HasFirst(s: ByteString, p: nat, t: ByteString)
    requires Has(s, p, t) && |t| > 0
    ensures CharAt(s, p, t[0])
  {
    assert s[p..p + |t|][0] == s[p];
  }

  lemma {:induction false} WhitespaceComplete(s: ByteString, p: nat, w: ByteString)
    requires WhitespaceOk(w) && Has(s, p, w)
    requires p + |w| < |s| ==> !IsWhitespace(s[p + |w|])
    ensures SkipWhitespace(s, p) == p + |w|
    decreases |w|
  {
    if w != [] {
      HasFirst(s, p, w);
      HasConcat(s, p, [w[0]], w[1..]);
      assert [w[0]] + w[1..] == w;
      WhitespaceComplete(s, p + 1, w[1..]);
    }
  }

  lemma {:induction false} DigitsComplete(s: ByteString, p: nat, d: ByteString)
    requires forall i :: 0 <= i < |d| ==> IsDigit(d[i])
    requires Has(s, p, d)
    requires p + |d| < |s| ==> !IsDigit(s[p + |d|])
    ensures SkipDigits(s, p) == p + |d|
    decreases |d|
  {
    if d != [] {
      HasFirst(s, p, d);
      HasConcat(s, p, [d[0]], d[1..]);
      assert [d[0]] + d[1..] == d;
      DigitsComplete(s, p + 1, d[1..]);
    }
  }

  // Strings

  lemma QuadComplete(s: ByteString, p: nat, quad: ByteString)
    requires QuadOk(quad) && Has(s, p, quad)
    ensures ScanHexQuad(s, p) == At(QuadValue(quad), p + 4)
  {
  }

  lemma ItemComplete(s: ByteString, p: nat, i: StringItem)
    requires ItemOk(i) && Has(s, p, ItemText(i))
    ensures !CharAt(s, p, '"')
    ensures ScanItem(s, p) == At(ItemValue(i), p + |ItemText(i)|)
  {
    HasFirst(s, p, ItemText(i));
    match i {
      case Unescaped(_) =>
      case Short(letter) =>
        HasConcat(s, p, ['\\'], [letter]);
        assert ['\\'] + [letter] == ItemText(i);
      case Unit(quad) =>
        UnitComplete(s, p, quad);
      case Pair(high, low) =>
        HasConcat(s, p, "\\u" + high + "\\u", low);
        HasConcat(s, p, "\\u" + high, "\\u");
        EscapeStart(s, p, high);
        QuadComplete(s, p + 2, high);
        QuadComplete(s, p + 8, low);
    }
  }

  lemma EscapeStart(s: ByteString, p: nat, quad: ByteString)
    requires Has(s, p, "\\u" + quad)
    ensures CharAt(s, p, '\\') && CharAt(s, p + 1, 'u') && Has(s, p + 2, quad)
  {
    HasConcat(s, p, "\\u", quad);
    assert s[p..p + 2] == "\\u";
    assert s[p] == s[p..p + 2][0] && s[p + 1] == s[p..p + 2][1];
  }

  lemma UnitComplete(s: ByteString, p: nat, quad: ByteString)
    requires QuadOk(quad) && IsScalar(QuadValue(quad))
    requires Has(s, p, "\\u" + quad)
    ensures ScanItem(s, p) == At(Encode(QuadValue(quad)), p + 6)
  {
    EscapeStart(s, p, quad);
    QuadComplete(s, p + 2, quad);
  }

  lemma {:induction false} BodyComplete(s: ByteString, p: nat, items: seq<StringItem>)
    requires ItemsOk(items) && Has(s, p, ItemsText(items) + "\"")
    ensures ScanStringBody(s, p) == At(ItemsValue(items), p + |ItemsText(items)| + 1)
    decreases |items|
  {
    if items == [] {
      HasFirst(s, p, ItemsText(items) + "\"");
    } else {
      hide Has, ItemText, ItemValue, ScanItem, ItemOk;
      var head, rest := ItemText(items[0]), ItemsText(items[1..]);
      assert ItemsText(items) + "\"" == head + (rest + "\"");
      HasConcat(s, p, head, rest + "\"");
      ItemComplete(s, p, items[0]);
      BodyComplete(s, p + |head|, items[1..]);
    }
  }

  lemma StringComplete(s: ByteString, p: nat, items: seq<StringItem>)
    requires ItemsOk(items) && Has(s, p, StringText(items))
    ensures ScanString(s, p) == At(ItemsValue(items), p + |StringText(items)|)
  {
    assert StringText(items) == "\"" + (ItemsText(items) + "\"");
    HasConcat(s, p, "\"", ItemsText(items) + "\"");
    HasFirst(s, p, StringText(items));
    BodyComplete(s, p + 1, items);
  }

  // Numbers

  lemma NumberStart(n: Number)
    requires NumberOk(n)
    ensures |NumberText(n)| > 0
    ensures NumberText(n)[0] == '-' || IsDigit(NumberText(n)[0])
  {
  }

  // A digit run followed by the text of a fraction, an exponent or a delimiter ends there.
  lemma WholeComplete(s: ByteString, p: nat, n: Number)
    requires NumberOk(n) && Has(s, p, SignText(n.negative) + n.whole)
    requires var q := p + |SignText(n.negative) + n.whole|; q < |s| ==> !IsDigit(s[q])
    ensures ScanWhole(s, p) == At((), p + |SignText(n.negative) + n.whole|)
  {
    HasConcat(s, p, SignText(n.negative), n.whole);
    HasFirst(s, p, SignText(n.negative) + n.whole);
    HasFirst(s, p + |SignText(n.negative)|, n.whole);
    DigitsComplete(s, p + |SignText(n.negative)|, n.whole);
  }

  lemma FractionComplete(s: ByteString, p: nat, f: Option<ByteString>)
    requires f.Some? ==> DigitsOk(f.value)
    requires Has(s, p, FractionText(f))
    requires var q := p + |FractionText(f)|; q < |s| ==> !IsDigit(s[q]) && s[q] != '.'
    ensures ScanFraction(s, p) == At((), p + |FractionText(f)|)
  {
    if f.Some? {
      HasFirst(s, p, FractionText(f));
      HasConcat(s, p, ".", f.value);
      DigitsComplete(s, p + 1, f.value);
    }
  }

  lemma ExponentComplete(s: ByteString, p: nat, n: Number)
    requires NumberOk(n) && Has(s, p, ExponentText(n.exponent))
    requires Delimited(s, p + |ExponentText(n.exponent)|)
    ensures ScanExponent(s, p) == At((), p + |ExponentText(n.exponent)|)
  {
    if n.exponent.Some? {
      var e := n.exponent.value;
      HasFirst(s, p, ExponentText(n.exponent));
      HasConcat(s, p, [e.letter] + e.sign, e.digits);
      HasConcat(s, p, [e.letter], e.sign);
      HasFirst(s, p + 1 + |e.sign|, e.digits);
      if e.sign != [] {
        HasFirst(s, p + 1, e.sign);
      }
      DigitsComplete(s, p + 1 + |e.sign|, e.digits);
    }
  }

  lemma NumberComplete(s: ByteString, p: nat, n: Number)
    requires NumberOk(n) && Has(s, p, NumberText(n)) && Delimited(s, p + |NumberText(n)|)
    ensures ScanNumber(s, p) == At((), p + |NumberText(n)|)
  {
    hide Has, ScanWhole, ScanFraction, ScanExponent;
    var whole, fraction, exponent := SignText(n.negative) + n.whole, FractionText(n.fraction), ExponentText(n.exponent);
    HasConcat(s, p, whole + fraction, exponent);
    HasConcat(s, p, whole, fraction);
    if exponent != [] {
      HasFirst(s, p + |whole| + |fraction|, exponent);
    }
    if fraction != [] {
      HasFirst(s, p + |whole|, fraction);
    }
    WholeComplete(s, p, n);
    FractionComplete(s, p + |whole|, n.fraction);
    ExponentComplete(s, p + |whole| + |fraction|, n);
  }

  lemma IntegerComplete(s: ByteString, p: nat, n: Number)
    requires NumberOk(n) && IsInteger(n) && INT_MIN <= IntegerValue(n) <= INT_MAX
    requires Has(s, p, NumberText(n)) && Delimited(s, p + |NumberText(n)|)
    ensures ScanInteger(s, p) == At(IntegerValue(n), p + |NumberText(n)|)
  {
    hide Has, DigitsValue, SkipDigits;
    assert NumberText(n) == SignText(n.negative) + n.whole;
    HasConcat(s, p, SignText(n.negative), n.whole);
    HasFirst(s, p, NumberText(n));
    HasFirst(s, p + |SignText(n.negative)|, n.whole);
    DigitsComplete(s, p + |SignText(n.negative)|, n.whole);
    HasText(s, p + |SignText(n.negative)|, n.whole);
  }

  lemma HasText(s: ByteString, p: nat, t: ByteString)
    requires Has(s, p, t)
    ensures p + |t| <= |s| && s[p..p + |t|] == t
  {
  }

  // Values

  lemma ValueStart(v: Value)
    requires ValueOk(v)
    ensures |ValueText(v)| > 0
    ensures var c := ValueText(v)[0]; !IsWhitespace(c) && c != ']' && c != '}'
  {
    if v.VNumber? {
      NumberStart(v.number);
    }
  }

  // White space before a value is skipped.
  lemma ValueAfterSpace(s: ByteString, p: nat, w: ByteString)
    requires WhitespaceOk(w) && Has(s, p, w)
    requires p + |w| < |s| ==> !IsWhitespace(s[p + |w|])
    ensures ScanValue(s, p) == ScanValue(s, p + |w|)
  {
    WhitespaceComplete(s, p, w);
    WhitespaceComplete(s, p + |w|, []);
  }

  lemma {:induction false} ValueComplete(s: ByteString, p: nat, v: Value)
    requires ValueOk(v) && Has(s, p, ValueText(v)) && Delimited(s, p + |ValueText(v)|)
    ensures ScanValue(s, p) == At((), p + |ValueText(v)|)
    decreases v, 1
  {
    hide Has, NumberText, MembersText, ElementsText, ScanString, ScanNumber, ScanLiteral, ScanMembers, ScanElements;
    ValueStart(v);
    HasFirst(s, p, ValueText(v));
    WhitespaceComplete(s, p, []);
    match v {
      case VString(items) => StringComplete(s, p, items);
      case VNumber(n) => NumberStart(n); NumberComplete(s, p, n);
      case VLiteral(word) => LiteralComplete(s, p, word);
      case VEmptyObject(inside) => EmptyComplete(s, p, '{', inside, '}');
      case VEmptyArray(within) => EmptyComplete(s, p, '[', within, ']');
      case VObject(members) =>
        HasConcat(s, p, "{", MembersText(members) + "}");
        assert "{" + (MembersText(members) + "}") == ValueText(v);
        MembersComplete(s, p + 1, members);
        MembersStart(s, p + 1, members, "}");
      case VArray(elements) =>
        HasConcat(s, p, "[", ElementsText(elements) + "]");
        assert "[" + (ElementsText(elements) + "]") == ValueText(v);
        ElementsComplete(s, p + 1, elements);
        ElementsStart(s, p + 1, elements, "]");
    }
  }

  lemma LiteralComplete(s: ByteString, p: nat, word: ByteString)
    requires LiteralOk(word) && Has(s, p, word)
    ensures ScanLiteral(s, p) == At((), p + |word|)
    ensures CharAt(s, p, word[0])
  {
    HasFirst(s, p, word);
    if Has(s, p, "true") {
      HasFirst(s, p, "true");
    }
    if Has(s, p, "false") {
      HasFirst(s, p, "false");
    }
  }

  lemma EmptyComplete(s: ByteString, p: nat, open: Byte, w: ByteString, close: Byte)
    requires WhitespaceOk(w) && !IsWhitespace(close) && Has(s, p, [open] + w + [close])
    ensures CharAt(s, p, open)
    ensures SkipWhitespace(s, p + 1) == p + 1 + |w| && CharAt(s, p + 1 + |w|, close)
  {
    HasConcat(s, p, [open] + w, [close]);
    HasConcat(s, p, [open], w);
    HasFirst(s, p, [open]);
    HasFirst(s, p + 1 + |w|, [close]);
    WhitespaceComplete(s, p + 1, w);
  }

  // After the white space before it, a member list starts with a quote.
  lemma MembersStart(s: ByteString, p: nat, ms: Members, tail: ByteString)
    requires MembersOk(ms) && Has(s, p, MembersText(ms) + tail)
    ensures CharAt(s, SkipWhitespace(s, p), '"')
    ensures SkipWhitespace(s, p) == p + |ms.first.before|
  {
    hide Has, SkipWhitespace, MemberText, ItemsText;
    var m := ms.first;
    assert MemberOk(m);
    HasConcat(s, p, MembersText(ms), tail);
    if ms.MoreMembers? {
      HasConcat(s, p, MemberText(m) + ",", MembersText(ms.rest));
      HasConcat(s, p, MemberText(m), ",");
    }
    MemberPieces(s, p, m);
    HasFirst(s, p + |m.before|, StringText(m.key));
    WhitespaceComplete(s, p, m.before);
  }

  lemma ElementsStart(s: ByteString, p: nat, es: Elements, tail: ByteString)
    requires ElementsOk(es) && Has(s, p, ElementsText(es) + tail)
    ensures SkipWhitespace(s, p) == p + |es.head.before|
    ensures !CharAt(s, SkipWhitespace(s, p), ']')
  {
    var e := es.head;
    HasConcat(s, p, ElementsText(es), tail);
    if es.MoreElements? {
      HasConcat(s, p, ElementText(e) + ",", ElementsText(es.tail));
      HasConcat(s, p, ElementText(e), ",");
    }
    ElementPieces(s, p, e);
    ValueStart(e.value);
    HasFirst(s, p + |e.before|, ValueText(e.value));
    WhitespaceComplete(s, p, e.before);
  }

  lemma ElementPieces(s: ByteString, p: nat, e: Element)
    requires Has(s, p, ElementText(e))
    ensures Has(s, p, e.before)
    ensures Has(s, p + |e.before|, ValueText(e.value))
    ensures Has(s, p + |e.before| + |ValueText(e.value)|, e.after)
    ensures |ElementText(e)| == |e.before| + |ValueText(e.value)| + |e.after|
  {
    HasConcat(s, p, e.before + ValueText(e.value), e.after);
    HasConcat(s, p, e.before, ValueText(e.value));
  }

  // Where the pieces of a member are.
  lemma MemberPieces(s: ByteString, p: nat, m: Member)
    requires Has(s, p, MemberText(m))
    ensures Has(s, p, m.before)
    ensures Has(s, p + |m.before|, StringText(m.key))
    ensures Has(s, KeyEnd(p, m), m.beforeColon)
    ensures CharAt(s, KeyEnd(p, m) + |m.beforeColon|, ':')
    ensures Has(s, KeyEnd(p, m) + |m.beforeColon| + 1, m.afterColon)
    ensures Has(s, ValueBegin(p, m), ValueText(m.value))
    ensures Has(s, ValueEnd(p, m), m.after)
    ensures p + |MemberText(m)| == ValueEnd(p, m) + |m.after|
  {
    hide Has, StringText, ValueText;
    var a := m.before + StringText(m.key);
    var b := a + m.beforeColon;
    var c := b + ":";
    var d := c + m.afterColon;
    var e := d + ValueText(m.value);
    HasConcat(s, p, e, m.after);
    HasConcat(s, p, d, ValueText(m.value));
    HasConcat(s, p, c, m.afterColon);
    HasConcat(s, p, b, ":");
    HasChar(s, p + |b|, ':');
    HasConcat(s, p, a, m.beforeColon);
    HasConcat(s, p, m.before, StringText(m.key));
  }

  function KeyEnd(p: nat, m: Member): nat {
    p + |m.before| + |StringText(m.key)|
  }

  function ValueBegin(p: nat, m: Member): nat {
    KeyEnd(p, m) + |m.beforeColon| + 1 + |m.afterColon|
  }

  function ValueEnd(p: nat, m: Member): nat {
    ValueBegin(p, m) + |ValueText(m.value)|
  }

  // The key of a member is read, and the cursor then stands after the colon.
  lemma KeyComplete(s: ByteString, p: nat, m: Member)
    requires MemberOk(m) && Has(s, p, MemberText(m))
    ensures ScanKey(s, p + |m.before|) == At(ItemsValue(m.key), KeyEnd(p, m) + |m.beforeColon| + 1)
    ensures SkipWhitespace(s, KeyEnd(p, m) + |m.beforeColon| + 1) == ValueBegin(p, m)
    ensures ScanValue(s, KeyEnd(p, m) + |m.beforeColon| + 1) == ScanValue(s, ValueBegin(p, m))
  {
    hide Has, StringText, ValueText, MemberText, ScanString, ScanValue, ItemsValue, SkipWhitespace;
    MemberPieces(s, p, m);
    StringComplete(s, p + |m.before|, m.key);
    WhitespaceComplete(s, KeyEnd(p, m), m.beforeColon);
    ValueStart(m.value);
    HasFirst(s, ValueBegin(p, m), ValueText(m.value));
    WhitespaceComplete(s, KeyEnd(p, m) + |m.beforeColon| + 1, m.afterColon);
    ValueAfterSpace(s, KeyEnd(p, m) + |m.beforeColon| + 1, m.afterColon);
  }

  // After a value comes white space and then `next`.
  lemma AfterValue(s: ByteString, q: nat, w: ByteString, next: Byte)
    requires WhitespaceOk(w) && Has(s, q, w)
    requires next == ',' || next == '}' || next == ']'
    requires CharAt(s, q + |w|, next)
    ensures Delimited(s, q)
    ensures SkipWhitespace(s, q) == q + |w|
  {
    if w != [] {
      HasFirst(s, q, w);
    }
    WhitespaceComplete(s, q, w);
  }

  lemma {:induction false} MemberComplete(s: ByteString, p: nat, m: Member, next: Byte)
    requires MemberOk(m) && Has(s, p, MemberText(m))
    requires next == ',' || next == '}'
    requires CharAt(s, p + |MemberText(m)|, next)
    ensures ScanMember(s, p + |m.before|) == At((), ValueEnd(p, m))
    ensures SkipWhitespace(s, ValueEnd(p, m)) == p + |MemberText(m)|
    decreases m, 0
  {
    hide StringText, ValueText, MemberText, ScanString, ScanValue, ItemsValue, Has;
    MemberPieces(s, p, m);
    KeyComplete(s, p, m);
    AfterValue(s, ValueEnd(p, m), m.after, next);
    ValueComplete(s, ValueBegin(p, m), m.value);
  }

  lemma {:induction false} MembersComplete(s: ByteString, p: nat, ms: Members)
    requires MembersOk(ms) && Has(s, p, MembersText(ms) + "}")
    ensures ScanMembers(s, SkipWhitespace(s, p)) == At((), p + |MembersText(ms)| + 1)
    decreases ms, 0
  {
    hide MemberText, MembersText, ScanMember, Has, ValueEnd, SkipWhitespace, MemberOk;
    var m := ms.first;
    assert MemberOk(m);
    MembersStart(s, p, ms, "}");
    MembersSplit(s, p, ms);
    MemberComplete(s, p, m, if ms.MoreMembers? then ',' else '}');
    if ms.MoreMembers? {
      MembersComplete(s, p + |MemberText(m)| + 1, ms.rest);
    }
  }

  // A member list is its first member, then a comma and the rest, or the closing brace.
  lemma MembersSplit(s: ByteString, p: nat, ms: Members)
    requires Has(s, p, MembersText(ms) + "}")
    ensures Has(s, p, MemberText(ms.first))
    ensures var end := p + |MemberText(ms.first)|;
            if ms.MoreMembers? then
              CharAt(s, end, ',') && Has(s, end + 1, MembersText(ms.rest) + "}")
              && p + |MembersText(ms)| == end + 1 + |MembersText(ms.rest)|
            else CharAt(s, end, '}') && p + |MembersText(ms)| == end
  {
    var first := MemberText(ms.first);
    HasChar(s, p + |first|, ',');
    HasChar(s, p + |first|, '}');
    if ms.MoreMembers? {
      var rest := MembersText(ms.rest) + "}";
      assert MembersText(ms) + "}" == first + "," + rest;
      HasConcat(s, p, first + ",", rest);
      HasConcat(s, p, first, ",");
    } else {
      HasConcat(s, p, first, "}");
    }
  }

  lemma ElementsSplit(s: ByteString, p: nat, es: Elements)
    requires Has(s, p, ElementsText(es) + "]")
    ensures Has(s, p, ElementText(es.head))
    ensures var end := p + |ElementText(es.head)|;
            if es.MoreElements? then
              CharAt(s, end, ',') && Has(s, end + 1, ElementsText(es.tail) + "]")
              && p + |ElementsText(es)| == end + 1 + |ElementsText(es.tail)|
            else CharAt(s, end, ']') && p + |ElementsText(es)| == end
  {
    var first := ElementText(es.head);
    HasChar(s, p + |first|, ',');
    HasChar(s, p + |first|, ']');
    if es.MoreElements? {
      var rest := ElementsText(es.tail) + "]";
      assert ElementsText(es) + "]" == first + "," + rest;
      HasConcat(s, p, first + ",", rest);
      HasConcat(s, p, first, ",");
    } else {
      HasConcat(s, p, first, "]");
    }
  }

  lemma {:induction false} ElementsComplete(s: ByteString, p: nat, es: Elements)
    requires ElementsOk(es) && Has(s, p, ElementsText(es) + "]")
    ensures ScanElements(s, SkipWhitespace(s, p)) == At((), p + |ElementsText(es)| + 1)
    decreases es, 0
  {
    hide ElementText, ElementsText, ValueText, ScanValue, Has, WhitespaceOk, SkipWhitespace;
    var e := es.head;
    ElementsStart(s, p, es, "]");
    ElementsSplit(s, p, es);
    ElementComplete(s, p, e, if es.MoreElements? then ',' else ']');
    if es.MoreElements? {
      ElementsComplete(s, p + |ElementText(e)| + 1, es.tail);
    }
  }

  lemma {:induction false} ElementComplete(s: ByteString, p: nat, e: Element, next: Byte)
    requires WhitespaceOk(e.before) && ValueOk(e.value) && WhitespaceOk(e.after) && Has(s, p, ElementText(e))
    requires (next == ',' || next == ']') && CharAt(s, p + |ElementText(e)|, next)
    ensures var q := p + |e.before| + |ValueText(e.value)|;
            && ScanValue(s, p + |e.before|) == At((), q)
            && SkipWhitespace(s, q) == p + |ElementText(e)|
    decreases e, 1
  {
    hide ElementText, ValueText, ScanValue, Has, WhitespaceOk, SkipWhitespace;
    ElementPieces(s, p, e);
    AfterValue(s, p + |e.before| + |ValueText(e.value)|, e.after, next);
    ValueComplete(s, p + |e.before|, e.value);
  }
}
