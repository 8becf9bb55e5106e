/** Reading a layout file is exactly what the JSON grammar and the four known
    members say, and reading undoes writing. */
module LayoutCorrectness {
  import opened Prelude
  import opened Utf8
  import opened JsonGrammar
  import opened JsonScanner
  import opened JsonCompleteness
  import opened JsonSoundness
  import opened LayoutFile

  // What a member value denotes where a string, or an integer, is wanted.

  function TextOf(v: Value): Option<ByteString> {
    if v.VString? && ItemsOk(v.items) then Some(ItemsValue(v.items)) else None
  }

  function IntOf(v: Value): Option<int> {
    if v.VNumber? && NumberOk(v.number) && IsInteger(v.number) && INT_MIN <= IntegerValue(v.number) <= INT_MAX
    then Some(IntegerValue(v.number)) else None
  }

  predicate DenotesText(vs: seq<Value>, t: ByteString) {
    |vs| == 1 && TextOf(vs[0]) == Some(t)
  }

  predicate DenotesInt(vs: seq<Value>, n: int) {
    |vs| == 1 && IntOf(vs[0]) == Some(n)
  }

  /** What a layout file must say: an object with each of the four known members
      present exactly once and valid.  Other members are not mentioned. */
  predicate Describes(root: Value, d: ExportData)
    requires ValueOk(root)
  {
    && root.VObject?
    && DenotesText(Lookup(root.members, KEY_FORMAT), FORMAT)
    && DenotesInt(Lookup(root.members, KEY_VERSION), d.version) && 1 <= d.version <= VERSION
    && DenotesText(Lookup(root.members, KEY_NAME), d.name) && 1 <= |d.name| <= MAX_NAME_LENGTH
    && DenotesText(Lookup(root.members, KEY_LAYOUT_INI), d.imguiIni) && 1 <= |d.imguiIni|
  }

  // One key and value seen by the reader that has already seen `f`; `None` rejects it.
  function AbsorbValue(f: Fields, key: ByteString, v: Value): Option<Fields> {
    if key == KEY_FORMAT then
      if f.format.None? && TextOf(v).Some? then Some(f.(format := TextOf(v))) else None
    else if key == KEY_VERSION then
      if f.version.None? && IntOf(v).Some? then Some(f.(version := IntOf(v))) else None
    else if key == KEY_NAME then
      if f.name.None? && TextOf(v).Some? then Some(f.(name := TextOf(v))) else None
    else if key == KEY_LAYOUT_INI then
      if f.layoutIni.None? && TextOf(v).Some? then Some(f.(layoutIni := TextOf(v))) else None
    else
      Some(f)
  }

  function Absorb(f: Fields, m: Member): Option<Fields>
    requires MemberOk(m)
  {
    AbsorbValue(f, ItemsValue(m.key), m.value)
  }

  function AbsorbAll(f: Fields, ms: Members): Option<Fields>
    requires MembersOk(ms)
    decreases ms
  {
    assert MemberOk(ms.first);
    var g := Absorb(f, ms.first);
    if g.None? || ms.OneMember? then g else AbsorbAll(g.value, ms.rest)
  }

  // The reader on a text the grammar derives

  lemma NotAString(s: ByteString, p: nat, v: Value)
    requires ValueOk(v) && Has(s, p, ValueText(v)) && !v.VString?
    ensures ScanString(s, p).Fail?
  {
    ValueStart(v);
    HasFirst(s, p, ValueText(v));
    if v.VNumber? {
      NumberStart(v.number);
    }
  }

  lemma TextComplete(s: ByteString, p: nat, v: Value)
    requires ValueOk(v) && Has(s, p, ValueText(v))
    ensures match TextOf(v)
            case Some(t) => ScanString(s, p) == At(t, p + |ValueText(v)|)
            case None => ScanString(s, p).Fail?
  {
    if v.VString? {
      StringComplete(s, p, v.items);
    } else {
      NotAString(s, p, v);
    }
  }

  lemma NotAnInteger(s: ByteString, p: nat, n: Number)
    requires NumberOk(n) && Has(s, p, NumberText(n)) && Delimited(s, p + |NumberText(n)|)
    requires !IsInteger(n) || !(INT_MIN <= IntegerValue(n) <= INT_MAX)
    ensures ScanInteger(s, p).Fail?
  {
    hide Has, DigitsValue, FractionText, ExponentText, SkipDigits;
    var sign := SignText(n.negative);
    var rest := FractionText(n.fraction) + ExponentText(n.exponent);
    assert NumberText(n) == sign + (n.whole + rest);
    HasConcat(s, p, sign, n.whole + rest);
    HasConcat(s, p + |sign|, n.whole, rest);
    HasFirst(s, p, NumberText(n));
    HasFirst(s, p + |sign|, n.whole);
    RestStart(n);
    if rest != [] {
      HasFirst(s, p + |sign| + |n.whole|, rest);
    }
    DigitsComplete(s, p + |sign|, n.whole);
    HasText(s, p + |sign|, n.whole);
  }

  lemma RestStart(n: Number)
    requires NumberOk(n)
    ensures var rest := FractionText(n.fraction) + ExponentText(n.exponent);
            if IsInteger(n) then rest == [] else rest != [] && (rest[0] == '.' || IsExponentLetter(rest[0]))
  {
  }

  lemma IntComplete(s: ByteString, p: nat, v: Value)
    requires ValueOk(v) && Has(s, p, ValueText(v)) && Delimited(s, p + |ValueText(v)|)
    ensures match IntOf(v)
            case Some(n) => ScanInteger(s, p) == At(n, p + |ValueText(v)|)
            case None => ScanInteger(s, p).Fail?
  {
    hide ScanInteger, NumberText, IntegerValue;
    if v.VNumber? {
      if IntOf(v).Some? {
        IntegerComplete(s, p, v.number);
      } else {
        NotAnInteger(s, p, v.number);
      }
    } else {
      NoDigitStart(s, p, v);
    }
  }

  lemma NoDigitStart(s: ByteString, p: nat, v: Value)
    requires ValueOk(v) && Has(s, p, ValueText(v)) && !v.VNumber?
    ensures ScanInteger(s, p).Fail?
  {
    ValueStart(v);
    HasFirst(s, p, ValueText(v));
  }

  lemma MemberRead(s: ByteString, p: nat, f: Fields, m: Member, next: Byte)
    requires MemberOk(m) && Has(s, p, MemberText(m))
    requires next == ',' || next == '}'
    requires CharAt(s, p + |MemberText(m)|, next)
    ensures match Absorb(f, m)
            case Some(g) => ReadMember(s, p + |m.before|, f) == Success((g, ValueEnd(p, m)))
            case None => ReadMember(s, p + |m.before|, f).Failure?
    ensures SkipWhitespace(s, ValueEnd(p, m)) == p + |MemberText(m)|
  {
    hide Has, StringText, ValueText, MemberText, ItemsValue, ScanString, ScanInteger, ScanValue, TextOf, IntOf,
         WhitespaceOk, SkipWhitespace, ItemsOk, ValueOk, KeyEnd, ValueBegin;
    MemberPieces(s, p, m);
    KeyRead(s, p, m);
    AfterValue(s, ValueEnd(p, m), m.after, next);
    ValueComplete(s, ValueBegin(p, m), m.value);
    TextComplete(s, ValueBegin(p, m), m.value);
    IntComplete(s, ValueBegin(p, m), m.value);
  }

  // The reader stands on the value of a member after its key and the white space.
  lemma KeyRead(s: ByteString, p: nat, m: Member)
    requires MemberOk(m) && Has(s, p, MemberText(m))
    ensures ScanString(s, p + |m.before|) == At(ItemsValue(m.key), KeyEnd(p, m))
    ensures SkipWhitespace(s, KeyEnd(p, m)) == KeyEnd(p, m) + |m.beforeColon|
    ensures CharAt(s, KeyEnd(p, m) + |m.beforeColon|, ':')
    ensures SkipWhitespace(s, KeyEnd(p, m) + |m.beforeColon| + 1) == ValueBegin(p, m)
  {
    hide StringText, ValueText, MemberText, ScanString, ItemsValue, Has, WhitespaceOk, SkipWhitespace, ItemsOk, ValueOk;
    MemberPieces(s, p, m);
    StringComplete(s, p + |m.before|, m.key);
    WhitespaceComplete(s, KeyEnd(p, m), m.beforeColon);
    KeyComplete(s, p, m);
  }

  lemma {:induction false} MembersRead(s: ByteString, p: nat, f: Fields, ms: Members)
    requires MembersOk(ms) && Has(s, p, MembersText(ms) + "}")
    ensures match AbsorbAll(f, ms)
            case Some(g) => ReadFields(s, SkipWhitespace(s, p), f) == Success((g, p + |MembersText(ms)| + 1))
            case None => ReadFields(s, SkipWhitespace(s, p), f).Failure?
    decreases ms
  {
    hide Has, MemberText, MembersText, ReadMember, Absorb, ValueEnd;
    var m := ms.first;
    assert MemberOk(m);
    MembersStart(s, p, ms, "}");
    MembersSplit(s, p, ms);
    MemberRead(s, p, f, m, if ms.MoreMembers? then ',' else '}');
    if ms.MoreMembers? && Absorb(f, m).Some? {
      MembersRead(s, p + |MemberText(m)| + 1, Absorb(f, m).value, ms.rest);
    }
  }

  lemma DocumentRead(doc: Document)
    requires DocumentOk(doc) && doc.root.VObject?
    ensures var s, q := DocumentText(doc), |DocumentText(doc)| - |doc.after|;
            && q <= |s|
            && SkipWhitespace(s, q) == |s|
            && match AbsorbAll(NO_FIELDS, doc.root.members)
               case Some(g) => ReadRoot(s) == Success((g, q))
               case None => ReadRoot(s).Failure?
  {
    hide Has, MembersText, ReadFields, WhitespaceOk, MembersOk, AbsorbAll, DocumentText;
    var s, ms := DocumentText(doc), doc.root.members;
    var p := |doc.before|;
    RootPieces(s, doc);
    assert ValueText(doc.root) == "{" + (MembersText(ms) + "}");
    HasConcat(s, p, "{", MembersText(ms) + "}");
    HasFirst(s, p, ValueText(doc.root));
    WhitespaceComplete(s, 0, doc.before);
    MembersStart(s, p + 1, ms, "}");
    MembersRead(s, p + 1, NO_FIELDS, ms);
    WhitespaceComplete(s, p + |ValueText(doc.root)|, doc.after);
  }

  lemma RootPieces(s: ByteString, doc: Document)
    requires s == DocumentText(doc)
    ensures Has(s, 0, doc.before)
    ensures Has(s, |doc.before|, ValueText(doc.root))
    ensures Has(s, |doc.before| + |ValueText(doc.root)|, doc.after)
    ensures |s| == |doc.before| + |ValueText(doc.root)| + |doc.after|
  {
    assert Has(s, 0, DocumentText(doc));
    HasConcat(s, 0, doc.before + ValueText(doc.root), doc.after);
    HasConcat(s, 0, doc.before, ValueText(doc.root));
  }

  lemma OtherRoot(doc: Document)
    requires DocumentOk(doc) && !doc.root.VObject?
    ensures ParseText(DocumentText(doc)).Failure?
  {
    var s, p := DocumentText(doc), |doc.before|;
    RootPieces(s, doc);
    ValueStart(doc.root);
    HasFirst(s, p, ValueText(doc.root));
    WhitespaceComplete(s, 0, doc.before);
    if doc.root.VEmptyObject? {
      EmptyComplete(s, p, '{', doc.root.inside, '}');
    } else if doc.root.VNumber? {
      NumberStart(doc.root.number);
    }
  }

  // What absorbing all the members leaves in one field

  function Settle<T>(seen: Option<T>, found: seq<Option<T>>): Option<Option<T>> {
    if found == [] then Some(seen)
    else if seen.None? && |found| == 1 && found[0].Some? then Some(found[0])
    else None
  }

  function Texts(vs: seq<Value>): seq<Option<ByteString>> {
    seq(|vs|, i requires 0 <= i < |vs| => TextOf(vs[i]))
  }

  function Ints(vs: seq<Value>): seq<Option<int>> {
    seq(|vs|, i requires 0 <= i < |vs| => IntOf(vs[i]))
  }

  function SettleText(seen: Option<ByteString>, ms: Members, key: ByteString): Option<Option<ByteString>>
    requires MembersOk(ms)
  {
    Settle(seen, Texts(Lookup(ms, key)))
  }

  function SettleInt(seen: Option<int>, ms: Members, key: ByteString): Option<Option<int>>
    requires MembersOk(ms)
  {
    Settle(seen, Ints(Lookup(ms, key)))
  }

  function SettleAll(f: Fields, ms: Members): Option<Fields>
    requires MembersOk(ms)
  {
    var format := SettleText(f.format, ms, KEY_FORMAT);
    var version := SettleInt(f.version, ms, KEY_VERSION);
    var name := SettleText(f.name, ms, KEY_NAME);
    var layoutIni := SettleText(f.layoutIni, ms, KEY_LAYOUT_INI);
    if format.None? || version.None? || name.None? || layoutIni.None? then None
    else Some(Fields(format.value, version.value, name.value, layoutIni.value))
  }

  lemma SettleAppend<T>(seen: Option<T>, a: seq<Option<T>>, b: seq<Option<T>>)
    requires |a| <= 1
    ensures Settle(seen, a + b)
         == if Settle(seen, a).None? then None else Settle(Settle(seen, a).value, b)
  {
    if a == [] {
      assert a + b == b;
    } else if b == [] {
      assert a + b == a;
    }
  }

  // One field after the first member, and after the rest.
  lemma SettleTextStep(seen: Option<ByteString>, ms: Members, key: ByteString)
    requires MembersOk(ms) && ms.MoreMembers?
    ensures MemberOk(ms.first)
    ensures SettleText(seen, ms, key)
         == var first := SettleText(seen, OneMember(ms.first), key);
            if first.None? then None else SettleText(first.value, ms.rest, key)
  {
    hide TextOf, ItemsValue, Settle;
    assert MemberOk(ms.first);
    var a, b := Lookup(OneMember(ms.first), key), Lookup(ms.rest, key);
    assert Lookup(ms, key) == a + b;
    assert Texts(a + b) == Texts(a) + Texts(b);
    SettleAppend(seen, Texts(a), Texts(b));
  }

  lemma SettleIntStep(seen: Option<int>, ms: Members, key: ByteString)
    requires MembersOk(ms) && ms.MoreMembers?
    ensures MemberOk(ms.first)
    ensures SettleInt(seen, ms, key)
         == var first := SettleInt(seen, OneMember(ms.first), key);
            if first.None? then None else SettleInt(first.value, ms.rest, key)
  {
    hide IntOf, ItemsValue, Settle;
    assert MemberOk(ms.first);
    var a, b := Lookup(OneMember(ms.first), key), Lookup(ms.rest, key);
    assert Lookup(ms, key) == a + b;
    assert Ints(a + b) == Ints(a) + Ints(b);
    SettleAppend(seen, Ints(a), Ints(b));
  }

  lemma SettleOne(f: Fields, m: Member)
    requires MemberOk(m)
    ensures Absorb(f, m) == SettleAll(f, OneMember(m))
  {
    hide ItemsValue, TextOf, IntOf;
    var ms := OneMember(m);
    forall key
      ensures Lookup(ms, key) == if ItemsValue(m.key) == key then [m.value] else []
    {
    }
  }

  /** The reader's left-to-right pass over the members leaves in each field what
      the members with that key say, wherever they stand. */
  lemma {:induction false} AbsorbIsSettle(f: Fields, ms: Members)
    requires MembersOk(ms)
    ensures AbsorbAll(f, ms) == SettleAll(f, ms)
    decreases ms
  {
    hide Absorb, SettleText, SettleInt;
    assert MemberOk(ms.first);
    SettleOne(f, ms.first);
    if ms.MoreMembers? {
      SettleTextStep(f.format, ms, KEY_FORMAT);
      SettleIntStep(f.version, ms, KEY_VERSION);
      SettleTextStep(f.name, ms, KEY_NAME);
      SettleTextStep(f.layoutIni, ms, KEY_LAYOUT_INI);
      var g := Absorb(f, ms.first);
      if g.Some? {
        AbsorbIsSettle(g.value, ms.rest);
      }
    }
  }

  lemma FieldsDescribe(root: Value, d: ExportData)
    requires ValueOk(root) && root.VObject?
    ensures Describes(root, d)
        <==> var f := AbsorbAll(NO_FIELDS, root.members); f.Some? && CheckFields(f.value) == Success(d)
  {
    hide Lookup, TextOf, IntOf, AbsorbAll;
    AbsorbIsSettle(NO_FIELDS, root.members);
  }

  /** For every text the grammar derives, the tree decides: reading it yields `d`
      if and only if the tree describes `d`. */
  lemma DocumentDecides(doc: Document, d: ExportData)
    requires DocumentOk(doc) && |DocumentText(doc)| <= MAX_FILE_SIZE
    ensures Deserialized(DocumentText(doc)) == Success(d) <==> Describes(doc.root, d)
  {
    hide DocumentText, ReadRoot, AbsorbAll, CheckFields, Lookup, DenotesText, DenotesInt;
    if doc.root.VObject? {
      DocumentRead(doc);
      FieldsDescribe(doc.root, d);
    } else {
      OtherRoot(doc);
    }
  }

  // The tree of a text that was read

  lemma FieldSound(s: ByteString, p: nat, key: ByteString, f: Fields) returns (v: Value)
    requires p <= |s| && (p < |s| ==> !IsWhitespace(s[p]))
    requires ReadField(s, p, key, f).Success?
    ensures ValueOk(v) && Has(s, p, ValueText(v))
    ensures AbsorbValue(f, key, v).Some?
    ensures ReadField(s, p, key, f) == Success((AbsorbValue(f, key, v).value, p + |ValueText(v)|))
  {
    hide Has, ScanString, ScanInteger, ScanValue, ItemsValue, NumberText, StringText;
    if key == KEY_VERSION {
      var n := IntegerSound(s, p);
      IntegerInRange(s, p);
      v := VNumber(n);
    } else if key == KEY_FORMAT || key == KEY_NAME || key == KEY_LAYOUT_INI {
      var items := StringSound(s, p);
      v := VString(items);
    } else {
      var w;
      w, v := ValueSound(s, p);
      if w != [] {
        HasFirst(s, p, w);
      }
    }
  }

  lemma IntegerInRange(s: ByteString, p: nat)
    requires ScanInteger(s, p).At?
    ensures INT_MIN <= ScanInteger(s, p).value <= INT_MAX
  {
  }

  lemma MemberSoundlyRead(s: ByteString, p: nat, f: Fields) returns (m: Member)
    requires p <= |s| && ReadMember(s, SkipWhitespace(s, p), f).Success?
    ensures MemberOk(m) && Has(s, p, MemberText(m))
    ensures Absorb(f, m).Some?
    ensures ReadMember(s, SkipWhitespace(s, p), f) == Success((Absorb(f, m).value, ValueEnd(p, m)))
    ensures SkipWhitespace(s, ValueEnd(p, m)) == p + |MemberText(m)|
  {
    hide Has, StringText, ScanString, ScanValue, ValueText, MemberText, ItemsValue, ReadField, AbsorbValue,
         WhitespaceOk, SkipWhitespace;
    var before := SpaceBefore(s, p);
    var key := StringSound(s, p + |before|);
    var beforeColon := SpaceBefore(s, p + |before| + |StringText(key)|);
    var colon := p + |before| + |StringText(key)| + |beforeColon|;
    var afterColon := SpaceBefore(s, colon + 1);
    WhitespaceSpan(s, colon + 1);
    var value := FieldSound(s, colon + 1 + |afterColon|, ItemsValue(key), f);
    var after := SpaceBefore(s, colon + 1 + |afterColon| + |ValueText(value)|);
    m := Member(before, key, beforeColon, afterColon, value, after);
    MemberAssembled(s, p, m);
  }

  lemma MembersSoundlyRead(s: ByteString, p: nat, f: Fields) returns (ms: Members)
    requires p <= |s| && ReadFields(s, SkipWhitespace(s, p), f).Success?
    ensures MembersOk(ms) && Has(s, p, MembersText(ms) + "}")
    ensures AbsorbAll(f, ms).Some?
    ensures ReadFields(s, SkipWhitespace(s, p), f)
         == Success((AbsorbAll(f, ms).value, p + |MembersText(ms)| + 1))
    decreases |s| - p
  {
    hide Has, MemberText, ReadMember, Absorb, ValueEnd;
    var m := MemberSoundlyRead(s, p, f);
    var k := p + |MemberText(m)|;
    HasChar(s, k, '}');
    if CharAt(s, k, '}') {
      ms := OneMember(m);
      HasConcat(s, p, MemberText(m), "}");
    } else {
      var rest := MembersSoundlyRead(s, k + 1, Absorb(f, m).value);
      ms := MoreMembers(m, rest);
      MembersJoined(s, p, ms);
    }
  }

  lemma RootSound(s: ByteString) returns (before: ByteString, ms: Members)
    requires ReadRoot(s).Success? && ReadRoot(s).value.0 != NO_FIELDS
    ensures WhitespaceOk(before) && MembersOk(ms)
    ensures Has(s, 0, before) && Has(s, |before|, ValueText(VObject(ms)))
    ensures AbsorbAll(NO_FIELDS, ms).Some?
    ensures ReadRoot(s) == Success((AbsorbAll(NO_FIELDS, ms).value, |before| + |ValueText(VObject(ms))|))
  {
    hide Has, MembersText, ReadFields, AbsorbAll, WhitespaceOk;
    before := SpaceBefore(s, 0);
    var p := |before|;
    ms := MembersSoundlyRead(s, p + 1, NO_FIELDS);
    HasChar(s, p, '{');
    HasConcat(s, p, "{", MembersText(ms) + "}");
    assert ValueText(VObject(ms)) == "{" + (MembersText(ms) + "}");
  }

  lemma DocumentSound(s: ByteString, d: ExportData) returns (doc: Document)
    requires Deserialized(s) == Success(d)
    ensures DocumentOk(doc) && DocumentText(doc) == s && Describes(doc.root, d)
  {
    hide Has, ReadRoot, ValueText, DocumentText, AbsorbAll, Describes, CheckFields, WhitespaceOk;
    NoFieldsFail();
    var before, ms := RootSound(s);
    var after := SpaceBefore(s, |before| + |ValueText(VObject(ms))|);
    doc := Document(before, VObject(ms), after);
    FieldsDescribe(doc.root, d);
    WholeText(s, doc);
  }

  lemma NoFieldsFail()
    ensures CheckFields(NO_FIELDS).Failure?
  {
  }

  lemma WholeText(s: ByteString, doc: Document)
    requires Has(s, 0, doc.before) && Has(s, |doc.before|, ValueText(doc.root))
    requires Has(s, |doc.before| + |ValueText(doc.root)|, doc.after)
    requires |s| == |doc.before| + |ValueText(doc.root)| + |doc.after|
    ensures DocumentText(doc) == s
  {
    HasConcat(s, 0, doc.before, ValueText(doc.root));
    HasConcat(s, 0, doc.before + ValueText(doc.root), doc.after);
    assert s[0..|s|] == s;
  }

  /** The reader is sound and complete: it accepts exactly the byte strings, of at
      most 4 MiB, that are a JSON text (RFC 8259) describing the data it returns. */
  lemma ReadsExactlyLayoutFiles(s: ByteString, d: ExportData)
    ensures Deserialized(s) == Success(d)
        <==> |s| <= MAX_FILE_SIZE
             && exists doc :: DocumentOk(doc) && DocumentText(doc) == s && Describes(doc.root, d)
  {
    hide Describes, DocumentText;
    if Deserialized(s) == Success(d) {
      var doc := DocumentSound(s, d);
    }
    if |s| <= MAX_FILE_SIZE {
      forall doc | DocumentOk(doc) && DocumentText(doc) == s
        ensures Deserialized(s) == Success(d) <==> Describes(doc.root, d)
      {
        DocumentDecides(doc, d);
      }
    }
  }

  // The two trees say the same about one known member.
  predicate AgreeOn(a: Members, b: Members, key: ByteString)
    requires MembersOk(a) && MembersOk(b)
  {
    Texts(Lookup(a, key)) == Texts(Lookup(b, key)) && Ints(Lookup(a, key)) == Ints(Lookup(b, key))
  }

  /** Member order, white space, escapes and members with other keys never change
      the result: only what the known members denote does. */
  lemma OnlyKnownMembersMatter(a: Document, b: Document, d: ExportData)
    requires DocumentOk(a) && DocumentOk(b) && a.root.VObject? && b.root.VObject?
    requires |DocumentText(a)| <= MAX_FILE_SIZE && |DocumentText(b)| <= MAX_FILE_SIZE
    requires AgreeOn(a.root.members, b.root.members, KEY_FORMAT)
    requires AgreeOn(a.root.members, b.root.members, KEY_VERSION)
    requires AgreeOn(a.root.members, b.root.members, KEY_NAME)
    requires AgreeOn(a.root.members, b.root.members, KEY_LAYOUT_INI)
    ensures Deserialized(DocumentText(a)) == Success(d) <==> Deserialized(DocumentText(b)) == Success(d)
  {
    hide DocumentText, Deserialized, Lookup, TextOf, IntOf;
    DocumentDecides(a, d);
    DocumentDecides(b, d);
    var x, y := a.root.members, b.root.members;
    AgreeDenotes(Lookup(x, KEY_FORMAT), Lookup(y, KEY_FORMAT));
    AgreeDenotes(Lookup(x, KEY_VERSION), Lookup(y, KEY_VERSION));
    AgreeDenotes(Lookup(x, KEY_NAME), Lookup(y, KEY_NAME));
    AgreeDenotes(Lookup(x, KEY_LAYOUT_INI), Lookup(y, KEY_LAYOUT_INI));
  }

  lemma AgreeDenotes(a: seq<Value>, b: seq<Value>)
    requires Texts(a) == Texts(b) && Ints(a) == Ints(b)
    ensures forall t :: DenotesText(a, t) <==> DenotesText(b, t)
    ensures forall n :: DenotesInt(a, n) <==> DenotesInt(b, n)
  {
    assert |Texts(a)| == |a| && |Texts(b)| == |b|;
    if |a| == 1 {
      assert Texts(a)[0] == TextOf(a[0]) && Texts(b)[0] == TextOf(b[0]);
      assert Ints(a)[0] == IntOf(a[0]) && Ints(b)[0] == IntOf(b[0]);
    }
  }
}
