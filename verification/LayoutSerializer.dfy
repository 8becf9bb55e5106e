/** Writing layout files, and the round trip through the reader. */
module LayoutSerializer {
  import opened Prelude
  import opened Utf8
  import opened JsonGrammar
  import opened LayoutFile
  import opened LayoutCorrectness

  // The printed form of one byte.
  function EscapeText(b: Byte): ByteString {
    ItemText(EscapeItem(b))
  }

  method AppendEscapedJsonString(value: ByteString, buffer: ByteString) returns (output: ByteString)
    ensures output == buffer + StringText(EscapeItems(value))
  {
    hide ItemsText, EscapeItems, EscapeText;
    output := buffer + "\"";
    NothingEscaped();
    for i := 0 to |value|
      invariant output == buffer + "\"" + ItemsText(EscapeItems(value[..i]))
    {
      var escaped := EscapeByte(value[i]);
      AppendOne(value, i);
      output := output + escaped;
    }
    assert value[..|value|] == value;
    output := output + "\"";
  }

  // The `switch` of `AppendEscapedJsonString` on one character.
  method EscapeByte(character: Byte) returns (escaped: ByteString)
    ensures escaped == EscapeText(character)
  {
    match character {
      case '"' => escaped := ['\\', '"'];
      case '\\' => escaped := ['\\', '\\'];
      case '\U{08}' => escaped := ['\\', 'b'];
      case '\U{0C}' => escaped := ['\\', 'f'];
      case '\n' => escaped := ['\\', 'n'];
      case '\r' => escaped := ['\\', 'r'];
      case '\t' => escaped := ['\\', 't'];
      case _ =>
        if character as int < 0x20 {
          escaped := "\\u00";
          escaped := escaped + [HexDigit(character as int / 16)];
          escaped := escaped + [HexDigit(character as int % 16)];
        } else {
          escaped := [character];
        }
    }
  }

  lemma NothingEscaped()
    ensures ItemsText(EscapeItems([])) == []
  {
  }

  lemma AppendOne(value: ByteString, i: nat)
    requires i < |value|
    ensures ItemsText(EscapeItems(value[..i + 1])) == ItemsText(EscapeItems(value[..i])) + EscapeText(value[i])
  {
    hide ItemsText, ItemText, EscapeItem;
    assert EscapeItems(value[..i + 1]) == EscapeItems(value[..i]) + [EscapeItem(value[i])];
    ItemsTextAppend(EscapeItems(value[..i]), EscapeItem(value[i]));
  }

  lemma {:induction false} ItemsTextAppend(items: seq<StringItem>, i: StringItem)
    ensures ItemsText(items + [i]) == ItemsText(items) + ItemText(i)
  {
    hide ItemText;
    if items == [] {
      assert items + [i] == [i];
    } else {
      assert (items + [i])[1..] == items[1..] + [i];
      ItemsTextAppend(items[1..], i);
    }
  }

  /** What `Serialize` returns, with the message of each refusal. */
  function SerializedOrError(d: ExportData): Result<ByteString> {
    if d.version != VERSION then Failure("Unsupported layout file version")
    else if |d.name| == 0 || |d.name| > MAX_NAME_LENGTH then Failure("Layout name must contain 1 to 256 bytes")
    else if |d.imguiIni| == 0 then Failure("layout_ini must not be empty")
    else if |Serialized(d)| > MAX_FILE_SIZE then Failure("Layout file exceeds the 4 MiB size limit")
    else Success(Serialized(d))
  }

  method Serialize(d: ExportData) returns (r: Result<ByteString>)
    ensures r == SerializedOrError(d)
  {
    if d.version != VERSION {
      return Failure("Unsupported layout file version");
    }
    if |d.name| == 0 || |d.name| > MAX_NAME_LENGTH {
      return Failure("Layout name must contain 1 to 256 bytes");
    }
    if |d.imguiIni| == 0 {
      return Failure("layout_ini must not be empty");
    }
    var json := AppendEscapedJsonString(d.name, HEAD);
    json := json + MIDDLE;
    json := AppendEscapedJsonString(d.imguiIni, json);
    json := json + FOOT;
    if |json| > MAX_FILE_SIZE {
      return Failure("Layout file exceeds the 4 MiB size limit");
    }
    r := Success(json);
  }

  // The tree of a printed file

  // Printed bytes denote the bytes themselves, whatever they are.
  lemma EscapeDenotes(b: Byte)
    ensures ItemOk(EscapeItem(b)) && ItemValue(EscapeItem(b)) == [b]
  {
    var n := b as int;
    if EscapeItem(b).Unit? {
      var quad := EscapeItem(b).quad;
      HexDigitValue(n / 16);
      HexDigitValue(n % 16);
      assert QuadValue(quad) == n / 16 * 16 + n % 16;
    }
  }

  lemma HexDigitValue(n: nat)
    requires n < 16
    ensures IsHexDigit(HexDigit(n)) && HexValue(HexDigit(n)) == n
  {
  }

  lemma {:induction false} EscapesDenote(s: ByteString)
    ensures ItemsOk(EscapeItems(s)) && ItemsValue(EscapeItems(s)) == s
  {
    forall i | 0 <= i < |s|
      ensures ItemOk(EscapeItems(s)[i])
    {
      EscapeDenotes(s[i]);
    }
    if s != [] {
      EscapeDenotes(s[0]);
      EscapesDenote(s[1..]);
      assert EscapeItems(s)[1..] == EscapeItems(s[1..]);
      assert [s[0]] + s[1..] == s;
    }
  }

  predicate IsPlain(b: Byte) {
    b as int >= 0x20 && b != '"' && b != '\\'
  }

  lemma {:induction false} PlainText(s: ByteString)
    requires forall i :: 0 <= i < |s| ==> IsPlain(s[i])
    ensures ItemsText(EscapeItems(s)) == s
  {
    if s != [] {
      assert IsPlain(s[0]);
      PlainText(s[1..]);
      assert EscapeItems(s)[1..] == EscapeItems(s[1..]);
      assert [s[0]] + s[1..] == s;
    }
  }

  const INDENT: ByteString := "\n  "
  const SPACE: ByteString := " "
  const NEWLINE: ByteString := "\n"
  const ONE: ByteString := "1"

  function PrintedMember(key: ByteString, value: Value, after: ByteString): Member {
    Member(INDENT, EscapeItems(key), [], SPACE, value, after)
  }

  function PrintedMembers(d: ExportData): Members {
    var format := PrintedMember(KEY_FORMAT, VString(EscapeItems(FORMAT)), []);
    var version := PrintedMember(KEY_VERSION, VNumber(Number(false, ONE, None, None)), []);
    var name := PrintedMember(KEY_NAME, VString(EscapeItems(d.name)), []);
    var layoutIni := PrintedMember(KEY_LAYOUT_INI, VString(EscapeItems(d.imguiIni)), NEWLINE);
    MoreMembers(format, MoreMembers(version, MoreMembers(name, OneMember(layoutIni))))
  }

  function PrintedDocument(d: ExportData): Document {
    Document([], VObject(PrintedMembers(d)), NEWLINE)
  }

  lemma MemberPrinted(key: ByteString, value: Value, after: ByteString)
    requires forall i :: 0 <= i < |key| ==> IsPlain(key[i])
    ensures MemberText(PrintedMember(key, value, after)) == "\n  \"" + key + "\": " + ValueText(value) + after
  {
    hide ItemsText, EscapeItems, ValueText;
    PlainText(key);
  }

  lemma HeadPieces()
    ensures HEAD_FORMAT == "{" + ("\n  \"" + KEY_FORMAT + "\": ")
    ensures HEAD_VERSION == "," + ("\n  \"" + KEY_VERSION + "\": ")
    ensures HEAD_NAME == "," + ("\n  \"" + KEY_NAME + "\": ")
    ensures MIDDLE == "," + ("\n  \"" + KEY_LAYOUT_INI + "\": ")
    ensures FOOT == NEWLINE + "}" + NEWLINE
  {
  }

  lemma DocumentPrinted(d: ExportData)
    ensures DocumentText(PrintedDocument(d)) == Serialized(d)
  {
    hide StringText, EscapeItems, MemberText, NumberText, Serialized;
    var format, version := VString(EscapeItems(FORMAT)), VNumber(Number(false, ONE, None, None));
    var name, ini := VString(EscapeItems(d.name)), VString(EscapeItems(d.imguiIni));
    MemberPrinted(KEY_FORMAT, format, []);
    MemberPrinted(KEY_VERSION, version, []);
    MemberPrinted(KEY_NAME, name, []);
    MemberPrinted(KEY_LAYOUT_INI, ini, NEWLINE);
    StringPrinted(FORMAT);
    NumberPrinted();
    var ms := PrintedMembers(d);
    var a, b, c := MemberText(ms.first), MemberText(ms.rest.first), MemberText(ms.rest.rest.first);
    var e := MembersText(ms.rest.rest.rest);
    assert e == MemberText(ms.rest.rest.rest.first);
    assert MembersText(ms.rest.rest) == c + "," + e;
    assert MembersText(ms.rest) == b + "," + (c + "," + e);
    assert MembersText(ms) == a + "," + (b + "," + (c + "," + e));
    PiecesJoin(d, a, b, c, e);
  }

  lemma PiecesJoin(d: ExportData, a: ByteString, b: ByteString, c: ByteString, e: ByteString)
    requires a == "\n  \"" + KEY_FORMAT + "\": " + ("\"" + FORMAT + "\"") + []
    requires b == "\n  \"" + KEY_VERSION + "\": " + ONE + []
    requires c == "\n  \"" + KEY_NAME + "\": " + StringText(EscapeItems(d.name)) + []
    requires e == "\n  \"" + KEY_LAYOUT_INI + "\": " + StringText(EscapeItems(d.imguiIni)) + NEWLINE
    ensures [] + ("{" + (a + "," + (b + "," + (c + "," + e))) + "}") + NEWLINE == Serialized(d)
  {
    hide StringText, EscapeItems;
    HeadPieces();
    assert HEAD == HEAD_FORMAT + ("\"" + FORMAT + "\"") + (HEAD_VERSION + ONE) + HEAD_NAME;
    var name, ini := StringText(EscapeItems(d.name)), StringText(EscapeItems(d.imguiIni));
    assert "{" + a == HEAD_FORMAT + ("\"" + FORMAT + "\"");
    assert "," + b == HEAD_VERSION + ONE;
    assert "," + c == HEAD_NAME + name;
    assert "," + e == MIDDLE + ini + NEWLINE;
    Regroup("{", a, b, c, e, "}", NEWLINE);
    Flatten(HEAD_FORMAT, "\"" + FORMAT + "\"", HEAD_VERSION, ONE, HEAD_NAME, name, MIDDLE, ini, NEWLINE, "}");
  }

  lemma Flatten(a: ByteString, b: ByteString, c: ByteString, d: ByteString, e: ByteString, f: ByteString,
                g: ByteString, h: ByteString, i: ByteString, j: ByteString)
    ensures (a + b) + (c + d) + (e + f) + (g + h + i) + j + i
         == a + b + (c + d) + e + f + g + h + (i + j + i)
  {
  }

  lemma Regroup(open: ByteString, a: ByteString, b: ByteString, c: ByteString, e: ByteString, close: ByteString,
                end: ByteString)
    ensures [] + (open + (a + "," + (b + "," + (c + "," + e))) + close) + end
         == (open + a) + ("," + b) + ("," + c) + ("," + e) + close + end
  {
  }

  lemma NumberPrinted()
    ensures NumberText(Number(false, ONE, None, None)) == ONE
  {
  }

  lemma StringPrinted(s: ByteString)
    requires forall i :: 0 <= i < |s| ==> IsPlain(s[i])
    ensures StringText(EscapeItems(s)) == "\"" + s + "\""
  {
    PlainText(s);
  }

  lemma PrintedDescribes(d: ExportData)
    requires d.version == VERSION && 1 <= |d.name| <= MAX_NAME_LENGTH && 1 <= |d.imguiIni|
    ensures DocumentOk(PrintedDocument(d)) && Describes(PrintedDocument(d).root, d)
  {
    hide EscapeItems, ItemsValue, ItemsOk, IntOf, DigitsValue, Describes;
    EscapesDenote(KEY_FORMAT);
    EscapesDenote(KEY_VERSION);
    EscapesDenote(KEY_NAME);
    EscapesDenote(KEY_LAYOUT_INI);
    EscapesDenote(FORMAT);
    EscapesDenote(d.name);
    EscapesDenote(d.imguiIni);
    var ms := PrintedMembers(d);
    assert MembersOk(ms.rest.rest.rest) by {
      assert MemberOk(ms.rest.rest.rest.first);
    }
    assert MembersOk(ms.rest.rest) by {
      assert MemberOk(ms.rest.rest.first);
    }
    assert MembersOk(ms.rest) by {
      NumberPrinted();
      assert MemberOk(ms.rest.first);
    }
    assert MemberOk(ms.first);
    OneDenotes();
    var f := NO_FIELDS.(format := Some(FORMAT));
    var g := f.(version := Some(1));
    var h := g.(name := Some(d.name));
    var all := h.(layoutIni := Some(d.imguiIni));
    assert Absorb(h, ms.rest.rest.rest.first) == Some(all);
    assert AbsorbAll(h, ms.rest.rest.rest) == Some(all);
    assert AbsorbAll(g, ms.rest.rest) == Some(all);
    assert AbsorbAll(f, ms.rest) == Some(all);
    assert AbsorbAll(NO_FIELDS, ms) == Some(all);
    FieldsDescribe(VObject(ms), d);
  }

  lemma OneDenotes()
    ensures IntOf(VNumber(Number(false, ONE, None, None))) == Some(1)
  {
    assert DigitsValue(ONE) == DigitsValue(ONE[..0]) * 10 + DigitValue(ONE[0]);
  }

  /** What the printer accepts, the reader returns: the same version, name and
      layout body, whatever bytes they hold. */
  lemma RoundTrip(d: ExportData)
    requires SerializedOrError(d).Success?
    ensures Deserialized(SerializedOrError(d).value) == Success(d)
  {
    DocumentPrinted(d);
    PrintedDescribes(d);
    DocumentDecides(PrintedDocument(d), d);
  }

  /** What can be printed: the supported version, a name of 1 to 256 bytes and a layout that
      is not empty, unless the text is too long to be read again. */
  lemma SerializesIff(d: ExportData)
    ensures SerializedOrError(d).Success?
        <==> && d.version == VERSION && 1 <= |d.name| <= MAX_NAME_LENGTH && d.imguiIni != []
             && |Serialized(d)| <= MAX_FILE_SIZE
  {
    hide Serialized;
  }

  /** The printer is injective on what it accepts: two data never share a file. */
  lemma SerializeInjective(d: ExportData, e: ExportData)
    requires SerializedOrError(d).Success? && SerializedOrError(d) == SerializedOrError(e)
    ensures d == e
  {
    RoundTrip(d);
    RoundTrip(e);
  }
}
