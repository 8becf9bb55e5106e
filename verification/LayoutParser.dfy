/** The cursor parser of layout files: `ExportJsonParser` and `Deserialize`.

    Every routine advances `position` in place, never past the end of the
    input, and is proved to compute the function of `JsonScanner` or
    `LayoutFile` of the same purpose. */
module LayoutParser {
  import opened Prelude
  import opened Utf8
  import opened JsonGrammar
  import opened JsonScanner
  import opened LayoutFile

  class ExportJsonParser {
    const input: ByteString
    var position: nat

    ghost predicate Valid()
      reads this
    {
      position <= |input|
    }

    constructor (input: ByteString)
      ensures Valid() && this.input == input && position == 0
    {
      this.input := input;
      position := 0;
    }

    method SkipSpace()
      requires Valid()
      modifies this
      ensures Valid() && position == SkipWhitespace(input, old(position))
    {
      while position < |input| && IsWhitespace(input[position])
        invariant old(position) <= position <= |input|
        invariant SkipWhitespace(input, position) == SkipWhitespace(input, old(position))
      {
        position := position + 1;
      }
    }

    method SkipDigitRun()
      requires Valid()
      modifies this
      ensures Valid() && position == SkipDigits(input, old(position))
    {
      while position < |input| && IsDigit(input[position])
        invariant old(position) <= position <= |input|
        invariant SkipDigits(input, position) == SkipDigits(input, old(position))
      {
        position := position + 1;
      }
    }

    method Consume(expected: Byte) returns (ok: bool)
      requires Valid()
      modifies this
      ensures Valid()
      ensures ok == CharAt(input, old(position), expected)
      ensures position == if ok then old(position) + 1 else old(position)
    {
      if position >= |input| || input[position] != expected {
        return false;
      }
      position := position + 1;
      return true;
    }

    method ParseHexQuad() returns (ok: bool, value: nat)
      requires Valid()
      modifies this
      ensures Valid() && position >= old(position)
      ensures ok == ScanHexQuad(input, old(position)).At?
      ensures ok ==> ScanHexQuad(input, old(position)) == At(value, position)
    {
      value := 0;
      if position + 4 > |input| {
        return false, value;
      }
      ghost var start := position;
      ghost var quad := input[start..start + 4];
      for index := 0 to 4
        invariant position == start + index
        invariant forall i :: 0 <= i < index ==> IsHexDigit(quad[i])
        invariant value == HexPrefix(quad, index)
      {
        var character := input[position];
        assert character == quad[index];
        position := position + 1;
        value := value * 0x10;
        if '0' <= character <= '9' {
          value := value + (character as int - '0' as int);
        } else if 'a' <= character <= 'f' {
          value := value + (character as int - 'a' as int + 10);
        } else if 'A' <= character <= 'F' {
          value := value + (character as int - 'A' as int + 10);
        } else {
          return false, value;
        }
      }
      assert HexPrefix(quad, 2) == HexPrefix(quad, 1) * 0x10 + HexValue(quad[1]);
      ok := true;
    }

    // The value of the first `n` digits of a quad.
    static ghost function HexPrefix(quad: ByteString, n: nat): nat
      requires n <= |quad| && forall i :: 0 <= i < n ==> IsHexDigit(quad[i])
    {
      if n == 0 then 0 else HexPrefix(quad, n - 1) * 0x10 + HexValue(quad[n - 1])
    }

    method ParseUnicodeEscape(prefix: ByteString) returns (ok: bool, value: ByteString)
      requires Valid()
      modifies this
      ensures Valid() && position >= old(position)
      ensures ok == ScanUnicodeEscape(input, old(position)).At?
      ensures ok ==> exists bytes ::
          ScanUnicodeEscape(input, old(position)) == At(bytes, position) && value == prefix + bytes
    {
      hide ScanHexQuad, Encode, Has;
      value := prefix;
      var codePoint;
      ok, codePoint := ParseHexQuad();
      if !ok {
        return;
      }
      if 0xD800 <= codePoint <= 0xDBFF {
        HasEscape(input, position);
        if position + 2 > |input| || input[position] != '\\' || input[position + 1] != 'u' {
          return false, value;
        }
        position := position + 2;
        var lowSurrogate;
        ok, lowSurrogate := ParseHexQuad();
        if !ok || lowSurrogate < 0xDC00 || lowSurrogate > 0xDFFF {
          return false, value;
        }
        codePoint := 0x10000 + (codePoint - 0xD800) * 0x400 + (lowSurrogate - 0xDC00);
      } else if 0xDC00 <= codePoint <= 0xDFFF {
        return false, value;
      }
      value := AppendUtf8(codePoint, prefix);
    }

    static method AppendUtf8(codePoint: nat, prefix: ByteString) returns (value: ByteString)
      requires codePoint <= 0x10FFFF
      ensures value == prefix + Encode(codePoint)
    {
      if codePoint <= 0x7F {
        value := prefix + [ToByte(codePoint)];
      } else if codePoint <= 0x7FF {
        value := prefix + [ToByte(0xC0 + codePoint / 0x40)];
        value := value + [ToByte(0x80 + codePoint % 0x40)];
      } else if codePoint <= 0xFFFF {
        value := prefix + [ToByte(0xE0 + codePoint / 0x1000)];
        value := value + [ToByte(0x80 + codePoint / 0x40 % 0x40)];
        value := value + [ToByte(0x80 + codePoint % 0x40)];
      } else {
        value := prefix + [ToByte(0xF0 + codePoint / 0x40000)];
        value := value + [ToByte(0x80 + codePoint / 0x1000 % 0x40)];
        value := value + [ToByte(0x80 + codePoint / 0x40 % 0x40)];
        value := value + [ToByte(0x80 + codePoint % 0x40)];
      }
    }

    method ParseString() returns (ok: bool, value: ByteString)
      requires Valid()
      modifies this
      ensures Valid() && position >= old(position)
      ensures ok == ScanString(input, old(position)).At?
      ensures ok ==> ScanString(input, old(position)) == At(value, position)
    {
      hide ScanItem, ScanStringBody, Prepend;
      value := [];
      var quoted := Consume('"');
      if !quoted {
        return false, value;
      }
      ghost var body := ScanStringBody(input, position);
      NothingInFront(body);
      BodyEnds(input);
      while position < |input|
        invariant old(position) < position <= |input|
        invariant body == Prepend(value, ScanStringBody(input, position))
        decreases |input| - position
      {
        ghost var here := position;
        var character := input[position];
        position := position + 1;
        BodyCases(value, input, here);
        if character == '"' {
          return true, value;
        }
        if character as int < 0x20 {
          return false, value;
        }
        if character != '\\' {
          value := value + [character];
          continue;
        }
        PrependItem(value, input, here);
        ok, value := ParseEscape(value);
        if !ok {
          return;
        }
      }
      ok := false;
    }

    // The branch of `ParseString` after a backslash.
    method ParseEscape(prefix: ByteString) returns (ok: bool, value: ByteString)
      requires Valid() && 0 < position && input[position - 1] == '\\'
      modifies this
      ensures Valid() && position >= old(position)
      ensures ok == ScanItem(input, old(position) - 1).At?
      ensures ok ==>
          exists bytes :: ScanItem(input, old(position) - 1) == At(bytes, position) && value == prefix + bytes
    {
      value := prefix;
      if position >= |input| {
        return false, value;
      }
      ghost var here := position - 1;
      var escape := input[position];
      position := position + 1;
      if escape == 'u' {
        ok, value := ParseUnicodeEscape(prefix);
        return;
      }
      match escape {
        case '"' => value := prefix + [escape];
        case '\\' => value := prefix + [escape];
        case '/' => value := prefix + [escape];
        case 'b' => value := prefix + ['\U{08}'];
        case 'f' => value := prefix + ['\U{0C}'];
        case 'n' => value := prefix + ['\n'];
        case 'r' => value := prefix + ['\r'];
        case 't' => value := prefix + ['\t'];
        case _ => return false, value;
      }
      assert ScanItem(input, here) == At([ShortValue(escape)], position);
      ok := true;
    }

    // Puts decoded bytes in front of a scan of the rest of a string.
    static ghost function Prepend(prefix: ByteString, r: Scan<ByteString>): Scan<ByteString> {
      match r
      case Fail => Fail
      case At(v, q) => At(prefix + v, q)
    }

    static lemma PrependItem(prefix: ByteString, s: ByteString, p: nat)
      requires p < |s| && s[p] != '"'
      ensures Prepend(prefix, ScanStringBody(s, p))
           == match ScanItem(s, p)
              case Fail => Fail
              case At(v, q) => Prepend(prefix + v, ScanStringBody(s, q))
    {
      match ScanItem(s, p)
      case Fail =>
      case At(v, q) =>
        match ScanStringBody(s, q)
        case Fail =>
        case At(rest, _) => assert prefix + (v + rest) == prefix + v + rest;
    }

    static lemma NothingInFront(r: Scan<ByteString>)
      ensures Prepend([], r) == r
    {
      assert r.At? ==> [] + r.value == r.value;
    }

    static lemma BodyEnds(s: ByteString)
      ensures forall prefix :: Prepend(prefix, ScanStringBody(s, |s|)) == Fail
    {
      assert ScanStringBody(s, |s|) == Fail;
    }

    // The quote, a control byte and a plain byte.
    static lemma BodyCases(prefix: ByteString, s: ByteString, p: nat)
      requires p < |s|
      ensures s[p] == '"' ==> Prepend(prefix, ScanStringBody(s, p)) == At(prefix, p + 1)
      ensures s[p] as int < 0x20 ==> Prepend(prefix, ScanStringBody(s, p)) == Fail
      ensures s[p] as int >= 0x20 && s[p] != '"' && s[p] != '\\' ==>
          Prepend(prefix, ScanStringBody(s, p)) == Prepend(prefix + [s[p]], ScanStringBody(s, p + 1))
    {
      if s[p] == '"' {
        assert prefix + [] == prefix;
      } else {
        PrependItem(prefix, s, p);
      }
    }

    method ParseInteger() returns (ok: bool, value: int)
      requires Valid()
      modifies this
      ensures Valid() && position >= old(position)
      ensures ok == ScanInteger(input, old(position)).At?
      ensures ok ==> ScanInteger(input, old(position)) == At(value, position)
      ensures !ok ==> position == old(position)
    {
      var begin := position;
      if position < |input| && input[position] == '-' {
        position := position + 1;
      }
      var digits := position;
      SkipDigitRun();
      if digits == position {
        position := begin;
        return false, 0;
      }
      if (position - digits > 1 && input[digits] == '0')
         || (position < |input| && (input[position] == '.' || input[position] == 'e' || input[position] == 'E'))
      {
        position := begin;
        return false, 0;
      }
      DigitSpan(input, digits);
      ok, value := FromChars(input[begin..position], digits - begin);
      assert input[begin..position][digits - begin..] == input[digits..position];
      if !ok {
        position := begin;
      }
    }

    // `std::from_chars` into a 32-bit `int`: an optional sign, then digits.
    static method FromChars(number: ByteString, sign: nat) returns (ok: bool, value: int)
      requires sign <= 1 && sign < |number|
      requires sign == 1 <==> number[0] == '-'
      requires forall i :: sign <= i < |number| ==> IsDigit(number[i])
      ensures var magnitude: int := DigitsValue(number[sign..]);
              var exact := if sign == 1 then -magnitude else magnitude;
              && ok == (INT_MIN <= exact <= INT_MAX)
              && (ok ==> value == exact)
    {
      var magnitude := 0;
      for i := sign to |number|
        invariant magnitude == DigitsValue(number[sign..i])
      {
        assert number[sign..i + 1][..i - sign] == number[sign..i];
        magnitude := magnitude * 10 + (number[i] as int - '0' as int);
      }
      assert number[sign..|number|] == number[sign..];
      value := if sign == 1 then -magnitude else magnitude;
      ok := INT_MIN <= value <= INT_MAX;
    }

    method SkipNumber() returns (ok: bool)
      requires Valid() && position < |input| && (input[position] == '-' || IsDigit(input[position]))
      modifies this
      ensures Valid() && position >= old(position)
      ensures ok == ScanNumber(input, old(position)).At?
      ensures ok ==> ScanNumber(input, old(position)) == At((), position)
      ensures !ok ==> position == old(position)
    {
      var begin := position;
      if input[position] == '-' {
        position := position + 1;
      }
      if position >= |input| {
        position := begin;
        return false;
      }
      if input[position] == '0' {
        position := position + 1;
      } else if '1' <= input[position] <= '9' {
        SkipDigitRun();
      } else {
        position := begin;
        return false;
      }
      assert ScanWhole(input, begin) == At((), position);
      ok := SkipFraction();
      if ok {
        ok := SkipExponent();
      }
      if !ok {
        position := begin;
      }
    }

    method SkipFraction() returns (ok: bool)
      requires Valid()
      modifies this
      ensures Valid()
      ensures ok == ScanFraction(input, old(position)).At?
      ensures ok ==> ScanFraction(input, old(position)) == At((), position)
    {
      if position < |input| && input[position] == '.' {
        position := position + 1;
        var fraction := position;
        SkipDigitRun();
        return fraction != position;
      }
      return true;
    }

    method SkipExponent() returns (ok: bool)
      requires Valid()
      modifies this
      ensures Valid()
      ensures ok == ScanExponent(input, old(position)).At?
      ensures ok ==> ScanExponent(input, old(position)) == At((), position)
    {
      if position < |input| && (input[position] == 'e' || input[position] == 'E') {
        position := position + 1;
        if position < |input| && (input[position] == '+' || input[position] == '-') {
          position := position + 1;
        }
        var exponent := position;
        SkipDigitRun();
        return exponent != position;
      }
      return true;
    }

    method ConsumeLiteral(word: ByteString) returns (ok: bool)
      requires Valid()
      modifies this
      ensures Valid()
      ensures ok == Has(input, old(position), word)
      ensures position == if ok then old(position) + |word| else old(position)
    {
      var end := if position + |word| <= |input| then position + |word| else |input|;
      if input[position..end] != word {
        return false;
      }
      position := position + |word|;
      return true;
    }

    method SkipValue() returns (ok: bool)
      requires Valid()
      modifies this
      ensures Valid() && position >= old(position)
      ensures ok == ScanValue(input, old(position)).At?
      ensures ok ==> ScanValue(input, old(position)) == At((), position)
      decreases |input| - position, 1
    {
      SkipSpace();
      if position >= |input| {
        return false;
      }
      if input[position] == '"' {
        var ignored;
        ok, ignored := ParseString();
        return;
      }
      if input[position] == '{' {
        ok := SkipObject();
        return;
      }
      if input[position] == '[' {
        ok := SkipArray();
        return;
      }
      if input[position] == '-' || '0' <= input[position] <= '9' {
        ok := SkipNumber();
        return;
      }
      ok := ConsumeLiteral("true");
      if !ok {
        ok := ConsumeLiteral("false");
      }
      if !ok {
        ok := ConsumeLiteral("null");
      }
    }

    method SkipObject() returns (ok: bool)
      requires Valid()
      modifies this
      ensures Valid() && position >= old(position)
      ensures ok == ScanObject(input, old(position)).At?
      ensures ok ==> ScanObject(input, old(position)) == At((), position)
      decreases |input| - position, 0
    {
      hide ScanMember, SkipWhitespace;
      var consumed := Consume('{');
      if !consumed {
        return false;
      }
      SkipSpace();
      ghost var all := ScanMembers(input, position);
      consumed := Consume('}');
      if consumed {
        return true;
      }
      while true
        invariant old(position) < position <= |input|
        invariant ScanMembers(input, position) == all
        invariant ScanObject(input, old(position)) == all
        decreases |input| - position
      {
        ok := SkipMember();
        if !ok {
          return;
        }
        SkipSpace();
        ok := Consume('}');
        if ok {
          return;
        }
        ok := Consume(',');
        if !ok {
          return;
        }
        SkipSpace();
      }
    }

    method SkipMember() returns (ok: bool)
      requires Valid()
      modifies this
      ensures Valid() && position >= old(position)
      ensures ok == ScanMember(input, old(position)).At?
      ensures ok ==> ScanMember(input, old(position)) == At((), position)
      decreases |input| - position, 2
    {
      var key;
      ok, key := ParseString();
      if !ok {
        return;
      }
      SkipSpace();
      ok := Consume(':');
      if !ok {
        return;
      }
      assert ScanKey(input, old(position)) == At(key, position);
      ok := SkipValue();
    }

    method SkipArray() returns (ok: bool)
      requires Valid()
      modifies this
      ensures Valid() && position >= old(position)
      ensures ok == ScanArray(input, old(position)).At?
      ensures ok ==> ScanArray(input, old(position)) == At((), position)
      decreases |input| - position, 0
    {
      hide ScanValue, SkipWhitespace;
      var consumed := Consume('[');
      if !consumed {
        return false;
      }
      SkipSpace();
      ghost var all := ScanElements(input, position);
      consumed := Consume(']');
      if consumed {
        return true;
      }
      while true
        invariant old(position) < position <= |input|
        invariant ScanElements(input, position) == all
        invariant ScanArray(input, old(position)) == all
        decreases |input| - position
      {
        ok := SkipValue();
        if !ok {
          return;
        }
        SkipSpace();
        ok := Consume(']');
        if ok {
          return;
        }
        ok := Consume(',');
        if !ok {
          return;
        }
        SkipSpace();
      }
    }

    /** Reads a whole layout file: the data, or the message the source reports. */
    method Parse() returns (r: Result<ExportData>)
      requires Valid() && position == 0
      modifies this
      ensures Valid()
      ensures r == ParseText(input)
    {
      hide ReadFields, SkipWhitespace, CheckFields;
      SkipSpace();
      var ok := Consume('{');
      if !ok {
        return Failure("JSON root must be an object");
      }
      var fields := NO_FIELDS;
      SkipSpace();
      ok := Consume('}');
      if !ok {
        var read := ParseFields();
        if read.Failure? {
          return Failure(read.error);
        }
        fields := read.value;
      }
      assert ReadRoot(input) == Success((fields, position));
      SkipSpace();
      if position != |input| {
        return Failure("Unexpected content after JSON object");
      }
      r := CheckFields(fields);
    }

    // The loop of `Parse` over the members of the root object.
    method ParseFields() returns (r: Result<Fields>)
      requires Valid()
      modifies this
      ensures Valid() && position >= old(position)
      ensures match ReadFields(input, old(position), NO_FIELDS)
              case Failure(e) => r == Failure(e)
              case Success((f, q)) => r == Success(f) && position == q
    {
      hide ReadMember, SkipWhitespace;
      var fields := NO_FIELDS;
      while true
        invariant old(position) <= position <= |input|
        invariant ReadFields(input, old(position), NO_FIELDS) == ReadFields(input, position, fields)
        decreases |input| - position
      {
        var member := ParseMember(fields);
        if member.Failure? {
          return member;
        }
        fields := member.value;
        SkipSpace();
        var ok := Consume('}');
        if ok {
          return Success(fields);
        }
        ok := Consume(',');
        if !ok {
          return Failure("Expected ',' or '}' in JSON object");
        }
        SkipSpace();
      }
    }

    // One member of the root object: key, colon, value.
    method ParseMember(fields: Fields) returns (r: Result<Fields>)
      requires Valid()
      modifies this
      ensures Valid() && position >= old(position)
      ensures match ReadMember(input, old(position), fields)
              case Failure(e) => r == Failure(e)
              case Success((f, q)) => r == Success(f) && position == q
    {
      hide ReadField, SkipWhitespace;
      var ok, key := ParseString();
      if !ok {
        return Failure("Expected a JSON object key");
      }
      SkipSpace();
      ok := Consume(':');
      if !ok {
        return Failure("Expected ':' after JSON object key");
      }
      SkipSpace();
      r := ParseField(key, fields);
    }

    // The branch of `Parse` on one key.
    method ParseField(key: ByteString, fields: Fields) returns (r: Result<Fields>)
      requires Valid()
      modifies this
      ensures Valid() && position >= old(position)
      ensures match ReadField(input, old(position), key, fields)
              case Failure(e) => r == Failure(e)
              case Success((f, q)) => r == Success(f) && position == q
    {
      var ok, text, number := false, [], 0;
      if key == KEY_FORMAT {
        if fields.format.None? {
          ok, text := ParseString();
        }
        return if ok then Success(fields.(format := Some(text)))
               else Failure("format must be a string and appear once");
      } else if key == KEY_VERSION {
        if fields.version.None? {
          ok, number := ParseInteger();
        }
        return if ok then Success(fields.(version := Some(number)))
               else Failure("version must be an integer and appear once");
      } else if key == KEY_NAME {
        if fields.name.None? {
          ok, text := ParseString();
        }
        return if ok then Success(fields.(name := Some(text)))
               else Failure("name must be a string and appear once");
      } else if key == KEY_LAYOUT_INI {
        if fields.layoutIni.None? {
          ok, text := ParseString();
        }
        return if ok then Success(fields.(layoutIni := Some(text)))
               else Failure("layout_ini must be a string and appear once");
      } else {
        ok := SkipValue();
        return if ok then Success(fields) else Failure("Invalid JSON value");
      }
    }
  }

  method Deserialize(json: ByteString) returns (r: Result<ExportData>)
    ensures r == Deserialized(json)
  {
    if |json| > MAX_FILE_SIZE {
      return Failure("Layout file exceeds the 4 MiB size limit");
    }
    var parser := new ExportJsonParser(json);
    r := parser.Parse();
  }
}
