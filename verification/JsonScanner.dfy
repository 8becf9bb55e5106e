/** What each parser routine of the layout-file reader computes, as functions of
    the input and a position.  The routines of `LayoutParser` refine these; the
    lemmas of `JsonSoundness` and `JsonCompleteness` relate them to the grammar. */
module JsonScanner {
  import opened Utf8
  import opened JsonGrammar

  // A failed scan, or the scanned value and the position after it.
  datatype Scan<+T> = Fail | At(value: T, pos: nat)

  predicate CharAt(s: ByteString, p: nat, c: Byte) {
    p < |s| && s[p] == c
  }

  predicate Has(s: ByteString, p: nat, t: ByteString) {
    p + |t| <= |s| && s[p..p + |t|] == t
  }

  lemma HasEscape(s: ByteString, p: nat)
    ensures Has(s, p, "\\u") <==> CharAt(s, p, '\\') && CharAt(s, p + 1, 'u')
  {
    if CharAt(s, p, '\\') && CharAt(s, p + 1, 'u') {
      assert s[p..p + 2] == "\\u";
    } else if p + 2 <= |s| {
      assert s[p..p + 2][0] == s[p] && s[p..p + 2][1] == s[p + 1];
    }
  }

  function SkipWhitespace(s: ByteString, p: nat): (q: nat)
    requires p <= |s|
    ensures p <= q <= |s|
    decreases |s| - p
  {
    if p < |s| && IsWhitespace(s[p]) then SkipWhitespace(s, p + 1) else p
  }

  function SkipDigits(s: ByteString, p: nat): (q: nat)
    requires p <= |s|
    ensures p <= q <= |s|
    decreases |s| - p
  {
    if p < |s| && IsDigit(s[p]) then SkipDigits(s, p + 1) else p
  }

  lemma WhitespaceSpan(s: ByteString, p: nat)
    requires p <= |s|
    ensures WhitespaceOk(s[p..SkipWhitespace(s, p)])
    ensures SkipWhitespace(s, p) < |s| ==> !IsWhitespace(s[SkipWhitespace(s, p)])
    decreases |s| - p
  {
    if p < |s| && IsWhitespace(s[p]) {
      WhitespaceSpan(s, p + 1);
      var q := SkipWhitespace(s, p);
      assert s[p..q] == [s[p]] + s[p + 1..q];
    }
  }

  lemma DigitSpan(s: ByteString, p: nat)
    requires p <= |s|
    ensures forall i :: p <= i < SkipDigits(s, p) ==> IsDigit(s[i])
    ensures SkipDigits(s, p) < |s| ==> !IsDigit(s[SkipDigits(s, p)])
    decreases |s| - p
  {
    if p < |s| && IsDigit(s[p]) {
      DigitSpan(s, p + 1);
    }
  }

  function ScanHexQuad(s: ByteString, p: nat): (r: Scan<nat>)
    ensures r.At? ==> r.value < 0x10000 && r.pos <= |s|
  {
    if p + 4 <= |s| && QuadOk(s[p..p + 4]) then At(QuadValue(s[p..p + 4]), p + 4) else Fail
  }

  // After `\u`.
  function ScanUnicodeEscape(s: ByteString, p: nat): Scan<ByteString> {
    match ScanHexQuad(s, p)
    case Fail => Fail
    case At(high, q) =>
      if IsHighSurrogate(high) then
        if !Has(s, q, "\\u") then Fail
        else match ScanHexQuad(s, q + 2)
             case Fail => Fail
             case At(low, r) =>
               if IsLowSurrogate(low) then At(Encode(PairValue(high, low)), r) else Fail
      else if IsLowSurrogate(high) then Fail
      else At(Encode(high), q)
  }

  // One character of a string body, at a byte that does not close it.
  function ScanItem(s: ByteString, p: nat): (r: Scan<ByteString>)
    ensures r.At? ==> p < r.pos <= |s|
  {
    if p >= |s| || s[p] as int < 0x20 then Fail
    else if s[p] != '\\' then At([s[p]], p + 1)
    else if p + 1 >= |s| then Fail
    else if s[p + 1] == 'u' then ScanUnicodeEscape(s, p + 2)
    else if s[p + 1] in "\"\\/bfnrt" then At([ShortValue(s[p + 1])], p + 2)
    else Fail
  }

  // The rest of a string, up to and including the closing quote.
  function ScanStringBody(s: ByteString, p: nat): (r: Scan<ByteString>)
    ensures r.At? ==> p < r.pos <= |s|
    decreases |s| - p
  {
    if CharAt(s, p, '"') then At([], p + 1)
    else match ScanItem(s, p)
         case Fail => Fail
         case At(v, q) =>
           match ScanStringBody(s, q)
           case Fail => Fail
           case At(rest, r) => At(v + rest, r)
  }

  function ScanString(s: ByteString, p: nat): (r: Scan<ByteString>)
    ensures r.At? ==> p < r.pos <= |s|
  {
    if CharAt(s, p, '"') then ScanStringBody(s, p + 1) else Fail
  }

  predicate IsExponentLetter(c: Byte) {
    c == 'e' || c == 'E'
  }

  const INT_MIN: int := -0x8000_0000
  const INT_MAX: int := 0x7FFF_FFFF

  // An integer that fits the 32-bit `int` of the source.
  function ScanInteger(s: ByteString, p: nat): (r: Scan<int>)
    ensures r.At? ==> p < r.pos <= |s|
  {
    if p > |s| then Fail
    else
      var digits := if CharAt(s, p, '-') then p + 1 else p;
      var q := SkipDigits(s, digits);
      if q == digits || (q - digits > 1 && s[digits] == '0')
         || (q < |s| && (s[q] == '.' || IsExponentLetter(s[q])))
      then Fail
      else
        DigitSpan(s, digits);
        var magnitude: int := DigitsValue(s[digits..q]);
        var v := if digits == p then magnitude else -magnitude;
        if INT_MIN <= v <= INT_MAX then At(v, q) else Fail
  }

  // The fraction and the exponent of a number are optional: `At` also when absent.
  function ScanFraction(s: ByteString, p: nat): (r: Scan<()>)
    requires p <= |s|
    ensures r.At? ==> p <= r.pos <= |s|
  {
    if CharAt(s, p, '.') then
      var q := SkipDigits(s, p + 1);
      if q == p + 1 then Fail else At((), q)
    else
      At((), p)
  }

  function ScanExponent(s: ByteString, p: nat): (r: Scan<()>)
    requires p <= |s|
    ensures r.At? ==> p <= r.pos <= |s|
  {
    if p < |s| && IsExponentLetter(s[p]) then
      var digits := if CharAt(s, p + 1, '+') || CharAt(s, p + 1, '-') then p + 2 else p + 1;
      var q := SkipDigits(s, digits);
      if q == digits then Fail else At((), q)
    else
      At((), p)
  }

  // The position after the sign and the whole part.
  function ScanWhole(s: ByteString, p: nat): (r: Scan<()>)
    ensures r.At? ==> p < r.pos <= |s|
  {
    var q := if CharAt(s, p, '-') then p + 1 else p;
    if q < |s| && s[q] == '0' then At((), q + 1)
    else if q < |s| && IsDigit(s[q]) then At((), SkipDigits(s, q))
    else Fail
  }

  function ScanNumber(s: ByteString, p: nat): (r: Scan<()>)
    ensures r.At? ==> p < r.pos <= |s|
  {
    match ScanWhole(s, p)
    case Fail => Fail
    case At(_, q) =>
      match ScanFraction(s, q)
      case Fail => Fail
      case At(_, r) => ScanExponent(s, r)
  }

  function ScanLiteral(s: ByteString, p: nat): (r: Scan<()>)
    ensures r.At? ==> p < r.pos <= |s|
  {
    if Has(s, p, "true") then At((), p + 4)
    else if Has(s, p, "false") then At((), p + 5)
    else if Has(s, p, "null") then At((), p + 4)
    else Fail
  }

  /** Any value, after white space: what the parser skips for an unknown key. */
  function ScanValue(s: ByteString, p: nat): (r: Scan<()>)
    ensures r.At? ==> p < r.pos <= |s|
    decreases |s| - p, 1
  {
    if p > |s| then Fail
    else
      var q := SkipWhitespace(s, p);
      if q >= |s| then Fail
      else if s[q] == '"' then
        match ScanString(s, q)
        case Fail => Fail
        case At(_, r) => At((), r)
      else if s[q] == '{' then ScanObject(s, q)
      else if s[q] == '[' then ScanArray(s, q)
      else if s[q] == '-' || IsDigit(s[q]) then ScanNumber(s, q)
      else ScanLiteral(s, q)
  }

  function ScanObject(s: ByteString, p: nat): (r: Scan<()>)
    ensures r.At? ==> p < r.pos <= |s|
    decreases |s| - p, 0
  {
    if !CharAt(s, p, '{') then Fail
    else
      var k := SkipWhitespace(s, p + 1);
      if CharAt(s, k, '}') then At((), k + 1) else ScanMembers(s, k)
  }

  function ScanArray(s: ByteString, p: nat): (r: Scan<()>)
    ensures r.At? ==> p < r.pos <= |s|
    decreases |s| - p, 0
  {
    if !CharAt(s, p, '[') then Fail
    else
      var k := SkipWhitespace(s, p + 1);
      if CharAt(s, k, ']') then At((), k + 1) else ScanElements(s, k)
  }

  // A key, white space, a colon, white space: the position where the value starts.
  function ScanKey(s: ByteString, p: nat): (r: Scan<ByteString>)
    ensures r.At? ==> p < r.pos <= |s|
  {
    match ScanString(s, p)
    case Fail => Fail
    case At(key, q) =>
      var colon := SkipWhitespace(s, q);
      if CharAt(s, colon, ':') then At(key, colon + 1) else Fail
  }

  function ScanMember(s: ByteString, p: nat): (r: Scan<()>)
    ensures r.At? ==> p < r.pos <= |s|
    decreases |s| - p, 2
  {
    match ScanKey(s, p)
    case Fail => Fail
    case At(_, v) => ScanValue(s, v)
  }

  // The members of a nested object from a key on, through the closing brace.
  function ScanMembers(s: ByteString, p: nat): (r: Scan<()>)
    ensures r.At? ==> p < r.pos <= |s|
    decreases |s| - p, 3
  {
    match ScanMember(s, p)
    case Fail => Fail
    case At(_, q) =>
      var k := SkipWhitespace(s, q);
      if CharAt(s, k, '}') then At((), k + 1)
      else if CharAt(s, k, ',') then ScanMembers(s, SkipWhitespace(s, k + 1))
      else Fail
  }

  // The elements of an array, through the closing bracket.
  function ScanElements(s: ByteString, p: nat): (r: Scan<()>)
    ensures r.At? ==> p < r.pos <= |s|
    decreases |s| - p, 2
  {
    match ScanValue(s, p)
    case Fail => Fail
    case At(_, q) =>
      var k := SkipWhitespace(s, q);
      if CharAt(s, k, ']') then At((), k + 1)
      else if CharAt(s, k, ',') then ScanElements(s, SkipWhitespace(s, k + 1))
      else Fail
  }
}
