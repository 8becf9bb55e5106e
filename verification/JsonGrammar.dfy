/** The JSON grammar of RFC 8259 (sections 2 to 7) as derivation trees.

    A tree fixes every choice the grammar leaves open: white space, escapes,
    member order.  `...Text` is the byte string a tree stands for and `...Ok`
    says that its leaves are what the grammar allows.  Nothing here parses. */
module JsonGrammar {
  import opened Prelude
  import opened Utf8

  // Section 2: white space and the literal names.

  predicate IsWhitespace(c: Byte) {
    c == ' ' || c == '\t' || c == '\r' || c == '\n'
  }

  predicate WhitespaceOk(w: ByteString) {
    forall i :: 0 <= i < |w| ==> IsWhitespace(w[i])
  }

  predicate LiteralOk(word: ByteString) {
    word == "true" || word == "false" || word == "null"
  }

  // Section 6: numbers.

  predicate IsDigit(c: Byte) {
    '0' <= c <= '9'
  }

  predicate DigitsOk(digits: ByteString) {
    |digits| > 0 && forall i :: 0 <= i < |digits| ==> IsDigit(digits[i])
  }

  // What `e` or `E` introduces: an optional sign and digits.
  datatype Exponent = Exponent(letter: Byte, sign: ByteString, digits: ByteString)

  datatype Number = Number(negative: bool, whole: ByteString, fraction: Option<ByteString>, exponent: Option<Exponent>)

  predicate NumberOk(n: Number) {
    && DigitsOk(n.whole)
    && (n.whole[0] == '0' ==> |n.whole| == 1)
    && (n.fraction.Some? ==> DigitsOk(n.fraction.value))
    && (n.exponent.Some? ==>
          && (n.exponent.value.letter == 'e' || n.exponent.value.letter == 'E')
          && (n.exponent.value.sign == [] || n.exponent.value.sign == "+" || n.exponent.value.sign == "-")
          && DigitsOk(n.exponent.value.digits))
  }

  function SignText(negative: bool): ByteString {
    if negative then "-" else []
  }

  function FractionText(f: Option<ByteString>): ByteString {
    if f.Some? then "." + f.value else []
  }

  function ExponentText(e: Option<Exponent>): ByteString {
    if e.Some? then [e.value.letter] + e.value.sign + e.value.digits else []
  }

  function NumberText(n: Number): ByteString {
    SignText(n.negative) + n.whole + FractionText(n.fraction) + ExponentText(n.exponent)
  }

  function DigitValue(c: Byte): nat
    requires IsDigit(c)
  {
    c as int - '0' as int
  }

  // The integer a digit string denotes.
  function DigitsValue(digits: ByteString): nat
    requires forall i :: 0 <= i < |digits| ==> IsDigit(digits[i])
  {
    if digits == [] then 0
    else DigitsValue(digits[..|digits| - 1]) * 10 + DigitValue(digits[|digits| - 1])
  }

  predicate IsInteger(n: Number) {
    n.fraction.None? && n.exponent.None?
  }

  function IntegerValue(n: Number): int
    requires NumberOk(n) && IsInteger(n)
  {
    var magnitude: int := DigitsValue(n.whole);
    if n.negative then -magnitude else magnitude
  }

  // Section 7: strings.

  predicate IsHexDigit(c: Byte) {
    IsDigit(c) || 'a' <= c <= 'f' || 'A' <= c <= 'F'
  }

  function HexValue(c: Byte): nat
    requires IsHexDigit(c)
  {
    if IsDigit(c) then DigitValue(c)
    else if 'a' <= c <= 'f' then c as int - 'a' as int + 10
    else c as int - 'A' as int + 10
  }

  predicate QuadOk(q: ByteString) {
    |q| == 4 && forall i :: 0 <= i < 4 ==> IsHexDigit(q[i])
  }

  // The four hexadecimal digits after `\u`.
  function QuadValue(q: ByteString): (v: nat)
    requires QuadOk(q)
    ensures v < 0x10000
  {
    HexValue(q[0]) * 0x1000 + HexValue(q[1]) * 0x100 + HexValue(q[2]) * 0x10 + HexValue(q[3])
  }

  predicate IsHighSurrogate(v: nat) {
    0xD800 <= v <= 0xDBFF
  }

  predicate IsLowSurrogate(v: nat) {
    0xDC00 <= v <= 0xDFFF
  }

  datatype StringItem =
    | Unescaped(b: Byte)
    | Short(letter: Byte)                       // \" \\ \/ \b \f \n \r \t
    | Unit(quad: ByteString)                    // \uXXXX
    | Pair(high: ByteString, low: ByteString)   // \uXXXX\uXXXX, a surrogate pair

  predicate ItemOk(i: StringItem) {
    match i
    case Unescaped(b) => b as int >= 0x20 && b != '"' && b != '\\'
    case Short(letter) => letter in "\"\\/bfnrt"
    case Unit(quad) => QuadOk(quad) && IsScalar(QuadValue(quad))
    case Pair(high, low) =>
      && QuadOk(high) && IsHighSurrogate(QuadValue(high))
      && QuadOk(low) && IsLowSurrogate(QuadValue(low))
  }

  function ItemText(i: StringItem): ByteString {
    match i
    case Unescaped(b) => [b]
    case Short(letter) => ['\\', letter]
    case Unit(quad) => "\\u" + quad
    case Pair(high, low) => "\\u" + high + "\\u" + low
  }

  function ShortValue(letter: Byte): Byte {
    match letter
    case 'b' => '\U{08}'
    case 'f' => '\U{0C}'
    case 'n' => '\n'
    case 'r' => '\r'
    case 't' => '\t'
    case _ => letter
  }

  // The code point of a surrogate pair (section 7 of RFC 8259).
  function PairValue(high: nat, low: nat): (v: nat)
    requires IsHighSurrogate(high) && IsLowSurrogate(low)
    ensures IsScalar(v)
  {
    0x10000 + (high - 0xD800) * 0x400 + (low - 0xDC00)
  }

  // What an item contributes to the decoded byte string.
  function ItemValue(i: StringItem): ByteString
    requires ItemOk(i)
  {
    match i
    case Unescaped(b) => [b]
    case Short(letter) => [ShortValue(letter)]
    case Unit(quad) => Encode(QuadValue(quad))
    case Pair(high, low) => Encode(PairValue(QuadValue(high), QuadValue(low)))
  }

  predicate ItemsOk(items: seq<StringItem>) {
    forall i :: 0 <= i < |items| ==> ItemOk(items[i])
  }

  function ItemsText(items: seq<StringItem>): ByteString {
    if items == [] then [] else ItemText(items[0]) + ItemsText(items[1..])
  }

  function ItemsValue(items: seq<StringItem>): ByteString
    requires ItemsOk(items)
  {
    if items == [] then [] else ItemValue(items[0]) + ItemsValue(items[1..])
  }

  function StringText(items: seq<StringItem>): ByteString {
    "\"" + ItemsText(items) + "\""
  }

  // Sections 3 to 5: values, objects, arrays.

  datatype Value =
    | VString(items: seq<StringItem>)
    | VNumber(number: Number)
    | VLiteral(word: ByteString)
    | VEmptyObject(inside: ByteString)
    | VObject(members: Members)
    | VEmptyArray(within: ByteString)
    | VArray(elements: Elements)

  datatype Member = Member(
    before: ByteString, key: seq<StringItem>, beforeColon: ByteString,
    afterColon: ByteString, value: Value, after: ByteString)

  datatype Members = OneMember(first: Member) | MoreMembers(first: Member, rest: Members)

  datatype Element = Element(before: ByteString, value: Value, after: ByteString)

  datatype Elements = OneElement(head: Element) | MoreElements(head: Element, tail: Elements)

  predicate ValueOk(v: Value) {
    match v
    case VString(items) => ItemsOk(items)
    case VNumber(number) => NumberOk(number)
    case VLiteral(word) => LiteralOk(word)
    case VEmptyObject(inside) => WhitespaceOk(inside)
    case VObject(members) => MembersOk(members)
    case VEmptyArray(within) => WhitespaceOk(within)
    case VArray(elements) => ElementsOk(elements)
  }

  predicate MemberOk(m: Member) {
    && WhitespaceOk(m.before) && ItemsOk(m.key) && WhitespaceOk(m.beforeColon)
    && WhitespaceOk(m.afterColon) && ValueOk(m.value) && WhitespaceOk(m.after)
  }

  predicate MembersOk(ms: Members) {
    MemberOk(ms.first) && (ms.MoreMembers? ==> MembersOk(ms.rest))
  }

  predicate ElementsOk(es: Elements) {
    && WhitespaceOk(es.head.before) && ValueOk(es.head.value) && WhitespaceOk(es.head.after)
    && (es.MoreElements? ==> ElementsOk(es.tail))
  }

  function ValueText(v: Value): ByteString {
    match v
    case VString(items) => StringText(items)
    case VNumber(number) => NumberText(number)
    case VLiteral(word) => word
    case VEmptyObject(inside) => "{" + inside + "}"
    case VObject(members) => "{" + MembersText(members) + "}"
    case VEmptyArray(within) => "[" + within + "]"
    case VArray(elements) => "[" + ElementsText(elements) + "]"
  }

  function MemberText(m: Member): ByteString {
    m.before + StringText(m.key) + m.beforeColon + ":" + m.afterColon + ValueText(m.value) + m.after
  }

  function MembersText(ms: Members): ByteString {
    match ms
    case OneMember(first) => MemberText(first)
    case MoreMembers(first, rest) => MemberText(first) + "," + MembersText(rest)
  }

  function ElementText(e: Element): ByteString {
    e.before + ValueText(e.value) + e.after
  }

  function ElementsText(es: Elements): ByteString {
    match es
    case OneElement(head) => ElementText(head)
    case MoreElements(head, tail) => ElementText(head) + "," + ElementsText(tail)
  }

  // JSON-text of section 2: white space, a value, white space.
  datatype Document = Document(before: ByteString, root: Value, after: ByteString)

  predicate DocumentOk(d: Document) {
    WhitespaceOk(d.before) && ValueOk(d.root) && WhitespaceOk(d.after)
  }

  function DocumentText(d: Document): ByteString {
    d.before + ValueText(d.root) + d.after
  }

  /** The values of all the members whose decoded key is `name`, in order. */
  function Lookup(ms: Members, name: ByteString): seq<Value>
    requires MembersOk(ms)
  {
    assert MemberOk(ms.first);
    (if ItemsValue(ms.first.key) == name then [ms.first.value] else [])
    + (if ms.MoreMembers? then Lookup(ms.rest, name) else [])
  }
}
