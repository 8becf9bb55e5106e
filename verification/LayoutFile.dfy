/** Portable layout files: the data, and what reading and writing one yields,
    as functions.  `LayoutParser` and `LayoutSerializer` hold the code. */
module LayoutFile {
  import opened Prelude
  import opened Utf8
  import opened JsonGrammar
  import opened JsonScanner

  const FORMAT: ByteString := "jsb-editor-layout"
  const VERSION: int := 1
  const MAX_FILE_SIZE: nat := 4 * 1024 * 1024
  const MAX_NAME_LENGTH: nat := 256

  // The four known keys.
  const KEY_FORMAT: ByteString := "format"
  const KEY_VERSION: ByteString := "version"
  const KEY_NAME: ByteString := "name"
  const KEY_LAYOUT_INI: ByteString := "layout_ini"

  datatype ExportData = ExportData(version: int, name: ByteString, imguiIni: ByteString)

  // The four known members; `None` is a member not seen yet.
  datatype Fields = Fields(
    format: Option<ByteString>, version: Option<int>, name: Option<ByteString>, layoutIni: Option<ByteString>)

  const NO_FIELDS := Fields(None, None, None, None)

  // The value of one member of the root object.
  function ReadField(s: ByteString, p: nat, key: ByteString, f: Fields): (r: Result<(Fields, nat)>)
    ensures r.Success? ==> p < r.value.1 <= |s|
  {
    if key == KEY_FORMAT then
      if f.format.None? && ScanString(s, p).At?
      then Success((f.(format := Some(ScanString(s, p).value)), ScanString(s, p).pos))
      else Failure("format must be a string and appear once")
    else if key == KEY_VERSION then
      if f.version.None? && ScanInteger(s, p).At?
      then Success((f.(version := Some(ScanInteger(s, p).value)), ScanInteger(s, p).pos))
      else Failure("version must be an integer and appear once")
    else if key == KEY_NAME then
      if f.name.None? && ScanString(s, p).At?
      then Success((f.(name := Some(ScanString(s, p).value)), ScanString(s, p).pos))
      else Failure("name must be a string and appear once")
    else if key == KEY_LAYOUT_INI then
      if f.layoutIni.None? && ScanString(s, p).At?
      then Success((f.(layoutIni := Some(ScanString(s, p).value)), ScanString(s, p).pos))
      else Failure("layout_ini must be a string and appear once")
    else if ScanValue(s, p).At? then
      Success((f, ScanValue(s, p).pos))
    else
      Failure("Invalid JSON value")
  }

  // A key, a colon and a value of the root object.
  function ReadMember(s: ByteString, p: nat, f: Fields): (r: Result<(Fields, nat)>)
    ensures r.Success? ==> p < r.value.1 <= |s|
  {
    match ScanString(s, p)
    case Fail => Failure("Expected a JSON object key")
    case At(key, q) =>
      var colon := SkipWhitespace(s, q);
      if !CharAt(s, colon, ':') then Failure("Expected ':' after JSON object key")
      else ReadField(s, SkipWhitespace(s, colon + 1), key, f)
  }

  // The members of the root object from a key on, through the closing brace.
  function ReadFields(s: ByteString, p: nat, f: Fields): (r: Result<(Fields, nat)>)
    ensures r.Success? ==> p < r.value.1 <= |s|
    decreases |s| - p
  {
    match ReadMember(s, p, f)
    case Failure(e) => Failure(e)
    case Success((g, v)) =>
      var k := SkipWhitespace(s, v);
      if CharAt(s, k, '}') then Success((g, k + 1))
      else if CharAt(s, k, ',') then ReadFields(s, SkipWhitespace(s, k + 1), g)
      else Failure("Expected ',' or '}' in JSON object")
  }

  function CheckFields(f: Fields): Result<ExportData> {
    if f.format.None? || f.version.None? || f.name.None? || f.layoutIni.None? then
      Failure("Missing required layout file field")
    else if f.format.value != FORMAT then Failure("Invalid layout file format")
    else if f.version.value > VERSION then Failure("Unsupported layout file version")
    else if f.version.value <= 0 then Failure("Invalid layout file version")
    else if |f.name.value| == 0 || |f.name.value| > MAX_NAME_LENGTH then
      Failure("Layout name must contain 1 to 256 bytes")
    else if |f.layoutIni.value| == 0 then Failure("layout_ini must not be empty")
    else Success(ExportData(f.version.value, f.name.value, f.layoutIni.value))
  }

  function ReadRoot(s: ByteString): (r: Result<(Fields, nat)>)
    ensures r.Success? ==> r.value.1 <= |s|
  {
    var p := SkipWhitespace(s, 0);
    if !CharAt(s, p, '{') then Failure("JSON root must be an object")
    else
      var k := SkipWhitespace(s, p + 1);
      if CharAt(s, k, '}') then Success((NO_FIELDS, k + 1)) else ReadFields(s, k, NO_FIELDS)
  }

  function ParseText(s: ByteString): Result<ExportData> {
    match ReadRoot(s)
    case Failure(e) => Failure(e)
    case Success((f, q)) =>
      if SkipWhitespace(s, q) != |s| then Failure("Unexpected content after JSON object")
      else CheckFields(f)
  }

  function Deserialized(s: ByteString): Result<ExportData> {
    if |s| > MAX_FILE_SIZE then Failure("Layout file exceeds the 4 MiB size limit") else ParseText(s)
  }

  /** The derivation tree of a byte in a printed string. */
  function EscapeItem(b: Byte): StringItem {
    match b
    case '"' => Short('"')
    case '\\' => Short('\\')
    case '\U{08}' => Short('b')
    case '\U{0C}' => Short('f')
    case '\n' => Short('n')
    case '\r' => Short('r')
    case '\t' => Short('t')
    case _ =>
      if b as int < 0x20 then Unit(['0', '0', HexDigit(b as int / 16), HexDigit(b as int % 16)])
      else Unescaped(b)
  }

  function HexDigit(n: nat): Byte
    requires n < 16
  {
    "0123456789abcdef"[n]
  }

  function EscapeItems(s: ByteString): (items: seq<StringItem>)
    ensures |items| == |s|
    ensures forall i :: 0 <= i < |s| ==> items[i] == EscapeItem(s[i])
  {
    if s == [] then [] else [EscapeItem(s[0])] + EscapeItems(s[1..])
  }

  // What the printer writes before the name, between it and the layout body, and after.
  const HEAD_FORMAT: ByteString := "{\n  \"format\": "
  const HEAD_VERSION: ByteString := ",\n  \"version\": "
  const HEAD_NAME: ByteString := ",\n  \"name\": "
  const HEAD: ByteString := HEAD_FORMAT + "\"" + FORMAT + "\"" + HEAD_VERSION + "1" + HEAD_NAME
  const MIDDLE: ByteString := ",\n  \"layout_ini\": "
  const FOOT: ByteString := "\n}\n"

  function Serialized(d: ExportData): ByteString {
    HEAD + StringText(EscapeItems(d.name)) + MIDDLE + StringText(EscapeItems(d.imguiIni)) + FOOT
  }
}
