/** File names: how a path text is split at its separators, and the file that it names.
    A file is known by the names on the way to it from the root, once "." and ".." and
    repeated separators are resolved. */
module StoragePaths {
  type Path = seq<string>

  function Components(text: string): (parts: seq<string>)
    ensures |parts| > 0
  {
    if text == "" then [""]
    else if text[0] == '/' then [""] + Components(text[1..])
    else
      var rest := Components(text[1..]);
      [[text[0]] + rest[0]] + rest[1..]
  }

  function Step(directory: Path, part: string): Path {
    if part == "" || part == "." then directory
    else if part == ".." then (if directory == [] then [] else directory[..|directory| - 1])
    else directory + [part]
  }

  function Walk(directory: Path, parts: seq<string>): Path {
    if parts == [] then directory
    else Step(Walk(directory, parts[..|parts| - 1]), parts[|parts| - 1])
  }

  predicate IsAbsolute(text: string) {
    text != "" && text[0] == '/'
  }

  // The file that a text names in a directory; an absolute text leaves the directory.
  function Resolved(directory: Path, text: string): Path {
    Walk(if IsAbsolute(text) then [] else directory, Components(text))
  }

  // Texts that std::filesystem compares as equal: the same names between separators.
  predicate SameFile(a: string, b: string) {
    && IsAbsolute(a) == IsAbsolute(b)
    && Elements(Components(a)) == Elements(Components(b))
    && (Components(a)[|Components(a)| - 1] == "") == (Components(b)[|Components(b)| - 1] == "")
  }

  function Elements(parts: seq<string>): seq<string> {
    if parts == [] then []
    else
      var last := parts[|parts| - 1];
      Elements(parts[..|parts| - 1]) + (if last == "" then [] else [last])
  }

  lemma {:induction false} WalkElements(directory: Path, parts: seq<string>)
    ensures Walk(directory, parts) == Walk(directory, Elements(parts))
  {
    if parts != [] {
      var front, last := parts[..|parts| - 1], parts[|parts| - 1];
      WalkElements(directory, front);
      if last != "" {
        assert Elements(parts)[..|Elements(parts)| - 1] == Elements(front);
      } else {
        assert Elements(parts) == Elements(front);
      }
    }
  }

  /** Such texts name the same file; the converse fails, "./a" and "a" differ as texts. */
  lemma SameFileResolves(directory: Path, a: string, b: string)
    requires SameFile(a, b)
    ensures Resolved(directory, a) == Resolved(directory, b)
  {
    var start := if IsAbsolute(a) then [] else directory;
    WalkElements(start, Components(a));
    WalkElements(start, Components(b));
    hide Components, Elements, Walk;
  }

  // An end without a separator belongs to the last part.
  lemma {:induction false} ComponentsEnd(text: string, end: string)
    requires '/' !in end
    ensures var parts := Components(text);
            Components(text + end) == parts[..|parts| - 1] + [parts[|parts| - 1] + end]
  {
    if text == "" {
      PlainComponents(end);
      assert text + end == end;
    } else {
      assert (text + end)[1..] == text[1..] + end;
      ComponentsEnd(text[1..], end);
      var rest := Components(text[1..]);
      if |rest| == 1 && text[0] != '/' {
        assert [text[0]] + (rest[0] + end) == [text[0]] + rest[0] + end;
      }
    }
  }

  lemma {:induction false} ComponentsJoin(a: string, b: string)
    ensures Components(a + "/" + b) == Components(a) + Components(b)
  {
    if a == "" {
      assert (a + "/" + b)[1..] == b;
    } else {
      assert (a + "/" + b)[1..] == a[1..] + "/" + b;
      ComponentsJoin(a[1..], b);
    }
  }

  lemma {:induction false} PlainComponents(text: string)
    requires '/' !in text
    ensures Components(text) == [text]
  {
    if text != "" {
      PlainComponents(text[1..]);
      assert [text[0]] + text[1..] == text;
    }
  }

  lemma WalkOne(directory: Path, front: seq<string>, last: string)
    ensures Walk(directory, front + [last]) == Step(Walk(directory, front), last)
  {
    assert (front + [last])[..|front|] == front;
  }

  lemma {:induction false} WalkOn(directory: Path, front: seq<string>, back: seq<string>)
    ensures Walk(directory, front + back) == Walk(Walk(directory, front), back)
  {
    if back == [] {
      assert front + back == front;
    } else {
      var n := |back| - 1;
      WalkOn(directory, front, back[..n]);
      assert (front + back)[..|front| + n] == front + back[..n];
    }
  }

  // The path with an end added to its last name.
  function WithSuffix(path: Path, suffix: string): Path {
    if path == [] then [suffix] else path[..|path| - 1] + [path[|path| - 1] + suffix]
  }

  predicate IsOrdinary(name: string) {
    name != "" && name != "." && name != ".."
  }

  /** Adding an end without a separator to the text adds it to the name of the file. */
  lemma ResolvedWithSuffix(directory: Path, text: string, suffix: string)
    requires '/' !in suffix && text != ""
    requires IsOrdinary(Components(text)[|Components(text)| - 1])
    requires IsOrdinary(Components(text)[|Components(text)| - 1] + suffix)
    ensures Resolved(directory, text + suffix) == WithSuffix(Resolved(directory, text), suffix)
  {
    hide Components, Walk;
    var parts, start := Components(text), if IsAbsolute(text) then [] else directory;
    var front, last := parts[..|parts| - 1], parts[|parts| - 1];
    ComponentsEnd(text, suffix);
    WalkOne(start, front, last);
    WalkOne(start, front, last + suffix);
    assert parts == front + [last];
  }

  // Walks that never climb above where they start

  function Depth(parts: seq<string>): int {
    if parts == [] then 0
    else
      var last := parts[|parts| - 1];
      Depth(parts[..|parts| - 1]) + (if last == "" || last == "." then 0 else if last == ".." then -1 else 1)
  }

  predicate StaysInside(parts: seq<string>) {
    forall i :: 0 <= i <= |parts| ==> Depth(parts[..i]) >= 0
  }

  lemma {:induction false} WalkInside(directory: Path, parts: seq<string>)
    requires StaysInside(parts)
    ensures Walk(directory, parts) == directory + Walk([], parts) && |Walk([], parts)| == Depth(parts)
  {
    if parts != [] {
      var n := |parts| - 1;
      forall i | 0 <= i <= n
        ensures Depth(parts[..n][..i]) >= 0
      {
        assert parts[..n][..i] == parts[..i];
      }
      WalkInside(directory, parts[..n]);
      assert Depth(parts[..|parts|]) >= 0 && parts[..|parts|] == parts;
      var inner, last := Walk([], parts[..n]), parts[n];
      assert directory + (inner + [last]) == (directory + inner) + [last];
      if inner != [] {
        assert (directory + inner)[..|directory + inner| - 1] == directory + inner[..|inner| - 1];
      }
    }
  }
}
