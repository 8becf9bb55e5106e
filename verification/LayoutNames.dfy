/** Fresh names and list edits of the layout presets. */
module LayoutNames {
  import opened StoragePaths

  datatype Preset = Preset(id: string, name: string, relativeFile: string)

  const MAXIMUM_NAME_LENGTH: nat := 256

  // Decimal numbers, as std::to_string writes them

  function Digit(d: nat): (c: char)
    requires d < 10
    ensures '0' <= c <= '9'
  {
    ('0' as int + d) as char
  }

  function Decimal(n: nat): (text: string)
    ensures |text| > 0 && forall i :: 0 <= i < |text| ==> '0' <= text[i] <= '9'
  {
    if n < 10 then [Digit(n)] else Decimal(n / 10) + [Digit(n % 10)]
  }

  function Value(text: string): int {
    if text == "" then 0 else Value(text[..|text| - 1]) * 10 + (text[|text| - 1] as int - '0' as int)
  }

  lemma {:induction false} DecimalValue(n: nat)
    ensures Value(Decimal(n)) == n
  {
    if n < 10 {
      assert Decimal(n)[..0] == "";
    } else {
      DecimalValue(n / 10);
      assert Decimal(n)[..|Decimal(n)| - 1] == Decimal(n / 10);
    }
  }

  // The n-th copy of a name.
  function Candidate(requested: string, copy: nat): string {
    requested + " (" + Decimal(copy) + ")"
  }

  lemma CandidatesDiffer(requested: string, x: nat, y: nat)
    requires Candidate(requested, x) == Candidate(requested, y)
    ensures x == y
  {
    var n := |requested|;
    var a, b := Candidate(requested, x), Candidate(requested, y);
    assert a[n + 2..|a| - 1] == Decimal(x);
    assert b[n + 2..|b| - 1] == Decimal(y);
    DecimalValue(x);
    DecimalValue(y);
  }

  lemma CandidateIsLonger(requested: string, copy: nat)
    ensures |Candidate(requested, copy)| == |requested| + 3 + |Decimal(copy)| > |requested|
  {
  }

  function Names(presets: seq<Preset>): (names: set<string>)
    ensures forall i :: 0 <= i < |presets| ==> presets[i].name in names
    ensures forall n :: n in names ==> exists i :: 0 <= i < |presets| && presets[i].name == n
    ensures |names| <= |presets|
  {
    if presets == [] then {}
    else
      NamesOfTail(presets);
      Names(presets[..|presets| - 1]) + {presets[|presets| - 1].name}
  }

  lemma NamesOfTail(presets: seq<Preset>)
    requires presets != []
    ensures forall i :: 0 <= i < |presets| ==> i == |presets| - 1 || presets[i] == presets[..|presets| - 1][i]
  {
  }

  // The first copies of a name.
  function Copies(requested: string, end: nat): (copies: set<string>)
    requires end >= 2
  {
    if end == 2 then {} else Copies(requested, end - 1) + {Candidate(requested, end - 1)}
  }

  lemma {:induction false} CopiesAreDistinct(requested: string, end: nat)
    requires end >= 2
    ensures |Copies(requested, end)| == end - 2
    ensures forall c :: c in Copies(requested, end) ==> exists k :: 2 <= k < end && c == Candidate(requested, k)
  {
    hide Candidate;
    if end > 2 {
      CopiesAreDistinct(requested, end - 1);
      if Candidate(requested, end - 1) in Copies(requested, end - 1) {
        var k :| 2 <= k < end - 1 && Candidate(requested, end - 1) == Candidate(requested, k);
        CandidatesDiffer(requested, end - 1, k);
      }
    }
  }

  /** Pigeonhole: if all copies before `end` are in use, there are at most as many of
      them as there are names. */
  lemma TakenCopiesAreFew(names: set<string>, requested: string, end: nat)
    requires end >= 2 && forall k :: 2 <= k < end ==> Candidate(requested, k) in names
    ensures end - 2 <= |names|
  {
    hide Candidate;
    CopiesAreDistinct(requested, end);
    assert Copies(requested, end) <= names;
    SubsetIsSmaller(Copies(requested, end), names);
  }

  lemma {:induction false} SubsetIsSmaller(a: set<string>, b: set<string>)
    requires a <= b
    ensures |a| <= |b|
  {
    if a != {} {
      var x :| x in a;
      SubsetIsSmaller(a - {x}, b - {x});
    }
  }

  // The first copy from `copy` on that is free, when all before it are taken.
  function FirstFree(names: set<string>, requested: string, copy: nat): (free: nat)
    requires copy >= 2 && forall k :: 2 <= k < copy ==> Candidate(requested, k) in names
    ensures 2 <= copy <= free <= |names| + 2 && Candidate(requested, free) !in names
    ensures forall k :: 2 <= k < free ==> Candidate(requested, k) in names
    decreases |names| + 2 - copy
  {
    TakenCopiesAreFew(names, requested, copy);
    if Candidate(requested, copy) !in names then copy
    else
      TakenCopiesAreFew(names, requested, copy + 1);
      FirstFree(names, requested, copy + 1)
  }

  function UniqueName(presets: seq<Preset>, requested: string): (name: string)
    ensures name !in Names(presets)
  {
    if requested !in Names(presets) then requested else Candidate(requested, FirstFree(Names(presets), requested, 2))
  }

  method NameExists(presets: seq<Preset>, name: string) returns (found: bool)
    ensures found == (name in Names(presets))
  {
    for i := 0 to |presets|
      invariant forall j :: 0 <= j < i ==> presets[j].name != name
    {
      if presets[i].name == name {
        return true;
      }
    }
    return false;
  }

  /** The source's search: it ends after at most one more candidate than there are
      presets, with the requested name or its first free copy. */
  method MakeUniqueName(presets: seq<Preset>, requested: string) returns (name: string)
    ensures name == UniqueName(presets, requested)
  {
    hide Names, Candidate;
    var found := NameExists(presets, requested);
    if !found {
      return requested;
    }
    ghost var names := Names(presets);
    var copy := 2;
    while true
      invariant 2 <= copy && forall k :: 2 <= k < copy ==> Candidate(requested, k) in names
      decreases |presets| + 3 - copy
    {
      TakenCopiesAreFew(names, requested, copy);
      var candidate := Candidate(requested, copy);
      found := NameExists(presets, candidate);
      if !found {
        FirstFreeIs(names, requested, copy);
        return candidate;
      }
      copy := copy + 1;
    }
  }

  lemma FirstFreeIs(names: set<string>, requested: string, copy: nat)
    requires copy >= 2 && Candidate(requested, copy) !in names
    requires forall k :: 2 <= k < copy ==> Candidate(requested, k) in names
    ensures FirstFree(names, requested, 2) == copy
  {
    hide FirstFree, Candidate;
    assert FirstFree(names, requested, 2) >= 2;
  }

  // Edits of the list

  // An absolute id leaves the directory of the presets, as std::filesystem joins paths.
  function RelativeFile(id: string): (text: string)
    ensures text != ""
  {
    if IsAbsolute(id) then id + ".ini" else "presets/" + id + ".ini"
  }

  predicate IsBlank(c: char) {
    c == ' ' || c == '\t' || c == '\r' || c == '\n'
  }

  predicate IsValidName(name: string) {
    0 < |name| <= MAXIMUM_NAME_LENGTH && exists i :: 0 <= i < |name| && !IsBlank(name[i])
  }

  predicate HasId(presets: seq<Preset>, id: string) {
    exists i :: 0 <= i < |presets| && presets[i].id == id
  }

  function IndexOf(presets: seq<Preset>, id: string): (i: nat)
    ensures i <= |presets| && (i < |presets| ==> presets[i].id == id)
    ensures forall j :: 0 <= j < i ==> presets[j].id != id
  {
    if presets == [] || presets[0].id == id then 0 else 1 + IndexOf(presets[1..], id)
  }

  function Without<T>(s: seq<T>, i: nat): (r: seq<T>)
    requires i < |s|
    ensures |r| == |s| - 1
  {
    s[..i] + s[i + 1..]
  }

  function Moved<T>(s: seq<T>, from: nat, to: nat): (r: seq<T>)
    requires from < |s| && to < |s|
    ensures |r| == |s|
  {
    var rest := Without(s, from);
    rest[..to] + [s[from]] + rest[to..]
  }

  /** Moving one element permutes the list, puts that element at its destination and
      keeps all others in their order. */
  lemma MovedKeepsOthers<T>(s: seq<T>, from: nat, to: nat)
    requires from < |s| && to < |s|
    ensures multiset(Moved(s, from, to)) == multiset(s)
    ensures Moved(s, from, to)[to] == s[from]
    ensures Without(Moved(s, from, to), to) == Without(s, from)
  {
    var rest, moved := Without(s, from), Moved(s, from, to);
    assert moved[..to] == rest[..to] && moved[to + 1..] == rest[to..];
    assert rest == rest[..to] + rest[to..];
    OneOut(s, from);
    OneOut(moved, to);
    hide Moved, Without;
  }

  lemma MovedNowhere<T>(s: seq<T>, i: nat)
    requires i < |s|
    ensures Moved(s, i, i) == s
  {
  }

  lemma OneOut<T>(s: seq<T>, i: nat)
    requires i < |s|
    ensures multiset(s) == multiset(Without(s, i)) + multiset{s[i]}
  {
    assert s == s[..i] + [s[i]] + s[i + 1..];
  }

  // Ids

  // An id that names a file in the directory of the presets.
  predicate IsPlain(id: string) {
    '/' !in id
  }

  function HexDigit(d: nat): (c: char)
    requires d < 16
    ensures '0' <= c <= '9' || 'a' <= c <= 'f'
  {
    if d < 10 then Digit(d) else ('a' as int + d - 10) as char
  }

  // A number in hexadecimal, filled up with zeros.
  function Hex(n: nat, width: nat): (text: string)
    ensures forall i :: 0 <= i < |text| ==> '0' <= text[i] <= '9' || 'a' <= text[i] <= 'f'
    ensures |text| >= width
  {
    (if n < 16 && width <= 1 then "" else Hex(n / 16, if width == 0 then 0 else width - 1)) + [HexDigit(n % 16)]
  }

  /** What GeneratePresetId makes of four random words. */
  function GeneratedId(a: nat, b: nat, c: nat, d: nat): string {
    Hex(a, 8) + "-" + Hex(b / 0x10000, 4) + "-" + Hex(b % 0x10000, 4) + "-" + Hex(c / 0x10000, 4) + "-"
    + Hex(c % 0x10000, 4) + Hex(d, 8)
  }

  ghost predicate IsGenerated(id: string) {
    exists a, b, c, d :: id == GeneratedId(a, b, c, d)
  }

  lemma GeneratedIsPlain(id: string)
    requires IsGenerated(id)
    ensures IsPlain(id) && |id| >= 36
  {
    hide Hex;
    var a, b, c, d :| id == GeneratedId(a, b, c, d);
  }

  datatype Edit =
    | Create(name: string, freshId: string) | Import(name: string, freshId: string)
    | Rename(id: string, name: string) | Move(id: string, destination: nat) | Delete(id: string)

  function Appended(presets: seq<Preset>, name: string, id: string): seq<Preset> {
    presets + [Preset(id, UniqueName(presets, name), RelativeFile(id))]
  }

  // What an edit makes of the list when it is accepted; otherwise the list stays.
  function Edited(presets: seq<Preset>, edit: Edit): seq<Preset> {
    match edit
    case Create(name, id) => if IsValidName(name) then Appended(presets, name, id) else presets
    case Import(name, id) => Appended(presets, name, id)
    case Rename(id, name) =>
      var i := IndexOf(presets, id);
      if i == |presets| || !IsValidName(name) || NameTakenByOther(presets, id, name) then presets
      else presets[i := presets[i].(name := name)]
    case Move(id, to) =>
      var i := IndexOf(presets, id);
      if i == |presets| || to >= |presets| then presets else Moved(presets, i, to)
    case Delete(id) =>
      var i := IndexOf(presets, id);
      if i == |presets| then presets else Without(presets, i)
  }

  predicate NameTakenByOther(presets: seq<Preset>, id: string, name: string) {
    exists i :: 0 <= i < |presets| && presets[i].id != id && presets[i].name == name
  }

  predicate DistinctIds(presets: seq<Preset>) {
    forall i, j :: 0 <= i < j < |presets| ==> presets[i].id != presets[j].id
  }

  predicate DistinctNames(presets: seq<Preset>) {
    forall i, j :: 0 <= i < j < |presets| ==> presets[i].name != presets[j].name
  }

  // What every list of presets satisfies, also one that was loaded.
  predicate Sane(presets: seq<Preset>) {
    && DistinctIds(presets)
    && forall i :: 0 <= i < |presets| ==>
         presets[i].id != "" && SameFile(presets[i].relativeFile, RelativeFile(presets[i].id))
  }

  predicate WellFormed(presets: seq<Preset>) {
    Sane(presets) && DistinctNames(presets)
  }

  // Generated ids are not empty and not in use.
  predicate FreshIds(presets: seq<Preset>, edit: Edit) {
    (edit.Create? || edit.Import?) ==> edit.freshId != "" && !HasId(presets, edit.freshId)
  }

  lemma MovedAt<T>(s: seq<T>, from: nat, to: nat, k: nat) returns (j: nat)
    requires from < |s| && to < |s| && k < |s|
    ensures j < |s| && Moved(s, from, to)[k] == s[j]
    ensures j == if k == to then from
                 else if k < to then (if k < from then k else k + 1)
                 else (if k - 1 < from then k - 1 else k)
  {
    j := if k == to then from
         else if k < to then (if k < from then k else k + 1)
         else (if k - 1 < from then k - 1 else k);
  }

  lemma MovedSane(presets: seq<Preset>, from: nat, to: nat)
    requires Sane(presets) && from < |presets| && to < |presets|
    ensures Sane(Moved(presets, from, to))
    ensures DistinctNames(presets) ==> DistinctNames(Moved(presets, from, to))
  {
    var moved := Moved(presets, from, to);
    forall i, j | 0 <= i < j < |moved|
      ensures moved[i].id != moved[j].id && (DistinctNames(presets) ==> moved[i].name != moved[j].name)
    {
      var x := MovedAt(presets, from, to, i);
      var y := MovedAt(presets, from, to, j);
      assert x != y;
      if x < y {
        assert presets[x].id != presets[y].id;
      } else {
        assert presets[y].id != presets[x].id;
      }
    }
    forall i | 0 <= i < |moved|
      ensures moved[i].id != "" && SameFile(moved[i].relativeFile, RelativeFile(moved[i].id))
    {
      var x := MovedAt(presets, from, to, i);
    }
  }

  lemma RenamedSane(presets: seq<Preset>, i: nat, name: string)
    requires Sane(presets) && i < |presets| && !NameTakenByOther(presets, presets[i].id, name)
    ensures Sane(presets[i := presets[i].(name := name)])
    ensures DistinctNames(presets) ==> DistinctNames(presets[i := presets[i].(name := name)])
  {
    hide RelativeFile;
  }

  lemma WithoutSane(presets: seq<Preset>, i: nat)
    requires Sane(presets) && i < |presets|
    ensures Sane(Without(presets, i))
    ensures DistinctNames(presets) ==> DistinctNames(Without(presets, i))
  {
    hide RelativeFile;
  }

  lemma EditKeepsSane(presets: seq<Preset>, edit: Edit)
    requires Sane(presets) && FreshIds(presets, edit)
    ensures Sane(Edited(presets, edit))
    ensures DistinctNames(presets) ==> DistinctNames(Edited(presets, edit))
  {
    hide Names, UniqueName, RelativeFile, IsValidName, Moved, Appended, Sane, DistinctNames, Without, NameTakenByOther;
    match edit
    case Move(id, to) =>
      var i := IndexOf(presets, id);
      if i < |presets| && to < |presets| {
        MovedSane(presets, i, to);
      }
    case Rename(id, name) =>
      var i := IndexOf(presets, id);
      if i < |presets| && !NameTakenByOther(presets, id, name) {
        RenamedSane(presets, i, name);
      }
    case Delete(id) =>
      var i := IndexOf(presets, id);
      if i < |presets| {
        WithoutSane(presets, i);
      }
    case Create(name, id) => AppendedSane(presets, name, id);
    case Import(name, id) => AppendedSane(presets, name, id);
  }

  lemma AppendedSane(presets: seq<Preset>, name: string, id: string)
    requires Sane(presets) && id != "" && !HasId(presets, id)
    ensures Sane(Appended(presets, name, id))
    ensures DistinctNames(presets) ==> DistinctNames(Appended(presets, name, id))
  {
    hide RelativeFile, UniqueName, Names, Components, Elements;
    UniqueIsNew(presets, name);
  }

  lemma UniqueIsNew(presets: seq<Preset>, name: string)
    ensures forall i :: 0 <= i < |presets| ==> presets[i].name != UniqueName(presets, name)
  {
    hide UniqueName, Names;
    assert forall i :: 0 <= i < |presets| ==> presets[i].name in Names(presets);
  }

  predicate FreshInOrder(presets: seq<Preset>, edits: seq<Edit>)
    decreases |edits|
  {
    edits == [] || (FreshIds(presets, edits[0]) && FreshInOrder(Edited(presets, edits[0]), edits[1..]))
  }

  function EditedAll(presets: seq<Preset>, edits: seq<Edit>): seq<Preset>
    decreases |edits|
  {
    if edits == [] then presets else EditedAll(Edited(presets, edits[0]), edits[1..])
  }

  /** From empty storage, ids and names stay pairwise distinct under every sequence of
      creations, imports, renames, moves and deletions. */
  lemma {:induction false} EditsKeepWellFormed(presets: seq<Preset>, edits: seq<Edit>)
    requires WellFormed(presets) && FreshInOrder(presets, edits)
    ensures WellFormed(EditedAll(presets, edits))
    decreases |edits|
  {
    hide Edited, FreshIds, Sane, DistinctNames;
    if edits != [] {
      EditKeepsSane(presets, edits[0]);
      EditsKeepWellFormed(Edited(presets, edits[0]), edits[1..]);
    }
  }

  // Reloading

  /** What LoadMetadata accepts. */
  predicate Reloadable(presets: seq<Preset>) {
    Sane(presets) && NamesValid(presets)
  }

  // The unique name for a request can be loaded again.
  predicate NameFits(presets: seq<Preset>, requested: string) {
    if requested !in Names(presets) then IsValidName(requested)
    else |requested| + 3 + |Decimal(FirstFree(Names(presets), requested, 2))| <= MAXIMUM_NAME_LENGTH
  }

  /** A name that is not in use must be valid itself; a name in use, blank or not, needs
      room for the number of its first free copy. */
  lemma UniqueNameIsValidIff(presets: seq<Preset>, requested: string)
    ensures IsValidName(UniqueName(presets, requested)) <==> NameFits(presets, requested)
  {
    if requested in Names(presets) {
      CandidateIsLonger(requested, FirstFree(Names(presets), requested, 2));
      assert UniqueName(presets, requested)[|requested| + 1] == '(';
    }
    hide Names, FirstFree, Decimal;
  }

  /** An edit of a reloadable list leaves it reloadable exactly when the name that it
      adds, if any, fits. */
  lemma ReloadableIff(presets: seq<Preset>, edit: Edit)
    requires Reloadable(presets) && FreshIds(presets, edit)
    ensures Reloadable(Edited(presets, edit)) <==>
      match edit
      case Create(name, _) => IsValidName(name) ==> NameFits(presets, name)
      case Import(name, _) => NameFits(presets, name)
      case _ => true
  {
    hide Names, UniqueName, RelativeFile, IsValidName, Sane, NameFits, NameTakenByOther, NamesValid, DistinctNames,
         Moved,
         Without, Appended;
    EditKeepsSane(presets, edit);
    match edit
    case Move(id, to) =>
      var i := IndexOf(presets, id);
      if i < |presets| && to < |presets| {
        MovedNamesValid(presets, i, to);
      }
    case Rename(id, name) =>
      var i := IndexOf(presets, id);
      if i < |presets| && IsValidName(name) {
        RenamedNamesValid(presets, i, name);
      }
    case Delete(id) =>
      var i := IndexOf(presets, id);
      if i < |presets| {
        WithoutNamesValid(presets, i);
      }
    case Create(name, id) =>
      UniqueNameIsValidIff(presets, name);
      LastNameDecides(presets, name, id);
    case Import(name, id) =>
      UniqueNameIsValidIff(presets, name);
      LastNameDecides(presets, name, id);
  }

  lemma RenamedNamesValid(presets: seq<Preset>, i: nat, name: string)
    requires NamesValid(presets) && i < |presets| && IsValidName(name)
    ensures NamesValid(presets[i := presets[i].(name := name)])
  {
    hide IsValidName;
  }

  lemma WithoutNamesValid(presets: seq<Preset>, i: nat)
    requires NamesValid(presets) && i < |presets|
    ensures NamesValid(Without(presets, i))
  {
    hide IsValidName;
  }

  predicate NamesValid(presets: seq<Preset>) {
    forall i :: 0 <= i < |presets| ==> IsValidName(presets[i].name)
  }

  lemma MovedNamesValid(presets: seq<Preset>, from: nat, to: nat)
    requires NamesValid(presets) && from < |presets| && to < |presets|
    ensures NamesValid(Moved(presets, from, to))
  {
    hide IsValidName, Moved;
    var moved := Moved(presets, from, to);
    forall k | 0 <= k < |moved|
      ensures IsValidName(moved[k].name)
    {
      var j := MovedAt(presets, from, to, k);
    }
  }

  lemma LastNameDecides(presets: seq<Preset>, name: string, id: string)
    requires NamesValid(presets)
    ensures NamesValid(Appended(presets, name, id)) <==> IsValidName(UniqueName(presets, name))
  {
    hide IsValidName, UniqueName, RelativeFile;
    var appended := Appended(presets, name, id);
    assert appended[|presets|].name == UniqueName(presets, name);
  }

  /** A name of the full length that is already in use makes an unreloadable preset. */
  lemma LongCopyIsUnreloadable(presets: seq<Preset>, name: string, id: string)
    requires Reloadable(presets) && FreshIds(presets, Create(name, id))
    requires IsValidName(name) && |name| == MAXIMUM_NAME_LENGTH && name in Names(presets)
    ensures !Reloadable(Edited(presets, Create(name, id)))
  {
    ReloadableIff(presets, Create(name, id));
    hide Reloadable, Edited, FirstFree, Decimal, Names, IsValidName;
  }

  /** So does importing a file whose name is blank. */
  lemma BlankImportIsUnreloadable(presets: seq<Preset>, id: string)
    requires Reloadable(presets) && FreshIds(presets, Import(" ", id))
    ensures !Reloadable(Edited(presets, Import(" ", id)))
  {
    ReloadableIff(presets, Import(" ", id));
  }
}
