/** The layout preset store: the list in memory, the committed metadata, and one snapshot
    file per preset; what each operation does to them, and when the list in memory is the
    committed one. */
module LayoutStore {
  import opened Prelude
  import opened StoragePaths
  import opened LayoutNames
  import opened FileStore
  import LF = LayoutFile
  import Utf8

  // The files

  function MetadataPath(layouts: Path): Path {
    layouts + ["layouts.json"]
  }

  function SnapshotPath(layouts: Path, id: string): Path {
    Resolved(layouts, RelativeFile(id))
  }

  // The file of a preset, by its own text, is the one that its id stands for.
  lemma PresetFile(layouts: Path, preset: Preset)
    requires SameFile(preset.relativeFile, RelativeFile(preset.id))
    ensures Resolved(layouts, preset.relativeFile) == SnapshotPath(layouts, preset.id)
  {
    SameFileResolves(layouts, preset.relativeFile, RelativeFile(preset.id));
  }

  lemma IniIsStored(directory: Path, text: string)
    ensures IsStored(Resolved(directory, text + ".ini"))
    ensures var path := Resolved(directory, text + ".ini"); path[|path| - 1][|path[|path| - 1]| - 1] == 'i'
  {
    hide Components, Walk;
    var start := if IsAbsolute(text + ".ini") then [] else directory;
    var parts := Components(text);
    var front, last := parts[..|parts| - 1], parts[|parts| - 1] + ".ini";
    ComponentsEnd(text, ".ini");
    WalkOne(start, front, last);
    assert |last| >= 4 && last[|last| - 1] == 'i';
  }

  /** A snapshot is never the metadata. */
  lemma StoredNames(layouts: Path, id: string)
    ensures IsStored(SnapshotPath(layouts, id)) && IsStored(MetadataPath(layouts))
    ensures SnapshotPath(layouts, id) != MetadataPath(layouts)
  {
    hide Components, Walk;
    IniIsStored(layouts, if IsAbsolute(id) then id else "presets/" + id);
    assert MetadataPath(layouts)[|layouts|] == "layouts.json";
  }

  // The snapshots of two ids

  lemma RelativeSnapshot(layouts: Path, id: string)
    requires !IsAbsolute(id)
    ensures SnapshotPath(layouts, id) == Walk(layouts + ["presets"], Components(id + ".ini"))
  {
    hide Components, Walk;
    assert "presets/" + id + ".ini" == "presets" + "/" + (id + ".ini");
    ComponentsJoin("presets", id + ".ini");
    PlainComponents("presets");
    WalkOn(layouts, ["presets"], Components(id + ".ini"));
    WalkOne(layouts, [], "presets");
    WalkNothing(layouts);
    assert [] + ["presets"] == ["presets"];
  }

  lemma WalkNothing(directory: Path)
    ensures Walk(directory, []) == directory
  {
  }

  // The id never climbs above the directory of the presets.
  predicate IsInside(id: string) {
    !IsAbsolute(id) && StaysInside(Components(id + ".ini"))
  }

  /** Two ids that stay inside have different snapshots exactly if their names, with "."
      and ".." resolved, differ. */
  lemma SnapshotsDifferIff(layouts: Path, a: string, b: string)
    requires IsInside(a) && IsInside(b)
    ensures SnapshotPath(layouts, a) != SnapshotPath(layouts, b)
        <==> Walk([], Components(a + ".ini")) != Walk([], Components(b + ".ini"))
  {
    hide Components, Walk, SnapshotPath, StaysInside;
    RelativeSnapshot(layouts, a);
    RelativeSnapshot(layouts, b);
    var x, y := Walk([], Components(a + ".ini")), Walk([], Components(b + ".ini"));
    WalkInside(layouts + ["presets"], Components(a + ".ini"));
    WalkInside(layouts + ["presets"], Components(b + ".ini"));
    assert (layouts + ["presets"] + x)[|layouts| + 1..] == x && (layouts + ["presets"] + y)[|layouts| + 1..] == y;
  }

  lemma PlainSnapshot(layouts: Path, id: string)
    requires IsPlain(id)
    ensures SnapshotPath(layouts, id) == layouts + ["presets"] + [id + ".ini"]
  {
    hide Components, Walk, SnapshotPath;
    RelativeSnapshot(layouts, id);
    PlainComponents(id + ".ini");
    WalkOne(layouts + ["presets"], [], id + ".ini");
    WalkNothing(layouts + ["presets"]);
    assert [] + [id + ".ini"] == [id + ".ini"];
    assert |id + ".ini"| >= 4;
  }

  /** So do all different ids without a separator, which generated ids are. */
  lemma PlainSnapshotsDiffer(layouts: Path, a: string, b: string)
    requires IsPlain(a) && IsPlain(b)
    ensures SnapshotPath(layouts, a) == SnapshotPath(layouts, b) <==> a == b
  {
    hide SnapshotPath;
    PlainSnapshot(layouts, a);
    PlainSnapshot(layouts, b);
    var presets := layouts + ["presets"];
    assert (presets + [a + ".ini"])[|presets|] == a + ".ini" && (presets + [b + ".ini"])[|presets|] == b + ".ini";
    assert (a + ".ini")[..|a + ".ini"| - 4] == a && (b + ".ini")[..|b + ".ini"| - 4] == b;
  }

  /** But two ids that LoadMetadata accepts side by side may name one file. */
  lemma AliasedSnapshots(layouts: Path)
    ensures SnapshotPath(layouts, "./a") == SnapshotPath(layouts, "a")
  {
    hide SnapshotPath, Components, Walk;
    RelativeSnapshot(layouts, "./a");
    RelativeSnapshot(layouts, "a");
    ComponentsJoin(".", "a.ini");
    PlainComponents(".");
    PlainComponents("a.ini");
    WalkOn(layouts + ["presets"], ["."], ["a.ini"]);
    WalkOne(layouts + ["presets"], [], ".");
    WalkNothing(layouts + ["presets"]);
    assert [] + ["."] == ["."];
    assert "./a" + ".ini" == "." + "/" + "a.ini" && "a" + ".ini" == "a.ini";
  }

  predicate IsValidIni(ini: string) {
    0 < |ini| <= LF.MAX_FILE_SIZE
  }

  // The manager

  // The list that a file holds; only its last line break may be missing.
  function Listed(content: Content): Option<seq<Preset>> {
    match content
    case Metadata(presets) => Some(presets)
    case Short(of, missing) => if missing == 1 && of.Metadata? then Some(of.presets) else None
    case _ => None
  }

  /** How the list in memory relates to the metadata: the same; the metadata was cut off when
      the list was committed; or the metadata was there and the last start did not load it. */
  datatype How = InStep | Cut | Unloaded

  /** That relation, and the suffix of the backup that holds the metadata since a rollback
      failed. */
  datatype Standing = Standing(how: How, stranded: Option<string>)

  const COMMITTED := Standing(InStep, None)

  datatype Manager = Manager(
    layouts: Path, presets: seq<Preset>, active: Option<string>, standing: Standing, disk: Disk)

  // The end of an operation, with the files after every primitive effect of it.
  datatype Done = Done(manager: Manager, outcome: Outcome, trail: seq<Files>)

  function Stored(files: Files, layouts: Path): Option<seq<Preset>> {
    if MetadataPath(layouts) in files then Listed(files[MetadataPath(layouts)]) else None
  }

  // The metadata is the list in memory; no metadata stands for the empty list.
  predicate Agrees(files: Files, layouts: Path, presets: seq<Preset>) {
    if MetadataPath(layouts) in files then Stored(files, layouts) == Some(presets) else presets == []
  }

  predicate StandsFor(content: Content, presets: seq<Preset>, how: How) {
    match how
    case InStep => Listed(content) == Some(presets)
    case Cut => Listed(content) == None
    case Unloaded => presets == []
  }

  predicate Stands(files: Files, layouts: Path, presets: seq<Preset>, standing: Standing) {
    var path := MetadataPath(layouts);
    match standing.stranded
    case None =>
      if path in files then StandsFor(files[path], presets, standing.how) else standing.how.InStep? && presets == []
    case Some(suffix) =>
      && IsSuffix(suffix) && path !in files
      && Backup(path, suffix) in files && StandsFor(files[Backup(path, suffix)], presets, standing.how)
  }

  // What holds between operations, of every manager that can come about.
  predicate Sound(m: Manager) {
    Sane(m.presets) && Stands(m.disk.files, m.layouts, m.presets, m.standing)
  }

  /** When the list in memory is the metadata: in step, unless it stands in the backup; and,
      by coincidence, if both are empty. */
  lemma AgreesIff(m: Manager)
    requires Sound(m)
    ensures Agrees(m.disk.files, m.layouts, m.presets)
        <==> (match m.standing.stranded
              case Some(_) => m.presets == []
              case None =>
                || m.standing.how.InStep?
                || (m.standing.how.Unloaded? && Stored(m.disk.files, m.layouts) == Some([])))
  {
    hide Sane, MetadataPath, Backup;
  }

  // What each operation does

  // A cut-off list can still be read if only its last line break is missing.
  predicate ListKept(d: Disk) {
    Flushed(d) || d.lacks(d.asked + 3) == 0
  }

  function StandingAfter(s: Standing, d: Disk, path: Path, suffix: string): Standing {
    if Succeeds(d, path) then Standing(if ListKept(d) then InStep else Cut, None)
    else if RollbackFails(d, path) then s.(stranded := Some(suffix))
    else s
  }

  function Commits(m: Manager, updated: seq<Preset>, ticks: nat): Done {
    var path := MetadataPath(m.layouts);
    var r := Replaced(m.disk, path, Metadata(updated), ticks);
    Done(m.(presets := if r.outcome.Committed? then updated else m.presets,
            standing := StandingAfter(m.standing, m.disk, path, NextSuffix(m.disk, ticks)),
            disk := r.disk), r.outcome, r.trail)
  }

  function Removes(done: Done, id: string): Done {
    var d := done.manager.disk;
    var files := if d.succeeds(d.asked) then d.files - {SnapshotPath(done.manager.layouts, id)} else d.files;
    done.(manager := done.manager.(disk := d.(files := files, asked := d.asked + 1)), trail := done.trail + [files])
  }

  function Writes(m: Manager, id: string, ini: string, ticks: nat): Done {
    var r := Replaced(m.disk, SnapshotPath(m.layouts, id), Snapshot(ini), ticks);
    Done(m.(disk := r.disk), r.outcome, r.trail)
  }

  function AfterMove(m: Manager, id: string, destination: nat, ticks: nat): Done {
    var source := IndexOf(m.presets, id);
    if source == |m.presets| || destination >= |m.presets| then Done(m, Refused, [])
    else if source == destination then Done(m, Committed, [])
    else Commits(m, Moved(m.presets, source, destination), ticks)
  }

  function AfterRename(m: Manager, id: string, name: string, ticks: nat): Done {
    var i := IndexOf(m.presets, id);
    if i == |m.presets| || !IsValidName(name) || NameTakenByOther(m.presets, id, name) then Done(m, Refused, [])
    else Commits(m, m.presets[i := m.presets[i].(name := name)], ticks)
  }

  // A deleted preset is no longer active, and its snapshot goes.
  function Forgets(done: Done, id: string): Done {
    var m := done.manager;
    Removes(done.(manager := m.(active := if m.active == Some(id) then None else m.active)), id)
  }

  function AfterDelete(m: Manager, id: string, ticks: nat): Done {
    var i := IndexOf(m.presets, id);
    if i == |m.presets| then Done(m, Refused, [])
    else
      var c := Commits(m, Without(m.presets, i), ticks);
      if c.outcome.Committed? then Forgets(c, id) else c
  }

  function AfterUpdate(m: Manager, id: string, captured: string, ticks: nat): Done {
    if IndexOf(m.presets, id) == |m.presets| || !IsValidIni(captured) then Done(m, Refused, [])
    else Writes(m, id, captured, ticks)
  }

  // The metadata after the snapshot; a refused commit takes the snapshot away again.
  function CommitsAfter(first: Done, updated: seq<Preset>, id: string, ticks: nat): Done {
    var second := Commits(first.manager, updated, ticks);
    var both := second.(trail := first.trail + second.trail);
    if both.outcome.Refused? then Removes(both, id) else both
  }

  function AfterNew(m: Manager, name: string, id: string, ini: string, ticks: nat, moreTicks: nat): Done {
    var next := m.(disk := m.disk.(asked := m.disk.asked + 1));
    if !m.disk.succeeds(m.disk.asked) || SnapshotPath(m.layouts, id) in m.disk.files then Done(next, Refused, [])
    else
      var first := Writes(next, id, ini, ticks);
      if first.outcome.Committed? then CommitsAfter(first, Appended(m.presets, name, id), id, moreTicks) else first
  }

  function AfterCreate(m: Manager, name: string, ini: string, freshId: string, ticks: nat, moreTicks: nat): Done {
    if !IsValidName(name) || !IsValidIni(ini) then Done(m, Refused, [])
    else AfterNew(m, name, freshId, ini, ticks, moreTicks)
  }

  // An import takes the name and the layout that the file's text holds.
  function AfterImport(m: Manager, text: Utf8.ByteString, freshId: string, ticks: nat, moreTicks: nat): Done {
    match LF.Deserialized(text)
    case Failure(_) => Done(m, Refused, [])
    case Success(data) => AfterNew(m, data.name, freshId, data.imguiIni, ticks, moreTicks)
  }

  // What LoadMetadata makes of the files.
  function Loaded(files: Files, layouts: Path): Option<seq<Preset>> {
    if MetadataPath(layouts) !in files then Some([])
    else if Stored(files, layouts).Some? && Reloadable(Stored(files, layouts).value) then Stored(files, layouts)
    else None
  }

  // The answers to the calls of a start, and what is stored, let it succeed.
  predicate StartAccepts(d: Disk, layouts: Path) {
    && d.succeeds(d.asked) && d.succeeds(d.asked + 1) && Loaded(d.files, layouts).Some?
    && (MetadataPath(layouts) in d.files ==> d.succeeds(d.asked + 2))
  }

  function AfterInitialize(m: Manager): (Manager, bool) {
    var d, path := m.disk, MetadataPath(m.layouts);
    if !d.succeeds(d.asked) then (m.(disk := d.(asked := d.asked + 1)), false)
    else
      var looked := m.(disk := d.(asked := d.asked + 2));
      if !d.succeeds(d.asked + 1) then (looked, false)
      else if path !in d.files then (looked.(presets := [], active := None, standing := COMMITTED), true)
      else
        var read, loaded := m.(disk := d.(asked := d.asked + 3)), Loaded(d.files, m.layouts);
        if !d.succeeds(d.asked + 2) || loaded.None? then (read, false)
        else (read.(presets := loaded.value, active := None, standing := COMMITTED), true)
  }

  // A new manager, before it is initialized.
  function Assembled(layouts: Path, disk: Disk): Manager {
    Manager(layouts, [], None, Standing(if MetadataPath(layouts) in disk.files then Unloaded else InStep, None), disk)
  }

  // A new process: its manager goes on even if the start is refused.
  function Restarted(layouts: Path, disk: Disk): Done {
    var (m, ok) := AfterInitialize(Assembled(layouts, disk));
    Done(m, if ok then Committed else Refused, [])
  }

  /** What is done with a manager.  A process may stop within an operation, after `at`
      effects on the files, and then starts again. */
  datatype Operation =
    | MoveTo(id: string, destination: nat, ticks: nat)
    | RenameTo(id: string, name: string, ticks: nat)
    | DeleteOf(id: string, ticks: nat)
    | UpdateOf(id: string, captured: string, ticks: nat)
    | CreateFrom(name: string, ini: string, freshId: string, ticks: nat, moreTicks: nat)
    | ImportFrom(text: Utf8.ByteString, freshId: string, ticks: nat, moreTicks: nat)
    | Restart
    | StopWithin(during: Operation, at: nat)

  function FilesAfter(before: Files, trail: seq<Files>, at: nat): Files {
    if trail == [] || at == 0 then before else if at < |trail| then trail[at - 1] else trail[|trail| - 1]
  }

  function StoppedDisk(m: Manager, first: Done, at: nat): Disk {
    first.manager.disk.(files := FilesAfter(m.disk.files, first.trail, at))
  }

  function Perform(m: Manager, op: Operation): Done {
    match op
    case MoveTo(id, destination, ticks) => AfterMove(m, id, destination, ticks)
    case RenameTo(id, name, ticks) => AfterRename(m, id, name, ticks)
    case DeleteOf(id, ticks) => AfterDelete(m, id, ticks)
    case UpdateOf(id, captured, ticks) => AfterUpdate(m, id, captured, ticks)
    case CreateFrom(name, ini, freshId, ticks, moreTicks) => AfterCreate(m, name, ini, freshId, ticks, moreTicks)
    case ImportFrom(text, freshId, ticks, moreTicks) => AfterImport(m, text, freshId, ticks, moreTicks)
    case Restart => Restarted(m.layouts, m.disk)
    case StopWithin(during, at) =>
      var first := Perform(m, during);
      var n := if at < |first.trail| then at else |first.trail|;
      Restarted(m.layouts, StoppedDisk(m, first, at)).(trail := first.trail[..n])
  }

  // The edit that an operation makes of the list, if any.
  function EditOf(op: Operation): Option<Edit> {
    match op
    case MoveTo(id, destination, _) => Some(Move(id, destination))
    case RenameTo(id, name, _) => Some(Rename(id, name))
    case DeleteOf(id, _) => Some(Delete(id))
    case CreateFrom(name, _, freshId, _, _) => Some(Create(name, freshId))
    case ImportFrom(text, freshId, _, _) =>
      (match LF.Deserialized(text)
       case Failure(_) => None
       case Success(data) => Some(Import(data.name, freshId)))
    case _ => None
  }

  function EditedBy(presets: seq<Preset>, op: Operation): seq<Preset> {
    if EditOf(op).Some? then Edited(presets, EditOf(op).value) else presets
  }

  // A generated id is not empty and not in use.
  predicate HasFreshId(presets: seq<Preset>, op: Operation) {
    match op
    case StopWithin(during, _) => HasFreshId(presets, during)
    case _ => EditOf(op).Some? ==> FreshIds(presets, EditOf(op).value)
  }

  // The preset whose snapshot the operation writes or removes.
  function OwnId(op: Operation): Option<string> {
    match op
    case DeleteOf(id, _) => Some(id)
    case UpdateOf(id, _, _) => Some(id)
    case CreateFrom(_, _, id, _, _) => Some(id)
    case ImportFrom(_, id, _, _) => Some(id)
    case StopWithin(during, _) => OwnId(during)
    case _ => None
  }

  // The commit of the metadata within an operation: on which manager, and of which list.
  datatype MetadataCommit = NoCommit | CommitOf(manager: Manager, updated: seq<Preset>, ticks: nat)

  function NewCommit(m: Manager, name: string, id: string, ini: string, ticks: nat, moreTicks: nat): MetadataCommit {
    var next := m.(disk := m.disk.(asked := m.disk.asked + 1));
    if !m.disk.succeeds(m.disk.asked) || SnapshotPath(m.layouts, id) in m.disk.files then NoCommit
    else if !Succeeds(next.disk, SnapshotPath(m.layouts, id)) then NoCommit
    else CommitOf(Writes(next, id, ini, ticks).manager, Appended(m.presets, name, id), moreTicks)
  }

  function CommitIn(m: Manager, op: Operation): MetadataCommit {
    match op
    case MoveTo(id, destination, ticks) =>
      var i := IndexOf(m.presets, id);
      if i == |m.presets| || destination >= |m.presets| || i == destination then NoCommit
      else CommitOf(m, EditedBy(m.presets, op), ticks)
    case RenameTo(id, name, ticks) =>
      if IndexOf(m.presets, id) == |m.presets| || !IsValidName(name) || NameTakenByOther(m.presets, id, name)
      then NoCommit
      else CommitOf(m, EditedBy(m.presets, op), ticks)
    case DeleteOf(id, ticks) =>
      if IndexOf(m.presets, id) == |m.presets| then NoCommit else CommitOf(m, EditedBy(m.presets, op), ticks)
    case CreateFrom(name, ini, freshId, ticks, moreTicks) =>
      if IsValidName(name) && IsValidIni(ini) then NewCommit(m, name, freshId, ini, ticks, moreTicks) else NoCommit
    case ImportFrom(text, freshId, ticks, moreTicks) =>
      (match LF.Deserialized(text)
       case Failure(_) => NoCommit
       case Success(data) => NewCommit(m, data.name, freshId, data.imguiIni, ticks, moreTicks))
    case _ => NoCommit
  }

  // The files on which an operation starts the process again.
  function StartIn(m: Manager, op: Operation): Option<Disk> {
    match op
    case Restart => Some(m.disk)
    case StopWithin(during, at) => Some(StoppedDisk(m, Perform(m, during), at))
    case _ => None
  }

  // The managers stay sound

  lemma LandedList(d: Disk, updated: seq<Preset>)
    ensures Listed(Landed(d, Metadata(updated))) == if ListKept(d) then Some(updated) else None
  {
  }

  lemma CommitStands(m: Manager, updated: seq<Preset>, ticks: nat)
    requires Stands(m.disk.files, m.layouts, m.presets, m.standing)
    ensures var n := Commits(m, updated, ticks).manager; Stands(n.disk.files, n.layouts, n.presets, n.standing)
  {
    hide Replaced, Suffix, Backup, Temporary, MetadataPath, Held, Confined, Landed, ListKept, Succeeds, RollbackFails,
         Listed;
    var path, suffix := MetadataPath(m.layouts), NextSuffix(m.disk, ticks);
    ReplacementMeans(m.disk, path, Metadata(updated), ticks);
    OutcomeIff(m.disk, path, Metadata(updated), ticks);
    LandedList(m.disk, updated);
    StoredNames(m.layouts, "");
    if m.standing.stranded.Some? {
      AbsentTarget(m.disk, path, Metadata(updated), ticks);
      BackupIsNotTemporary(path, m.standing.stranded.value, path, suffix);
      BackupIsOther(path, m.standing.stranded.value);
      assert SameAt(m.disk.files, Commits(m, updated, ticks).manager.disk.files,
                    Backup(path, m.standing.stranded.value));
    }
  }

  lemma OthersStand(before: Files, now: Files, layouts: Path, presets: seq<Preset>, standing: Standing)
    requires Stands(before, layouts, presets, standing)
    requires SameAt(before, now, MetadataPath(layouts))
    requires standing.stranded.Some? ==>
               SameAt(before, now, Backup(MetadataPath(layouts), standing.stranded.value))
    ensures Stands(now, layouts, presets, standing)
  {
    hide MetadataPath, Backup, StandsFor;
  }

  // What a snapshot is written with is neither the metadata nor its backup.
  lemma SnapshotScratch(layouts: Path, id: string, suffix: string, stranded: Option<string>)
    requires IsSuffix(suffix) && (stranded.Some? ==> IsSuffix(stranded.value))
    ensures var path := SnapshotPath(layouts, id);
            var own := {path, Temporary(path, suffix), Backup(path, suffix)};
            && MetadataPath(layouts) !in own
            && (stranded.Some? ==> Backup(MetadataPath(layouts), stranded.value) !in own)
  {
    hide SnapshotPath, MetadataPath, Temporary, Backup, IsSuffix;
    var path, metadata := SnapshotPath(layouts, id), MetadataPath(layouts);
    StoredNames(layouts, id);
    ScratchNames(path, suffix, metadata);
    if stranded.Some? {
      ScratchNames(metadata, stranded.value, path);
      BackupIsNotTemporary(metadata, stranded.value, path, suffix);
      if Backup(metadata, stranded.value) == Backup(path, suffix) {
        BackupDetermines(metadata, stranded.value, path, suffix);
      }
    }
  }

  lemma WriteStands(m: Manager, id: string, ini: string, ticks: nat)
    requires Stands(m.disk.files, m.layouts, m.presets, m.standing)
    ensures var n := Writes(m, id, ini, ticks).manager; Stands(n.disk.files, n.layouts, n.presets, n.standing)
    ensures SameAt(m.disk.files, Writes(m, id, ini, ticks).manager.disk.files, MetadataPath(m.layouts))
  {
    hide Replaced, NextSuffix, Backup, Temporary, MetadataPath, SnapshotPath, Held, IsSuffix, StandsFor, Agrees, Landed;
    var r := Replaced(m.disk, SnapshotPath(m.layouts, id), Snapshot(ini), ticks);
    assert IsSuffix(NextSuffix(m.disk, ticks)) by { SuffixIsOne(m.disk, ticks); }
    ReplacementMeans(m.disk, SnapshotPath(m.layouts, id), Snapshot(ini), ticks);
    SnapshotScratch(m.layouts, id, NextSuffix(m.disk, ticks), m.standing.stranded);
    if r.trail != [] {
      assert Confined(m.disk.files, r.disk.files, SnapshotPath(m.layouts, id), NextSuffix(m.disk, ticks));
      OthersStand(m.disk.files, r.disk.files, m.layouts, m.presets, m.standing);
    }
  }

  lemma SuffixIsOne(d: Disk, ticks: nat)
    ensures IsSuffix(NextSuffix(d, ticks))
  {
    hide IsSuffix;
  }

  lemma RemovalStands(done: Done, id: string)
    requires var m := done.manager; Stands(m.disk.files, m.layouts, m.presets, m.standing)
    ensures var n := Removes(done, id).manager; Stands(n.disk.files, n.layouts, n.presets, n.standing)
    ensures SameAt(done.manager.disk.files, Removes(done, id).manager.disk.files, MetadataPath(done.manager.layouts))
  {
    hide NextSuffix, Backup, Temporary, MetadataPath, SnapshotPath, Held, IsSuffix, StandsFor, Agrees;
    var m, n := done.manager, Removes(done, id).manager;
    SnapshotScratch(m.layouts, id, Suffix(0, 0), m.standing.stranded);
    OthersStand(m.disk.files, n.disk.files, m.layouts, m.presets, m.standing);
  }

  lemma CommitIsSound(m: Manager, updated: seq<Preset>, ticks: nat)
    requires Sound(m) && Sane(updated)
    ensures Sound(Commits(m, updated, ticks).manager)
  {
    hide Stands, Sane, Replaced;
    CommitStands(m, updated, ticks);
  }

  lemma WriteIsSound(m: Manager, id: string, ini: string, ticks: nat)
    requires Sound(m)
    ensures Sound(Writes(m, id, ini, ticks).manager)
  {
    hide Stands, Sane, Replaced;
    WriteStands(m, id, ini, ticks);
  }

  lemma NewIsSound(m: Manager, name: string, id: string, ini: string, ticks: nat, moreTicks: nat)
    requires Sound(m) && id != "" && !HasId(m.presets, id)
    ensures Sound(AfterNew(m, name, id, ini, ticks, moreTicks).manager)
  {
    hide Stands, Sane, Replaced, Appended, HasId, SnapshotPath, MetadataPath, StandingAfter;
    AppendedSane(m.presets, name, id);
    var next := m.(disk := m.disk.(asked := m.disk.asked + 1));
    var first := Writes(next, id, ini, ticks);
    WriteStands(next, id, ini, ticks);
    var second := Commits(first.manager, Appended(m.presets, name, id), moreTicks);
    CommitStands(first.manager, Appended(m.presets, name, id), moreTicks);
    RemovalStands(second.(trail := first.trail + second.trail), id);
  }

  lemma DeleteIsSound(m: Manager, id: string, ticks: nat)
    requires Sound(m)
    ensures Sound(AfterDelete(m, id, ticks).manager)
  {
    hide Stands, Sane, Commits, Without, SnapshotPath;
    EditKeepsSane(m.presets, Delete(id));
    var i := IndexOf(m.presets, id);
    if i < |m.presets| {
      CommitIsSound(m, Without(m.presets, i), ticks);
      var c := Commits(m, Without(m.presets, i), ticks);
      RemovalStands(c.(manager := c.manager.(active := if m.active == Some(id) then None else m.active)), id);
      CommitKeepsPlace(m, Without(m.presets, i), ticks);
    }
  }

  lemma CommitKeepsPlace(m: Manager, updated: seq<Preset>, ticks: nat)
    ensures Commits(m, updated, ticks).manager.layouts == m.layouts
    ensures Commits(m, updated, ticks).manager.active == m.active
  {
  }

  /** A start, accepted or refused, on whatever files: it is accepted exactly if its calls
      succeed and what is stored can be loaded, which then is the list in memory; a
      refused start leaves an empty list, in step only if nothing is stored. */
  lemma StartMeans(layouts: Path, disk: Disk)
    ensures var c := Restarted(layouts, disk);
            && Sound(c.manager) && c.manager.disk.files == disk.files && c.manager.layouts == layouts && c.trail == []
            && (c.outcome.Committed? <==> StartAccepts(disk, layouts))
            && (c.outcome.Committed? ==> Some(c.manager.presets) == Loaded(disk.files, layouts))
            && (!c.outcome.Committed? ==> c.manager.presets == [])
            && c.manager.standing.stranded == None
            && c.manager.standing.how
               == if c.outcome.Committed? || MetadataPath(layouts) !in disk.files then InStep else Unloaded
  {
    hide MetadataPath;
  }

  /** Unless the file system fails, the stored list is accepted exactly when it is
      reloadable, and then is the list in memory; a refusal leaves the manager as it was. */
  lemma InitializeMeans(m: Manager)
    ensures var (n, ok) := AfterInitialize(m);
            && n.disk.files == m.disk.files
            && (ok <==> StartAccepts(m.disk, m.layouts))
            && (ok ==>
                  && Some(n.presets) == Loaded(m.disk.files, m.layouts)
                  && n.standing == COMMITTED && n.active == None && Sound(n))
            && (!ok ==> n == m.(disk := n.disk))
  {
    hide MetadataPath;
  }

  /** Every operation keeps the manager sound, whether its start was accepted or refused:
      ids stay distinct, and the metadata stands to the list in memory as `standing` says. */
  lemma PerformKeepsSound(m: Manager, op: Operation)
    requires Sound(m) && HasFreshId(m.presets, op)
    ensures Sound(Perform(m, op).manager)
  {
    hide Stands, Sane, Commits, Writes, AfterNew, AfterDelete, LF.Deserialized, IsValidName, IsValidIni, HasId,
         Restarted,
         FilesAfter;
    if EditOf(op).Some? {
      EditKeepsSane(m.presets, EditOf(op).value);
    }
    match op
    case MoveTo(id, destination, ticks) =>
      var i := IndexOf(m.presets, id);
      if i < |m.presets| && destination < |m.presets| {
        CommitIsSound(m, Moved(m.presets, i, destination), ticks);
      }
    case RenameTo(id, name, ticks) =>
      var i := IndexOf(m.presets, id);
      if i < |m.presets| && IsValidName(name) && !NameTakenByOther(m.presets, id, name) {
        CommitIsSound(m, m.presets[i := m.presets[i].(name := name)], ticks);
      }
    case DeleteOf(id, ticks) => DeleteIsSound(m, id, ticks);
    case UpdateOf(id, captured, ticks) => WriteIsSound(m, id, captured, ticks);
    case CreateFrom(name, ini, freshId, ticks, moreTicks) =>
      if IsValidName(name) && IsValidIni(ini) {
        NewIsSound(m, name, freshId, ini, ticks, moreTicks);
      }
    case ImportFrom(text, freshId, ticks, moreTicks) =>
      match LF.Deserialized(text) {
        case Failure(_) =>
        case Success(data) => NewIsSound(m, data.name, freshId, data.imguiIni, ticks, moreTicks);
      }
    case Restart => StartMeans(m.layouts, m.disk);
    case StopWithin(during, at) => StartMeans(m.layouts, StoppedDisk(m, Perform(m, during), at));
  }

  /** The list becomes the edited one exactly if an operation succeeds; a start makes it the
      stored one, or empty. */
  lemma PerformEdits(m: Manager, op: Operation)
    ensures var c := Perform(m, op);
            && (StartIn(m, op).None? ==>
                  c.manager.presets == if c.outcome.Committed? then EditedBy(m.presets, op) else m.presets)
            && (StartIn(m, op).Some? ==>
                  c.manager.presets
                  == if c.outcome.Committed? then Loaded(StartIn(m, op).value.files, m.layouts).value else [])
  {
    hide Replaced, AfterNew, LF.Deserialized, IsValidName, IsValidIni, HasId, Appended, Moved, Restarted, Loaded;
    hide MetadataPath, SnapshotPath, Without, StandingAfter, StartAccepts, Sound;
    match op
    case MoveTo(id, destination, ticks) =>
      var i := IndexOf(m.presets, id);
      if i == destination && i < |m.presets| {
        MovedNowhere(m.presets, i);
      }
    case CreateFrom(name, ini, freshId, ticks, moreTicks) =>
      NewEdits(m, name, freshId, ini, ticks, moreTicks);
    case ImportFrom(text, freshId, ticks, moreTicks) =>
      match LF.Deserialized(text) {
        case Failure(_) =>
        case Success(data) => NewEdits(m, data.name, freshId, data.imguiIni, ticks, moreTicks);
      }
    case Restart => StartMeans(m.layouts, m.disk);
    case StopWithin(during, at) => StartMeans(m.layouts, StoppedDisk(m, Perform(m, during), at));
    case _ =>
  }

  lemma NewEdits(m: Manager, name: string, id: string, ini: string, ticks: nat, moreTicks: nat)
    ensures var c := AfterNew(m, name, id, ini, ticks, moreTicks);
            c.manager.presets == if c.outcome.Committed? then Appended(m.presets, name, id) else m.presets
  {
    hide Replaced, Appended, SnapshotPath, MetadataPath, StandingAfter;
  }

  // When the list in memory is the committed one

  predicate CommitAgrees(m: Manager) {
    var path := MetadataPath(m.layouts);
    if Succeeds(m.disk, path) then ListKept(m.disk)
    else if RollbackFails(m.disk, path) then m.presets == []
    else Agrees(m.disk.files, m.layouts, m.presets)
  }

  predicate StartAgrees(d: Disk, layouts: Path) {
    StartAccepts(d, layouts) || MetadataPath(layouts) !in d.files || Stored(d.files, layouts) == Some([])
  }

  lemma CommitAgreesIff(m: Manager, updated: seq<Preset>, ticks: nat)
    ensures var n := Commits(m, updated, ticks).manager;
            Agrees(n.disk.files, n.layouts, n.presets) <==> CommitAgrees(m)
  {
    hide Replaced, NextSuffix, Backup, Temporary, MetadataPath, Confined, Landed, ListKept, Succeeds, RollbackFails,
         Listed;
    ReplacementMeans(m.disk, MetadataPath(m.layouts), Metadata(updated), ticks);
    OutcomeIff(m.disk, MetadataPath(m.layouts), Metadata(updated), ticks);
    LandedList(m.disk, updated);
  }

  lemma AgreesOn(before: Files, now: Files, layouts: Path, presets: seq<Preset>)
    requires SameAt(before, now, MetadataPath(layouts))
    ensures Agrees(before, layouts, presets) == Agrees(now, layouts, presets)
  {
    hide MetadataPath;
  }

  lemma WriteKeepsMetadata(m: Manager, id: string, ini: string, ticks: nat)
    ensures SameAt(m.disk.files, Writes(m, id, ini, ticks).manager.disk.files, MetadataPath(m.layouts))
    ensures forall now :: now in Writes(m, id, ini, ticks).trail ==> SameAt(m.disk.files, now, MetadataPath(m.layouts))
    ensures Writes(m, id, ini, ticks).outcome.Committed? <==> Succeeds(m.disk, SnapshotPath(m.layouts, id))
  {
    hide Replaced, NextSuffix, Backup, Temporary, MetadataPath, SnapshotPath, Held, IsSuffix, Landed, Succeeds;
    var r := Replaced(m.disk, SnapshotPath(m.layouts, id), Snapshot(ini), ticks);
    SuffixIsOne(m.disk, ticks);
    ReplacementMeans(m.disk, SnapshotPath(m.layouts, id), Snapshot(ini), ticks);
    OutcomeIff(m.disk, SnapshotPath(m.layouts, id), Snapshot(ini), ticks);
    SnapshotScratch(m.layouts, id, NextSuffix(m.disk, ticks), None);
    if r.trail != [] {
      assert Confined(m.disk.files, r.disk.files, SnapshotPath(m.layouts, id), NextSuffix(m.disk, ticks));
    }
  }

  lemma RemovalKeepsMetadata(done: Done, id: string)
    ensures var n := Removes(done, id);
            && SameAt(done.manager.disk.files, n.manager.disk.files, MetadataPath(done.manager.layouts))
            && n.manager.disk.files == n.trail[|n.trail| - 1]
  {
    hide MetadataPath, SnapshotPath;
    StoredNames(done.manager.layouts, id);
  }

  lemma NewAgreesIff(m: Manager, name: string, id: string, ini: string, ticks: nat, moreTicks: nat)
    ensures var n, c := AfterNew(m, name, id, ini, ticks, moreTicks).manager,
        NewCommit(m, name, id, ini, ticks, moreTicks);
            Agrees(n.disk.files, n.layouts, n.presets)
            <==> if c.CommitOf? then CommitAgrees(c.manager) else Agrees(m.disk.files, m.layouts, m.presets)
  {
    hide Appended, SnapshotPath, MetadataPath, Agrees, CommitAgrees, Succeeds, StandingAfter, Replaced;
    var next := m.(disk := m.disk.(asked := m.disk.asked + 1));
    var first := Writes(next, id, ini, ticks);
    WriteKeepsMetadata(next, id, ini, ticks);
    AgreesOn(m.disk.files, first.manager.disk.files, m.layouts, m.presets);
    var second := Commits(first.manager, Appended(m.presets, name, id), moreTicks);
    CommitAgreesIff(first.manager, Appended(m.presets, name, id), moreTicks);
    var both := second.(trail := first.trail + second.trail);
    RemovalKeepsMetadata(both, id);
    AgreesOn(second.manager.disk.files, Removes(both, id).manager.disk.files, m.layouts, second.manager.presets);
  }

  lemma DeleteAgreesIff(m: Manager, id: string, ticks: nat)
    requires IndexOf(m.presets, id) < |m.presets|
    ensures var n := AfterDelete(m, id, ticks).manager;
            Agrees(n.disk.files, n.layouts, n.presets) <==> CommitAgrees(m)
  {
    hide Commits, Without, SnapshotPath, MetadataPath, Agrees, CommitAgrees;
    var updated := Without(m.presets, IndexOf(m.presets, id));
    CommitAgreesIff(m, updated, ticks);
    CommitKeepsPlace(m, updated, ticks);
    var c := Commits(m, updated, ticks);
    var d := c.(manager := c.manager.(active := if c.manager.active == Some(id) then None else c.manager.active));
    RemovalKeepsMetadata(d, id);
    AgreesOn(c.manager.disk.files, Removes(d, id).manager.disk.files, m.layouts, c.manager.presets);
  }

  /** Exactly when the metadata is the list in memory after an operation, for any manager
      and by what can be told before its commit: a commit that succeeds must not cut off
      the list; one that fails must find it so and, unless the list is empty, roll back;
      a start must load what is stored, unless that is nothing or empty. */
  lemma CommittedIff(m: Manager, op: Operation)
    ensures var n := Perform(m, op).manager;
            Agrees(n.disk.files, n.layouts, n.presets)
            <==> match StartIn(m, op)
                 case Some(d) => StartAgrees(d, m.layouts)
                 case None => match CommitIn(m, op)
                              case CommitOf(c, _, _) => CommitAgrees(c)
                              case NoCommit => Agrees(m.disk.files, m.layouts, m.presets)
  {
    hide Appended, SnapshotPath, MetadataPath, Agrees, CommitAgrees, StartAgrees, Commits, Writes, AfterNew, NewCommit,
         AfterDelete, Restarted, LF.Deserialized, IsValidName, IsValidIni, Moved, NameTakenByOther, Without;
    match op
    case MoveTo(id, destination, ticks) => CommitAgreesIff(m, EditedBy(m.presets, op), ticks);
    case RenameTo(id, name, ticks) => CommitAgreesIff(m, EditedBy(m.presets, op), ticks);
    case DeleteOf(id, ticks) =>
      if IndexOf(m.presets, id) < |m.presets| {
        DeleteAgreesIff(m, id, ticks);
      } else {
        NothingDeleted(m, id, ticks);
      }
    case UpdateOf(id, captured, ticks) =>
      WriteAgrees(m, id, captured, ticks);
    case CreateFrom(name, ini, freshId, ticks, moreTicks) =>
      NewAgreesIff(m, name, freshId, ini, ticks, moreTicks);
    case ImportFrom(text, freshId, ticks, moreTicks) =>
      match LF.Deserialized(text) {
        case Failure(_) =>
        case Success(data) => NewAgreesIff(m, data.name, freshId, data.imguiIni, ticks, moreTicks);
      }
    case Restart => StartAgreesIff(m.layouts, m.disk);
    case StopWithin(during, at) =>
      StartAgreesIff(m.layouts, StoppedDisk(m, Perform(m, during), at));
  }

  lemma NothingDeleted(m: Manager, id: string, ticks: nat)
    requires IndexOf(m.presets, id) == |m.presets|
    ensures AfterDelete(m, id, ticks) == Done(m, Refused, [])
  {
  }

  lemma WriteAgrees(m: Manager, id: string, ini: string, ticks: nat)
    ensures var n := Writes(m, id, ini, ticks).manager;
            Agrees(n.disk.files, n.layouts, n.presets) == Agrees(m.disk.files, m.layouts, m.presets)
  {
    hide Agrees, MetadataPath, SnapshotPath, Replaced;
    WriteKeepsMetadata(m, id, ini, ticks);
    AgreesOn(m.disk.files, Writes(m, id, ini, ticks).manager.disk.files, m.layouts, m.presets);
  }

  lemma StartAgreesIff(layouts: Path, disk: Disk)
    ensures var n := Restarted(layouts, disk).manager;
            Agrees(n.disk.files, n.layouts, n.presets) <==> StartAgrees(disk, layouts)
  {
    hide MetadataPath, Restarted, Sound;
    StartMeans(layouts, disk);
  }
}
