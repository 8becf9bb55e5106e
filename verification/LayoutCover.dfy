/** A preset that is listed has its snapshot: at every point of every operation but an update,
    whose replacement renames the snapshot away for a moment. */
module LayoutCover {
  import opened Prelude
  import opened StoragePaths
  import opened LayoutNames
  import opened FileStore
  import LF = LayoutFile
  import opened LayoutStore
  import opened LayoutRuns

  ghost predicate Covers(files: Files, layouts: Path, presets: seq<Preset>) {
    forall i :: 0 <= i < |presets| ==> SnapshotPath(layouts, presets[i].id) in files
  }

  // Every preset that a start would find in the metadata has its snapshot.
  ghost predicate StoreCovered(files: Files, layouts: Path) {
    Stored(files, layouts).Some? ==> Covers(files, layouts, Stored(files, layouts).value)
  }

  ghost predicate IsCovered(m: Manager) {
    Covers(m.disk.files, m.layouts, m.presets) && StoreCovered(m.disk.files, m.layouts)
  }

  ghost predicate CoveredOn(trail: seq<Files>, layouts: Path) {
    forall now :: now in trail ==> StoreCovered(now, layouts)
  }

  lemma CoversStay(before: Files, now: Files, layouts: Path, presets: seq<Preset>)
    requires Covers(before, layouts, presets)
    requires forall i :: 0 <= i < |presets| ==> SameAt(before, now, SnapshotPath(layouts, presets[i].id))
    ensures Covers(now, layouts, presets)
  {
    hide SnapshotPath;
  }

  // A point of a commit: the snapshots are as before, and the metadata is the old or the new list, if any.
  lemma CommitPoint(m: Manager, updated: seq<Preset>, ticks: nat, now: Files)
    requires now in Commits(m, updated, ticks).trail
    ensures forall id :: SameAt(m.disk.files, now, SnapshotPath(m.layouts, id))
    ensures Stored(now, m.layouts) in {None, Some(updated), Stored(m.disk.files, m.layouts)}
  {
    hide Replaced, NextSuffix, Backup, Temporary, MetadataPath, SnapshotPath, Confined, Landed, ListKept, Listed,
         InBackup, StandingAfter, SameAt;
    forall id
      ensures SameAt(m.disk.files, now, SnapshotPath(m.layouts, id))
    {
      CommitSpares(m, updated, ticks, id);
    }
    ReplacementMeans(m.disk, MetadataPath(m.layouts), Metadata(updated), ticks);
    LandedList(m.disk, updated);
    HeldList(m.disk.files, now, m.layouts, NextSuffix(m.disk, ticks));
  }

  lemma HeldList(before: Files, now: Files, layouts: Path, suffix: string)
    ensures Held(before, now, MetadataPath(layouts), suffix) ==> Stored(now, layouts) in {None, Stored(before, layouts)}
    ensures forall content :: AtTarget(now, MetadataPath(layouts), content) ==> Stored(now, layouts) == Listed(content)
  {
    hide MetadataPath, InBackup, Listed;
  }

  lemma CommitKeepsCovered(m: Manager, updated: seq<Preset>, ticks: nat)
    requires IsCovered(m) && Covers(m.disk.files, m.layouts, updated)
    ensures var c := Commits(m, updated, ticks);
            && IsCovered(c.manager) && CoveredOn(c.trail, m.layouts)
            && Covers(c.manager.disk.files, m.layouts, m.presets) && Covers(c.manager.disk.files, m.layouts, updated)
            && c.manager.layouts == m.layouts
            && (!c.outcome.Committed? ==>
                  Stored(c.manager.disk.files, m.layouts) in {None, Stored(m.disk.files, m.layouts)})
            && (c.outcome.Committed? ==> Stored(c.manager.disk.files, m.layouts) in {None, Some(updated)})
  {
    hide Commits, SnapshotPath, MetadataPath, Covers, SameAt, Stored;
    var c := Commits(m, updated, ticks);
    forall now | now in c.trail
      ensures StoreCovered(now, m.layouts)
    {
      PointCovered(m, updated, ticks, now);
    }
    CommitEnd(m, updated, ticks);
    if c.trail != [] {
      PointCovered(m, updated, ticks, c.manager.disk.files);
    }
  }

  lemma PointCovered(m: Manager, updated: seq<Preset>, ticks: nat, now: Files)
    requires IsCovered(m) && Covers(m.disk.files, m.layouts, updated)
    requires now in Commits(m, updated, ticks).trail
    ensures StoreCovered(now, m.layouts)
    ensures Covers(now, m.layouts, m.presets) && Covers(now, m.layouts, updated)
  {
    hide Commits, SnapshotPath, MetadataPath, Covers, SameAt, Stored;
    CommitPoint(m, updated, ticks, now);
    CoversStay(m.disk.files, now, m.layouts, m.presets);
    CoversStay(m.disk.files, now, m.layouts, updated);
    if Stored(m.disk.files, m.layouts).Some? {
      CoversStay(m.disk.files, now, m.layouts, Stored(m.disk.files, m.layouts).value);
    }
  }

  // How a commit ends.
  lemma CommitEnd(m: Manager, updated: seq<Preset>, ticks: nat)
    ensures var c := Commits(m, updated, ticks);
            && c.manager.disk.files == (if c.trail == [] then m.disk.files else c.trail[|c.trail| - 1])
            && c.manager.layouts == m.layouts
            && c.manager.presets == (if c.outcome.Committed? then updated else m.presets)
            && (!c.outcome.Committed? ==>
                  Stored(c.manager.disk.files, m.layouts) in {None, Stored(m.disk.files, m.layouts)})
            && (c.outcome.Committed? ==>
                  c.trail != [] && Stored(c.manager.disk.files, m.layouts) in {None, Some(updated)})
  {
    hide Replaced, NextSuffix, Backup, Temporary, MetadataPath, Confined, Landed, ListKept, Listed, StandingAfter;
    ReplacementMeans(m.disk, MetadataPath(m.layouts), Metadata(updated), ticks);
    LandedList(m.disk, updated);
  }

  // A snapshot that no listed preset has comes or goes.
  lemma SnapshotAside(before: Files, now: Files, layouts: Path, presets: seq<Preset>, own: Path)
    requires Covers(before, layouts, presets)
    requires forall id :: SnapshotPath(layouts, id) != own ==> SameAt(before, now, SnapshotPath(layouts, id))
    requires forall i :: 0 <= i < |presets| ==> SnapshotPath(layouts, presets[i].id) != own
    ensures Covers(now, layouts, presets)
  {
    hide SnapshotPath;
  }

  lemma FirstWritePoint(m: Manager, id: string, ini: string, ticks: nat, now: Files)
    requires IsCovered(m) && SnapshotPath(m.layouts, id) !in m.disk.files
    requires now in Writes(m, id, ini, ticks).trail || now == Writes(m, id, ini, ticks).manager.disk.files
    ensures StoreCovered(now, m.layouts) && Covers(now, m.layouts, m.presets)
    ensures Stored(now, m.layouts) == Stored(m.disk.files, m.layouts)
  {
    hide Writes, SnapshotPath, MetadataPath, SameAt;
    WriteKeepsMetadata(m, id, ini, ticks);
    SameStore(m.disk.files, now, m.layouts);
    forall other | SnapshotPath(m.layouts, other) != SnapshotPath(m.layouts, id)
      ensures SameAt(m.disk.files, now, SnapshotPath(m.layouts, other))
    {
      WriteSpares(m, id, ini, ticks, other);
    }
    SnapshotAside(m.disk.files, now, m.layouts, m.presets, SnapshotPath(m.layouts, id));
    if Stored(m.disk.files, m.layouts).Some? {
      SnapshotAside(m.disk.files, now, m.layouts, Stored(m.disk.files, m.layouts).value, SnapshotPath(m.layouts, id));
    }
  }

  lemma SameStore(before: Files, now: Files, layouts: Path)
    requires SameAt(before, now, MetadataPath(layouts))
    ensures Stored(now, layouts) == Stored(before, layouts)
  {
    hide MetadataPath;
  }

  // The removal of a snapshot that is not listed.
  lemma RemovalKeepsCovered(done: Done, id: string)
    requires var m := done.manager;
             && IsCovered(m) && CoveredOn(done.trail, m.layouts)
             && (forall i :: 0 <= i < |m.presets| ==>
                   SnapshotPath(m.layouts, m.presets[i].id) != SnapshotPath(m.layouts, id))
             && (Stored(m.disk.files, m.layouts).Some? ==>
                   var stored := Stored(m.disk.files, m.layouts).value;
                   forall i :: 0 <= i < |stored| ==>
                     SnapshotPath(m.layouts, stored[i].id) != SnapshotPath(m.layouts, id))
    ensures IsCovered(Removes(done, id).manager) && CoveredOn(Removes(done, id).trail, done.manager.layouts)
  {
    hide SnapshotPath, MetadataPath;
    var m, now := done.manager, Removes(done, id).manager.disk.files;
    RemovalKeepsMetadata(done, id);
    SameStore(m.disk.files, now, m.layouts);
    SnapshotAside(m.disk.files, now, m.layouts, m.presets, SnapshotPath(m.layouts, id));
    if Stored(m.disk.files, m.layouts).Some? {
      SnapshotAside(m.disk.files, now, m.layouts, Stored(m.disk.files, m.layouts).value, SnapshotPath(m.layouts, id));
    }
  }

  lemma CoveredElsewhere(files: Files, layouts: Path, presets: seq<Preset>, own: Path)
    requires Covers(files, layouts, presets) && own !in files
    ensures forall i :: 0 <= i < |presets| ==> SnapshotPath(layouts, presets[i].id) != own
  {
    hide SnapshotPath;
  }

  lemma AppendedCovered(files: Files, layouts: Path, presets: seq<Preset>, name: string, id: string)
    requires Covers(files, layouts, presets) && SnapshotPath(layouts, id) in files
    ensures Covers(files, layouts, Appended(presets, name, id))
  {
    hide SnapshotPath, UniqueName, RelativeFile;
  }

  lemma NewKeepsCovered(m: Manager, name: string, id: string, ini: string, ticks: nat, moreTicks: nat)
    requires IsCovered(m)
    ensures var c := AfterNew(m, name, id, ini, ticks, moreTicks);
            IsCovered(c.manager) && CoveredOn(c.trail, m.layouts) && c.manager.layouts == m.layouts
  {
    hide Writes, CommitsAfter, Appended, SnapshotPath, MetadataPath, Covers, Stored, StoreCovered;
    var next := m.(disk := m.disk.(asked := m.disk.asked + 1));
    if m.disk.succeeds(m.disk.asked) && SnapshotPath(m.layouts, id) !in m.disk.files {
      assert IsCovered(next);
      var first := Writes(next, id, ini, ticks);
      forall now | now in first.trail
        ensures StoreCovered(now, m.layouts)
      {
        FirstWritePoint(next, id, ini, ticks, now);
      }
      FirstWritePoint(next, id, ini, ticks, first.manager.disk.files);
      FirstSnapshot(next, id, ini, ticks);
      WriteHow(next, id, ini, ticks);
      if first.outcome.Committed? {
        SecondKeepsCovered(m, first, name, id, moreTicks);
      }
    }
  }

  lemma SecondKeepsCovered(m: Manager, first: Done, name: string, id: string, ticks: nat)
    requires IsCovered(m) && SnapshotPath(m.layouts, id) !in m.disk.files
    requires IsCovered(first.manager) && CoveredOn(first.trail, m.layouts)
    requires first.manager.layouts == m.layouts && first.manager.presets == m.presets
    requires Stored(first.manager.disk.files, m.layouts) == Stored(m.disk.files, m.layouts)
    requires SnapshotPath(m.layouts, id) in first.manager.disk.files
    ensures var c := CommitsAfter(first, Appended(m.presets, name, id), id, ticks);
            IsCovered(c.manager) && CoveredOn(c.trail, m.layouts) && c.manager.layouts == m.layouts
  {
    hide Commits, Appended, SnapshotPath, MetadataPath, Covers, Stored;
    var updated := Appended(m.presets, name, id);
    AppendedCovered(first.manager.disk.files, m.layouts, m.presets, name, id);
    CommitKeepsCovered(first.manager, updated, ticks);
    CommitEnd(first.manager, updated, ticks);
    var second := Commits(first.manager, updated, ticks);
    var both := second.(trail := first.trail + second.trail);
    if both.outcome.Refused? {
      CoveredElsewhere(m.disk.files, m.layouts, m.presets, SnapshotPath(m.layouts, id));
      if Stored(m.disk.files, m.layouts).Some? {
        CoveredElsewhere(m.disk.files, m.layouts, Stored(m.disk.files, m.layouts).value, SnapshotPath(m.layouts, id));
      }
      RemovalKeepsCovered(both, id);
    }
  }

  lemma WithoutCovered(files: Files, layouts: Path, presets: seq<Preset>, i: nat)
    requires Covers(files, layouts, presets) && i < |presets|
    ensures Covers(files, layouts, Without(presets, i))
  {
    hide SnapshotPath;
  }

  lemma DeletedElsewhere(layouts: Path, presets: seq<Preset>, i: nat)
    requires Sane(presets) && Regular(presets) && i < |presets|
    ensures forall j :: 0 <= j < |presets| - 1 ==>
              SnapshotPath(layouts, Without(presets, i)[j].id) != SnapshotPath(layouts, presets[i].id)
  {
    hide SnapshotPath, IsPlain, RelativeFile;
    forall j | 0 <= j < |presets| - 1
      ensures SnapshotPath(layouts, Without(presets, i)[j].id) != SnapshotPath(layouts, presets[i].id)
    {
      var k := if j < i then j else j + 1;
      assert Without(presets, i)[j] == presets[k];
      PlainSnapshotsDiffer(layouts, presets[k].id, presets[i].id);
    }
  }

  lemma DeleteKeepsCovered(m: Manager, id: string, ticks: nat)
    requires IsCovered(m) && Sane(m.presets) && Regular(m.presets)
    ensures var c := AfterDelete(m, id, ticks);
            IsCovered(c.manager) && CoveredOn(c.trail, m.layouts) && c.manager.layouts == m.layouts
  {
    hide Commits, Without, SnapshotPath, MetadataPath, Covers, Stored, Sane, Regular;
    var i := IndexOf(m.presets, id);
    if i < |m.presets| {
      var updated := Without(m.presets, i);
      WithoutCovered(m.disk.files, m.layouts, m.presets, i);
      CommitKeepsCovered(m, updated, ticks);
      CommitEnd(m, updated, ticks);
      DeletedElsewhere(m.layouts, m.presets, i);
      var c := Commits(m, updated, ticks);
      if c.outcome.Committed? {
        var d := c.(manager := c.manager.(active := if c.manager.active == Some(id) then None else c.manager.active));
        assert IsCovered(d.manager);
        RemovalKeepsCovered(d, id);
      }
    }
  }

  lemma MovedCovered(files: Files, layouts: Path, presets: seq<Preset>, from: nat, to: nat)
    requires Covers(files, layouts, presets) && from < |presets| && to < |presets|
    ensures Covers(files, layouts, Moved(presets, from, to))
  {
    hide SnapshotPath, Moved;
    forall k | 0 <= k < |presets|
      ensures SnapshotPath(layouts, Moved(presets, from, to)[k].id) in files
    {
      var j := MovedAt(presets, from, to, k);
    }
  }

  lemma RenamedCovered(files: Files, layouts: Path, presets: seq<Preset>, i: nat, name: string)
    requires Covers(files, layouts, presets) && i < |presets|
    ensures Covers(files, layouts, presets[i := presets[i].(name := name)])
  {
    hide SnapshotPath;
  }

  lemma StartKeepsCovered(layouts: Path, disk: Disk)
    requires StoreCovered(disk.files, layouts)
    ensures IsCovered(Restarted(layouts, disk).manager)
    ensures Restarted(layouts, disk).trail == [] && Restarted(layouts, disk).manager.layouts == layouts
  {
    hide MetadataPath, SnapshotPath, Restarted, Sound, Stored;
    StartMeans(layouts, disk);
    if StartAccepts(disk, layouts) {
      StartListed(layouts, disk);
    }
  }

  lemma StartListed(layouts: Path, disk: Disk)
    requires StartAccepts(disk, layouts)
    ensures Loaded(disk.files, layouts).value == [] || Loaded(disk.files, layouts) == Stored(disk.files, layouts)
  {
    hide MetadataPath, Stored;
  }

  // An update that ends leaves its snapshot, unless its rollback fails.
  lemma UpdateEndsCovered(m: Manager, id: string, captured: string, ticks: nat)
    requires IsCovered(m) && !RollbackFails(m.disk, SnapshotPath(m.layouts, id))
    ensures IsCovered(Writes(m, id, captured, ticks).manager)
    ensures Writes(m, id, captured, ticks).manager.layouts == m.layouts
  {
    hide Writes, SnapshotPath, MetadataPath, RollbackFails, Landed, Succeeds;
    var now, own := Writes(m, id, captured, ticks).manager.disk.files, SnapshotPath(m.layouts, id);
    WriteHow(m, id, captured, ticks);
    WriteKeepsMetadata(m, id, captured, ticks);
    SameStore(m.disk.files, now, m.layouts);
    UpdateIntactIff(m, id, captured, ticks);
    forall other | SnapshotPath(m.layouts, other) != own
      ensures SameAt(m.disk.files, now, SnapshotPath(m.layouts, other))
    {
      WriteSpares(m, id, captured, ticks, other);
    }
    UpdatedCovered(m.disk.files, now, m.layouts, m.presets, own);
    if Stored(m.disk.files, m.layouts).Some? {
      UpdatedCovered(m.disk.files, now, m.layouts, Stored(m.disk.files, m.layouts).value, own);
    }
  }

  lemma UpdatedCovered(before: Files, now: Files, layouts: Path, presets: seq<Preset>, own: Path)
    requires Covers(before, layouts, presets) && (own in before ==> own in now)
    requires forall id :: SnapshotPath(layouts, id) != own ==> SameAt(before, now, SnapshotPath(layouts, id))
    ensures Covers(now, layouts, presets)
  {
    hide SnapshotPath;
  }

  // The operation, and what it stops within, is not an update.
  predicate NoUpdate(op: Operation) {
    match op
    case UpdateOf(_, _, _) => false
    case StopWithin(during, _) => NoUpdate(during)
    case _ => true
  }

  /** At every point of every operation that is not an update, wherever it stops and whatever
      fails, each preset in the metadata has its snapshot: a new one is written before it is
      listed, and a deleted one goes after it is unlisted. */
  lemma PerformKeepsCovered(m: Manager, op: Operation)
    requires IsCovered(m) && Sane(m.presets) && Regular(m.presets) && NoUpdate(op)
    ensures var c := Perform(m, op);
            IsCovered(c.manager) && CoveredOn(c.trail, m.layouts) && c.manager.layouts == m.layouts
    decreases op
  {
    hide LF.Deserialized, IsValidName, IsValidIni, SnapshotPath, MetadataPath, Appended, Without, Moved, Commits,
         Writes, AfterNew, AfterDelete, Restarted, Stands, Sane, HasId, Regular, Covers, Stored, FilesAfter,
         NameTakenByOther;
    match op
    case MoveTo(id, destination, ticks) =>
      var i := IndexOf(m.presets, id);
      if i < |m.presets| && destination < |m.presets| {
        MovedCovered(m.disk.files, m.layouts, m.presets, i, destination);
        CommitKeepsCovered(m, Moved(m.presets, i, destination), ticks);
      }
    case RenameTo(id, name, ticks) =>
      var i := IndexOf(m.presets, id);
      if i < |m.presets| {
        RenamedCovered(m.disk.files, m.layouts, m.presets, i, name);
        CommitKeepsCovered(m, m.presets[i := m.presets[i].(name := name)], ticks);
      }
    case DeleteOf(id, ticks) => DeleteKeepsCovered(m, id, ticks);
    case CreateFrom(name, ini, freshId, ticks, moreTicks) =>
      NewKeepsCovered(m, name, freshId, ini, ticks, moreTicks);
    case ImportFrom(text, freshId, ticks, moreTicks) =>
      match LF.Deserialized(text) {
        case Failure(_) =>
        case Success(data) => NewKeepsCovered(m, data.name, freshId, data.imguiIni, ticks, moreTicks);
      }
    case Restart => StartKeepsCovered(m.layouts, m.disk);
    case StopWithin(during, at) =>
      PerformKeepsCovered(m, during);
      StopKeepsCovered(m, during, at);
  }

  lemma StopKeepsCovered(m: Manager, during: Operation, at: nat)
    requires StoreCovered(m.disk.files, m.layouts) && CoveredOn(Perform(m, during).trail, m.layouts)
    ensures var c := Perform(m, StopWithin(during, at));
            IsCovered(c.manager) && CoveredOn(c.trail, m.layouts) && c.manager.layouts == m.layouts
  {
    hide Perform, Restarted, StoreCovered, Covers;
    var first := Perform(m, during);
    StopIs(m, during, at);
    StartKeepsCovered(m.layouts, StoppedDisk(m, first, at));
  }

  /** What a run must not do: stop within an update, or fail to roll one back. */
  predicate UpdatesEnd(m: Manager, op: Operation) {
    match op
    case UpdateOf(id, _, _) => !RollbackFails(m.disk, SnapshotPath(m.layouts, id))
    case _ => NoUpdate(op)
  }

  lemma OperationKeepsCovered(m: Manager, op: Operation)
    requires IsCovered(m) && Sane(m.presets) && Regular(m.presets) && UpdatesEnd(m, op)
    ensures IsCovered(Perform(m, op).manager)
  {
    hide IsCovered, Sane, Regular, Writes, IsValidIni, RollbackFails, SnapshotPath;
    match op
    case UpdateOf(id, captured, ticks) => UpdateEndsCovered(m, id, captured, ticks);
    case _ => PerformKeepsCovered(m, op);
  }

  /** Over every run from regular storage with generated ids, with any calls failing and the
      process stopping anywhere else: as long as no update is stopped halfway or fails to be
      rolled back, every preset that is listed, in memory or in the metadata, has its
      snapshot. */
  lemma {:induction false} RunsAreCovered(m: Manager, ops: seq<Operation>)
    requires Sound(m) && IsRegular(m) && IsCovered(m)
    requires HaveFreshIds(m, ops) && forall op :: op in ops ==> Generates(op)
    requires forall k :: 0 <= k < |ops| ==> UpdatesEnd(Before(m, ops, k), ops[k])
    ensures IsCovered(PerformAll(m, ops).0)
  {
    hide Perform, HasFreshId, Sound, HaveFreshIds, IsRegular, Generates, IsCovered, UpdatesEnd;
    if ops != [] {
      var front, last := ops[..|ops| - 1], ops[|ops| - 1];
      forall k | 0 <= k < |front|
        ensures UpdatesEnd(Before(m, front, k), front[k])
      {
        BeforeLast(m, ops, k);
      }
      FreshBeforeLast(m, ops);
      BeforeIs(m, ops, |ops| - 1);
      RunsAreCovered(m, front);
      RunsAreRegular(m, front);
      RegularIsSane(PerformAll(m, front).0);
      OperationKeepsCovered(PerformAll(m, front).0, last);
    }
  }

  lemma RegularIsSane(m: Manager)
    requires Sound(m) && IsRegular(m)
    ensures Sane(m.presets) && Regular(m.presets)
  {
  }
}
