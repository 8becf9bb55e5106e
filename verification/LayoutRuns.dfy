/** Runs of the layout preset store: sequences of operations, stops and starts. */
module LayoutRuns {
  import opened Prelude
  import opened StoragePaths
  import opened LayoutNames
  import opened FileStore
  import LF = LayoutFile
  import opened LayoutStore

  // When a commit drops the stored list

  predicate CommitSucceeds(m: Manager, op: Operation) {
    var c := CommitIn(m, op);
    c.CommitOf? && Succeeds(c.manager.disk, MetadataPath(c.manager.layouts))
  }

  // The operation commits over a stored list that is not the one it edits.
  predicate DropsStored(m: Manager, op: Operation) {
    && CommitSucceeds(m, op)
    && Stored(m.disk.files, m.layouts).Some? && Stored(m.disk.files, m.layouts).value != m.presets
  }

  /** A commit drops the stored list exactly if the last start did not load it. */
  lemma DropsIff(m: Manager, op: Operation)
    requires Sound(m)
    ensures DropsStored(m, op)
        <==> && CommitSucceeds(m, op) && m.standing == Standing(Unloaded, None)
             && Stored(m.disk.files, m.layouts) !in {None, Some([])}
  {
    hide Sane, CommitSucceeds, MetadataPath, Backup;
  }

  // A start that is refused although something is stored.
  predicate RefusesStored(m: Manager, op: Operation) {
    && StartIn(m, op).Some?
    && MetadataPath(m.layouts) in StartIn(m, op).value.files && !StartAccepts(StartIn(m, op).value, m.layouts)
  }

  // A start or a commit settles how the list in memory stands.
  predicate Settles(m: Manager, op: Operation) {
    StartIn(m, op).Some? || CommitSucceeds(m, op)
  }

  lemma CommitHow(m: Manager, updated: seq<Preset>, ticks: nat)
    ensures var n := Commits(m, updated, ticks).manager;
            n.standing.how == if !Succeeds(m.disk, MetadataPath(m.layouts)) then m.standing.how
                              else if ListKept(m.disk) then InStep
                              else Cut
  {
    hide Replaced, Succeeds, ListKept, MetadataPath, RollbackFails;
  }

  lemma NewHow(m: Manager, name: string, id: string, ini: string, ticks: nat, moreTicks: nat)
    ensures var n, c := AfterNew(m, name, id, ini, ticks, moreTicks).manager,
        NewCommit(m, name, id, ini, ticks, moreTicks);
            n.standing.how.Unloaded?
            <==> m.standing.how.Unloaded? && !(c.CommitOf? && Succeeds(c.manager.disk, MetadataPath(c.manager.layouts)))
  {
    hide Replaced, Succeeds, ListKept, MetadataPath, SnapshotPath, Appended, StandingAfter;
    var next := m.(disk := m.disk.(asked := m.disk.asked + 1));
    var first := Writes(next, id, ini, ticks);
    WriteKeepsMetadata(next, id, ini, ticks);
    CommitHow(first.manager, Appended(m.presets, name, id), moreTicks);
  }

  /** One operation leaves the list unloaded exactly if it is a start that refuses what is
      stored, or settles nothing on a list that was. */
  lemma HowChanges(m: Manager, op: Operation)
    ensures Perform(m, op).manager.standing.how.Unloaded?
        <==> RefusesStored(m, op) || (m.standing.how.Unloaded? && !Settles(m, op))
  {
    hide Appended, SnapshotPath, MetadataPath, Commits, Writes, AfterNew, NewCommit, Succeeds, StartAccepts, Sound,
         Restarted, LF.Deserialized, IsValidName, IsValidIni, Moved, NameTakenByOther, Without;
    match op
    case MoveTo(id, destination, ticks) => CommitHow(m, EditedBy(m.presets, op), ticks);
    case RenameTo(id, name, ticks) => CommitHow(m, EditedBy(m.presets, op), ticks);
    case DeleteOf(id, ticks) => CommitHow(m, EditedBy(m.presets, op), ticks);
    case UpdateOf(id, captured, ticks) => WriteHow(m, id, captured, ticks);
    case CreateFrom(name, ini, freshId, ticks, moreTicks) => NewHow(m, name, freshId, ini, ticks, moreTicks);
    case ImportFrom(text, freshId, ticks, moreTicks) =>
      match LF.Deserialized(text) {
        case Failure(_) =>
        case Success(data) => NewHow(m, data.name, freshId, data.imguiIni, ticks, moreTicks);
      }
    case Restart => StartMeans(m.layouts, m.disk);
    case StopWithin(during, at) => StartMeans(m.layouts, StoppedDisk(m, Perform(m, during), at));
  }

  lemma WriteHow(m: Manager, id: string, ini: string, ticks: nat)
    ensures Writes(m, id, ini, ticks).manager == m.(disk := Writes(m, id, ini, ticks).manager.disk)
  {
    hide Replaced, SnapshotPath;
  }

  // Sequences of operations

  function PerformAll(m: Manager, ops: seq<Operation>): (r: (Manager, seq<Files>)) {
    if ops == [] then (m, [])
    else
      var (n, trail) := PerformAll(m, ops[..|ops| - 1]);
      var last := Perform(n, ops[|ops| - 1]);
      (last.manager, trail + last.trail)
  }

  // The manager before the k-th operation.
  function Before(m: Manager, ops: seq<Operation>, k: nat): Manager
    requires k <= |ops|
  {
    PerformAll(m, ops[..k]).0
  }

  predicate HaveFreshIds(m: Manager, ops: seq<Operation>) {
    forall k :: 0 <= k < |ops| ==> HasFreshId(Before(m, ops, k).presets, ops[k])
  }

  lemma BeforeLast(m: Manager, ops: seq<Operation>, k: nat)
    requires k < |ops|
    ensures Before(m, ops[..|ops| - 1], k) == Before(m, ops, k)
    ensures Before(m, ops, |ops|) == Perform(Before(m, ops, |ops| - 1), ops[|ops| - 1]).manager
  {
    hide Perform;
    assert ops[..|ops| - 1][..k] == ops[..k];
    assert ops[..|ops|] == ops;
  }

  lemma FreshBeforeLast(m: Manager, ops: seq<Operation>)
    requires ops != [] && HaveFreshIds(m, ops)
    ensures HaveFreshIds(m, ops[..|ops| - 1])
    ensures HasFreshId(Before(m, ops, |ops| - 1).presets, ops[|ops| - 1])
  {
    hide Perform, HasFreshId, PerformAll;
    forall k | 0 <= k < |ops| - 1
      ensures HasFreshId(Before(m, ops[..|ops| - 1], k).presets, ops[k])
    {
      assert ops[..|ops| - 1][..k] == ops[..k];
    }
  }

  /** After every sequence of operations, stops and starts, with any calls failing, the
      manager is sound. */
  lemma {:induction false} RunsAreSound(m: Manager, ops: seq<Operation>)
    requires Sound(m) && HaveFreshIds(m, ops)
    ensures Sound(PerformAll(m, ops).0)
  {
    hide Perform, HasFreshId, Sound, HaveFreshIds;
    if ops != [] {
      FreshBeforeLast(m, ops);
      RunsAreSound(m, ops[..|ops| - 1]);
      PerformKeepsSound(PerformAll(m, ops[..|ops| - 1]).0, ops[|ops| - 1]);
    }
  }

  // The last start refused what was stored, and nothing has been committed since.
  ghost predicate LastRefused(m: Manager, ops: seq<Operation>) {
    exists k :: && 0 <= k < |ops| && RefusesStored(Before(m, ops, k), ops[k])
                && forall j :: k < j < |ops| ==> !Settles(Before(m, ops, j), ops[j])
  }

  /** Exactly then a run leaves the list unloaded. */
  lemma {:induction false} UnloadedIff(m: Manager, ops: seq<Operation>)
    requires !m.standing.how.Unloaded?
    ensures PerformAll(m, ops).0.standing.how.Unloaded? <==> LastRefused(m, ops)
  {
    hide Perform, RefusesStored, Settles, Before;
    if ops != [] {
      var n, front := |ops| - 1, ops[..|ops| - 1];
      forall k | 0 <= k < n
        ensures Before(m, front, k) == Before(m, ops, k)
      {
        BeforeLast(m, ops, k);
      }
      UnloadedIff(m, front);
      BeforeIs(m, ops, n);
      HowChanges(Before(m, ops, n), ops[n]);
      LastRefusal(m, ops);
    }
  }

  lemma BeforeIs(m: Manager, ops: seq<Operation>, k: nat)
    requires k <= |ops|
    ensures Before(m, ops, k) == PerformAll(m, ops[..k]).0
  {
  }

  // The last refusal that nothing has settled since, by the last operation.
  lemma LastRefusal(m: Manager, ops: seq<Operation>)
    requires ops != []
    requires forall k :: 0 <= k < |ops| - 1 ==> Before(m, ops[..|ops| - 1], k) == Before(m, ops, k)
    ensures var n, front := |ops| - 1, ops[..|ops| - 1];
            LastRefused(m, ops)
            <==> || RefusesStored(Before(m, ops, n), ops[n])
                 || (!Settles(Before(m, ops, n), ops[n]) && LastRefused(m, front))
  {
    hide RefusesStored, Settles, Before;
    var n, front := |ops| - 1, ops[..|ops| - 1];
    if k :| 0 <= k < n && RefusesStored(Before(m, front, k), front[k])
            && (forall j :: k < j < n ==> !Settles(Before(m, front, j), front[j]))
            && !Settles(Before(m, ops, n), ops[n]) {
      assert RefusesStored(Before(m, ops, k), ops[k]);
      forall j | k < j < |ops|
        ensures !Settles(Before(m, ops, j), ops[j])
      {
        if j < n {
          assert Before(m, front, j) == Before(m, ops, j) && front[j] == ops[j];
        }
      }
    }
    if k :| 0 <= k < |ops| && RefusesStored(Before(m, ops, k), ops[k])
            && forall j :: k < j < |ops| ==> !Settles(Before(m, ops, j), ops[j]) {
      if k < n {
        assert RefusesStored(Before(m, front, k), front[k]);
        forall j | k < j < n
          ensures !Settles(Before(m, front, j), front[j])
        {
          assert Before(m, front, j) == Before(m, ops, j) && front[j] == ops[j];
        }
      }
    }
  }

  /** Over all runs: an operation drops the stored list exactly if it commits, something
      other than an empty list is stored, and the last start refused it. */
  lemma RunDropsIff(m: Manager, ops: seq<Operation>, op: Operation)
    requires Sound(m) && !m.standing.how.Unloaded? && HaveFreshIds(m, ops)
    ensures var n := PerformAll(m, ops).0;
            DropsStored(n, op)
            <==> && CommitSucceeds(n, op) && Stored(n.disk.files, n.layouts) !in {None, Some([])}
                 && n.standing.stranded == None && LastRefused(m, ops)
  {
    hide Sound, HaveFreshIds, LastRefused, CommitSucceeds, DropsStored, Stored, PerformAll;
    RunsAreSound(m, ops);
    UnloadedIff(m, ops);
    DropsIff(PerformAll(m, ops).0, op);
  }

  // Restarting within a commit

  // The metadata is gone, or no list can be read from it.
  predicate Missed(before: Files, now: Files, layouts: Path) {
    var path := MetadataPath(layouts);
    (path in before && path !in now) || (path in now && Stored(now, layouts) == None)
  }

  /** After a stop at any point of a commit, the next start loads the old or the new list,
      except where the metadata is gone or cut off: then it loads nothing, although the old
      list is in the backup, or refuses to load. */
  lemma RestartLoads(m: Manager, updated: seq<Preset>, ticks: nat, now: Files)
    requires m.standing == COMMITTED && Agrees(m.disk.files, m.layouts, m.presets)
    requires Reloadable(m.presets) && Reloadable(updated)
    requires now in Commits(m, updated, ticks).trail
    ensures var before, path := m.disk.files, MetadataPath(m.layouts);
            && (!Missed(before, now, m.layouts) ==> Loaded(now, m.layouts) in {Some(m.presets), Some(updated)})
            && (path in before && path !in now ==>
                  Loaded(now, m.layouts) == Some([]) && InBackup(before, now, path, NextSuffix(m.disk, ticks)))
            && (path in now && Stored(now, m.layouts) == None ==> Loaded(now, m.layouts) == None)
  {
    hide Replaced, NextSuffix, Backup, Temporary, MetadataPath, Confined, Reloadable, Landed, ListKept, Listed,
         Succeeds,
         RollbackFails;
    ReplacementMeans(m.disk, MetadataPath(m.layouts), Metadata(updated), ticks);
    LandedList(m.disk, updated);
  }

  /** There is such a point exactly if the old metadata was renamed away on the way, or the
      commit succeeded although its list was cut off. */
  lemma RestartMissesIff(m: Manager, updated: seq<Preset>, ticks: nat)
    requires m.standing == COMMITTED && Agrees(m.disk.files, m.layouts, m.presets)
    ensures var d, path := m.disk, MetadataPath(m.layouts);
            (exists now :: now in Commits(m, updated, ticks).trail && Missed(d.files, now, m.layouts))
            <==> || (Prepared(d) && FindsTarget(d, path) && d.succeeds(d.asked + 5))
                 || (Succeeds(d, path) && !ListKept(d))
  {
    hide NextSuffix, Backup, Temporary, MetadataPath, Confined, Replaced, Landed, ListKept, Listed, Succeeds, InBackup,
         Prepared, FindsTarget;
    var path := MetadataPath(m.layouts);
    ReplacementMeans(m.disk, path, Metadata(updated), ticks);
    OutcomeIff(m.disk, path, Metadata(updated), ticks);
    LandedList(m.disk, updated);
    FindsOnlyStored(m.disk, path);
    if path in m.disk.files {
      GapIff(m.disk, path, Metadata(updated), ticks);
    }
    var c := Commits(m, updated, ticks);
    if c.outcome.Committed? && !ListKept(m.disk) {
      assert c.manager.disk.files in c.trail;
    }
  }

  lemma FindsOnlyStored(d: Disk, path: Path)
    ensures FindsTarget(d, path) ==> path in d.files
  {
  }

  /** A commit on which every call succeeds: stopped between the two renames, it restarts
      with an empty list, although two presets were committed before. */
  lemma RestartForgets()
    ensures var d := Disk(map[MetadataPath([]) := Metadata(TWO_PRESETS)], (k: nat) => true, (k: nat) => 0, 0, 0);
            var c := Commits(Manager([], TWO_PRESETS, None, COMMITTED, d), TWO_PRESETS[..1], 0);
            && c.outcome == Committed && |c.trail| > 2
            && Loaded(c.trail[2], []) == Some([])
  {
    hide Temporary, Backup, Suffix, IsSuffix, MetadataPath;
    BackupIsOther(MetadataPath([]), Suffix(0, 1));
  }

  // A list that a blank import has left behind.
  const WITH_BLANK := [Preset("a", "One", "presets/a.ini"), Preset("b", " ", "presets/b.ini")]

  /** With no call failing: a start refuses such a list, the process goes on with an empty
      one, and saving a layout replaces it; no file holds the stored list any more. */
  lemma RefusedStartDropsList(ini: string)
    requires IsValidIni(ini)
    ensures var stored := map[MetadataPath([]) := Metadata(WITH_BLANK)];
            var start := Restarted([], Disk(stored, (k: nat) => true, (k: nat) => 0, 0, 0));
            var m, added := start.manager, [Preset("c", "Three", "presets/c.ini")];
            && !start.outcome.Committed? && m.presets == [] && m.standing == Standing(Unloaded, None)
            && var c := Perform(m, CreateFrom("Three", ini, "c", 0, 0));
               && c.outcome.Committed?
               && c.manager.disk.files
                     == map[MetadataPath([]) := Metadata(added), SnapshotPath([], "c") := Snapshot(ini)]
  {
    hide MetadataPath, SnapshotPath, AfterNew, IsValidIni, IsValidName, Reloadable, Appended;
    BlankIsRefused();
    ThirdIsAdded();
    var stored := map[MetadataPath([]) := Metadata(WITH_BLANK)];
    var m := Restarted([], Disk(stored, (k: nat) => true, (k: nat) => 0, 0, 0)).manager;
    FlawlessSave(m, "Three", "c", ini);
  }

  lemma BlankIsRefused()
    ensures !Reloadable(WITH_BLANK)
  {
    assert !IsValidName(WITH_BLANK[1].name);
    assert !NamesValid(WITH_BLANK);
    hide Sane;
  }

  lemma ThirdIsAdded()
    ensures IsValidName("Three")
    ensures Appended([], "Three", "c") == [Preset("c", "Three", "presets/c.ini")]
  {
    assert "Three"[0] == 'T';
    assert UniqueName([], "Three") == "Three";
    assert RelativeFile("c") == "presets/c.ini";
  }

  // Saving a layout when every call succeeds and the metadata is the only file.
  lemma FlawlessSave(m: Manager, name: string, id: string, ini: string)
    requires m.disk.succeeds == ((k: nat) => true)
    requires m.disk.files.Keys == {MetadataPath(m.layouts)}
    ensures var c, added := AfterNew(m, name, id, ini, 0, 0), Appended(m.presets, name, id);
            && c.outcome.Committed?
            && c.manager.disk.files
               == map[MetadataPath(m.layouts) := Metadata(added), SnapshotPath(m.layouts, id) := Snapshot(ini)]
  {
    hide Replaced, MetadataPath, SnapshotPath, Appended, StandingAfter;
    StoredNames(m.layouts, id);
    var next := m.disk.(asked := m.disk.asked + 1);
    FlawlessReplacement(next, SnapshotPath(m.layouts, id), Snapshot(ini));
    var first := Writes(m.(disk := next), id, ini, 0).manager;
    FlawlessReplacement(first.disk, MetadataPath(m.layouts), Metadata(Appended(m.presets, name, id)));
  }

  lemma FlawlessReplacement(d: Disk, path: Path, content: Content)
    requires d.succeeds == ((k: nat) => true) && IsStored(path)
    requires forall p :: p in d.files ==> IsStored(p)
    ensures var r := Replaced(d, path, content, 0);
            && r.outcome.Committed? && r.disk.files == d.files[path := content] && r.disk.succeeds == d.succeeds
  {
    hide Temporary, Backup, IsSuffix, NextSuffix, IsStored, Placed;
    var suffix := NextSuffix(d, 0);
    SuffixIsOne(d, 0);
    BackupIsOther(path, suffix);
    forall p | p in d.files || p == path
      ensures p != Temporary(path, suffix) && p != Backup(path, suffix)
    {
      ScratchNames(path, suffix, p);
    }
    var next := Written(d.(asked := d.asked + 1, counter := d.counter + 1), Temporary(path, suffix), content).0;
    FlawlessPlace(next, path, suffix);
    assert d.files[Temporary(path, suffix) := content] - {Temporary(path, suffix)} == d.files;
  }

  lemma FlawlessPlace(d: Disk, path: Path, suffix: string)
    requires d.succeeds == ((k: nat) => true) && IsSuffix(suffix)
    requires Temporary(path, suffix) in d.files && Backup(path, suffix) !in d.files
    ensures var r, temporary := Placed(d, path, suffix), Temporary(path, suffix);
            && r.outcome.Committed? && r.disk.succeeds == d.succeeds
            && r.disk.files == (d.files - {temporary})[path := d.files[temporary]]
  {
    hide Temporary, Backup, IsSuffix;
    BackupIsOther(path, suffix);
  }

  // The snapshots

  ghost predicate Spares(before: Files, trail: seq<Files>, layouts: Path, id: string) {
    forall now :: now in trail ==> SameAt(before, now, SnapshotPath(layouts, id))
  }

  // The operation's own snapshot is another file.
  predicate ActsElsewhere(op: Operation, layouts: Path, id: string) {
    OwnId(op).Some? ==> SnapshotPath(layouts, OwnId(op).value) != SnapshotPath(layouts, id)
  }

  lemma CommitSpares(m: Manager, updated: seq<Preset>, ticks: nat, id: string)
    ensures var c := Commits(m, updated, ticks);
            && Spares(m.disk.files, c.trail, m.layouts, id)
            && SameAt(m.disk.files, c.manager.disk.files, SnapshotPath(m.layouts, id))
  {
    hide Replaced, NextSuffix, Backup, Temporary, MetadataPath, SnapshotPath, Held, IsSuffix, Landed, StandingAfter;
    var path, suffix := MetadataPath(m.layouts), NextSuffix(m.disk, ticks);
    ReplacementMeans(m.disk, path, Metadata(updated), ticks);
    StoredNames(m.layouts, id);
    SuffixIsOne(m.disk, ticks);
    ScratchNames(path, suffix, SnapshotPath(m.layouts, id));
    var r := Replaced(m.disk, path, Metadata(updated), ticks);
    if r.trail != [] {
      assert Confined(m.disk.files, r.disk.files, path, suffix);
    }
  }

  lemma WriteSpares(m: Manager, own: string, ini: string, ticks: nat, id: string)
    requires SnapshotPath(m.layouts, own) != SnapshotPath(m.layouts, id)
    ensures var c := Writes(m, own, ini, ticks);
            && Spares(m.disk.files, c.trail, m.layouts, id)
            && SameAt(m.disk.files, c.manager.disk.files, SnapshotPath(m.layouts, id))
  {
    hide Replaced, NextSuffix, Backup, Temporary, MetadataPath, SnapshotPath, Held, IsSuffix, Landed;
    var path, suffix := SnapshotPath(m.layouts, own), NextSuffix(m.disk, ticks);
    ReplacementMeans(m.disk, path, Snapshot(ini), ticks);
    StoredNames(m.layouts, id);
    SuffixIsOne(m.disk, ticks);
    ScratchNames(path, suffix, SnapshotPath(m.layouts, id));
    var r := Replaced(m.disk, path, Snapshot(ini), ticks);
    if r.trail != [] {
      assert Confined(m.disk.files, r.disk.files, path, suffix);
    }
  }

  lemma RemovalSpares(before: Files, done: Done, own: string, id: string)
    requires SnapshotPath(done.manager.layouts, own) != SnapshotPath(done.manager.layouts, id)
    requires Spares(before, done.trail, done.manager.layouts, id)
    requires SameAt(before, done.manager.disk.files, SnapshotPath(done.manager.layouts, id))
    ensures var c := Removes(done, own);
            && Spares(before, c.trail, done.manager.layouts, id)
            && SameAt(before, c.manager.disk.files, SnapshotPath(done.manager.layouts, id))
  {
    hide SnapshotPath;
  }

  /** An update keeps its own snapshot intact wherever it stops, old or new, exactly unless
      it succeeds without its closing flush; a success leaves what has landed. */
  lemma UpdateIntactIff(m: Manager, id: string, captured: string, ticks: nat)
    ensures var c, path := Writes(m, id, captured, ticks), SnapshotPath(m.layouts, id);
            && ((forall now :: now in c.trail ==>
                   Intact(m.disk.files, now, path, NextSuffix(m.disk, ticks), Snapshot(captured)))
                <==> !Damages(m.disk, path, Snapshot(captured)))
            && (Succeeds(m.disk, path) ==> AtTarget(c.manager.disk.files, path, Landed(m.disk, Snapshot(captured))))
            && (!Succeeds(m.disk, path) && !RollbackFails(m.disk, path) ==>
                  SameAt(m.disk.files, c.manager.disk.files, path))
  {
    hide Replaced, NextSuffix, Held, Confined, SnapshotPath, AtTarget, Damages, Intact, SameAt, Landed, Succeeds,
         RollbackFails;
    ReplacementMeans(m.disk, SnapshotPath(m.layouts, id), Snapshot(captured), ticks);
    OutcomeIff(m.disk, SnapshotPath(m.layouts, id), Snapshot(captured), ticks);
    IntactIff(m.disk, SnapshotPath(m.layouts, id), Snapshot(captured), ticks);
  }

  lemma SparesChain(before: Files, mid: Files, first: seq<Files>, second: seq<Files>, layouts: Path, id: string)
    requires Spares(before, first, layouts, id) && SameAt(before, mid, SnapshotPath(layouts, id))
    requires Spares(mid, second, layouts, id)
    ensures Spares(before, first + second, layouts, id)
  {
    hide SnapshotPath;
  }

  lemma SparesNothing(before: Files, layouts: Path, id: string)
    ensures Spares(before, [], layouts, id)
  {
  }

  lemma NewSpares(m: Manager, name: string, own: string, ini: string, ticks: nat, moreTicks: nat, id: string)
    requires SnapshotPath(m.layouts, own) != SnapshotPath(m.layouts, id)
    ensures var c := AfterNew(m, name, own, ini, ticks, moreTicks);
            && Spares(m.disk.files, c.trail, m.layouts, id)
            && SameAt(m.disk.files, c.manager.disk.files, SnapshotPath(m.layouts, id))
            && c.manager.layouts == m.layouts
  {
    hide Replaced, Appended, SnapshotPath, MetadataPath, Spares, StandingAfter;
    SparesNothing(m.disk.files, m.layouts, id);
    var next := m.(disk := m.disk.(asked := m.disk.asked + 1));
    var first := Writes(next, own, ini, ticks);
    WriteSpares(next, own, ini, ticks, id);
    var second := Commits(first.manager, Appended(m.presets, name, own), moreTicks);
    CommitSpares(first.manager, Appended(m.presets, name, own), moreTicks, id);
    SparesChain(m.disk.files, first.manager.disk.files, first.trail, second.trail, m.layouts, id);
    RemovalSpares(m.disk.files, second.(trail := first.trail + second.trail), own, id);
  }

  lemma DeleteSpares(m: Manager, own: string, ticks: nat, id: string)
    requires SnapshotPath(m.layouts, own) != SnapshotPath(m.layouts, id)
    ensures var c := AfterDelete(m, own, ticks);
            && Spares(m.disk.files, c.trail, m.layouts, id)
            && SameAt(m.disk.files, c.manager.disk.files, SnapshotPath(m.layouts, id))
            && c.manager.layouts == m.layouts
  {
    hide Commits, Without, SnapshotPath;
    var i := IndexOf(m.presets, own);
    if i < |m.presets| {
      CommitSpares(m, Without(m.presets, i), ticks, id);
      CommitKeepsPlace(m, Without(m.presets, i), ticks);
      var c := Commits(m, Without(m.presets, i), ticks);
      RemovalSpares(m.disk.files, c.(manager := c.manager.(active := if m.active == Some(own) then None else m.active)),
                    own, id);
    }
  }

  /** Wherever an operation stops, every snapshot in another file is as it was. */
  lemma PerformSpares(m: Manager, op: Operation, id: string)
    requires ActsElsewhere(op, m.layouts, id)
    ensures var c := Perform(m, op);
            && Spares(m.disk.files, c.trail, m.layouts, id)
            && SameAt(m.disk.files, c.manager.disk.files, SnapshotPath(m.layouts, id))
            && c.manager.layouts == m.layouts
    decreases op
  {
    hide LF.Deserialized, IsValidName, IsValidIni, SnapshotPath, MetadataPath, Appended, Without, Moved, Commits,
         Writes,
         AfterNew, AfterDelete, Spares, Restarted, Sound, FilesAfter, NameTakenByOther, HasId;
    SparesNothing(m.disk.files, m.layouts, id);
    match op
    case MoveTo(own, destination, ticks) =>
      var i := IndexOf(m.presets, own);
      if i < |m.presets| && destination < |m.presets| {
        CommitSpares(m, Moved(m.presets, i, destination), ticks, id);
        CommitKeepsPlace(m, Moved(m.presets, i, destination), ticks);
      }
    case RenameTo(own, name, ticks) =>
      var i := IndexOf(m.presets, own);
      if i < |m.presets| {
        CommitSpares(m, m.presets[i := m.presets[i].(name := name)], ticks, id);
        CommitKeepsPlace(m, m.presets[i := m.presets[i].(name := name)], ticks);
      }
    case DeleteOf(own, ticks) => DeleteSpares(m, own, ticks, id);
    case UpdateOf(own, captured, ticks) =>
      WriteSpares(m, own, captured, ticks, id);
      WriteHow(m, own, captured, ticks);
    case CreateFrom(name, ini, own, ticks, moreTicks) => NewSpares(m, name, own, ini, ticks, moreTicks, id);
    case ImportFrom(text, own, ticks, moreTicks) =>
      match LF.Deserialized(text) {
        case Failure(_) =>
        case Success(data) => NewSpares(m, data.name, own, data.imguiIni, ticks, moreTicks, id);
      }
    case Restart => StartMeans(m.layouts, m.disk);
    case StopWithin(during, at) =>
      PerformSpares(m, during, id);
      StoppedSpares(m, during, at, id);
  }

  lemma StoppedSpares(m: Manager, during: Operation, at: nat, id: string)
    requires Spares(m.disk.files, Perform(m, during).trail, m.layouts, id)
    ensures var c := Perform(m, StopWithin(during, at));
            && Spares(m.disk.files, c.trail, m.layouts, id)
            && SameAt(m.disk.files, c.manager.disk.files, SnapshotPath(m.layouts, id))
            && c.manager.layouts == m.layouts
  {
    hide SnapshotPath, Perform, Spares, Restarted, Sound;
    var first := Perform(m, during);
    StopSpares(m.disk.files, first.trail, at, m.layouts, id);
    StartMeans(m.layouts, StoppedDisk(m, first, at));
    StopIs(m, during, at);
  }

  lemma StopSpares(before: Files, trail: seq<Files>, at: nat, layouts: Path, id: string)
    requires Spares(before, trail, layouts, id)
    ensures Spares(before, trail[..if at < |trail| then at else |trail|], layouts, id)
    ensures SameAt(before, FilesAfter(before, trail, at), SnapshotPath(layouts, id))
  {
    hide SnapshotPath;
  }

  /** Over any sequence of operations that act on other files, stops and starts included, a
      snapshot is the same at every point. */
  lemma {:induction false} RunsSpare(m: Manager, ops: seq<Operation>, id: string)
    requires forall op :: op in ops ==> ActsElsewhere(op, m.layouts, id)
    ensures Spares(m.disk.files, PerformAll(m, ops).1, m.layouts, id)
    ensures SameAt(m.disk.files, PerformAll(m, ops).0.disk.files, SnapshotPath(m.layouts, id))
    ensures PerformAll(m, ops).0.layouts == m.layouts
  {
    hide Perform, SnapshotPath, Spares, ActsElsewhere;
    if ops == [] {
      SparesNothing(m.disk.files, m.layouts, id);
    } else {
      var front, last := ops[..|ops| - 1], ops[|ops| - 1];
      RunsSpare(m, front, id);
      var n, trail := PerformAll(m, front).0, PerformAll(m, front).1;
      PerformSpares(n, last, id);
      SparesChain(m.disk.files, n.disk.files, trail, Perform(n, last).trail, m.layouts, id);
    }
  }

  const ALIASES := [Preset("a", "One", "presets/a.ini"), Preset("./a", "Two", "presets/./a.ini")]

  /** A list that a start accepts, and on which updating one preset overwrites the snapshot
      of the other. */
  lemma AliasedUpdateOverwrites(captured: string)
    requires IsValidIni(captured)
    ensures Reloadable(ALIASES)
    ensures var files := map[MetadataPath([]) := Metadata(ALIASES), SnapshotPath([], "a") := Snapshot("old")];
            var d := Disk(files, (k: nat) => true, (k: nat) => 0, 0, 0);
            var c := Perform(Manager([], ALIASES, None, COMMITTED, d), UpdateOf("./a", captured, 0));
            c.outcome.Committed? && AtTarget(c.manager.disk.files, SnapshotPath([], "a"), Snapshot(captured))
  {
    AliasesLoad();
    AliasedSnapshots([]);
    hide SnapshotPath, MetadataPath, Replaced, Components, Elements, IsValidIni, Reloadable;
    var files := map[MetadataPath([]) := Metadata(ALIASES), SnapshotPath([], "a") := Snapshot("old")];
    var d := Disk(files, (k: nat) => true, (k: nat) => 0, 0, 0);
    UpdateIntactIff(Manager([], ALIASES, None, COMMITTED, d), "./a", captured, 0);
    OutcomeIff(d, SnapshotPath([], "./a"), Snapshot(captured), 0);
    assert IndexOf(ALIASES, "./a") < 2 by { assert ALIASES[1].id == "./a"; }
  }

  lemma AliasesLoad()
    ensures Reloadable(ALIASES)
  {
    hide Components, Elements;
    assert RelativeFile("a") == "presets/a.ini" && RelativeFile("./a") == "presets/./a.ini";
    assert ALIASES[0].name[0] == 'O' && ALIASES[1].name[0] == 'T';
  }

  // From empty storage, with generated ids

  predicate Regular(presets: seq<Preset>) {
    DistinctNames(presets) && forall i :: 0 <= i < |presets| ==> IsPlain(presets[i].id)
  }

  predicate RegularStore(files: Files, layouts: Path) {
    Stored(files, layouts).Some? ==> Regular(Stored(files, layouts).value)
  }

  predicate IsRegular(m: Manager) {
    Regular(m.presets) && RegularStore(m.disk.files, m.layouts)
  }

  ghost predicate Generates(op: Operation) {
    match op
    case CreateFrom(_, _, freshId, _, _) => IsGenerated(freshId)
    case ImportFrom(_, freshId, _, _) => IsGenerated(freshId)
    case StopWithin(during, _) => Generates(during)
    case _ => true
  }

  lemma MovedPlain(presets: seq<Preset>, from: nat, to: nat)
    requires from < |presets| && to < |presets| && forall i :: 0 <= i < |presets| ==> IsPlain(presets[i].id)
    ensures forall i :: 0 <= i < |presets| ==> IsPlain(Moved(presets, from, to)[i].id)
  {
    hide IsPlain, Moved;
    forall k | 0 <= k < |presets|
      ensures IsPlain(Moved(presets, from, to)[k].id)
    {
      var j := MovedAt(presets, from, to, k);
    }
  }

  lemma EditKeepsRegular(presets: seq<Preset>, edit: Edit)
    requires Sane(presets) && FreshIds(presets, edit) && Regular(presets)
    requires edit.Create? || edit.Import? ==> IsPlain(edit.freshId)
    ensures Regular(Edited(presets, edit))
  {
    hide Sane, DistinctNames, IsPlain, Moved, UniqueName, RelativeFile, NameTakenByOther, IsValidName, HasId;
    EditKeepsSane(presets, edit);
    match edit
    case Move(id, to) =>
      var i := IndexOf(presets, id);
      if i < |presets| && to < |presets| {
        MovedPlain(presets, i, to);
      }
    case _ =>
  }

  lemma StoreOn(before: Files, now: Files, layouts: Path)
    requires SameAt(before, now, MetadataPath(layouts))
    ensures RegularStore(before, layouts) == RegularStore(now, layouts)
  {
    hide MetadataPath, Regular;
  }

  lemma CommitKeepsRegular(m: Manager, updated: seq<Preset>, ticks: nat)
    requires IsRegular(m) && Regular(updated)
    ensures IsRegular(Commits(m, updated, ticks).manager)
    ensures forall now :: now in Commits(m, updated, ticks).trail ==> RegularStore(now, m.layouts)
  {
    hide Replaced, NextSuffix, Backup, Temporary, MetadataPath, Confined, Landed, ListKept, Listed, Regular, InBackup,
         StandingAfter;
    var path, r := MetadataPath(m.layouts), Replaced(m.disk, MetadataPath(m.layouts), Metadata(updated), ticks);
    ReplacementMeans(m.disk, path, Metadata(updated), ticks);
    LandedList(m.disk, updated);
    if r.trail != [] {
      assert r.disk.files in r.trail;
    }
  }

  lemma WriteKeepsRegular(m: Manager, id: string, ini: string, ticks: nat)
    requires IsRegular(m)
    ensures IsRegular(Writes(m, id, ini, ticks).manager)
    ensures forall now :: now in Writes(m, id, ini, ticks).trail ==> RegularStore(now, m.layouts)
  {
    hide Replaced, MetadataPath, SnapshotPath, Regular, RegularStore;
    WriteKeepsMetadata(m, id, ini, ticks);
    StoreOn(m.disk.files, Writes(m, id, ini, ticks).manager.disk.files, m.layouts);
    forall now | now in Writes(m, id, ini, ticks).trail
      ensures RegularStore(now, m.layouts)
    {
      StoreOn(m.disk.files, now, m.layouts);
    }
  }

  lemma RemovalKeepsRegular(done: Done, id: string)
    requires IsRegular(done.manager) && forall now :: now in done.trail ==> RegularStore(now, done.manager.layouts)
    ensures IsRegular(Removes(done, id).manager)
    ensures forall now :: now in Removes(done, id).trail ==> RegularStore(now, done.manager.layouts)
  {
    hide MetadataPath, SnapshotPath, Regular, RegularStore;
    RemovalKeepsMetadata(done, id);
    StoreOn(done.manager.disk.files, Removes(done, id).manager.disk.files, done.manager.layouts);
  }

  lemma NewKeepsRegular(m: Manager, name: string, id: string, ini: string, ticks: nat, moreTicks: nat)
    requires IsRegular(m) && Regular(Appended(m.presets, name, id))
    ensures var c := AfterNew(m, name, id, ini, ticks, moreTicks);
            IsRegular(c.manager) && c.manager.layouts == m.layouts
            && forall now :: now in c.trail ==> RegularStore(now, m.layouts)
  {
    hide Replaced, Appended, SnapshotPath, MetadataPath, StandingAfter, Regular, RegularStore;
    var next := m.(disk := m.disk.(asked := m.disk.asked + 1));
    var first := Writes(next, id, ini, ticks);
    WriteKeepsRegular(next, id, ini, ticks);
    var second := Commits(first.manager, Appended(m.presets, name, id), moreTicks);
    CommitKeepsRegular(first.manager, Appended(m.presets, name, id), moreTicks);
    RemovalKeepsRegular(second.(trail := first.trail + second.trail), id);
  }

  lemma DeleteKeepsRegular(m: Manager, id: string, ticks: nat)
    requires IsRegular(m) && IndexOf(m.presets, id) < |m.presets|
    requires Regular(Without(m.presets, IndexOf(m.presets, id)))
    ensures var c := AfterDelete(m, id, ticks);
            IsRegular(c.manager) && c.manager.layouts == m.layouts
            && forall now :: now in c.trail ==> RegularStore(now, m.layouts)
  {
    hide Commits, Without, SnapshotPath, MetadataPath, Regular, RegularStore;
    var updated := Without(m.presets, IndexOf(m.presets, id));
    CommitKeepsRegular(m, updated, ticks);
    CommitKeepsPlace(m, updated, ticks);
    var c := Commits(m, updated, ticks);
    RemovalKeepsRegular(c.(manager := c.manager.(active := if m.active == Some(id) then None else m.active)), id);
  }

  lemma StartKeepsRegular(layouts: Path, disk: Disk)
    requires RegularStore(disk.files, layouts)
    ensures IsRegular(Restarted(layouts, disk).manager)
  {
    hide MetadataPath, Restarted, Sound;
    StartMeans(layouts, disk);
  }

  lemma StopKeepsRegular(before: Files, trail: seq<Files>, at: nat, layouts: Path)
    requires RegularStore(before, layouts) && forall now :: now in trail ==> RegularStore(now, layouts)
    ensures RegularStore(FilesAfter(before, trail, at), layouts)
  {
    hide RegularStore;
  }

  lemma PerformKeepsRegular(m: Manager, op: Operation)
    requires Sound(m) && IsRegular(m) && HasFreshId(m.presets, op) && Generates(op)
    ensures var c := Perform(m, op);
            IsRegular(c.manager) && c.manager.layouts == m.layouts
            && forall now :: now in c.trail ==> RegularStore(now, m.layouts)
    decreases op
  {
    hide LF.Deserialized, IsValidName, IsValidIni, SnapshotPath, MetadataPath, Appended, Without, Moved, Commits,
         Writes,
         AfterNew, AfterDelete, Restarted, Stands, Sane, HasId, Regular, RegularStore, IsGenerated, IsPlain, FilesAfter,
         NameTakenByOther;
    FreshIsPlain(op);
    if EditOf(op).Some? {
      EditKeepsRegular(m.presets, EditOf(op).value);
    }
    match op
    case MoveTo(id, destination, ticks) =>
      var i := IndexOf(m.presets, id);
      if i < |m.presets| && destination < |m.presets| {
        CommitKeepsRegular(m, Moved(m.presets, i, destination), ticks);
        CommitKeepsPlace(m, Moved(m.presets, i, destination), ticks);
      }
    case RenameTo(id, name, ticks) =>
      var i := IndexOf(m.presets, id);
      if i < |m.presets| && IsValidName(name) && !NameTakenByOther(m.presets, id, name) {
        CommitKeepsRegular(m, m.presets[i := m.presets[i].(name := name)], ticks);
        CommitKeepsPlace(m, m.presets[i := m.presets[i].(name := name)], ticks);
      }
    case DeleteOf(id, ticks) =>
      if IndexOf(m.presets, id) < |m.presets| {
        DeleteKeepsRegular(m, id, ticks);
      } else {
        NothingDeleted(m, id, ticks);
      }
    case UpdateOf(id, captured, ticks) =>
      WriteKeepsRegular(m, id, captured, ticks);
      WriteHow(m, id, captured, ticks);
    case CreateFrom(name, ini, freshId, ticks, moreTicks) =>
      if IsValidName(name) && IsValidIni(ini) {
        NewKeepsRegular(m, name, freshId, ini, ticks, moreTicks);
      }
    case ImportFrom(text, freshId, ticks, moreTicks) =>
      match LF.Deserialized(text) {
        case Failure(_) =>
        case Success(data) => NewKeepsRegular(m, data.name, freshId, data.imguiIni, ticks, moreTicks);
      }
    case Restart =>
      StartMeans(m.layouts, m.disk);
      StartKeepsRegular(m.layouts, m.disk);
    case StopWithin(during, at) =>
      PerformKeepsRegular(m, during);
      var first := Perform(m, during);
      StopKeepsRegular(m.disk.files, first.trail, at, m.layouts);
      StartMeans(m.layouts, StoppedDisk(m, first, at));
      StartKeepsRegular(m.layouts, StoppedDisk(m, first, at));
  }

  lemma FreshIsPlain(op: Operation)
    requires Generates(op)
    ensures var e := EditOf(op); e.Some? && (e.value.Create? || e.value.Import?) ==> IsPlain(e.value.freshId)
    ensures (op.CreateFrom? || op.ImportFrom?) ==> IsPlain(op.freshId)
  {
    hide IsGenerated, IsPlain, LF.Deserialized;
    match op
    case CreateFrom(_, _, freshId, _, _) => GeneratedIsPlain(freshId);
    case ImportFrom(_, freshId, _, _) => GeneratedIsPlain(freshId);
    case _ =>
  }

  /** From regular storage, such as none, and with generated ids, every run of operations,
      stops and starts leaves names distinct and ids without a separator, in memory and
      in what is stored. */
  lemma {:induction false} RunsAreRegular(m: Manager, ops: seq<Operation>)
    requires Sound(m) && IsRegular(m) && HaveFreshIds(m, ops) && forall op :: op in ops ==> Generates(op)
    ensures IsRegular(PerformAll(m, ops).0) && Sound(PerformAll(m, ops).0)
  {
    hide Perform, HasFreshId, Sound, HaveFreshIds, IsRegular, Generates;
    if ops != [] {
      var front, last := ops[..|ops| - 1], ops[|ops| - 1];
      FreshBeforeLast(m, ops);
      BeforeIs(m, ops, |ops| - 1);
      RunsAreRegular(m, front);
      PerformKeepsSound(PerformAll(m, front).0, last);
      PerformKeepsRegular(PerformAll(m, front).0, last);
    }
  }

  lemma UnknownIsRefused(m: Manager, op: Operation)
    requires Regular(m.presets) && (op.DeleteOf? || op.UpdateOf?) && !IsPlain(op.id)
    ensures Perform(m, op) == Done(m, Refused, [])
  {
    hide IsPlain, DistinctNames;
    assert IndexOf(m.presets, op.id) == |m.presets|;
    match op
    case DeleteOf(id, ticks) => NothingDeleted(m, id, ticks);
    case UpdateOf(id, captured, ticks) => assert AfterUpdate(m, id, captured, ticks) == Done(m, Refused, []);
  }

  /** In a regular manager an operation on one preset leaves the snapshots of all others as
      they are, wherever it stops. */
  lemma PerformSparesOthers(m: Manager, op: Operation, id: string)
    requires IsRegular(m) && Generates(op) && IsPlain(id) && OwnId(op) != Some(id)
    ensures var c := Perform(m, op);
            && Spares(m.disk.files, c.trail, m.layouts, id)
            && SameAt(m.disk.files, c.manager.disk.files, SnapshotPath(m.layouts, id))
            && c.manager.layouts == m.layouts
    decreases op
  {
    hide SnapshotPath, Perform, IsPlain, Spares, IsGenerated, Regular, RegularStore, Restarted, Sound;
    FreshIsPlain(op);
    if op.StopWithin? {
      PerformSparesOthers(m, op.during, id);
      StoppedSpares(m, op.during, op.at, id);
    } else if OwnId(op).None? {
      PerformSpares(m, op, id);
    } else if IsPlain(OwnId(op).value) {
      PlainSnapshotsDiffer(m.layouts, OwnId(op).value, id);
      PerformSpares(m, op, id);
    } else {
      UnknownIsRefused(m, op);
      SparesNothing(m.disk.files, m.layouts, id);
    }
  }

  lemma StopIs(m: Manager, during: Operation, at: nat)
    ensures var first := Perform(m, during);
            Perform(m, StopWithin(during, at))
            == Restarted(m.layouts, StoppedDisk(m, first, at)).(
                 trail := first.trail[..if at < |first.trail| then at else |first.trail|])
  {
    hide Restarted, AfterMove, AfterRename, AfterDelete, AfterUpdate, AfterCreate, AfterImport, StoppedDisk;
  }

  /** Over every run from regular storage with generated ids, acting on one preset never
      changes the snapshot of another. */
  lemma {:induction false} RunsSpareOthers(m: Manager, ops: seq<Operation>, id: string)
    requires Sound(m) && IsRegular(m) && HaveFreshIds(m, ops) && forall op :: op in ops ==> Generates(op)
    requires IsPlain(id) && forall op :: op in ops ==> OwnId(op) != Some(id)
    ensures Spares(m.disk.files, PerformAll(m, ops).1, m.layouts, id)
    ensures SameAt(m.disk.files, PerformAll(m, ops).0.disk.files, SnapshotPath(m.layouts, id))
    ensures PerformAll(m, ops).0.layouts == m.layouts
  {
    hide Perform, SnapshotPath, Spares, OwnId, Sound, IsRegular, HaveFreshIds, Generates, IsPlain, HasFreshId;
    if ops == [] {
      SparesNothing(m.disk.files, m.layouts, id);
    } else {
      var front, last := ops[..|ops| - 1], ops[|ops| - 1];
      FreshBeforeLast(m, ops);
      RunsSpareOthers(m, front, id);
      RunsAreRegular(m, front);
      var n, trail := PerformAll(m, front).0, PerformAll(m, front).1;
      PerformSparesOthers(n, last, id);
      SparesChain(m.disk.files, n.disk.files, trail, Perform(n, last).trail, m.layouts, id);
    }
  }

  // The snapshots of new and deleted presets

  lemma FirstSnapshot(m: Manager, id: string, ini: string, ticks: nat)
    requires SnapshotPath(m.layouts, id) !in m.disk.files
    ensures var c, path := Writes(m, id, ini, ticks), SnapshotPath(m.layouts, id);
            && (c.outcome.Committed? <==> Succeeds(m.disk, path))
            && c.manager.disk.succeeds == m.disk.succeeds && c.manager.layouts == m.layouts
            && (if c.outcome.Committed? then AtTarget(c.manager.disk.files, path, Landed(m.disk, Snapshot(ini)))
                else path !in c.manager.disk.files)
  {
    hide Replaced, SnapshotPath, Confined, SameExcept, NextSuffix, Landed, Succeeds, RollbackFails, InBackup;
    var path := SnapshotPath(m.layouts, id);
    ReplacementMeans(m.disk, path, Snapshot(ini), ticks);
    OutcomeIff(m.disk, path, Snapshot(ini), ticks);
    AnswersStay(m.disk, path, Snapshot(ini), ticks);
  }

  lemma SecondSnapshot(first: Done, updated: seq<Preset>, id: string, ticks: nat)
    ensures var c, path := CommitsAfter(first, updated, id, ticks), SnapshotPath(first.manager.layouts, id);
            && (c.outcome.Committed? ==> SameAt(first.manager.disk.files, c.manager.disk.files, path))
            && (c.outcome.Refused? && path in c.manager.disk.files ==>
                  c.manager.disk.asked > 0 && !first.manager.disk.succeeds(c.manager.disk.asked - 1))
  {
    hide Replaced, SnapshotPath, MetadataPath, Spares, NextSuffix, StandingAfter;
    var m := first.manager;
    CommitSpares(m, updated, ticks, id);
    AnswersStay(m.disk, MetadataPath(m.layouts), Metadata(updated), ticks);
  }

  /** A new preset's snapshot is what has landed when it is committed; a refusal leaves
      none, unless its removal failed. */
  lemma NewSnapshot(m: Manager, name: string, id: string, ini: string, ticks: nat, moreTicks: nat)
    requires SnapshotPath(m.layouts, id) !in m.disk.files
    ensures var c, path := AfterNew(m, name, id, ini, ticks, moreTicks), SnapshotPath(m.layouts, id);
            && (c.outcome.Committed? ==>
                  AtTarget(c.manager.disk.files, path, Landed(m.disk.(asked := m.disk.asked + 1), Snapshot(ini))))
            && (c.outcome.Refused? && path in c.manager.disk.files ==>
                  c.manager.disk.asked > 0 && !m.disk.succeeds(c.manager.disk.asked - 1))
  {
    hide Replaced, Appended, SnapshotPath, Writes, CommitsAfter, Landed, Succeeds;
    var next := m.(disk := m.disk.(asked := m.disk.asked + 1));
    FirstSnapshot(next, id, ini, ticks);
    SecondSnapshot(Writes(next, id, ini, ticks), Appended(m.presets, name, id), id, moreTicks);
  }

  /** A deletion that is committed removes the snapshot, if the file system does. */
  lemma DeleteRemoves(m: Manager, id: string, ticks: nat)
    requires AfterDelete(m, id, ticks).outcome.Committed?
    ensures var c, path := AfterDelete(m, id, ticks), SnapshotPath(m.layouts, id);
            path in c.manager.disk.files
            <==> path in m.disk.files && c.manager.disk.asked > 0 && !m.disk.succeeds(c.manager.disk.asked - 1)
  {
    hide Replaced, Without, MetadataPath, SnapshotPath, Spares, NextSuffix, StandingAfter;
    var i := IndexOf(m.presets, id);
    var updated := if i < |m.presets| then Without(m.presets, i) else [];
    CommitSpares(m, updated, ticks, id);
    AnswersStay(m.disk, MetadataPath(m.layouts), Metadata(updated), ticks);
  }
}
