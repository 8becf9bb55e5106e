/** What the operations on layout presets do to the list, entry by entry, and what a stop
    may leave in the files. */
module LayoutLaws {
  import opened Prelude
  import opened StoragePaths
  import opened LayoutNames
  import opened FileStore
  import LF = LayoutFile
  import opened LayoutStore
  import opened LayoutRuns

  // The list

  predicate InUse(presets: seq<Preset>, name: string) {
    exists i :: 0 <= i < |presets| && presets[i].name == name
  }

  /** The requested name where it is free, and else its first copy that is, from the second
      on. */
  ghost predicate FirstUnused(presets: seq<Preset>, requested: string, name: string) {
    if !InUse(presets, requested) then name == requested
    else exists copy: nat ::
      && copy >= 2 && name == requested + " (" + Decimal(copy) + ")" && !InUse(presets, name)
      && forall earlier: nat :: 2 <= earlier < copy ==> InUse(presets, requested + " (" + Decimal(earlier) + ")")
  }

  lemma InUseIff(presets: seq<Preset>, name: string)
    ensures InUse(presets, name) <==> name in Names(presets)
  {
    hide Names;
  }

  lemma UniqueIsFirstUnused(presets: seq<Preset>, requested: string)
    ensures FirstUnused(presets, requested, UniqueName(presets, requested))
  {
    hide Names, FirstFree, InUse;
    InUseIff(presets, requested);
    if InUse(presets, requested) {
      var names := Names(presets);
      var copy := FirstFree(names, requested, 2);
      InUseIff(presets, Candidate(requested, copy));
      forall earlier: nat | 2 <= earlier < copy
        ensures InUse(presets, requested + " (" + Decimal(earlier) + ")")
      {
        InUseIff(presets, Candidate(requested, earlier));
        assert Candidate(requested, earlier) == requested + " (" + Decimal(earlier) + ")";
      }
      assert UniqueName(presets, requested) == Candidate(requested, copy);
      assert Candidate(requested, copy) == requested + " (" + Decimal(copy) + ")";
    }
  }

  // All presets stay in their places, and a new one with a file of its own follows.
  ghost predicate Grows(before: seq<Preset>, after: seq<Preset>, name: string, id: string) {
    && |after| == |before| + 1
    && (forall i :: 0 <= i < |before| ==> after[i] == before[i])
    && after[|before|].id == id && FirstUnused(before, name, after[|before|].name)
    && after[|before|].relativeFile == (if IsAbsolute(id) then id + ".ini" else "presets/" + id + ".ini")
  }

  lemma AppendedGrows(presets: seq<Preset>, name: string, id: string)
    ensures Grows(presets, Appended(presets, name, id), name, id)
  {
    hide UniqueName, FirstUnused;
    UniqueIsFirstUnused(presets, name);
  }

  // The snapshot of the new preset is the layout, or what has landed of it.
  predicate HoldsSnapshot(m: Manager, files: Files, id: string, ini: string) {
    AtTarget(files, SnapshotPath(m.layouts, id), Landed(m.disk.(asked := m.disk.asked + 1), Snapshot(ini)))
  }

  lemma NewNeedsNoSnapshot(m: Manager, name: string, id: string, ini: string, ticks: nat, moreTicks: nat)
    requires AfterNew(m, name, id, ini, ticks, moreTicks).outcome.Committed?
    ensures SnapshotPath(m.layouts, id) !in m.disk.files
  {
    hide Writes, CommitsAfter, SnapshotPath;
  }

  /** A new preset that is saved is the last of the list, under the name asked for or its
      first free copy; every other preset stays in its place. */
  lemma CreationGrows(m: Manager, op: Operation)
    requires op.CreateFrom? && Perform(m, op).outcome.Committed?
    ensures var n := Perform(m, op).manager;
            && Grows(m.presets, n.presets, op.name, op.freshId) && n.active == m.active
            && IsValidName(op.name) && IsValidIni(op.ini) && HoldsSnapshot(m, n.disk.files, op.freshId, op.ini)
  {
    hide AfterNew, IsValidName, IsValidIni, Appended, Grows, SnapshotPath, Landed;
    NewNeedsNoSnapshot(m, op.name, op.freshId, op.ini, op.ticks, op.moreTicks);
    NewSnapshot(m, op.name, op.freshId, op.ini, op.ticks, op.moreTicks);
    NewEdits(m, op.name, op.freshId, op.ini, op.ticks, op.moreTicks);
    NewKeepsActive(m, op.name, op.freshId, op.ini, op.ticks, op.moreTicks);
    AppendedGrows(m.presets, op.name, op.freshId);
  }

  /** So is an imported one, under the name and with the layout that its text holds. */
  lemma ImportGrows(m: Manager, op: Operation)
    requires op.ImportFrom? && Perform(m, op).outcome.Committed?
    ensures var n, read := Perform(m, op).manager, LF.Deserialized(op.text);
            && read.Success? && Grows(m.presets, n.presets, read.value.name, op.freshId) && n.active == m.active
            && HoldsSnapshot(m, n.disk.files, op.freshId, read.value.imguiIni)
  {
    hide AfterNew, LF.Deserialized, Appended, Grows, SnapshotPath, Landed;
    var read := LF.Deserialized(op.text);
    if read.Success? {
      NewNeedsNoSnapshot(m, read.value.name, op.freshId, read.value.imguiIni, op.ticks, op.moreTicks);
      NewSnapshot(m, read.value.name, op.freshId, read.value.imguiIni, op.ticks, op.moreTicks);
      NewEdits(m, read.value.name, op.freshId, read.value.imguiIni, op.ticks, op.moreTicks);
      NewKeepsActive(m, read.value.name, op.freshId, read.value.imguiIni, op.ticks, op.moreTicks);
      AppendedGrows(m.presets, read.value.name, op.freshId);
    }
  }

  lemma NewKeepsActive(m: Manager, name: string, id: string, ini: string, ticks: nat, moreTicks: nat)
    ensures AfterNew(m, name, id, ini, ticks, moreTicks).manager.active == m.active
  {
    hide Replaced, Appended, SnapshotPath, MetadataPath, StandingAfter;
  }

  /** A renaming that is saved changes the name of the preset with that id and nothing else;
      the name fits and no other preset has it. */
  lemma RenamingRenames(m: Manager, op: Operation)
    requires Sane(m.presets) && op.RenameTo? && Perform(m, op).outcome.Committed?
    ensures var n, before, after := Perform(m, op).manager, m.presets, Perform(m, op).manager.presets;
            && HasId(before, op.id) && IsValidName(op.name) && |after| == |before| && n.active == m.active
            && (forall i :: 0 <= i < |before| ==>
                  && after[i].id == before[i].id && after[i].relativeFile == before[i].relativeFile
                  && after[i].name == if before[i].id == op.id then op.name else before[i].name)
            && (forall i :: 0 <= i < |before| && before[i].id != op.id ==> before[i].name != op.name)
  {
    hide Replaced, MetadataPath, StandingAfter, IsValidName, RelativeFile;
    var i := IndexOf(m.presets, op.id);
    assert i < |m.presets|;
    assert forall j :: 0 <= j < |m.presets| && j != i ==> m.presets[j].id != op.id;
  }

  // One preset left its place, and the others kept their order.
  predicate LeavesPlace(before: seq<Preset>, rest: seq<Preset>, id: string) {
    exists i :: 0 <= i < |before| && before[i].id == id && rest == before[..i] + before[i + 1..]
  }

  /** A move that is saved puts the preset with that id at its destination; the others keep
      their order. */
  lemma MoveMoves(m: Manager, op: Operation)
    requires op.MoveTo? && Perform(m, op).outcome.Committed?
    ensures var n, after, to := Perform(m, op).manager, Perform(m, op).manager.presets, op.destination;
            && to < |m.presets| && |after| == |m.presets| && n.active == m.active
            && after[to].id == op.id && LeavesPlace(m.presets, after[..to] + after[to + 1..], op.id)
  {
    hide Replaced, MetadataPath, StandingAfter, Moved;
    var i := IndexOf(m.presets, op.id);
    assert i < |m.presets|;
    MovedKeepsOthers(m.presets, i, op.destination);
    MovedNowhere(m.presets, i);
  }

  /** A deletion that is saved takes the preset with that id out of the list, and out of use
      if it was the active one. */
  lemma DeletionDeletes(m: Manager, op: Operation)
    requires op.DeleteOf? && Perform(m, op).outcome.Committed?
    ensures var n := Perform(m, op).manager;
            && LeavesPlace(m.presets, n.presets, op.id)
            && n.active == if m.active == Some(op.id) then None else m.active
  {
    hide Replaced, MetadataPath, SnapshotPath, StandingAfter;
  }

  /** An update, and every operation that fails, leaves the list as it is. */
  lemma FailureKeepsList(m: Manager, op: Operation)
    requires StartIn(m, op).None? && (op.UpdateOf? || !Perform(m, op).outcome.Committed?)
    ensures Perform(m, op).manager.presets == m.presets && Perform(m, op).manager.active == m.active
  {
    hide Replaced, AfterNew, LF.Deserialized, IsValidName, IsValidIni, SnapshotPath, MetadataPath, StandingAfter,
         Moved, Without, NameTakenByOther;
    match op
    case CreateFrom(name, ini, freshId, ticks, moreTicks) =>
      NewEdits(m, name, freshId, ini, ticks, moreTicks);
      NewKeepsActive(m, name, freshId, ini, ticks, moreTicks);
    case ImportFrom(text, freshId, ticks, moreTicks) =>
      match LF.Deserialized(text) {
        case Failure(_) =>
        case Success(data) =>
          NewEdits(m, data.name, freshId, data.imguiIni, ticks, moreTicks);
          NewKeepsActive(m, data.name, freshId, data.imguiIni, ticks, moreTicks);
      }
    case _ =>
  }

  /** An update that is saved is one of a listed preset, with a layout that fits, which is
      then its snapshot, or what has landed of it. */
  lemma UpdateWrites(m: Manager, op: Operation)
    requires op.UpdateOf? && Perform(m, op).outcome.Committed?
    ensures HasId(m.presets, op.id) && IsValidIni(op.captured)
    ensures AtTarget(Perform(m, op).manager.disk.files, SnapshotPath(m.layouts, op.id),
                     Landed(m.disk, Snapshot(op.captured)))
  {
    hide Writes, SnapshotPath, IsValidIni, Landed, Succeeds;
    assert m.presets[IndexOf(m.presets, op.id)].id == op.id;
    UpdateIntactIff(m, op.id, op.captured, op.ticks);
    WriteKeepsMetadata(m, op.id, op.captured, op.ticks);
  }

  // When an operation succeeds

  predicate NameFree(presets: seq<Preset>, id: string, name: string) {
    forall i :: 0 <= i < |presets| && presets[i].id != id ==> presets[i].name != name
  }

  lemma CommitSucceedsIff(m: Manager, updated: seq<Preset>, ticks: nat)
    ensures Commits(m, updated, ticks).outcome.Committed? <==> Succeeds(m.disk, MetadataPath(m.layouts))
  {
    hide Replaced, MetadataPath, Succeeds, StandingAfter, RollbackFails;
    OutcomeIff(m.disk, MetadataPath(m.layouts), Metadata(updated), ticks);
  }

  lemma HasIdIff(presets: seq<Preset>, id: string)
    ensures HasId(presets, id) <==> IndexOf(presets, id) < |presets|
  {
  }

  /** A move of a listed preset within the list succeeds exactly if the replacement of the
      metadata does; where the preset stands already none is needed. */
  lemma MoveSucceedsIff(m: Manager, op: Operation)
    requires Sane(m.presets) && op.MoveTo?
    ensures Perform(m, op).outcome.Committed?
        <==> && HasId(m.presets, op.id) && op.destination < |m.presets|
             && (m.presets[op.destination].id == op.id || Succeeds(m.disk, MetadataPath(m.layouts)))
  {
    hide Commits, MetadataPath, Succeeds, Moved, RelativeFile;
    HasIdIff(m.presets, op.id);
    var i := IndexOf(m.presets, op.id);
    if i < |m.presets| && op.destination < |m.presets| {
      CommitSucceedsIff(m, Moved(m.presets, i, op.destination), op.ticks);
    }
  }

  /** So does a renaming to a name that fits and that no other preset has. */
  lemma RenameSucceedsIff(m: Manager, op: Operation)
    requires op.RenameTo?
    ensures Perform(m, op).outcome.Committed?
        <==> && HasId(m.presets, op.id) && IsValidName(op.name) && NameFree(m.presets, op.id, op.name)
             && Succeeds(m.disk, MetadataPath(m.layouts))
  {
    hide Commits, MetadataPath, Succeeds, IsValidName;
    HasIdIff(m.presets, op.id);
    var i := IndexOf(m.presets, op.id);
    if i < |m.presets| {
      CommitSucceedsIff(m, m.presets[i := m.presets[i].(name := op.name)], op.ticks);
    }
  }

  /** So does the deletion of a listed preset, whatever becomes of its snapshot. */
  lemma DeleteSucceedsIff(m: Manager, op: Operation)
    requires op.DeleteOf?
    ensures Perform(m, op).outcome.Committed?
        <==> HasId(m.presets, op.id) && Succeeds(m.disk, MetadataPath(m.layouts))
  {
    hide Commits, MetadataPath, SnapshotPath, Succeeds, Without;
    HasIdIff(m.presets, op.id);
    var i := IndexOf(m.presets, op.id);
    if i < |m.presets| {
      CommitSucceedsIff(m, Without(m.presets, i), op.ticks);
    }
  }

  /** The update of a listed preset with a layout that fits succeeds exactly if the
      replacement of its snapshot does. */
  lemma UpdateSucceedsIff(m: Manager, op: Operation)
    requires op.UpdateOf?
    ensures Perform(m, op).outcome.Committed?
        <==> && HasId(m.presets, op.id) && IsValidIni(op.captured)
             && Succeeds(m.disk, SnapshotPath(m.layouts, op.id))
  {
    hide Writes, MetadataPath, SnapshotPath, Succeeds, IsValidIni;
    HasIdIff(m.presets, op.id);
    WriteKeepsMetadata(m, op.id, op.captured, op.ticks);
  }

  /** What a new preset needs: that no snapshot of its id is there, and that its snapshot and
      then the metadata can be replaced. */
  predicate NewSucceeds(m: Manager, id: string, ini: string, ticks: nat) {
    var next := m.(disk := m.disk.(asked := m.disk.asked + 1));
    && m.disk.succeeds(m.disk.asked) && SnapshotPath(m.layouts, id) !in m.disk.files
    && Succeeds(next.disk, SnapshotPath(m.layouts, id))
    && Succeeds(Writes(next, id, ini, ticks).manager.disk, MetadataPath(m.layouts))
  }

  lemma NewSucceedsIff(m: Manager, name: string, id: string, ini: string, ticks: nat, moreTicks: nat)
    ensures AfterNew(m, name, id, ini, ticks, moreTicks).outcome.Committed? <==> NewSucceeds(m, id, ini, ticks)
  {
    hide Commits, Writes, MetadataPath, SnapshotPath, Succeeds, Appended;
    var next := m.(disk := m.disk.(asked := m.disk.asked + 1));
    var first := Writes(next, id, ini, ticks);
    WriteKeepsMetadata(next, id, ini, ticks);
    WriteHow(next, id, ini, ticks);
    CommitSucceedsIff(first.manager, Appended(m.presets, name, id), moreTicks);
  }

  /** A new preset is saved exactly if its name and layout fit, and an imported one exactly if
      its text can be read, and the files can be replaced. */
  lemma CreationSucceedsIff(m: Manager, op: Operation)
    ensures var ok := Perform(m, op).outcome.Committed?;
            && (op.CreateFrom? ==>
                  (ok <==> IsValidName(op.name) && IsValidIni(op.ini) && NewSucceeds(m, op.freshId, op.ini, op.ticks)))
            && (op.ImportFrom? ==>
                  (ok <==> && LF.Deserialized(op.text).Success?
                           && NewSucceeds(m, op.freshId, LF.Deserialized(op.text).value.imguiIni, op.ticks)))
  {
    hide AfterNew, NewSucceeds, IsValidName, IsValidIni, LF.Deserialized;
    match op
    case CreateFrom(name, ini, id, ticks, moreTicks) => NewSucceedsIff(m, name, id, ini, ticks, moreTicks);
    case ImportFrom(text, id, ticks, moreTicks) =>
      match LF.Deserialized(text) {
        case Failure(_) =>
        case Success(data) => NewSucceedsIff(m, data.name, id, data.imguiIni, ticks, moreTicks);
      }
    case _ =>
  }
}
