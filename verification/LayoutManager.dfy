/** The object that the editor keeps its layout presets in. */
module LayoutManager {
  import opened Prelude
  import opened StoragePaths
  import opened LayoutNames
  import opened FileStore
  import LF = LayoutFile
  import Utf8
  import opened LayoutStore

  class EditorLayoutManager {
    const fs: FileSystem
    const layouts: Path
    var presets: seq<Preset>
    var active: Option<string>
    ghost var standing: Standing

    ghost function View(): Manager
      reads this, fs
    {
      Manager(layouts, presets, active, standing, fs.View())
    }

    // What an operation has done, since the manager and the history were as given.
    ghost predicate Did(done: Done, history: seq<Files>)
      reads this, fs
    {
      View() == done.manager && fs.history == history + done.trail
    }

    constructor (fs: FileSystem, layouts: Path)
      ensures this.fs == fs && View() == Assembled(layouts, fs.View())
    {
      this.fs, this.layouts, presets, active := fs, layouts, [], None;
      standing := Assembled(layouts, fs.View()).standing;
    }

    method Initialize() returns (ok: bool)
      modifies this, fs`asked
      ensures (View(), ok) == AfterInitialize(old(View()))
    {
      hide MetadataPath;
      ok := fs.CreateDirectories();
      if !ok {
        return;
      }
      var path := MetadataPath(layouts);
      var found, error := fs.Exists(path);
      if error {
        return false;
      }
      var loaded: seq<Preset> := [];
      if found {
        ok := fs.Ask();
        var list := Listed(fs.files[path]);
        if !ok || list.None? || !Reloadable(list.value) {
          return false;
        }
        loaded := list.value;
      }
      presets, active, standing := loaded, None, COMMITTED;
      return true;
    }

    method FindIndex(id: string) returns (i: nat)
      ensures i == IndexOf(presets, id)
    {
      i := 0;
      while i < |presets| && presets[i].id != id
        invariant i <= |presets| && IndexOf(presets, id) == i + IndexOf(presets[i..], id)
      {
        i := i + 1;
      }
    }

    method PersistMetadata(updated: seq<Preset>, ticks: nat) returns (outcome: Outcome)
      modifies fs
      ensures var r := Replaced(old(fs.View()), MetadataPath(layouts), Metadata(updated), ticks);
              outcome == r.outcome && fs.View() == r.disk && fs.history == old(fs.history) + r.trail
    {
      hide Replaced;
      outcome := fs.ReplaceFileAtomically(MetadataPath(layouts), Metadata(updated), ticks);
    }

    method WritePresetIni(id: string, ini: string, ticks: nat) returns (outcome: Outcome)
      modifies fs
      ensures var done := Writes(old(View()), id, ini, ticks); Did(done, old(fs.history)) && outcome == done.outcome
    {
      hide Replaced;
      outcome := fs.ReplaceFileAtomically(SnapshotPath(layouts, id), Snapshot(ini), ticks);
    }

    // A commit of an edited list.
    method Commit(updated: seq<Preset>, ticks: nat) returns (outcome: Outcome)
      modifies this`presets, this`standing, fs
      ensures var done := Commits(old(View()), updated, ticks); Did(done, old(fs.history)) && outcome == done.outcome
    {
      hide Replaced, MetadataPath, StandingAfter, NextSuffix;
      standing := StandingAfter(standing, fs.View(), MetadataPath(layouts), NextSuffix(fs.View(), ticks));
      outcome := PersistMetadata(updated, ticks);
      if outcome == Committed {
        presets := updated;
      }
    }

    // The removal of a snapshot; an error is ignored.
    method RemoveSnapshot(id: string, ghost soFar: Done)
      requires View() == soFar.manager
      modifies fs
      ensures View() == Removes(soFar, id).manager
      ensures fs.history == old(fs.history) + [fs.files]
    {
      var _ := fs.Remove(SnapshotPath(layouts, id));
    }

    method MovePreset(id: string, destination: nat, ticks: nat) returns (outcome: Outcome)
      modifies this, fs
      ensures var done := AfterMove(old(View()), id, destination, ticks);
              Did(done, old(fs.history)) && outcome == done.outcome
    {
      hide Commits, Moved;
      var source := FindIndex(id);
      if source == |presets| || destination >= |presets| {
        return Refused;
      }
      if source == destination {
        return Committed;
      }
      outcome := Commit(Moved(presets, source, destination), ticks);
    }

    method RenamePreset(id: string, name: string, ticks: nat) returns (outcome: Outcome)
      modifies this, fs
      ensures var done := AfterRename(old(View()), id, name, ticks);
              Did(done, old(fs.history)) && outcome == done.outcome
    {
      hide Commits, IsValidName;
      var i := FindIndex(id);
      if i == |presets| || !IsValidName(name) {
        return Refused;
      }
      var collision := exists k :: 0 <= k < |presets| && presets[k].id != id && presets[k].name == name;
      if collision {
        return Refused;
      }
      outcome := Commit(presets[i := presets[i].(name := name)], ticks);
    }

    method DeletePreset(id: string, ticks: nat) returns (outcome: Outcome)
      modifies this, fs
      ensures var done := AfterDelete(old(View()), id, ticks);
              Did(done, old(fs.history)) && outcome == done.outcome
    {
      hide Commits, Without, SnapshotPath;
      var i := FindIndex(id);
      if i == |presets| {
        return Refused;
      }
      ghost var done := Commits(View(), Without(presets, i), ticks);
      outcome := Commit(Without(presets, i), ticks);
      if outcome == Committed {
        ForgetPreset(id, done, old(fs.history));
      }
    }

    method ForgetPreset(id: string, ghost done: Done, ghost history: seq<Files>)
      requires Did(done, history)
      modifies this`active, fs
      ensures Did(Forgets(done, id), history)
    {
      if active == Some(id) {
        active := None;
      }
      RemoveSnapshot(id, done.(manager := View()));
    }

    method UpdatePreset(id: string, captured: string, ticks: nat) returns (outcome: Outcome)
      modifies fs
      ensures var done := AfterUpdate(old(View()), id, captured, ticks);
              Did(done, old(fs.history)) && outcome == done.outcome
    {
      hide Writes;
      var i := FindIndex(id);
      if i == |presets| || !IsValidIni(captured) {
        return Refused;
      }
      outcome := WritePresetIni(id, captured, ticks);
    }

    // The commit of a preset at the end of the list, its snapshot first.
    method PersistNewPreset(name: string, id: string, ini: string, ticks: nat, moreTicks: nat)
        returns (outcome: Outcome)
      modifies this`presets, this`standing, fs
      ensures var done := AfterNew(old(View()), name, id, ini, ticks, moreTicks);
              Did(done, old(fs.history)) && outcome == done.outcome
    {
      hide Commits, Writes, SnapshotPath, CommitsAfter, UniqueName;
      var unique := MakeUniqueName(presets, name);
      var updated := presets + [Preset(id, unique, RelativeFile(id))];
      var found, error := fs.Exists(SnapshotPath(layouts, id));
      if found || error {
        return Refused;
      }
      ghost var first := Writes(View(), id, ini, ticks);
      outcome := WritePresetIni(id, ini, ticks);
      if outcome == Committed {
        outcome := CommitAfterSnapshot(updated, id, moreTicks, first, old(fs.history));
      }
    }

    // The metadata is committed once the snapshot is there; if not, the snapshot goes again.
    method CommitAfterSnapshot(updated: seq<Preset>, id: string, ticks: nat, ghost first: Done,
                               ghost history: seq<Files>)
      returns (outcome: Outcome)
      requires Did(first, history)
      modifies this`presets, this`standing, fs
      ensures var done := CommitsAfter(first, updated, id, ticks); Did(done, history) && outcome == done.outcome
    {
      hide Commits, SnapshotPath;
      ghost var second := Commits(View(), updated, ticks);
      outcome := Commit(updated, ticks);
      assert fs.history == history + (first.trail + second.trail);
      if outcome == Refused {
        RemoveSnapshot(id, second.(trail := first.trail + second.trail));
      }
    }

    method CreatePreset(name: string, ini: string, freshId: string, ticks: nat, moreTicks: nat)
        returns (outcome: Outcome)
      modifies this, fs
      ensures var done := AfterCreate(old(View()), name, ini, freshId, ticks, moreTicks);
              Did(done, old(fs.history)) && outcome == done.outcome
    {
      hide AfterNew, IsValidName, IsValidIni;
      if !IsValidName(name) || !IsValidIni(ini) {
        return Refused;
      }
      outcome := PersistNewPreset(name, freshId, ini, ticks, moreTicks);
    }

    method ImportPreset(text: Utf8.ByteString, freshId: string, ticks: nat, moreTicks: nat)
        returns (outcome: Outcome)
      modifies this, fs
      ensures var done := AfterImport(old(View()), text, freshId, ticks, moreTicks);
              Did(done, old(fs.history)) && outcome == done.outcome
    {
      hide AfterNew, LF.Deserialized;
      var loaded := LF.Deserialized(text);
      if loaded.Failure? {
        return Refused;
      }
      outcome := PersistNewPreset(loaded.value.name, freshId, loaded.value.imguiIni, ticks, moreTicks);
    }
  }
}
