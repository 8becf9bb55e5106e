/** A file system whose every call may fail, and the replacement of a file on it.  The
    trail of a replacement holds the files after every primitive effect, so that what
    holds of it holds wherever the process may stop. */
module FileStore {
  import opened LayoutNames
  import opened StoragePaths

  /** A file is a layout snapshot or a list of presets, or it is empty after it was opened
      for writing, or it lacks its last bytes. */
  datatype Content =
    | Snapshot(ini: string) | Metadata(presets: seq<Preset>) | Emptied | Short(of: Content, missing: nat)

  type Files = map<Path, Content>

  datatype Outcome = Committed | Refused | Threw

  /** The files, how the k-th call will be answered, how many bytes more than one a write
      lacks that the k-th call cuts off, and the counter for fresh names. */
  datatype Disk = Disk(files: Files, succeeds: nat -> bool, lacks: nat -> nat, asked: nat, counter: nat)

  predicate SameAt(before: Files, now: Files, path: Path) {
    (path in now <==> path in before) && (path in now ==> now[path] == before[path])
  }

  ghost predicate SameExcept(before: Files, now: Files, paths: set<Path>) {
    forall p: Path :: p !in paths ==> SameAt(before, now, p)
  }

  function Temporary(path: Path, suffix: string): Path {
    WithSuffix(path, suffix)
  }

  function Backup(path: Path, suffix: string): Path {
    WithSuffix(path, suffix + ".bak")
  }

  function Suffix(ticks: nat, counter: nat): (suffix: string)
    ensures IsSuffix(suffix)
  {
    var suffix := ".tmp-" + Decimal(ticks) + "-" + Decimal(counter);
    assert suffix[|suffix| - 1] == Decimal(counter)[|Decimal(counter)| - 1];
    suffix
  }

  // It starts with the only dot in it and ends in a digit.
  predicate IsSuffix(suffix: string) {
    && |suffix| > 0 && suffix[0] == '.' && '0' <= suffix[|suffix| - 1] <= '9'
    && forall i :: 0 < i < |suffix| ==> suffix[i] != '.' && suffix[i] != '/'
  }

  lemma BackupIsOther(path: Path, suffix: string)
    requires IsSuffix(suffix)
    ensures Temporary(path, suffix) != path && Backup(path, suffix) != path
    ensures Backup(path, suffix) != Temporary(path, suffix)
  {
    var t, b := Temporary(path, suffix), Backup(path, suffix);
    assert |t[|t| - 1]| + 4 == |b[|b| - 1]|;
    if path != [] {
      assert |t[|t| - 1]| == |path[|path| - 1]| + |suffix|;
    }
  }

  // The last name of a stored file: a snapshot or the metadata.
  predicate IsStored(path: Path) {
    path != [] && path[|path| - 1] != "" && path[|path| - 1][|path[|path| - 1]| - 1] in {'i', 'n'}
  }

  // Neither name can be that of a snapshot or of the metadata.
  lemma ScratchNames(path: Path, suffix: string, stored: Path)
    requires IsSuffix(suffix) && IsStored(stored)
    ensures stored != Temporary(path, suffix) && stored != Backup(path, suffix)
  {
    var t, b := Temporary(path, suffix), Backup(path, suffix);
    assert t[|t| - 1][|t[|t| - 1]| - 1] == suffix[|suffix| - 1];
    assert b[|b| - 1][|b[|b| - 1]| - 1] == 'k';
  }

  // A backup is never a temporary file.
  lemma BackupIsNotTemporary(path: Path, suffix: string, other: Path, otherSuffix: string)
    requires IsSuffix(suffix) && IsSuffix(otherSuffix)
    ensures Backup(path, suffix) != Temporary(other, otherSuffix)
  {
    var b, t := Backup(path, suffix), Temporary(other, otherSuffix);
    var bs, ts := b[|b| - 1], t[|t| - 1];
    assert bs[|bs| - 1] == 'k' && ts[|ts| - 1] == otherSuffix[|otherSuffix| - 1];
  }

  /** Whatever the suffixes, two files have different backups. */
  lemma BackupDetermines(path: Path, suffix: string, other: Path, otherSuffix: string)
    requires IsSuffix(suffix) && IsSuffix(otherSuffix) && path != [] && other != []
    requires Backup(path, suffix) == Backup(other, otherSuffix)
    ensures path == other
  {
    var b, c := Backup(path, suffix), Backup(other, otherSuffix);
    var x, y := path[|path| - 1], other[|other| - 1];
    assert b[|b| - 1] == x + suffix + ".bak" && c[|c| - 1] == y + otherSuffix + ".bak";
    assert b[|b| - 1][..|b[|b| - 1]| - 4] == x + suffix && c[|c| - 1][..|c[|c| - 1]| - 4] == y + otherSuffix;
    LastDot(x, suffix, y, otherSuffix);
    assert path == path[..|path| - 1] + [x] && other == other[..|other| - 1] + [y];
    assert b[..|b| - 1] == path[..|path| - 1] && c[..|c| - 1] == other[..|other| - 1];
  }

  // A name ends before its last dot.
  lemma LastDot(x: string, suffix: string, y: string, otherSuffix: string)
    requires IsSuffix(suffix) && IsSuffix(otherSuffix) && x + suffix == y + otherSuffix
    ensures x == y
  {
    hide IsSuffix;
    var s := x + suffix;
    DotPlace(x, suffix);
    DotPlace(y, otherSuffix);
    assert s[|x|] == s[|y|];
    assert s[..|x|] == x && s[..|y|] == y;
  }

  lemma DotPlace(x: string, suffix: string)
    requires IsSuffix(suffix)
    ensures |suffix| > 0 && (x + suffix)[|x|] == '.'
    ensures forall k :: |x| < k < |x + suffix| ==> (x + suffix)[k] != '.'
  {
  }

  // What one replacement does

  /** The files after every primitive effect and the disk at the end, and whether the
      rollback failed. */
  datatype Replacement = Replacement(trail: seq<Files>, disk: Disk, outcome: Outcome, rollbackFailed: bool)

  function Renamed(files: Files, from: Path, to: Path): Files
    requires from in files
  {
    (files - {from})[to := files[from]]
  }

  // After a failure the temporary file goes; that may throw.
  function CleanedUp(d: Disk, temporary: Path, rollbackFailed: bool): Replacement {
    var ok := d.succeeds(d.asked);
    var files := if ok then d.files - {temporary} else d.files;
    Replacement([files], d.(files := files, asked := d.asked + 1), if ok then Refused else Threw, rollbackFailed)
  }

  // The temporary file is renamed to a target that seems not to be there.
  function MovedIn(d: Disk, path: Path, suffix: string): Replacement
    requires Temporary(path, suffix) in d.files
  {
    var temporary, next := Temporary(path, suffix), d.(asked := d.asked + 1);
    if d.succeeds(d.asked) then
      var files := Renamed(d.files, temporary, path);
      Replacement([files], next.(files := files), Committed, false)
    else
      var r := CleanedUp(next, temporary, false);
      r.(trail := [d.files] + r.trail)
  }

  // The target is renamed to the backup first, and back again if the second rename fails.
  function SwappedIn(d: Disk, path: Path, suffix: string): Replacement
    requires IsSuffix(suffix) && path in d.files && Temporary(path, suffix) in d.files
  {
    BackupIsOther(path, suffix);
    var temporary, backup := Temporary(path, suffix), Backup(path, suffix);
    if !d.succeeds(d.asked) then
      var r := CleanedUp(d.(asked := d.asked + 1), temporary, false);
      r.(trail := [d.files] + r.trail)
    else
      var away := Renamed(d.files, path, backup);
      if d.succeeds(d.asked + 1) then
        var swapped := Renamed(away, temporary, path);
        var files := if d.succeeds(d.asked + 2) then swapped - {backup} else swapped;
        Replacement([away, swapped, files], d.(files := files, asked := d.asked + 3), Committed, false)
      else
        var restored := d.succeeds(d.asked + 2);
        var back := if restored then Renamed(away, backup, path) else away;
        var r := CleanedUp(d.(files := back, asked := d.asked + 3), temporary, !restored);
        r.(trail := [away, away, back] + r.trail)
  }

  // The written temporary file is put in the place of the target.
  function Placed(d: Disk, path: Path, suffix: string): Replacement
    requires IsSuffix(suffix) && Temporary(path, suffix) in d.files
  {
    var next := d.(asked := d.asked + 1);
    if d.succeeds(d.asked) && path in d.files then SwappedIn(next, path, suffix) else MovedIn(next, path, suffix)
  }

  // What is left of a write that the k-th call cuts off.
  function CutOff(d: Disk, content: Content, k: nat): Content {
    Short(content, d.lacks(k) + 1)
  }

  /** A write: the disk, whether it counts as a success, and the files on the way.  Opening
      empties the file; a write that fails is cut off.  The stream is flushed only when it
      is closed, after the last test for an error, so that a write counts as a success
      even if that flush fails. */
  function Written(d: Disk, path: Path, content: Content): (r: (Disk, bool, seq<Files>))
    ensures r.1 ==> path in r.0.files
  {
    var emptied := d.files[path := Emptied];
    if !d.succeeds(d.asked) then (d.(asked := d.asked + 1), false, [])
    else if !d.succeeds(d.asked + 1) then
      var files := d.files[path := CutOff(d, content, d.asked + 1)];
      (d.(files := files, asked := d.asked + 2), false, [emptied, files])
    else
      var files := d.files[path := if d.succeeds(d.asked + 2) then content else CutOff(d, content, d.asked + 2)];
      (d.(files := files, asked := d.asked + 3), true, [emptied, files])
  }

  function WrittenInPlace(d: Disk, path: Path, content: Content, suffix: string): Replacement
    requires IsSuffix(suffix)
  {
    var (next, ok, trail) := Written(d, Temporary(path, suffix), content);
    if !ok then Replacement(trail, next, Refused, false)
    else
      var r := Placed(next, path, suffix);
      r.(trail := trail + r.trail)
  }

  // The suffix of the next replacement.
  function NextSuffix(d: Disk, ticks: nat): (suffix: string)
    ensures IsSuffix(suffix)
  {
    Suffix(ticks, d.counter + 1)
  }

  // The source's ReplaceFileAtomically.
  function Replaced(d: Disk, path: Path, content: Content, ticks: nat): Replacement {
    var next := d.(asked := d.asked + 1);
    if d.succeeds(d.asked)
    then WrittenInPlace(next.(counter := d.counter + 1), path, content, NextSuffix(d, ticks))
    else Replacement([], next, Refused, false)
  }

  // The properties of a replacement

  // The answers to its calls, in their order.
  predicate Prepared(d: Disk) {
    d.succeeds(d.asked) && d.succeeds(d.asked + 1) && d.succeeds(d.asked + 2)
  }

  predicate Flushed(d: Disk) {
    d.succeeds(d.asked + 3)
  }

  predicate FindsTarget(d: Disk, path: Path) {
    d.succeeds(d.asked + 4) && path in d.files
  }

  predicate Succeeds(d: Disk, path: Path) {
    Prepared(d) && d.succeeds(d.asked + 5) && (FindsTarget(d, path) ==> d.succeeds(d.asked + 6))
  }

  predicate RollbackFails(d: Disk, path: Path) {
    && Prepared(d) && FindsTarget(d, path)
    && d.succeeds(d.asked + 5) && !d.succeeds(d.asked + 6) && !d.succeeds(d.asked + 7)
  }

  // What a success puts at the target.
  function Landed(d: Disk, content: Content): Content {
    if Flushed(d) then content else CutOff(d, content, d.asked + 3)
  }

  // No file but the target and its two companions is touched.
  ghost predicate Confined(before: Files, now: Files, path: Path, suffix: string) {
    SameExcept(before, now, {path, Temporary(path, suffix), Backup(path, suffix)})
  }

  // The old content is at the target, or in the backup with the target gone.
  predicate Held(before: Files, now: Files, path: Path, suffix: string) {
    || SameAt(before, now, path)
    || (path !in now && InBackup(before, now, path, suffix))
  }

  predicate InBackup(before: Files, now: Files, path: Path, suffix: string) {
    path in before && Backup(path, suffix) in now && now[Backup(path, suffix)] == before[path]
  }

  predicate AtTarget(now: Files, path: Path, content: Content) {
    path in now && now[path] == content
  }

  /** Nothing is lost: the complete old content is at the target, or in the backup with
      the target gone, or the complete new content is at the target. */
  predicate Intact(before: Files, now: Files, path: Path, suffix: string, content: Content) {
    Held(before, now, path, suffix) || AtTarget(now, path, content)
  }

  /** What putting the temporary file in place does, whatever it contains: at every point
      the old content is held, until at the end, on success, the file is at the target;
      a failure ends with the target as it was, or with a failed rollback. */
  ghost predicate PutsInPlace(files: Files, path: Path, suffix: string, r: Replacement)
    requires Temporary(path, suffix) in files
  {
    var content := files[Temporary(path, suffix)];
    && r.trail != [] && r.trail[|r.trail| - 1] == r.disk.files
    && (forall now :: now in r.trail ==> Confined(files, now, path, suffix))
    && (forall now :: now in r.trail ==>
          Held(files, now, path, suffix) || (r.outcome.Committed? && AtTarget(now, path, content)))
    && (r.outcome.Committed? ==> AtTarget(r.disk.files, path, content) && !r.rollbackFailed)
    && (!r.outcome.Committed? && !r.rollbackFailed ==> SameAt(files, r.disk.files, path))
    && (r.rollbackFailed ==> path !in r.disk.files && InBackup(files, r.disk.files, path, suffix))
  }

  lemma MovedInPlace(d: Disk, path: Path, suffix: string)
    requires IsSuffix(suffix) && Temporary(path, suffix) in d.files
    ensures PutsInPlace(d.files, path, suffix, MovedIn(d, path, suffix))
  {
    hide Temporary, Backup, IsSuffix;
    BackupIsOther(path, suffix);
  }

  lemma SwappedInPlace(d: Disk, path: Path, suffix: string)
    requires IsSuffix(suffix) && path in d.files && Temporary(path, suffix) in d.files
    ensures PutsInPlace(d.files, path, suffix, SwappedIn(d, path, suffix))
  {
    hide Temporary, Backup, IsSuffix, Confined;
    BackupIsOther(path, suffix);
    SwappedConfined(d, path, suffix);
  }

  lemma SwappedConfined(d: Disk, path: Path, suffix: string)
    requires IsSuffix(suffix) && path in d.files && Temporary(path, suffix) in d.files
    ensures forall now :: now in SwappedIn(d, path, suffix).trail ==> Confined(d.files, now, path, suffix)
  {
    hide Temporary, Backup, IsSuffix;
  }

  lemma PlacedInPlace(d: Disk, path: Path, suffix: string)
    requires IsSuffix(suffix) && Temporary(path, suffix) in d.files
    ensures PutsInPlace(d.files, path, suffix, Placed(d, path, suffix))
  {
    hide Temporary, SwappedIn, MovedIn, IsSuffix, PutsInPlace;
    var next := d.(asked := d.asked + 1);
    if d.succeeds(d.asked) && path in d.files {
      SwappedInPlace(next, path, suffix);
    } else {
      MovedInPlace(next, path, suffix);
    }
  }

  // What a replacement does, in full, given what lands at the target.
  ghost predicate Replaces(files: Files, path: Path, landed: Content, suffix: string, r: Replacement) {
    && r.disk.files == (if r.trail == [] then files else r.trail[|r.trail| - 1])
    && (forall now :: now in r.trail ==> Confined(files, now, path, suffix))
    && (forall now :: now in r.trail ==>
          Held(files, now, path, suffix) || (r.outcome.Committed? && AtTarget(now, path, landed)))
    && (r.outcome.Committed? ==> AtTarget(r.disk.files, path, landed) && !r.rollbackFailed && r.trail != [])
    && (!r.outcome.Committed? && !r.rollbackFailed ==> SameAt(files, r.disk.files, path))
    && (r.rollbackFailed ==> path !in r.disk.files && InBackup(files, r.disk.files, path, suffix))
  }

  /** Success puts the new content at the target, or what is left of it if the closing flush
      was lost; a failure leaves the target as it was, unless the rollback failed too: then
      the old content is in the backup. */
  lemma ReplacementMeans(d: Disk, path: Path, content: Content, ticks: nat)
    ensures Replaces(d.files, path, Landed(d, content), NextSuffix(d, ticks), Replaced(d, path, content, ticks))
  {
    hide IsSuffix, Placed, PutsInPlace, NextSuffix;
    var suffix := NextSuffix(d, ticks);
    var made, temporary := d.(asked := d.asked + 1, counter := d.counter + 1), Temporary(path, suffix);
    var (next, ok, trail) := Written(made, temporary, content);
    WriteConfined(made, path, content, suffix);
    if d.succeeds(d.asked) {
      if ok {
        PlacedInPlace(next, path, suffix);
        hide Confined, SameAt, Replaces, Temporary;
        ThenPlaced(d.files, next.files, trail, path, Landed(d, content), suffix, Placed(next, path, suffix));
      } else {
        hide Confined, SameAt, Temporary;
      }
    }
  }

  lemma WriteConfined(d: Disk, path: Path, content: Content, suffix: string)
    requires IsSuffix(suffix)
    ensures var (next, ok, trail) := Written(d, Temporary(path, suffix), content);
            && next.files == (if trail == [] then d.files else trail[|trail| - 1])
            && (ok ==> next.files[Temporary(path, suffix)]
                       == if d.succeeds(d.asked + 2) then content else CutOff(d, content, d.asked + 2))
            && Confined(d.files, next.files, path, suffix) && SameAt(d.files, next.files, path)
            && forall now :: now in trail ==> Confined(d.files, now, path, suffix) && SameAt(d.files, now, path)
  {
    hide Temporary, Backup, IsSuffix;
    BackupIsOther(path, suffix);
  }

  lemma ThenPlaced(files: Files, next: Files, trail: seq<Files>, path: Path, landed: Content, suffix: string,
                   r: Replacement)
    requires IsSuffix(suffix) && Temporary(path, suffix) in next && PutsInPlace(next, path, suffix, r)
    requires next[Temporary(path, suffix)] == landed
    requires Confined(files, next, path, suffix) && SameAt(files, next, path)
    requires forall now :: now in trail ==> Confined(files, now, path, suffix) && SameAt(files, now, path)
    ensures Replaces(files, path, landed, suffix, r.(trail := trail + r.trail))
  {
    hide Temporary, Backup, IsSuffix;
  }

  lemma PlacedIff(d: Disk, path: Path, suffix: string)
    requires IsSuffix(suffix) && Temporary(path, suffix) in d.files
    ensures var r, found := Placed(d, path, suffix), d.succeeds(d.asked) && path in d.files;
            && (r.outcome.Committed? <==> d.succeeds(d.asked + 1) && (found ==> d.succeeds(d.asked + 2)))
            && (r.rollbackFailed <==> && found && d.succeeds(d.asked + 1)
                                      && !d.succeeds(d.asked + 2) && !d.succeeds(d.asked + 3))
  {
    hide Temporary, Backup, IsSuffix;
  }

  /** Success and a failed rollback, exactly, by the answers to the calls. */
  lemma OutcomeIff(d: Disk, path: Path, content: Content, ticks: nat)
    ensures var r := Replaced(d, path, content, ticks);
            && (r.outcome.Committed? <==> Succeeds(d, path))
            && (r.rollbackFailed <==> RollbackFails(d, path))
  {
    hide Temporary, Backup, IsSuffix, NextSuffix, Placed;
    var suffix := NextSuffix(d, ticks);
    BackupIsOther(path, suffix);
    if Prepared(d) {
      var next := Written(d.(asked := d.asked + 1, counter := d.counter + 1), Temporary(path, suffix), content).0;
      PlacedIff(next, path, suffix);
    }
  }

  lemma AnswersStay(d: Disk, path: Path, content: Content, ticks: nat)
    ensures Replaced(d, path, content, ticks).disk.succeeds == d.succeeds
  {
    hide Temporary, Backup, IsSuffix, NextSuffix;
    BackupIsOther(path, NextSuffix(d, ticks));
  }

  /** A target that is not there is not renamed away: only its own name and that of the
      temporary file change. */
  lemma AbsentTarget(d: Disk, path: Path, content: Content, ticks: nat)
    requires path !in d.files
    ensures var r := Replaced(d, path, content, ticks);
            SameExcept(d.files, r.disk.files, {path, Temporary(path, NextSuffix(d, ticks))})
  {
    hide Temporary, IsSuffix, NextSuffix, MovedIn;
    var suffix := NextSuffix(d, ticks);
    BackupIsOther(path, suffix);
    if Prepared(d) {
      var next := Written(d.(asked := d.asked + 1, counter := d.counter + 1), Temporary(path, suffix), content).0;
      MovedTouches(next.(asked := next.asked + 1), path, suffix);
    }
  }

  lemma MovedTouches(d: Disk, path: Path, suffix: string)
    requires IsSuffix(suffix) && Temporary(path, suffix) in d.files
    ensures SameExcept(d.files, MovedIn(d, path, suffix).disk.files, {path, Temporary(path, suffix)})
  {
    hide Temporary, IsSuffix;
  }

  lemma SwapGap(d: Disk, path: Path, suffix: string)
    requires IsSuffix(suffix) && path in d.files && Temporary(path, suffix) in d.files
    ensures (exists now :: now in SwappedIn(d, path, suffix).trail && path !in now) <==> d.succeeds(d.asked)
    ensures forall now :: now in MovedIn(d, path, suffix).trail ==> path in now
  {
    hide Temporary, Backup, IsSuffix;
    BackupIsOther(path, suffix);
    if d.succeeds(d.asked) {
      assert path !in SwappedIn(d, path, suffix).trail[0];
    }
  }

  /** The target is gone at some point exactly if it was found and could be renamed away. */
  lemma GapIff(d: Disk, path: Path, content: Content, ticks: nat)
    requires path in d.files
    ensures (exists now :: now in Replaced(d, path, content, ticks).trail && path !in now)
        <==> Prepared(d) && FindsTarget(d, path) && d.succeeds(d.asked + 5)
  {
    hide Temporary, Backup, IsSuffix, NextSuffix, SwappedIn, MovedIn;
    var suffix := NextSuffix(d, ticks);
    BackupIsOther(path, suffix);
    if Prepared(d) {
      var next := Written(d.(asked := d.asked + 1, counter := d.counter + 1), Temporary(path, suffix), content).0;
      SwapGap(next.(asked := next.asked + 1), path, suffix);
    }
  }

  // A replacement that succeeds without its closing flush: what lands is not the new
  // content, and not the old one either.
  predicate Damages(d: Disk, path: Path, content: Content) {
    Succeeds(d, path) && !Flushed(d) && !(path in d.files && d.files[path] == Landed(d, content))
  }

  /** Wherever a replacement stops nothing is lost, if and only if it does not succeed
      without its closing flush. */
  lemma IntactIff(d: Disk, path: Path, content: Content, ticks: nat)
    ensures var r, suffix := Replaced(d, path, content, ticks), NextSuffix(d, ticks);
            (forall now :: now in r.trail ==> Intact(d.files, now, path, suffix, content))
            <==> !Damages(d, path, content)
  {
    hide Replaced, IsSuffix, Flushed, Confined, InBackup, Succeeds, NextSuffix;
    ReplacementMeans(d, path, content, ticks);
    OutcomeIff(d, path, content, ticks);
    var r := Replaced(d, path, content, ticks);
    if r.outcome.Committed? {
      assert r.disk.files in r.trail;
    }
  }

  /** After such a success the old content is gone for good, except if it was renamed away
      and the removal of the backup failed as well. */
  lemma GoneIff(d: Disk, path: Path, content: Content, ticks: nat)
    requires Damages(d, path, content) && Backup(path, NextSuffix(d, ticks)) !in d.files
    ensures InBackup(d.files, Replaced(d, path, content, ticks).disk.files, path, NextSuffix(d, ticks))
        <==> FindsTarget(d, path) && !d.succeeds(d.asked + 7)
  {
    hide Temporary, Backup, IsSuffix, NextSuffix;
    BackupIsOther(path, NextSuffix(d, ticks));
  }

  lemma PlacedLeaves(d: Disk, path: Path, suffix: string)
    requires IsSuffix(suffix) && Temporary(path, suffix) in d.files && Backup(path, suffix) !in d.files
    ensures var r, found := Placed(d, path, suffix), d.succeeds(d.asked) && path in d.files;
            && (Temporary(path, suffix) in r.disk.files <==> r.outcome.Threw?)
            && (Backup(path, suffix) in r.disk.files
                <==> r.rollbackFailed || (r.outcome.Committed? && found && !d.succeeds(d.asked + 3)))
  {
    hide Temporary, Backup, IsSuffix;
    BackupIsOther(path, suffix);
  }

  /** What a replacement leaves behind, with fresh scratch names: the temporary file exactly
      if it was opened and could not be written, or the call that removes it threw; the
      backup exactly if the rollback failed, or a success could not remove it. */
  lemma LeftoversIff(d: Disk, path: Path, content: Content, ticks: nat)
    requires Temporary(path, NextSuffix(d, ticks)) !in d.files && Backup(path, NextSuffix(d, ticks)) !in d.files
    ensures var r, suffix := Replaced(d, path, content, ticks), NextSuffix(d, ticks);
            && (Temporary(path, suffix) in r.disk.files
                <==> || (d.succeeds(d.asked) && d.succeeds(d.asked + 1) && !d.succeeds(d.asked + 2))
                     || r.outcome.Threw?)
            && (Backup(path, suffix) in r.disk.files
                <==> || r.rollbackFailed
                     || (r.outcome.Committed? && FindsTarget(d, path) && !d.succeeds(d.asked + 7)))
  {
    hide Temporary, Backup, IsSuffix, NextSuffix, Placed;
    var suffix := NextSuffix(d, ticks);
    BackupIsOther(path, suffix);
    if Prepared(d) {
      var next := Written(d.(asked := d.asked + 1, counter := d.counter + 1), Temporary(path, suffix), content).0;
      PlacedLeaves(next, path, suffix);
      PlacedIff(next, path, suffix);
    }
  }

  const TWO_PRESETS := [Preset("a", "One", "presets/a.ini"), Preset("b", "Two", "presets/b.ini")]
  const STORED: Path := ["layouts.json"]

  /** A disk that is full just when the new metadata is flushed: the replacement reports
      success, and neither the old list nor the new one is left. */
  lemma ClosingFlushLost()
    ensures var d := Disk(map[STORED := Metadata(TWO_PRESETS)], (k: nat) => k != 3, (k: nat) => 99, 0, 0);
            var r := Replaced(d, STORED, Metadata(TWO_PRESETS[..1]), 0);
            r.outcome == Committed && r.disk.files == map[STORED := Short(Metadata(TWO_PRESETS[..1]), 100)]
  {
    hide Temporary, Backup, Suffix, IsSuffix;
    BackupIsOther(STORED, Suffix(0, 1));
  }

  /** A disk whose second and third rename fail: the replacement is refused, and the old
      list is left in the backup alone. */
  lemma RollbackLost()
    ensures var d := Disk(map[STORED := Metadata(TWO_PRESETS)], (k: nat) => k != 6 && k != 7, (k: nat) => 0, 0, 0);
            var r := Replaced(d, STORED, Metadata([]), 0);
            r.outcome == Refused && r.disk.files == map[Backup(STORED, Suffix(0, 1)) := Metadata(TWO_PRESETS)]
  {
    hide Temporary, Backup, Suffix, IsSuffix;
    BackupIsOther(STORED, Suffix(0, 1));
  }

  // The source's calls

  class FileSystem {
    const succeeds: nat -> bool
    const lacks: nat -> nat
    var asked: nat
    var files: Files
    var counter: nat
    ghost var history: seq<Files>

    ghost function View(): Disk
      reads this
    {
      Disk(files, succeeds, lacks, asked, counter)
    }

    constructor (succeeds: nat -> bool, lacks: nat -> nat, files: Files)
      ensures View() == Disk(files, succeeds, lacks, 0, 0) && history == []
    {
      this.succeeds, this.lacks, this.files, asked, counter, history := succeeds, lacks, files, 0, 0, [];
    }

    method Ask() returns (ok: bool)
      modifies this`asked
      ensures ok == succeeds(old(asked)) && asked == old(asked) + 1
    {
      ok := succeeds(asked);
      asked := asked + 1;
    }

    method Set(newFiles: Files)
      modifies this`files, this`history
      ensures files == newFiles && history == old(history) + [newFiles]
    {
      files := newFiles;
      history := history + [newFiles];
    }

    method CreateDirectories() returns (ok: bool)
      modifies this`asked
      ensures ok == succeeds(old(asked)) && asked == old(asked) + 1
    {
      ok := Ask();
    }

    /** Opening truncates the file; what is written before a failure stays.  The result
        says nothing about the flush that closes the stream. */
    method Write(path: Path, content: Content) returns (ok: bool)
      modifies this`asked, this`files, this`history
      ensures var r := Written(old(View()), path, content);
              ok == r.1 && View() == r.0 && history == old(history) + r.2
    {
      var before := files;
      ok := Ask();
      if !ok {
        return;
      }
      Set(before[path := Emptied]);
      ok := Ask();
      if !ok {
        Set(before[path := Short(content, lacks(asked - 1) + 1)]);
        return;
      }
      var flushed := Ask();
      Set(before[path := if flushed then content else Short(content, lacks(asked - 1) + 1)]);
    }

    // An error may hide a file that is there.
    method Exists(path: Path) returns (found: bool, error: bool)
      modifies this`asked
      ensures error == !succeeds(old(asked)) && found == (!error && path in files) && asked == old(asked) + 1
    {
      var ok := Ask();
      found, error := ok && path in files, !ok;
    }

    method Rename(from: Path, to: Path) returns (ok: bool)
      requires from in files
      modifies this`asked, this`files, this`history
      ensures ok == succeeds(old(asked)) && asked == old(asked) + 1
      ensures files == if ok then Renamed(old(files), from, to) else old(files)
      ensures history == old(history) + [files]
    {
      ok := Ask();
      Set(if ok then (files - {from})[to := files[from]] else files);
    }

    method Remove(path: Path) returns (ok: bool)
      modifies this`asked, this`files, this`history
      ensures ok == succeeds(old(asked)) && asked == old(asked) + 1
      ensures files == if ok then old(files) - {path} else old(files)
      ensures history == old(history) + [files]
    {
      ok := Ask();
      Set(if ok then files - {path} else files);
    }

    method ReplaceFileAtomically(path: Path, content: Content, ticks: nat) returns (outcome: Outcome)
      modifies this
      ensures var r := Replaced(old(View()), path, content, ticks);
              outcome == r.outcome && View() == r.disk && history == old(history) + r.trail
    {
      hide Suffix, WrittenInPlace;
      var ok := CreateDirectories();
      if !ok {
        return Refused;
      }
      counter := counter + 1;
      outcome := WriteInPlace(path, content, Suffix(ticks, counter));
    }

    method WriteInPlace(path: Path, content: Content, suffix: string) returns (outcome: Outcome)
      requires IsSuffix(suffix)
      modifies this`asked, this`files, this`history
      ensures var r := WrittenInPlace(old(View()), path, content, suffix);
              outcome == r.outcome && View() == r.disk && history == old(history) + r.trail
    {
      hide Temporary, IsSuffix, Placed, Written;
      var ok := Write(Temporary(path, suffix), content);
      if !ok {
        return Refused;
      }
      outcome := Place(path, suffix);
    }

    // The second half of the replacement: the temporary file is there.
    method Place(path: Path, suffix: string) returns (outcome: Outcome)
      requires IsSuffix(suffix) && Temporary(path, suffix) in files
      modifies this`asked, this`files, this`history
      ensures var r := Placed(old(View()), path, suffix);
              outcome == r.outcome && View() == r.disk && history == old(history) + r.trail
    {
      hide Temporary, Backup, SwappedIn, MovedIn;
      var found, error := Exists(path);
      if !found {
        outcome := MoveIn(path, suffix);
      } else {
        outcome := SwapIn(path, suffix);
      }
    }

    // The replacement of a file that seems not to be there.
    method MoveIn(path: Path, suffix: string) returns (outcome: Outcome)
      requires Temporary(path, suffix) in files
      modifies this`asked, this`files, this`history
      ensures var r := MovedIn(old(View()), path, suffix);
              outcome == r.outcome && View() == r.disk && history == old(history) + r.trail
    {
      hide Temporary, Backup;
      var temporary := Temporary(path, suffix);
      var ok := Rename(temporary, path);
      if ok {
        return Committed;
      }
      ok := Remove(temporary);
      outcome := if ok then Refused else Threw;
    }

    // The replacement of a file that is there, by way of the backup.
    method SwapIn(path: Path, suffix: string) returns (outcome: Outcome)
      requires IsSuffix(suffix) && path in files && Temporary(path, suffix) in files
      modifies this`asked, this`files, this`history
      ensures var r := SwappedIn(old(View()), path, suffix);
              outcome == r.outcome && View() == r.disk && history == old(history) + r.trail
    {
      BackupIsOther(path, suffix);
      hide Temporary, Backup;
      var temporary, backup := Temporary(path, suffix), Backup(path, suffix);
      var ok := Rename(path, backup);
      if !ok {
        ok := Remove(temporary);
        return if ok then Refused else Threw;
      }
      ok := Rename(temporary, path);
      if !ok {
        var _ := Rename(backup, path);
        ok := Remove(temporary);
        return if ok then Refused else Threw;
      }
      var _ := Remove(backup);
      outcome := Committed;
    }
  }
}
