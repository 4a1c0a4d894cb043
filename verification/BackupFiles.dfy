/**
 Files on disk while an output replaces its source (packages/core/encodr_core/replacement/service.py:47-405)
 and while a backup is restored (apps/api/app/services/jobs.py:560-594).

 A path names an entry; a fault says which operating system call fails, and how.
 */
module BackupFiles {
  import opened Wrappers
  import BackupNames

  type Path = string

  datatype Entry = File(content: string) | Directory(names: set<string>)

  type Files = map<Path, Entry>

  predicate Holds(files: Files, p: Path, e: Entry) {
    p in files && files[p] == e
  }

  predicate IsFile(files: Files, p: Path) {
    p in files && files[p].File?
  }

  ghost predicate SameExcept(before: Files, after: Files, touched: set<Path>) {
    forall p :: p !in touched ==> (p in before <==> p in after) && (p in before ==> after[p] == before[p])
  }

  /** What `rename` and `replace` accept: a file over a file, a directory over an empty one. */
  predicate CanRename(files: Files, src: Path, dst: Path) {
    && src in files
    && (dst in files && dst != src ==>
          if files[src].File? then files[dst].File? else files[dst].Directory? && files[dst].names == {})
  }

  function Renamed(files: Files, src: Path, dst: Path): Files
    requires src in files
  {
    if src == dst then files else (files - {src})[dst := files[src]]
  }

  /** How moving the output across devices may go wrong; a failed copy may leave a torn file. */
  datatype MoveFault =
    | NoFault
    | RenameFails
    | CrossDevice(copyFails: bool, torn: Option<string>, cleanupFails: bool)

  class FileSystem {
    var files: Files

    method Rename(src: Path, dst: Path, fault: bool) returns (ok: bool)
      modifies this
      ensures ok <==> !fault && CanRename(old(files), src, dst)
      ensures files == if ok then Renamed(old(files), src, dst) else old(files)
    {
      ok := !fault && CanRename(files, src, dst);
      if ok {
        files := Renamed(files, src, dst);
      }
    }

    method Unlink(p: Path, fault: bool) returns (ok: bool)
      modifies this
      ensures ok <==> !fault && IsFile(old(files), p)
      ensures files == if ok then old(files) - {p} else old(files)
    {
      ok := !fault && IsFile(files, p);
      if ok {
        files := files - {p};
      }
    }

    /** `_move_generated_output`: a rename, or across devices a copy and a clean-up. */
    method MoveOutput(src: Path, dst: Path, fault: MoveFault) returns (ok: bool)
      modifies this
      ensures ok <==> CanMove(old(files), src, dst, fault)
      ensures files == if ok then Moved(old(files), src, dst, fault) else Stopped(old(files), src, dst, fault)
    {
      if fault.NoFault? {
        ok := Rename(src, dst, false);
        return;
      }
      if fault.RenameFails? || !CanCopy(files, src, dst) {
        return false;
      }
      if fault.copyFails {
        if fault.torn.Some? {
          files := files[dst := File(fault.torn.value)];
        }
        return false;
      }
      files := files[dst := files[src]];
      var _ := Unlink(src, fault.cleanupFails);
      ok := true;
    }
  }

  /** `copyfile` opens both files before it writes. */
  predicate CanCopy(files: Files, src: Path, dst: Path) {
    src != dst && IsFile(files, src) && (dst in files ==> IsFile(files, dst))
  }

  predicate CanMove(files: Files, src: Path, dst: Path, fault: MoveFault) {
    match fault
    case NoFault => CanRename(files, src, dst)
    case RenameFails => false
    case CrossDevice(copyFails, _, _) => !copyFails && CanCopy(files, src, dst)
  }

  /** The output is at its target; it is still in its old place only if removing it there failed. */
  function Moved(files: Files, src: Path, dst: Path, fault: MoveFault): Files
    requires CanMove(files, src, dst, fault)
  {
    if fault.CrossDevice? && fault.cleanupFails then files[dst := files[src]] else Renamed(files, src, dst)
  }

  /** A copy that stops half way leaves a torn file at its target. */
  predicate Tears(files: Files, src: Path, dst: Path, fault: MoveFault) {
    fault.CrossDevice? && fault.copyFails && fault.torn.Some? && CanCopy(files, src, dst)
  }

  function Stopped(files: Files, src: Path, dst: Path, fault: MoveFault): Files {
    if Tears(files, src, dst, fault) then files[dst := File(fault.torn.value)] else files
  }

  // -------------------------------------------------------- Replacement

  /** The plan holds a free text; every other value behaves as `Other`. */
  datatype Strategy = FailIfBackup | ReplaceBackup | KeepExisting | Other

  datatype Plan = Plan(strategy: Strategy, deleteReplaced: bool)

  datatype Paths = Paths(source: Path, staged: Path, final: Path, backup: Path, aside: Path)

  datatype Faults = Faults(
    moveAside: bool, moveSource: bool, move: MoveFault, rollback: bool, restoreAside: bool,
    deleteBackup: bool, deleteAside: bool)

  datatype Failure = NoStagedOutput | NoSource | BackupExists | NoBackupToKeep | TargetOccupied | SystemError

  datatype Replacement = Succeeded(backup: Option<Path>) | Failed(why: Failure)

  /** The temporary name is free, and the names differ as they do by construction. */
  predicate Distinct(files: Files, p: Paths) {
    && p.aside !in files
    && p.backup != p.source && p.backup != p.final && p.backup != p.aside
    && p.aside != p.source && p.aside != p.final && p.aside != p.staged
    && p.staged != p.source && p.staged != p.final && p.staged != p.backup
  }

  /** The paths of a source called `name`: all but the staged output lie beside it. */
  function PathsOf(directory: Path, name: string, container: string, token: string, staged: Path): Paths {
    Paths(directory + "/" + name, staged, directory + "/" + BackupNames.TargetName(name, container),
          directory + "/" + BackupNames.BackupName(name), directory + "/" + BackupNames.AsideName(name, token))
  }

  lemma NamedPathsAreDistinct(files: Files, directory: Path, name: string, container: string, token: string, staged: Path)
    requires name != "" && container != "" && '.' !in container && container !in {"tmp", "encodr-backup"}
    requires var p := PathsOf(directory, name, container, token, staged);
      p.aside !in files && staged !in {p.source, p.final, p.backup, p.aside}
    ensures Distinct(files, PathsOf(directory, name, container, token, staged))
  {
    BackupNames.NamesDiffer(name, container, token);
    forall a: string, b: string | a != b ensures directory + "/" + a != directory + "/" + b {
      assert (directory + "/" + a)[|directory| + 1..] == a && (directory + "/" + b)[|directory| + 1..] == b;
    }
  }

  /** Why a replacement is refused before anything is touched. */
  function Refusal(files: Files, p: Paths, plan: Plan): Option<Failure> {
    if p.staged !in files then Some(NoStagedOutput)
    else if p.source !in files then Some(NoSource)
    else if p.backup in files && plan.strategy == FailIfBackup then Some(BackupExists)
    else if p.backup !in files && plan.strategy == KeepExisting then Some(NoBackupToKeep)
    else if p.final != p.source && p.final in files then Some(TargetOccupied)
    else None
  }

  /** When each refusal is due, the first that applies being the one that is given. */
  predicate Refuses(files: Files, p: Paths, plan: Plan, why: Failure) {
    var first := plan.strategy == FailIfBackup && p.backup in files;
    var missing := plan.strategy == KeepExisting && p.backup !in files;
    match why
    case NoStagedOutput => p.staged !in files
    case NoSource => p.staged in files && p.source !in files
    case BackupExists => p.staged in files && p.source in files && first
    case NoBackupToKeep => p.staged in files && p.source in files && missing
    case TargetOccupied =>
      p.staged in files && p.source in files && !first && !missing && p.final != p.source && p.final in files
    case SystemError => false
  }

  lemma RefusedExactly(files: Files, p: Paths, plan: Plan)
    ensures forall why :: Refusal(files, p, plan) == Some(why) <==> Refuses(files, p, plan, why)
  {
  }

  predicate SetsAside(before: Files, p: Paths, plan: Plan) {
    p.backup in before && plan.strategy == ReplaceBackup
  }

  /** The way to the target can be cleared: the earlier backup set aside and the source backed up. */
  predicate WayClears(before: Files, p: Paths, plan: Plan, faults: Faults) {
    && (SetsAside(before, p, plan) ==> !faults.moveAside)
    && (plan.strategy != KeepExisting ==>
          !faults.moveSource && (SetsAside(before, p, plan) || CanRename(before, p.source, p.backup)))
  }

  /** The files once the backup is set aside and the source has become the backup. */
  function Prepared(before: Files, p: Paths, plan: Plan): Files
    requires Distinct(before, p) && p.source in before
  {
    if plan.strategy == KeepExisting then before
    else if SetsAside(before, p, plan) then Renamed(Renamed(before, p.backup, p.aside), p.source, p.backup)
    else Renamed(before, p.source, p.backup)
  }

  /** `_restore_replaced_backup` */
  function AsideBack(files: Files, p: Paths, movedAside: bool, faults: Faults): Files {
    if movedAside && p.aside in files && p.backup !in files && !faults.restoreAside
    then Renamed(files, p.aside, p.backup) else files
  }

  /** The files when the way could not be cleared. */
  function Blocked(before: Files, p: Paths, plan: Plan, faults: Faults): Files {
    if !SetsAside(before, p, plan) || faults.moveAside then before
    else AsideBack(Renamed(before, p.backup, p.aside), p, true, faults)
  }

  /** The new backup becomes the source again where nothing is in its way, and the earlier one returns. */
  function RolledBack(files: Files, p: Paths, plan: Plan, faults: Faults, movedAside: bool): Files {
    var back :=
      if plan.strategy != KeepExisting && p.backup in files && p.source !in files && !faults.rollback
      then Renamed(files, p.backup, p.source) else files;
    AsideBack(back, p, movedAside, faults)
  }

  predicate DeletesBackup(files: Files, p: Paths, plan: Plan, faults: Faults) {
    plan.strategy != KeepExisting && plan.deleteReplaced && IsFile(files, p.backup) && !faults.deleteBackup
  }

  function CleanedUp(files: Files, p: Paths, plan: Plan, faults: Faults, movedAside: bool): Files {
    var kept := if DeletesBackup(files, p, plan, faults) then files - {p.backup} else files;
    if movedAside && IsFile(kept, p.aside) && !faults.deleteAside then kept - {p.aside} else kept
  }

  /** What a replacement answers and leaves behind. */
  function Replaced(before: Files, p: Paths, plan: Plan, faults: Faults): (Replacement, Files)
    requires Distinct(before, p)
  {
    var refusal := Refusal(before, p, plan);
    if refusal.Some? then (Failed(refusal.value), before)
    else if !WayClears(before, p, plan, faults) then (Failed(SystemError), Blocked(before, p, plan, faults))
    else
      var ready, movedAside := Prepared(before, p, plan), SetsAside(before, p, plan);
      if CanMove(ready, p.staged, p.final, faults.move) then
        var moved := Moved(ready, p.staged, p.final, faults.move);
        (Succeeded(if DeletesBackup(moved, p, plan, faults) then None else Some(p.backup)),
         CleanedUp(moved, p, plan, faults, movedAside))
      else
        (Failed(SystemError), RolledBack(Stopped(ready, p.staged, p.final, faults.move), p, plan, faults, movedAside))
  }

  method ReplaceInPlace(fs: FileSystem, p: Paths, plan: Plan, faults: Faults) returns (r: Replacement)
    requires Distinct(fs.files, p)
    modifies fs
    ensures (r, fs.files) == Replaced(old(fs.files), p, plan, faults)
    ensures r.Succeeded? <==> Succeeds(old(fs.files), p, plan, faults)
    ensures r.Succeeded? ==> SuccessIsComplete(old(fs.files), fs.files, p, plan, faults, r.backup)
    ensures r.Failed? && r.why != SystemError ==> fs.files == old(fs.files) && Refuses(old(fs.files), p, plan, r.why)
    ensures forall why :: Refuses(old(fs.files), p, plan, why) ==> r == Failed(why)
    ensures r == Failed(SystemError) ==>
      && p.staged in old(fs.files) && p.source in old(fs.files)
      && FailureIsSafe(old(fs.files), fs.files, p, plan, faults)
  {
    SucceedsExactly(fs.files, p, plan, faults);
    RefusedExactly(fs.files, p, plan);
    var refusal := Refusal(fs.files, p, plan);
    if refusal.Some? {
      return Failed(refusal.value);
    }
    EveryEndIsSafe(fs.files, p, plan, faults);
    var movedAside := p.backup in fs.files && plan.strategy == ReplaceBackup;
    var ready := MakeWay(fs, p, plan, faults);
    if !ready {
      return Failed(SystemError);
    }
    var placed := fs.MoveOutput(p.staged, p.final, faults.move);
    if !placed {
      RollBack(fs, p, plan, faults, movedAside);
      return Failed(SystemError);
    }
    var deleted := CleanUp(fs, p, plan, faults, movedAside);
    r := Succeeded(if deleted then None else Some(p.backup));
  }

  /** Set an earlier backup aside, then let the source become the backup. */
  method MakeWay(fs: FileSystem, p: Paths, plan: Plan, faults: Faults) returns (ready: bool)
    requires Distinct(fs.files, p) && Refusal(fs.files, p, plan).None?
    modifies fs
    ensures ready <==> WayClears(old(fs.files), p, plan, faults)
    ensures fs.files == if ready then Prepared(old(fs.files), p, plan) else Blocked(old(fs.files), p, plan, faults)
  {
    var movedAside := p.backup in fs.files && plan.strategy == ReplaceBackup;
    if movedAside {
      var ok := fs.Rename(p.backup, p.aside, faults.moveAside);
      if !ok {
        return false;
      }
    }
    if plan.strategy != KeepExisting {
      var ok := fs.Rename(p.source, p.backup, faults.moveSource);
      if !ok {
        RestoreAside(fs, p, movedAside, faults);
        return false;
      }
    }
    ready := true;
  }

  /** Undo `MakeWay` after the output could not be moved into place. */
  method RollBack(fs: FileSystem, p: Paths, plan: Plan, faults: Faults, movedAside: bool)
    modifies fs
    ensures fs.files == RolledBack(old(fs.files), p, plan, faults, movedAside)
  {
    if plan.strategy != KeepExisting && p.backup in fs.files && p.source !in fs.files {
      var _ := fs.Rename(p.backup, p.source, faults.rollback);
    }
    RestoreAside(fs, p, movedAside, faults);
  }

  method RestoreAside(fs: FileSystem, p: Paths, movedAside: bool, faults: Faults)
    modifies fs
    ensures fs.files == AsideBack(old(fs.files), p, movedAside, faults)
  {
    if !movedAside || p.aside !in fs.files || p.backup in fs.files {
      return;
    }
    var _ := fs.Rename(p.aside, p.backup, faults.restoreAside);
  }

  /** Delete the new backup when asked to, and the earlier one that was set aside. */
  method CleanUp(fs: FileSystem, p: Paths, plan: Plan, faults: Faults, movedAside: bool) returns (deleted: bool)
    modifies fs
    ensures deleted <==> DeletesBackup(old(fs.files), p, plan, faults)
    ensures fs.files == CleanedUp(old(fs.files), p, plan, faults, movedAside)
  {
    deleted := false;
    if plan.strategy != KeepExisting && plan.deleteReplaced && p.backup in fs.files {
      deleted := fs.Unlink(p.backup, faults.deleteBackup);
    }
    if movedAside && p.aside in fs.files {
      var _ := fs.Unlink(p.aside, faults.deleteAside);
    }
  }

  // -------------------------------------------------------- What a replacement promises

  /** Everything a success needs, on the files and faults before the call. */
  predicate Succeeds(before: Files, p: Paths, plan: Plan, faults: Faults) {
    var aside := plan.strategy == ReplaceBackup && p.backup in before;
    && p.staged in before && p.source in before && (p.final != p.source ==> p.final !in before)
    && (plan.strategy == FailIfBackup ==> p.backup !in before)
    && (plan.strategy == KeepExisting ==> p.backup in before)
    && (aside ==> !faults.moveAside)
    && (plan.strategy != KeepExisting ==> !faults.moveSource && (aside || CanRename(before, p.source, p.backup)))
    && !faults.move.RenameFails?
    && (faults.move.CrossDevice? ==> !faults.move.copyFails && IsFile(before, p.staged))
    && (OverSource(p, plan) ==>
          if faults.move.CrossDevice? then IsFile(before, p.source) else CanRename(before, p.staged, p.source))
  }

  /**
   The ordinary case: with no fault, a first replacement of a file by a file, under any strategy that does
   not ask for an earlier backup, succeeds; the disk then holds the output at the target and, unless it is
   to be deleted, the original at the backup's path, and all else is as it was.
   */
  lemma FirstReplacementSucceeds(before: Files, p: Paths, plan: Plan, faults: Faults)
    requires Distinct(before, p) && IsFile(before, p.staged) && IsFile(before, p.source) && p.backup !in before
    requires plan.strategy != KeepExisting && (p.final != p.source ==> p.final !in before)
    requires faults == Faults(false, false, NoFault, false, false, false, false)
    ensures var after := (before - {p.staged, p.source})[p.final := before[p.staged]];
      Replaced(before, p, plan, faults) ==
        if plan.deleteReplaced then (Succeeded(None), after)
        else (Succeeded(Some(p.backup)), after[p.backup := before[p.source]])
  {
    var (r, files) := Replaced(before, p, plan, faults);
    var after := (before - {p.staged, p.source})[p.final := before[p.staged]];
    var expected := if plan.deleteReplaced then after else after[p.backup := before[p.source]];
    assert files == expected;
  }

  /** The output is written straight over the source, which has no new backup. */
  predicate OverSource(p: Paths, plan: Plan) {
    plan.strategy == KeepExisting && p.final == p.source
  }

  lemma SucceedsExactly(before: Files, p: Paths, plan: Plan, faults: Faults)
    requires Distinct(before, p)
    ensures Replaced(before, p, plan, faults).0.Succeeded? <==> Succeeds(before, p, plan, faults)
  {
  }

  /** After a failure: the output is where it was, and nothing but the four paths is touched. */
  ghost predicate FailureIsSafe(before: Files, after: Files, p: Paths, plan: Plan, faults: Faults)
    requires p.source in before && p.staged in before
  {
    && SameExcept(before, after, {p.source, p.final, p.backup, p.aside})
    && Holds(after, p.staged, before[p.staged])
    && (OriginalSurvives(before, p, plan, faults) ==> Kept(after, p, before[p.source]))
    && (p.backup in before && BackupSurvives(before, p, plan, faults) ==> Kept(after, p, before[p.backup]))
  }

  /** The entry is at one of the paths a user is told about. */
  predicate Kept(files: Files, p: Paths, e: Entry) {
    Holds(files, p.source, e) || Holds(files, p.backup, e) || Holds(files, p.aside, e)
  }

  /** Unless a torn copy goes straight over it. */
  predicate OriginalSurvives(before: Files, p: Paths, plan: Plan, faults: Faults) {
    !(OverSource(p, plan) && Tears(before, p.staged, p.source, faults.move))
  }

  /** Unless the source is renamed over it, which only a strategy the code does not test for lets happen. */
  predicate BackupSurvives(before: Files, p: Paths, plan: Plan, faults: Faults) {
    !(plan.strategy == Other && WayClears(before, p, plan, faults))
  }

  /** After a success: the output is in place, and what became of everything else. */
  ghost predicate SuccessIsComplete(before: Files, after: Files, p: Paths, plan: Plan, faults: Faults, backup: Option<Path>)
    requires p.source in before && p.staged in before
  {
    var keep := plan.strategy == KeepExisting;
    && SameExcept(before, after, {p.source, p.final, p.backup, p.aside, p.staged})
    && Holds(after, p.final, before[p.staged])
    && (if faults.move.CrossDevice? && faults.move.cleanupFails then Holds(after, p.staged, before[p.staged])
        else p.staged !in after)
    && (p.final != p.source ==> if keep then Holds(after, p.source, before[p.source]) else p.source !in after)
    && (backup == None <==> p.backup !in after)
    && (backup.Some? ==> backup.value == p.backup)
    && (if keep then p.backup in before && Holds(after, p.backup, before[p.backup])
        else if plan.deleteReplaced && !faults.deleteBackup && before[p.source].File? then p.backup !in after
        else Holds(after, p.backup, before[p.source]))
    && (if SetsAside(before, p, plan) && (faults.deleteAside || before[p.backup].Directory?)
        then Holds(after, p.aside, before[p.backup]) else p.aside !in after)
  }

  lemma EveryEndIsSafe(before: Files, p: Paths, plan: Plan, faults: Faults)
    requires Distinct(before, p) && Refusal(before, p, plan).None?
    ensures var (r, after) := Replaced(before, p, plan, faults);
      if r.Succeeded? then SuccessIsComplete(before, after, p, plan, faults, r.backup)
      else r.why == SystemError && FailureIsSafe(before, after, p, plan, faults)
  {
    if WayClears(before, p, plan, faults) {
      var ready := Prepared(before, p, plan);
      if CanMove(ready, p.staged, p.final, faults.move) {
        MovedIsComplete(before, p, plan, faults);
      } else {
        RollBackIsSafe(before, p, plan, faults);
      }
    }
  }

  lemma MovedIsComplete(before: Files, p: Paths, plan: Plan, faults: Faults)
    requires Distinct(before, p) && Refusal(before, p, plan).None? && WayClears(before, p, plan, faults)
    requires CanMove(Prepared(before, p, plan), p.staged, p.final, faults.move)
    ensures var (r, after) := Replaced(before, p, plan, faults);
      r.Succeeded? && SuccessIsComplete(before, after, p, plan, faults, r.backup)
  {
  }

  lemma RollBackIsSafe(before: Files, p: Paths, plan: Plan, faults: Faults)
    requires Distinct(before, p) && Refusal(before, p, plan).None? && WayClears(before, p, plan, faults)
    requires !CanMove(Prepared(before, p, plan), p.staged, p.final, faults.move)
    ensures var (r, after) := Replaced(before, p, plan, faults);
      r == Failed(SystemError) && FailureIsSafe(before, after, p, plan, faults)
  {
  }

  /**
   When the way cannot be cleared the disk is as it was, but for an earlier backup that had been set aside
   and could not be put back: it stays at its temporary name.
   */
  lemma BlockedExactly(before: Files, p: Paths, plan: Plan, faults: Faults)
    requires Distinct(before, p) && p.staged in before && p.source in before && (p.final != p.source ==> p.final !in before)
    requires (plan.strategy == FailIfBackup ==> p.backup !in before) && (plan.strategy == KeepExisting ==> p.backup in before)
    requires var aside := plan.strategy == ReplaceBackup && p.backup in before;
      if aside then faults.moveAside || faults.moveSource
      else plan.strategy != KeepExisting && (faults.moveSource || !CanRename(before, p.source, p.backup))
    ensures Replaced(before, p, plan, faults) ==
      (Failed(SystemError),
       if plan.strategy == ReplaceBackup && p.backup in before && !faults.moveAside && faults.restoreAside
       then (before - {p.backup})[p.aside := before[p.backup]] else before)
  {
    if plan.strategy == ReplaceBackup && p.backup in before {
      assert Renamed(Renamed(before, p.backup, p.aside), p.aside, p.backup) == before;
    }
  }

  /** Contents differ wherever a replacement could confuse them. */
  predicate Tellable(before: Files, p: Paths, faults: Faults)
    requires p.source in before
  {
    && (p.backup in before ==> before[p.backup] != before[p.source])
    && (faults.move.CrossDevice? && faults.move.torn.Some? ==>
          var torn := File(faults.move.torn.value);
          torn != before[p.source] && (p.backup in before ==> torn != before[p.backup]))
  }

  /** After a failure the original is gone exactly when a torn copy went straight over it. */
  lemma OriginalIsLostExactly(before: Files, p: Paths, plan: Plan, faults: Faults)
    requires Distinct(before, p) && Refusal(before, p, plan).None? && Tellable(before, p, faults)
    requires !Succeeds(before, p, plan, faults)
    ensures var after := Replaced(before, p, plan, faults).1;
      Kept(after, p, before[p.source]) <==> OriginalSurvives(before, p, plan, faults)
  {
    EveryEndIsSafe(before, p, plan, faults);
    SucceedsExactly(before, p, plan, faults);
  }

  /** After a failure an earlier backup is gone exactly when the source was renamed over it. */
  lemma EarlierBackupIsLostExactly(before: Files, p: Paths, plan: Plan, faults: Faults)
    requires Distinct(before, p) && Refusal(before, p, plan).None? && Tellable(before, p, faults)
    requires p.backup in before && !Succeeds(before, p, plan, faults)
    ensures var after := Replaced(before, p, plan, faults).1;
      Kept(after, p, before[p.backup]) <==> BackupSurvives(before, p, plan, faults)
  {
    EveryEndIsSafe(before, p, plan, faults);
    SucceedsExactly(before, p, plan, faults);
  }

  /** Under the three strategies the code tests for, an earlier backup survives every failure. */
  lemma KnownStrategiesKeepBackup(before: Files, p: Paths, plan: Plan, faults: Faults)
    requires Distinct(before, p) && p.backup in before && plan.strategy != Other
    requires !Succeeds(before, p, plan, faults)
    ensures Kept(Replaced(before, p, plan, faults).1, p, before[p.backup])
  {
    if Refusal(before, p, plan).None? {
      EveryEndIsSafe(before, p, plan, faults);
      SucceedsExactly(before, p, plan, faults);
    }
  }

  /** A kept backup beside a source of other content: the torn copy is all that is left of the source. */
  lemma TornCopyLosesOriginal(before: Files, p: Paths, plan: Plan, faults: Faults, torn: string)
    requires Distinct(before, p) && plan.strategy == KeepExisting && p.final == p.source
    requires IsFile(before, p.source) && IsFile(before, p.staged) && p.backup in before
    requires faults.move == CrossDevice(true, Some(torn), false) && Tellable(before, p, faults)
    ensures Replaced(before, p, plan, faults) == (Failed(SystemError), before[p.source := File(torn)])
    ensures !Kept(Replaced(before, p, plan, faults).1, p, before[p.source])
  {
  }

  /** Under an unknown strategy a failed move gives the source back and has lost the earlier backup. */
  lemma UnknownStrategyLosesBackup(before: Files, p: Paths, plan: Plan, faults: Faults)
    requires Distinct(before, p) && plan.strategy == Other && p.staged in before
    requires IsFile(before, p.source) && IsFile(before, p.backup) && (p.final != p.source ==> p.final !in before)
    requires !faults.moveSource && !faults.rollback && faults.move == RenameFails && Tellable(before, p, faults)
    ensures Replaced(before, p, plan, faults) == (Failed(SystemError), before - {p.backup})
    ensures !Kept(Replaced(before, p, plan, faults).1, p, before[p.backup])
  {
    var ready := Renamed(before, p.source, p.backup);
    assert Renamed(ready, p.backup, p.source) == before - {p.backup};
  }

  /** The only failure is that of the final move, and it left no torn file. */
  predicate CleanFailure(faults: Faults) {
    && !faults.moveAside && !faults.moveSource && !faults.rollback && !faults.restoreAside
    && (faults.move.RenameFails? || (faults.move.CrossDevice? && faults.move.copyFails && faults.move.torn.None?))
  }

  lemma CleanFailureIsUndone(before: Files, p: Paths, plan: Plan, faults: Faults)
    requires Distinct(before, p) && CleanFailure(faults) && !(plan.strategy == Other && p.backup in before)
    ensures var (r, after) := Replaced(before, p, plan, faults); r.Failed? && after == before
  {
    if Refusal(before, p, plan).None? {
      PreparingIsUndone(before, p, plan);
    }
  }

  lemma PreparingIsUndone(before: Files, p: Paths, plan: Plan)
    requires Distinct(before, p) && p.source in before
    ensures var ready := Prepared(before, p, plan);
      match plan.strategy
      case KeepExisting => ready == before
      case ReplaceBackup =>
        var back := Renamed(ready, p.backup, p.source);
        before == if p.backup in before then Renamed(back, p.aside, p.backup) else back
      case _ => p.backup !in before ==> Renamed(ready, p.backup, p.source) == before
  {
  }

  // -------------------------------------------------------- Restoring a backup

  datatype Restoration = Restored | ActiveJob | NoBackup | SourceOccupied | RenameFailed

  /** What a restored backup leaves behind. */
  ghost predicate Restores(before: Files, after: Files, source: Path, replacement: Path, backup: Path, unlinkFault: bool) {
    && backup in before && Holds(after, source, before[backup])
    && (backup in after <==> backup == source)
    && (replacement != source && replacement != backup ==>
          if replacement in before && (unlinkFault || before[replacement].Directory?)
          then Holds(after, replacement, before[replacement]) else replacement !in after)
    && SameExcept(before, after, {source, replacement, backup})
  }

  method RestoreBackup(
      fs: FileSystem, source: Path, replacement: Path, backup: Path, active: bool, renameFault: bool, unlinkFault: bool)
    returns (r: Restoration)
    modifies fs
    ensures r != Restored ==> fs.files == old(fs.files)
    ensures r == Restored ==> Restores(old(fs.files), fs.files, source, replacement, backup, unlinkFault)
    ensures r == Restored && backup == source ==> replacement == source
    ensures r == ActiveJob <==> active
    ensures r == NoBackup <==> !active && !IsFile(old(fs.files), backup)
    ensures r == SourceOccupied <==>
      !active && IsFile(old(fs.files), backup) && source in old(fs.files) && source != replacement
    ensures r == RenameFailed <==>
      && !active && IsFile(old(fs.files), backup) && (source in old(fs.files) ==> source == replacement)
      && (renameFault || !CanRename(old(fs.files), backup, source))
  {
    if active {
      return ActiveJob;
    }
    if !IsFile(fs.files, backup) {
      return NoBackup;
    }
    if source in fs.files && source != replacement {
      return SourceOccupied;
    }
    var ok := fs.Rename(backup, source, renameFault);
    if !ok {
      return RenameFailed;
    }
    if source != replacement && replacement in fs.files {
      var _ := fs.Unlink(replacement, unlinkFault);
    }
    r := Restored;
  }

  /**
   Restoring undoes a replacement: the same files as before, less the consumed output and any
   earlier backup, which is at most still at the temporary name it was set aside to.
   */
  lemma RestoreUndoesReplacement(before: Files, between: Files, after: Files, p: Paths, plan: Plan, faults: Faults)
    requires Distinct(before, p) && Refusal(before, p, plan).None? && plan.strategy != KeepExisting
    requires p.final != p.source ==> before[p.staged].File?
    requires SuccessIsComplete(before, between, p, plan, faults, Some(p.backup))
    requires Restores(between, after, p.source, p.final, p.backup, false)
    ensures after == Undone(before, p, plan, faults)
  {
    var expected := Undone(before, p, plan, faults);
    forall q ensures (q in after <==> q in expected) && (q in expected ==> after[q] == expected[q]) {
      if q !in {p.source, p.final, p.backup, p.aside, p.staged} {
        assert q in before <==> q in between;
      }
    }
  }

  function Undone(before: Files, p: Paths, plan: Plan, faults: Faults): Files {
    var rest := before - {p.backup};
    var consumed := if faults.move.CrossDevice? && faults.move.cleanupFails then rest else rest - {p.staged};
    if SetsAside(before, p, plan) && (faults.deleteAside || before[p.backup].Directory?)
    then consumed[p.aside := before[p.backup]] else consumed
  }

  /** A kept backup brings back the older content over an output of the source's own name. */
  lemma RestoreAfterKeeping(before: Files, between: Files, after: Files, p: Paths, plan: Plan, faults: Faults)
    requires Distinct(before, p) && Refusal(before, p, plan).None? && OverSource(p, plan)
    requires SuccessIsComplete(before, between, p, plan, faults, Some(p.backup))
    requires Restores(between, after, p.source, p.final, p.backup, false)
    ensures after == Undone(before, p, plan, faults)[p.source := before[p.backup]]
  {
    var expected := Undone(before, p, plan, faults)[p.source := before[p.backup]];
    forall q ensures (q in after <==> q in expected) && (q in expected ==> after[q] == expected[q]) {
      if q !in {p.source, p.final, p.backup, p.aside, p.staged} {
        assert q in before <==> q in between;
      }
    }
  }

  /**
   A replacement and a restore bring the original back exactly when the replacement backed it up: with
   an earlier backup kept instead, its own older content returns.
   */
  lemma RestoreGivesOriginalExactly(before: Files, between: Files, after: Files, p: Paths, plan: Plan, faults: Faults, unlinkFault: bool)
    requires Distinct(before, p) && Refusal(before, p, plan).None?
    requires p.backup in before ==> before[p.backup] != before[p.source]
    requires SuccessIsComplete(before, between, p, plan, faults, Some(p.backup))
    requires Restores(between, after, p.source, p.final, p.backup, unlinkFault)
    ensures Holds(after, p.source, before[p.source]) <==> plan.strategy != KeepExisting
  {
  }
}
