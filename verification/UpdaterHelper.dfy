/** The updater's loops over a disk on which any operation may fail at any time. */
module UpdaterHelper {
  import opened Common
  import opened Updater

  /** How the operating system answers one operation. A failing write may leave anything
      in the file it was writing. */
  datatype Outcome = Works | Fails | Spoils(junk: Content)

  predicate OnlyAt(was: Files, now: Files, p: Path) {
    was - {p} == now - {p}
  }

  class Disk {
    var files: Files
    /** Every state the files have been in: what a crash could leave behind. */
    ghost var history: seq<Files>
    const outcomes: nat -> Outcome
    var operations: nat

    constructor (files: Files, outcomes: nat -> Outcome)
      ensures this.files == files && history == [files] && this.outcomes == outcomes && operations == 0
    {
      this.files, this.history, this.outcomes, this.operations := files, [files], outcomes, 0;
    }

    /** No operation fails of itself. */
    ghost predicate Reliable() {
      forall n :: outcomes(n).Works?
    }

    method Next() returns (outcome: Outcome)
      modifies this`operations
      ensures outcome == outcomes(old(operations)) && operations == old(operations) + 1
    {
      outcome := outcomes(operations);
      operations := operations + 1;
    }

    method MakeDirectory(dir: string) returns (ok: bool)
      modifies this`operations
      ensures Reliable() ==> ok
    {
      var outcome := Next();
      ok := outcome.Works?;
    }

    /** Reads a file and compares its digest. */
    method Check(matches: Digest, p: Path, sha256: string) returns (ok: bool)
      modifies this`operations
      ensures ok <==> outcomes(old(operations)).Works? && p in files && matches(files[p], sha256)
      ensures operations == old(operations) + 1
    {
      var outcome := Next();
      ok := outcome.Works? && p in files && matches(files[p], sha256);
    }

    method Write(p: Path, content: Content) returns (ok: bool)
      modifies this
      ensures history == old(history) + [files] && OnlyAt(old(files), files, p)
      ensures ok ==> files == old(files)[p := content]
      ensures Reliable() ==> ok
    {
      var outcome := Next();
      ok := outcome.Works?;
      match outcome {
        case Works => files := files[p := content];
        case Fails =>
        case Spoils(junk) => files := files[p := junk];
      }
      history := history + [files];
    }

    method Copy(from: Path, to: Path) returns (ok: bool)
      modifies this
      ensures history == old(history) + [files] && OnlyAt(old(files), files, to)
      ensures ok ==> from in old(files) && files == old(files)[to := old(files)[from]]
      ensures Reliable() && from in old(files) ==> ok
    {
      if from in files {
        ok := Write(to, files[from]);
      } else {
        ok := false;
        history := history + [files];
      }
    }

    method Remove(p: Path) returns (ok: bool)
      modifies this
      ensures history == old(history) + [files] && OnlyAt(old(files), files, p)
      ensures files == if ok then old(files) - {p} else old(files)
      ensures Reliable() ==> ok
    {
      var outcome := Next();
      ok := outcome.Works?;
      if ok {
        files := files - {p};
      }
      history := history + [files];
    }

    /** Renaming happens as a whole or not at all. */
    method Rename(from: Path, to: Path) returns (ok: bool)
      modifies this
      ensures history == old(history) + [files]
      ensures !ok ==> files == old(files)
      ensures ok ==> from in old(files) && files == (old(files) - {from})[to := old(files)[from]]
      ensures Reliable() && from in old(files) ==> ok
    {
      var outcome := Next();
      ok := outcome.Works? && from in files;
      if ok {
        files := (files - {from})[to := files[from]];
      }
      history := history + [files];
    }
  }

  // ------------------------------------------------------------------- never losing data

  /** The old bytes of every file that existed are at its destination or at its backup, and
      every destination is the old file, is missing, or is the new file. */
  ghost predicate Recoverable(was: Files, now: Files, assets: seq<Asset>, dir: string) {
    && Midway(was, now, assets)
    && forall i :: 0 <= i < |assets| && assets[i].destination in was ==>
      SameAt(was, now, assets[i].destination) || BackupHeld(was, now, assets[i].destination, dir, i)
  }

  /** The first `n` backups are taken and the other destinations are as they were. */
  ghost predicate Guarded(was: Files, now: Files, assets: seq<Asset>, dir: string, n: nat)
    requires n <= |assets|
  {
    && (forall i :: 0 <= i < n && assets[i].destination in was ==>
      BackupHeld(was, now, assets[i].destination, dir, i))
    && (forall i :: n <= i < |assets| ==> SameAt(was, now, assets[i].destination))
  }

  lemma GuardedIsRecoverable(was: Files, now: Files, assets: seq<Asset>, dir: string, n: nat)
    requires n <= |assets| && Guarded(was, now, assets, dir, n) && Midway(was, now, assets)
    ensures Recoverable(was, now, assets, dir)
  {
    forall i | 0 <= i < |assets| && assets[i].destination in was
      ensures SameAt(was, now, assets[i].destination) || BackupHeld(was, now, assets[i].destination, dir, i)
    {
    }
  }

  predicate Harmless(assets: seq<Asset>, dir: string, n: nat, p: Path)
    requires n <= |assets|
  {
    && (forall i :: 0 <= i < n ==> p != BackupPath(dir, i, assets[i].destination))
    && (forall i :: n <= i < |assets| ==> p != assets[i].destination)
  }

  /** The path is no source and no destination. */
  predicate Private(assets: seq<Asset>, p: Path) {
    forall i :: 0 <= i < |assets| ==> p != assets[i].source && p != assets[i].destination
  }

  lemma MidwayKept(was: Files, now: Files, next: Files, assets: seq<Asset>, p: Path)
    requires Midway(was, now, assets) && OnlyAt(now, next, p) && Private(assets, p)
    ensures Midway(was, next, assets)
  {
    OnlyThere(now, next, p);
    forall i | 0 <= i < |assets| ensures AssetMidway(was, next, assets[i]) {
      assert AssetMidway(was, now, assets[i]);
      assert SameAt(now, next, assets[i].source) && SameAt(now, next, assets[i].destination);
    }
  }

  /** A destination may go, or become what its source was. */
  lemma MidwayChanged(was: Files, now: Files, next: Files, assets: seq<Asset>, dir: string, k: nat)
    requires Separate(assets, dir) && k < |assets| && Midway(was, now, assets)
    requires OnlyAt(now, next, assets[k].destination) && AssetMidway(was, next, assets[k])
    ensures Midway(was, next, assets)
  {
    OnlyThere(now, next, assets[k].destination);
    forall i | 0 <= i < |assets| ensures AssetMidway(was, next, assets[i]) {
      assert Apart(assets[k], assets[i], dir, i) && AssetMidway(was, now, assets[i]);
      if i != k {
        assert SameAt(now, next, assets[i].source) && SameAt(now, next, assets[i].destination);
      }
    }
  }

  /** A change at a path that guards nothing. */
  lemma GuardKept(was: Files, now: Files, next: Files, assets: seq<Asset>, dir: string, n: nat, p: Path)
    requires n <= |assets| && Guarded(was, now, assets, dir, n) && OnlyAt(now, next, p)
    requires Harmless(assets, dir, n, p)
    ensures Guarded(was, next, assets, dir, n)
  {
    OnlyThere(now, next, p);
    forall i | 0 <= i < n && assets[i].destination in was
      ensures BackupHeld(was, next, assets[i].destination, dir, i)
    {
      assert BackupHeld(was, now, assets[i].destination, dir, i);
      assert SameAt(now, next, BackupPath(dir, i, assets[i].destination));
    }
    forall i | n <= i < |assets| ensures SameAt(was, next, assets[i].destination) {
      assert SameAt(was, now, assets[i].destination) && SameAt(now, next, assets[i].destination);
    }
  }

  lemma OnlyThere(was: Files, now: Files, p: Path)
    requires OnlyAt(was, now, p)
    ensures forall q :: q != p ==> SameAt(was, now, q)
  {
    forall q | q != p ensures SameAt(was, now, q) {
      assert q in was <==> q in was - {p};
      assert q in now <==> q in now - {p};
      assert q in was ==> (was - {p})[q] == was[q];
      assert q in now ==> (now - {p})[q] == now[q];
    }
  }

  /** Where the paths of one asset stand to the guards of the others. */
  lemma OwnPaths(assets: seq<Asset>, dir: string, k: nat)
    requires Separate(assets, dir) && k < |assets|
    ensures Harmless(assets, dir, k, BackupPath(dir, k, assets[k].destination))
    ensures Harmless(assets, dir, k + 1, TempPath(assets[k].destination))
    ensures Harmless(assets, dir, k + 1, assets[k].destination)
    ensures Private(assets, BackupPath(dir, k, assets[k].destination))
    ensures Private(assets, TempPath(assets[k].destination))
  {
    forall i | 0 <= i < |assets|
      ensures Apart(assets[i], assets[k], dir, k) && Apart(assets[k], assets[i], dir, i)
      ensures TempPath(assets[k].destination) != BackupPath(dir, i, assets[i].destination)
      ensures BackupPath(dir, i, assets[i].destination) == BackupPath(dir, k, assets[k].destination) ==> i == k
    {
      NamesApart(dir, assets[k].destination, k, assets[i].destination, i);
    }
  }

  ghost predicate AllRecoverable(was: Files, states: seq<Files>, assets: seq<Asset>, dir: string) {
    forall k :: 0 <= k < |states| ==> Recoverable(was, states[k], assets, dir)
  }

  /** For separate paths: the guard holds now, and no state since `start` lost anything. */
  ghost predicate Safe(files: Files, history: seq<Files>, was: Files, assets: seq<Asset>, dir: string,
                       start: nat, n: nat)
  {
    Separate(assets, dir) ==>
      && n <= |assets| && Guarded(was, files, assets, dir, n) && Midway(was, files, assets)
      && start <= |history| && AllRecoverable(was, history[start..], assets, dir)
  }

  /** A harmless change, and what it leaves of the rollback plan. */
  lemma SafeTouch(files: Files, history: seq<Files>, next: Files, was: Files, assets: seq<Asset>, dir: string,
                  start: nat, n: nat, p: Path)
    requires n <= |assets| && Safe(files, history, was, assets, dir, start, n) && OnlyAt(files, next, p)
    requires Separate(assets, dir) ==> Harmless(assets, dir, n, p) && Private(assets, p)
    ensures Safe(next, history + [next], was, assets, dir, start, n)
    ensures p != PlanPath(dir) ==> SameAt(files, next, PlanPath(dir))
  {
    OnlyThere(files, next, p);
    if Separate(assets, dir) {
      GuardKept(was, files, next, assets, dir, n, p);
      MidwayKept(was, files, next, assets, p);
      GuardedIsRecoverable(was, next, assets, dir, n);
      assert (history + [next])[start..] == history[start..] + [next];
    }
  }

  /** Removing the destination of the asset at hand, once its backup is taken. */
  lemma SafeRemove(files: Files, history: seq<Files>, next: Files, was: Files, assets: seq<Asset>, dir: string,
                   start: nat, k: nat)
    requires k < |assets| && Safe(files, history, was, assets, dir, start, k + 1)
    requires next == files || next == files - {assets[k].destination}
    ensures Safe(next, history + [next], was, assets, dir, start, k + 1)
    ensures Separate(assets, dir) ==> SameAt(files, next, PlanPath(dir))
  {
    if Separate(assets, dir) {
      OwnPaths(assets, dir, k);
      var dest := assets[k].destination;
      OnlyThere(files, next, dest);
      GuardKept(was, files, next, assets, dir, k + 1, dest);
      assert Apart(assets[k], assets[k], dir, k) && AssetMidway(was, files, assets[k]);
      assert SameAt(files, next, assets[k].source);
      MidwayChanged(was, files, next, assets, dir, k);
      GuardedIsRecoverable(was, next, assets, dir, k + 1);
      assert (history + [next])[start..] == history[start..] + [next];
    }
  }

  lemma SafeAdvance(files: Files, history: seq<Files>, was: Files, assets: seq<Asset>, dir: string,
                    start: nat, n: nat)
    requires n < |assets| && Safe(files, history, was, assets, dir, start, n)
    requires assets[n].destination in was ==> BackupHeld(was, files, assets[n].destination, dir, n)
    ensures Safe(files, history, was, assets, dir, start, n + 1)
  {
  }

  // -------------------------------------------------------------------------- the loops

  /** Every source is there and has the wanted digest. */
  predicate AllVerified(matches: Digest, files: Files, assets: seq<Asset>) {
    forall i :: 0 <= i < |assets| ==>
      assets[i].source in files && matches(files[assets[i].source], assets[i].sha256)
  }

  /** The next so many operations do not fail. */
  ghost predicate AllRead(disk: Disk, from: nat, count: nat) {
    forall n: nat :: from <= n < from + count ==> disk.outcomes(n).Works?
  }

  method VerifyAssets(disk: Disk, matches: Digest, assets: seq<Asset>) returns (ok: bool)
    modifies disk`operations
    ensures ok <==> AllVerified(matches, disk.files, assets) && AllRead(disk, old(disk.operations), |assets|)
  {
    for n := 0 to |assets|
      invariant disk.operations == old(disk.operations) + n && AllRead(disk, old(disk.operations), n)
      invariant forall i :: 0 <= i < n ==>
        assets[i].source in disk.files && matches(disk.files[assets[i].source], assets[i].sha256)
    {
      ok := disk.Check(matches, assets[n].source, assets[n].sha256);
      if !ok {
        return false;
      }
    }
    ok := true;
  }

  /** Copies an existing destination to its backup. */
  method TakeBackup(disk: Disk, assets: seq<Asset>, dir: string, index: nat, ghost was: Files, ghost start: nat)
    returns (ok: bool, backup: Option<Path>)
    requires index < |assets|
    requires Safe(disk.files, disk.history, was, assets, dir, start, index)
    modifies disk
    ensures Safe(disk.files, disk.history, was, assets, dir, start, if ok then index + 1 else index)
    ensures Separate(assets, dir) ==> SameAt(old(disk.files), disk.files, PlanPath(dir))
    ensures disk.Reliable() ==> ok
    ensures var dest := assets[index].destination;
      var path := BackupPath(dir, index, dest);
      && (ok && dest in old(disk.files) ==>
        backup == Some(path) && disk.files == old(disk.files)[path := old(disk.files)[dest]])
      && (ok && dest !in old(disk.files) ==> backup == None && disk.files == old(disk.files))
  {
    var dest := assets[index].destination;
    ok, backup := true, None;
    if dest in disk.files {
      var path := BackupPath(dir, index, dest);
      NamesApart(dir, dest, index, dest, index);
      ok := disk.Copy(dest, path);
      OnlyThere(old(disk.files), disk.files, path);
      backup := Some(path);
      if Separate(assets, dir) {
        OwnPaths(assets, dir, index);
        assert SameAt(was, old(disk.files), dest);
      }
      SafeTouch(old(disk.files), old(disk.history), disk.files, was, assets, dir, start, index, path);
    }
    if ok && Separate(assets, dir) {
      assert SameAt(was, old(disk.files), dest);
      SafeAdvance(disk.files, disk.history, was, assets, dir, start, index);
    }
  }

  /** Copies the source beside the destination and moves it into place. */
  method MoveIntoPlace(disk: Disk, assets: seq<Asset>, dir: string, index: nat, ghost was: Files, ghost start: nat)
    returns (ok: bool)
    requires index < |assets|
    requires Safe(disk.files, disk.history, was, assets, dir, start, index + 1)
    modifies disk
    ensures Safe(disk.files, disk.history, was, assets, dir, start, index + 1)
    ensures Separate(assets, dir) ==> SameAt(old(disk.files), disk.files, PlanPath(dir))
    ensures var (source, dest, temp) :=
      (assets[index].source, assets[index].destination, TempPath(assets[index].destination));
      var cleared := old(disk.files) - {temp};
      && (ok ==>
        && source in cleared
        && var removed := cleared[temp := cleared[source]] - {dest};
        temp in removed && disk.files == (removed - {temp})[dest := removed[temp]])
      && (disk.Reliable() && source in cleared && temp in cleared[temp := cleared[source]] - {dest} ==> ok)
  {
    var (source, dest, temp) :=
      (assets[index].source, assets[index].destination, TempPath(assets[index].destination));
    if Separate(assets, dir) {
      OwnPaths(assets, dir, index);
    }
    NamesApart(dir, dest, index, dest, index);
    ghost var files, history := disk.files, disk.history;
    if temp in disk.files {
      ok := disk.Remove(temp);
      SafeTouch(files, history, disk.files, was, assets, dir, start, index + 1, temp);
      if !ok {
        return;
      }
    }
    assert disk.files == files - {temp};
    files, history := disk.files, disk.history;
    ok := disk.Copy(source, temp);
    SafeTouch(files, history, disk.files, was, assets, dir, start, index + 1, temp);
    if !ok {
      return;
    }
    if Separate(assets, dir) {
      assert AssetMidway(was, files, assets[index]) && HoldsNew(was, disk.files, assets[index]);
    }
    files, history := disk.files, disk.history;
    if dest in disk.files {
      ok := disk.Remove(dest);
      SafeRemove(files, history, disk.files, was, assets, dir, start, index);
      if !ok {
        return;
      }
    }
    assert disk.files == files - {dest};
    files, history := disk.files, disk.history;
    ok := disk.Rename(temp, dest);
    SafeRename(files, history, disk.files, was, assets, dir, start, index);
  }

  lemma SafeRename(files: Files, history: seq<Files>, next: Files, was: Files, assets: seq<Asset>, dir: string,
                   start: nat, k: nat)
    requires k < |assets| && Safe(files, history, was, assets, dir, start, k + 1)
    requires var (dest, temp) := (assets[k].destination, TempPath(assets[k].destination));
      next == files || (temp in files && next == (files - {temp})[dest := files[temp]])
    requires Separate(assets, dir) ==> HoldsNew(was, files, assets[k])
    ensures Safe(next, history + [next], was, assets, dir, start, k + 1)
    ensures Separate(assets, dir) ==> SameAt(files, next, PlanPath(dir))
  {
    if Separate(assets, dir) {
      var (dest, temp) := (assets[k].destination, TempPath(assets[k].destination));
      OwnPaths(assets, dir, k);
      NamesApart(dir, dest, k, dest, k);
      if next != files {
        var cleared := files - {temp};
        GuardKept(was, files, cleared, assets, dir, k + 1, temp);
        GuardKept(was, cleared, next, assets, dir, k + 1, dest);
        MidwayKept(was, files, cleared, assets, temp);
        assert Apart(assets[k], assets[k], dir, k) && AssetMidway(was, cleared, assets[k]);
        MidwayChanged(was, cleared, next, assets, dir, k);
      }
      GuardedIsRecoverable(was, next, assets, dir, k + 1);
      assert (history + [next])[start..] == history[start..] + [next];
    }
  }

  /** The file beside the destination has the bytes that the source had. */
  predicate HoldsNew(was: Files, files: Files, a: Asset) {
    var temp := TempPath(a.destination);
    temp in files && a.source in was && files[temp] == was[a.source]
  }

  method ReplaceFile(disk: Disk, matches: Digest, assets: seq<Asset>, dir: string, index: nat,
                     ghost was: Files, ghost start: nat)
    returns (ok: bool, backup: Option<Path>)
    requires index < |assets|
    requires Safe(disk.files, disk.history, was, assets, dir, start, index)
    modifies disk
    ensures ok ==> Replaced(matches, old(disk.files), assets[index], dir, index) == Some(disk.files)
    ensures disk.Reliable() && Replaced(matches, old(disk.files), assets[index], dir, index).Some? ==> ok
    ensures ok ==> backup == if assets[index].destination in old(disk.files)
      then Some(BackupPath(dir, index, assets[index].destination)) else None
    ensures ok ==> Safe(disk.files, disk.history, was, assets, dir, start, index + 1)
    ensures Separate(assets, dir) ==> start <= |disk.history| && AllRecoverable(was, disk.history[start..], assets, dir)
    ensures Separate(assets, dir) ==> SameAt(old(disk.files), disk.files, PlanPath(dir))
  {
    backup := None;
    ok := disk.Check(matches, assets[index].source, assets[index].sha256);
    if !ok {
      return;
    }
    ok := disk.MakeDirectory(assets[index].destination.dir);
    if !ok {
      return;
    }
    ok, backup := TakeBackup(disk, assets, dir, index, was, start);
    if !ok {
      return;
    }
    ok := MoveIntoPlace(disk, assets, dir, index, was, start);
    if !ok {
      return;
    }
    ok := disk.Check(matches, assets[index].destination, assets[index].sha256);
  }

  /** One turn of the loop over the assets. */
  method ReplaceNext(disk: Disk, matches: Digest, assets: seq<Asset>, dir: string, n: nat,
                     ghost was: Files, ghost start: nat, listed: seq<RollbackFile>)
    returns (ok: bool, rollback: seq<RollbackFile>)
    requires n < |assets| && Installed(matches, was, assets, dir, n) == Some(Progress(disk.files, listed))
    requires Safe(disk.files, disk.history, was, assets, dir, start, n)
    modifies disk
    ensures ok ==> Installed(matches, was, assets, dir, n + 1) == Some(Progress(disk.files, rollback))
    ensures disk.Reliable() && Installed(matches, was, assets, dir, n + 1).Some? ==> ok
    ensures ok ==> Safe(disk.files, disk.history, was, assets, dir, start, n + 1)
    ensures Separate(assets, dir) ==>
      && start <= |disk.history| && AllRecoverable(was, disk.history[start..], assets, dir)
      && SameAt(old(disk.files), disk.files, PlanPath(dir))
  {
    rollback := listed;
    var backup;
    ghost var before := disk.files;
    ok, backup := ReplaceFile(disk, matches, assets, dir, n, was, start);
    if ok {
      if backup.Some? {
        rollback := rollback + [RollbackFile(backup.value, assets[n].destination)];
      }
      assert rollback == listed + Listed(before, assets[n], dir, n);
    }
  }

  method ReplaceAll(disk: Disk, matches: Digest, assets: seq<Asset>, dir: string, ghost was: Files, ghost start: nat)
    returns (ok: bool, rollback: seq<RollbackFile>)
    requires was == disk.files && Safe(disk.files, disk.history, was, assets, dir, start, 0)
    modifies disk
    ensures ok ==> Installed(matches, was, assets, dir, |assets|) == Some(Progress(disk.files, rollback))
    ensures disk.Reliable() && Installed(matches, was, assets, dir, |assets|).Some? ==> ok
    ensures ok ==> Safe(disk.files, disk.history, was, assets, dir, start, |assets|)
    ensures Separate(assets, dir) ==>
      && start <= |disk.history| && AllRecoverable(was, disk.history[start..], assets, dir)
      && SameAt(was, disk.files, PlanPath(dir))
  {
    rollback := [];
    ghost var whole := Installed(matches, was, assets, dir, |assets|).Some?;
    for n := 0 to |assets|
      invariant Installed(matches, was, assets, dir, n) == Some(Progress(disk.files, rollback))
      invariant Safe(disk.files, disk.history, was, assets, dir, start, n)
      invariant Separate(assets, dir) ==> SameAt(was, disk.files, PlanPath(dir))
    {
      ok, rollback := ReplaceNext(disk, matches, assets, dir, n, was, start, rollback);
      if !ok {
        if whole {
          InstalledPrefix(matches, was, assets, dir, n + 1, |assets|);
        }
        return;
      }
    }
    ok := true;
  }

  /** Applies an update. Whatever fails, wherever it fails, no state along the way has lost
      the old bytes of a file; and only a complete update writes a rollback plan. */
  method ApplyUpdate(disk: Disk, matches: Digest, assets: seq<Asset>, dir: string) returns (ok: bool)
    modifies disk
    ensures ok ==> Applied(matches, old(disk.files), assets, dir) == Some(disk.files)
    ensures disk.Reliable() && Applied(matches, old(disk.files), assets, dir).Some? ==> ok
    ensures !AllVerified(matches, old(disk.files), assets) || !AllRead(disk, old(disk.operations), |assets|) ==>
      !ok && disk.files == old(disk.files) && disk.history == old(disk.history)
    ensures disk.Reliable() && Separate(assets, dir) && AllVerified(matches, old(disk.files), assets) ==> ok
    ensures Separate(assets, dir) ==>
      && |old(disk.history)| <= |disk.history|
      && AllRecoverable(old(disk.files), disk.history[|old(disk.history)|..], assets, dir)
    ensures Separate(assets, dir) && Installed(matches, old(disk.files), assets, dir, |assets|).None? ==>
      !ok && SameAt(old(disk.files), disk.files, PlanPath(dir))
    ensures Separate(assets, dir) ==>
      || SameAt(old(disk.files), disk.files, PlanPath(dir))
      || (var done := Installed(matches, old(disk.files), assets, dir, |assets|);
          done.Some? && OnlyAt(done.value.files, disk.files, PlanPath(dir)))
  {
    ghost var was, start := disk.files, |disk.history|;
    if Separate(assets, dir) {
      AppliedExactly(matches, was, assets, dir);
    }
    ok := VerifyAssets(disk, matches, assets);
    if !ok {
      return;
    }
    ok := disk.MakeDirectory(dir);
    if !ok {
      return;
    }
    var rollback;
    ok, rollback := ReplaceAll(disk, matches, assets, dir, was, start);
    if !ok {
      return;
    }
    ghost var files, history := disk.files, disk.history;
    ok := disk.Write(PlanPath(dir), Plan(rollback));
    if Separate(assets, dir) {
      PlanHarmless(assets, dir);
    }
    SafeTouch(files, history, disk.files, was, assets, dir, start, |assets|, PlanPath(dir));
  }

  lemma PlanHarmless(assets: seq<Asset>, dir: string)
    ensures Harmless(assets, dir, |assets|, PlanPath(dir))
    ensures Separate(assets, dir) ==> Private(assets, PlanPath(dir))
  {
    forall i | 0 <= i < |assets| ensures PlanPath(dir) != BackupPath(dir, i, assets[i].destination) {
      NamesApart(dir, assets[i].destination, i, assets[i].destination, i);
    }
  }

  lemma {:induction false} InstalledPrefix(matches: Digest, files: Files, assets: seq<Asset>, dir: string,
                                           n: nat, m: nat)
    requires n <= m <= |assets| && Installed(matches, files, assets, dir, m).Some?
    ensures Installed(matches, files, assets, dir, n).Some?
    decreases m
  {
    if n < m {
      InstalledPrefix(matches, files, assets, dir, n, m - 1);
    }
  }

  // --------------------------------------------------------------------------- rollback

  /** The plan undoes an update of these assets, and every backup it needs is there. */
  ghost predicate Undoes(was: Files, now: Files, assets: seq<Asset>, dir: string, plan: seq<RollbackFile>) {
    Separate(assets, dir) && BackupsHeld(was, now, assets, dir) && plan == RollbackOf(was, assets, dir, |assets|)
  }

  lemma {:induction false} PlanNamesDestinations(was: Files, assets: seq<Asset>, dir: string, n: nat, k: nat)
    requires n <= |assets| && k < |RollbackOf(was, assets, dir, n)|
    ensures exists i :: 0 <= i < n && RollbackOf(was, assets, dir, n)[k].destination == assets[i].destination
  {
    if n > 0 {
      var front := RollbackOf(was, assets, dir, n - 1);
      if k < |front| {
        PlanNamesDestinations(was, assets, dir, n - 1, k);
      } else {
        assert RollbackOf(was, assets, dir, n)[k].destination == assets[n - 1].destination;
      }
    }
  }

  /** Restoring a destination touches no backup. */
  lemma StillUndoes(was: Files, now: Files, next: Files, assets: seq<Asset>, dir: string,
                    plan: seq<RollbackFile>, k: nat)
    requires Undoes(was, now, assets, dir, plan) && k < |plan| && OnlyAt(now, next, plan[k].destination)
    ensures Undoes(was, next, assets, dir, plan)
  {
    PlanNamesDestinations(was, assets, dir, |assets|, k);
    var j :| 0 <= j < |assets| && plan[k].destination == assets[j].destination;
    OnlyThere(now, next, plan[k].destination);
    forall i | 0 <= i < |assets| && assets[i].destination in was
      ensures BackupHeld(was, next, assets[i].destination, dir, i)
    {
      assert BackupHeld(was, now, assets[i].destination, dir, i);
      assert Apart(assets[j], assets[i], dir, i);
      assert SameAt(now, next, BackupPath(dir, i, assets[i].destination));
    }
  }

  ghost predicate AllUndo(was: Files, states: seq<Files>, assets: seq<Asset>, dir: string, plan: seq<RollbackFile>) {
    forall k :: 0 <= k < |states| ==> Undoes(was, states[k], assets, dir, plan)
  }

  /** Reads the plan; anything else at the path is a parse error. */
  method ReadPlan(disk: Disk, path: Path) returns (plan: Option<seq<RollbackFile>>)
    modifies disk`operations
    ensures plan.Some? ==> path in disk.files && disk.files[path] == Plan(plan.value)
    ensures disk.Reliable() && path in disk.files && disk.files[path].Plan? ==> plan.Some?
  {
    var outcome := disk.Next();
    if outcome.Works? && path in disk.files && disk.files[path].Plan? {
      plan := Some(disk.files[path].files);
    } else {
      plan := None;
    }
  }

  /** Runs a rollback plan. For the plan of an update, no state along the way loses a backup,
      so a rollback that stopped anywhere can be started again from where it stopped. */
  method RollbackUpdate(disk: Disk, path: Path, ghost was: Files, ghost assets: seq<Asset>, ghost dir: string)
    returns (ok: bool)
    modifies disk
    ensures ok ==>
      && path in old(disk.files) && old(disk.files)[path].Plan?
      && var plan := old(disk.files)[path].files;
      RolledBack(old(disk.files), plan, |plan|) == Some(disk.files)
    ensures disk.Reliable() && path in old(disk.files) && old(disk.files)[path].Plan? ==>
      var plan := old(disk.files)[path].files;
      RolledBack(old(disk.files), plan, |plan|).Some? ==> ok
    ensures path in old(disk.files) && old(disk.files)[path].Plan? ==>
      var plan := old(disk.files)[path].files;
      Undoes(was, old(disk.files), assets, dir, plan) ==>
        && |old(disk.history)| <= |disk.history|
        && AllUndo(was, disk.history[|old(disk.history)|..], assets, dir, plan)
  {
    ghost var start := |disk.history|;
    var read := ReadPlan(disk, path);
    if read.None? {
      return false;
    }
    var plan := read.value;
    ghost var undoes := Undoes(was, disk.files, assets, dir, plan);
    for n := 0 to |plan|
      invariant RolledBack(old(disk.files), plan, n) == Some(disk.files)
      invariant start <= |disk.history|
      invariant undoes ==> Undoes(was, disk.files, assets, dir, plan)
      invariant undoes ==> AllUndo(was, disk.history[start..], assets, dir, plan)
    {
      ok := plan[n].backup in disk.files;
      if ok {
        ok := disk.MakeDirectory(plan[n].destination.dir);
      }
      ghost var files, history := disk.files, disk.history;
      if ok {
        ok := disk.Copy(plan[n].backup, plan[n].destination);
        assert disk.history[start..] == history[start..] + [disk.files];
        if undoes {
          StillUndoes(was, files, disk.files, assets, dir, plan, n);
        }
      }
      if !ok {
        if RolledBack(old(disk.files), plan, |plan|).Some? {
          RolledBackMonotone(old(disk.files), plan, n + 1, |plan|);
        }
        return;
      }
    }
    ok := true;
  }

  lemma {:induction false} RolledBackMonotone(files: Files, plan: seq<RollbackFile>, n: nat, m: nat)
    requires n <= m <= |plan| && RolledBack(files, plan, m).Some?
    ensures RolledBack(files, plan, n).Some?
    decreases m
  {
    if n < m {
      RolledBackMonotone(files, plan, n, m - 1);
    }
  }

  /** From any state that an interrupted rollback leaves, running the plan again restores
      every file that existed. */
  lemma RollbackAgain(was: Files, now: Files, assets: seq<Asset>, dir: string, plan: seq<RollbackFile>)
    requires Undoes(was, now, assets, dir, plan)
    ensures RolledBack(now, plan, |plan|).Some?
    ensures forall i :: 0 <= i < |assets| && assets[i].destination in was ==>
      SameAt(was, RolledBack(now, plan, |plan|).value, assets[i].destination)
  {
    RollbackRestores(was, now, assets, dir, |assets|);
  }

  /** The plan that a successful apply wrote undoes that apply. */
  lemma AppliedUndoes(matches: Digest, files: Files, assets: seq<Asset>, dir: string)
    requires Separate(assets, dir) && Applied(matches, files, assets, dir).Some?
    ensures var now := Applied(matches, files, assets, dir).value;
      && PlanPath(dir) in now && now[PlanPath(dir)].Plan?
      && Undoes(files, now, assets, dir, now[PlanPath(dir)].files)
  {
    AppliedShape(matches, files, assets, dir);
    var now := Applied(matches, files, assets, dir).value;
    forall i | 0 <= i < |assets| && assets[i].destination in files
      ensures BackupHeld(files, now, assets[i].destination, dir, i)
    {
      assert AssetDone(files, now, assets[i], dir, i);
    }
  }
}
