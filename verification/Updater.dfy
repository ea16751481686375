/** What applying an update and rolling it back do to the files. */
module Updater {
  import opened Common

  datatype Path = Path(dir: string, name: string)

  datatype RollbackFile = RollbackFile(backup: Path, destination: Path)

  /** A file holds opaque bytes, or the rollback plan that a successful apply leaves. */
  datatype Content = Blob(bytes: seq<int>) | Plan(files: seq<RollbackFile>)

  type Files = map<Path, Content>

  datatype Asset = Asset(source: Path, destination: Path, sha256: string)

  /** Whether a content's digest is the wanted one, spaces and letter case aside. */
  type Digest = (Content, string) -> bool

  function TempPath(destination: Path): Path {
    Path(destination.dir, "." + destination.name + ".update-tmp")
  }

  function BackupPath(dir: string, index: nat, destination: Path): Path {
    Path(dir, Decimal(index) + "-" + destination.name)
  }

  function PlanPath(dir: string): Path {
    Path(dir, "rollback-plan.json")
  }

  predicate Verified(matches: Digest, files: Files, a: Asset) {
    a.source in files && matches(files[a.source], a.sha256)
  }

  /** One replacement, operation by operation. */
  function Replaced(matches: Digest, files: Files, a: Asset, dir: string, index: nat): Option<Files> {
    var (dest, temp) := (a.destination, TempPath(a.destination));
    if !Verified(matches, files, a) then None else
      var saved := if dest in files then files[BackupPath(dir, index, dest) := files[dest]] else files;
      var cleared := saved - {temp};
      if a.source !in cleared then None else
        var copied := cleared[temp := cleared[a.source]];
        var removed := copied - {dest};
        if temp !in removed then None else
          var moved := (removed - {temp})[dest := removed[temp]];
          if matches(moved[dest], a.sha256) then Some(moved) else None
  }

  function Listed(files: Files, a: Asset, dir: string, index: nat): seq<RollbackFile> {
    if a.destination in files
    then [RollbackFile(BackupPath(dir, index, a.destination), a.destination)] else []
  }

  datatype Progress = Progress(files: Files, rollback: seq<RollbackFile>)

  /** The first `n` replacements, with the rollback entries they leave. */
  function Installed(matches: Digest, files: Files, assets: seq<Asset>, dir: string, n: nat): Option<Progress>
    requires n <= |assets|
  {
    if n == 0 then Some(Progress(files, [])) else
      var before := Installed(matches, files, assets, dir, n - 1);
      if before.None? then None else
        var now := before.value;
        var after := Replaced(matches, now.files, assets[n - 1], dir, n - 1);
        if after.None? then None
        else Some(Progress(after.value, now.rollback + Listed(now.files, assets[n - 1], dir, n - 1)))
  }

  function Applied(matches: Digest, files: Files, assets: seq<Asset>, dir: string): Option<Files> {
    if exists i :: 0 <= i < |assets| && !Verified(matches, files, assets[i]) then None else
      var done := Installed(matches, files, assets, dir, |assets|);
      if done.None? then None
      else Some(done.value.files[PlanPath(dir) := Plan(done.value.rollback)])
  }

  /** The first `n` restorations of a rollback plan. */
  function RolledBack(files: Files, plan: seq<RollbackFile>, n: nat): Option<Files>
    requires n <= |plan|
  {
    if n == 0 then Some(files) else
      var before := RolledBack(files, plan, n - 1);
      var file := plan[n - 1];
      if before.None? || file.backup !in before.value then None
      else Some(before.value[file.destination := before.value[file.backup]])
  }

  // --------------------------------------------------------------- separate paths

  /** No two destinations coincide, and no destination or source is a file that some
      replacement uses for itself. */
  predicate Separate(assets: seq<Asset>, dir: string) {
    && (forall i, j :: 0 <= i < j < |assets| ==> assets[i].destination != assets[j].destination)
    && (forall i, j :: 0 <= i < |assets| && 0 <= j < |assets| ==> Apart(assets[i], assets[j], dir, j))
    && (forall i :: 0 <= i < |assets| ==>
      assets[i].destination != PlanPath(dir) && assets[i].source != PlanPath(dir))
  }

  predicate Apart(a: Asset, b: Asset, dir: string, index: nat) {
    var (temp, backup) := (TempPath(b.destination), BackupPath(dir, index, b.destination));
    && a.destination != b.source && a.destination != temp && a.destination != backup
    && a.source != temp && a.source != backup
  }

  lemma NamesApart(dir: string, a: Path, i: nat, b: Path, j: nat)
    ensures TempPath(a) == TempPath(b) ==> a == b
    ensures BackupPath(dir, i, a) == BackupPath(dir, j, b) ==> i == j
    ensures TempPath(a) != BackupPath(dir, j, b)
    ensures PlanPath(dir) != BackupPath(dir, j, b) && PlanPath(dir) != TempPath(b)
  {
    assert TempPath(a).name[0] == '.' && TempPath(b).name[0] == '.';
    assert IsDigit(BackupPath(dir, j, b).name[0]);
    assert PlanPath(dir).name[0] == 'r';
    if TempPath(a) == TempPath(b) {
      var (s, t) := (TempPath(a).name, TempPath(b).name);
      assert |a.name| == |b.name|;
      assert a.name == s[1..1 + |a.name|] == t[1..1 + |b.name|] == b.name;
    }
    if BackupPath(dir, i, a) == BackupPath(dir, j, b) {
      DigitsThenDash(Decimal(i), a.name, Decimal(j), b.name);
      DecimalInjective(i, j);
    }
  }

  lemma DigitsThenDash(a: string, s: string, b: string, t: string)
    requires forall k :: 0 <= k < |a| ==> IsDigit(a[k])
    requires forall k :: 0 <= k < |b| ==> IsDigit(b[k])
    requires a + "-" + s == b + "-" + t
    ensures a == b
  {
    assert (a + "-" + s)[|a|] == '-' && (b + "-" + t)[|b|] == '-';
    assert a == (a + "-" + s)[..|a|] && b == (b + "-" + t)[..|b|];
  }

  // -------------------------------------------------------------- what apply leaves

  predicate SameAt(was: Files, now: Files, p: Path) {
    (p in was <==> p in now) && (p in was ==> was[p] == now[p])
  }

  predicate Untouched(assets: seq<Asset>, dir: string, n: nat, p: Path)
    requires n <= |assets|
  {
    forall i :: 0 <= i < n ==>
      p != assets[i].destination && p != TempPath(assets[i].destination) &&
      p != BackupPath(dir, i, assets[i].destination)
  }

  /** What is at the paths of one replaced asset. */
  predicate AssetDone(was: Files, now: Files, a: Asset, dir: string, index: nat) {
    var (dest, backup) := (a.destination, BackupPath(dir, index, a.destination));
    && a.source in was && dest in now && now[dest] == was[a.source]
    && TempPath(dest) !in now
    && (if dest in was then backup in now && now[backup] == was[dest] else SameAt(was, now, backup))
  }

  ghost predicate InstalledFiles(was: Files, now: Files, assets: seq<Asset>, dir: string, n: nat)
    requires n <= |assets|
  {
    && (forall i :: 0 <= i < n ==> AssetDone(was, now, assets[i], dir, i))
    && (forall p :: Untouched(assets, dir, n, p) ==> SameAt(was, now, p))
  }

  ghost predicate OthersKept(was: Files, now: Files, a: Asset, dir: string, index: nat) {
    forall p :: p !in {a.destination, TempPath(a.destination), BackupPath(dir, index, a.destination)} ==>
      SameAt(was, now, p)
  }

  /** One replacement changes three paths and nothing else. */
  lemma ReplacedFiles(matches: Digest, files: Files, a: Asset, dir: string, index: nat)
    requires Apart(a, a, dir, index) && Replaced(matches, files, a, dir, index).Some?
    ensures var now := Replaced(matches, files, a, dir, index).value;
      && AssetDone(files, now, a, dir, index) && matches(now[a.destination], a.sha256)
      && OthersKept(files, now, a, dir, index)
  {
    NamesApart(dir, a.destination, index, a.destination, index);
  }

  /** The rollback entries, told from the original files alone. */
  function RollbackOf(files: Files, assets: seq<Asset>, dir: string, n: nat): seq<RollbackFile>
    requires n <= |assets|
  {
    if n == 0 then []
    else RollbackOf(files, assets, dir, n - 1) + Listed(files, assets[n - 1], dir, n - 1)
  }

  /** A later replacement leaves an earlier one's paths alone. */
  lemma LaterSpares(assets: seq<Asset>, dir: string, i: nat, j: nat)
    requires Separate(assets, dir) && i < j < |assets|
    ensures var (a, b) := (assets[i].destination, assets[j].destination);
      var mine := {a, TempPath(a), BackupPath(dir, i, a), assets[i].source};
      b !in mine && TempPath(b) !in mine && BackupPath(dir, j, b) !in mine
  {
    NamesApart(dir, assets[i].destination, i, assets[j].destination, j);
    NamesApart(dir, assets[j].destination, j, assets[i].destination, i);
    assert Apart(assets[i], assets[j], dir, j) && Apart(assets[j], assets[i], dir, i);
  }

  /** Nothing before asset `k` touches its source or, when `k` is still to come, its destination
      or its backup. */
  lemma SourceUntouched(assets: seq<Asset>, dir: string, n: nat, k: nat)
    requires Separate(assets, dir) && n <= |assets| && k < |assets|
    ensures Untouched(assets, dir, n, assets[k].source)
    ensures n <= k ==> Untouched(assets, dir, n, assets[k].destination)
    ensures n <= k ==> Untouched(assets, dir, n, BackupPath(dir, k, assets[k].destination))
  {
    forall i | 0 <= i < n
      ensures var (a, b) := (assets[i].destination, assets[k]);
        var used := {a, TempPath(a), BackupPath(dir, i, a)};
        b.source !in used &&
        (n <= k ==> b.destination !in used && BackupPath(dir, k, b.destination) !in used)
    {
      assert Apart(assets[k], assets[i], dir, i) && Apart(assets[i], assets[k], dir, k);
      NamesApart(dir, assets[i].destination, i, assets[k].destination, k);
    }
  }

  /** Each step keeps the description of all steps before it. */
  lemma InstalledStep(was: Files, now: Files, next: Files, assets: seq<Asset>, dir: string, n: nat)
    requires Separate(assets, dir) && n < |assets| && InstalledFiles(was, now, assets, dir, n)
    requires AssetDone(now, next, assets[n], dir, n)
    requires OthersKept(now, next, assets[n], dir, n)
    ensures InstalledFiles(was, next, assets, dir, n + 1)
  {
    SourceUntouched(assets, dir, n, n);
    assert AssetDone(was, next, assets[n], dir, n) by {
      assert SameAt(was, now, assets[n].source);
      assert SameAt(was, now, assets[n].destination);
      assert SameAt(was, now, BackupPath(dir, n, assets[n].destination));
    }
    forall i | 0 <= i < n ensures AssetDone(was, next, assets[i], dir, i) {
      LaterSpares(assets, dir, i, n);
      assert AssetDone(was, now, assets[i], dir, i);
      var d := assets[i].destination;
      assert SameAt(now, next, d) && SameAt(now, next, TempPath(d)) && SameAt(now, next, BackupPath(dir, i, d));
    }
    forall p | Untouched(assets, dir, n + 1, p) ensures SameAt(was, next, p) {
      assert Untouched(assets, dir, n, p) && SameAt(now, next, p);
    }
  }

  lemma {:induction false} InstalledShape(matches: Digest, files: Files, assets: seq<Asset>, dir: string, n: nat)
    requires Separate(assets, dir) && n <= |assets|
    requires Installed(matches, files, assets, dir, n).Some?
    ensures var done := Installed(matches, files, assets, dir, n).value;
      InstalledFiles(files, done.files, assets, dir, n) && done.rollback == RollbackOf(files, assets, dir, n)
  {
    if n > 0 {
      InstalledShape(matches, files, assets, dir, n - 1);
      var before := Installed(matches, files, assets, dir, n - 1).value;
      ReplacedFiles(matches, before.files, assets[n - 1], dir, n - 1);
      var after := Replaced(matches, before.files, assets[n - 1], dir, n - 1).value;
      InstalledStep(files, before.files, after, assets, dir, n - 1);
      SourceUntouched(assets, dir, n - 1, n - 1);
      assert SameAt(files, before.files, assets[n - 1].destination);
    }
  }

  /** A successful apply leaves at every destination its source's bytes, keeps the old
      bytes of every replaced file at its backup, lists exactly those in the rollback
      plan, and changes nothing else. */
  lemma AppliedShape(matches: Digest, files: Files, assets: seq<Asset>, dir: string)
    requires Separate(assets, dir) && Applied(matches, files, assets, dir).Some?
    ensures var now := Applied(matches, files, assets, dir).value;
      && PlanPath(dir) in now && now[PlanPath(dir)] == Plan(RollbackOf(files, assets, dir, |assets|))
      && (forall i :: 0 <= i < |assets| ==> AssetDone(files, now, assets[i], dir, i))
      && (forall p :: p != PlanPath(dir) && Untouched(assets, dir, |assets|, p) ==> SameAt(files, now, p))
  {
    InstalledShape(matches, files, assets, dir, |assets|);
    var done := Installed(matches, files, assets, dir, |assets|).value;
    var now := Applied(matches, files, assets, dir).value;
    forall i | 0 <= i < |assets| ensures AssetDone(files, now, assets[i], dir, i) {
      var d := assets[i].destination;
      NamesApart(dir, d, i, d, i);
      assert AssetDone(files, done.files, assets[i], dir, i);
    }
    forall p | p != PlanPath(dir) && Untouched(assets, dir, |assets|, p) ensures SameAt(files, now, p) {
      assert SameAt(files, done.files, p);
    }
  }

  /** An update whose paths are separate can be applied exactly when every source is there and
      has the wanted digest. */
  lemma AppliedExactly(matches: Digest, files: Files, assets: seq<Asset>, dir: string)
    requires Separate(assets, dir)
    ensures Applied(matches, files, assets, dir).Some? <==>
      forall i :: 0 <= i < |assets| ==>
        assets[i].source in files && matches(files[assets[i].source], assets[i].sha256)
  {
    if forall i :: 0 <= i < |assets| ==> Verified(matches, files, assets[i]) {
      InstalledAll(matches, files, assets, dir, |assets|);
    } else {
      var i :| 0 <= i < |assets| && !Verified(matches, files, assets[i]);
      assert !(assets[i].source in files && matches(files[assets[i].source], assets[i].sha256));
    }
  }

  lemma {:induction false} InstalledAll(matches: Digest, files: Files, assets: seq<Asset>, dir: string, n: nat)
    requires Separate(assets, dir) && n <= |assets|
    requires forall i :: 0 <= i < |assets| ==> Verified(matches, files, assets[i])
    ensures Installed(matches, files, assets, dir, n).Some?
  {
    if n > 0 {
      InstalledAll(matches, files, assets, dir, n - 1);
      InstalledShape(matches, files, assets, dir, n - 1);
      var now := Installed(matches, files, assets, dir, n - 1).value.files;
      SourceUntouched(assets, dir, n - 1, n - 1);
      assert SameAt(files, now, assets[n - 1].source);
      ReplacedIs(matches, now, assets, dir, n - 1);
    }
  }

  /** A verified asset whose paths are separate is replaced. */
  lemma ReplacedIs(matches: Digest, files: Files, assets: seq<Asset>, dir: string, index: nat)
    requires Separate(assets, dir) && index < |assets| && Verified(matches, files, assets[index])
    ensures Replaced(matches, files, assets[index], dir, index).Some?
  {
    var a := assets[index];
    assert Apart(a, a, dir, index);
    NamesApart(dir, a.destination, index, a.destination, index);
  }

  // ------------------------------------------------------------------------ rollback

  /** Every backup that matters is where the plan looks for it. */
  predicate BackupsHeld(was: Files, now: Files, assets: seq<Asset>, dir: string) {
    forall i :: 0 <= i < |assets| && assets[i].destination in was ==>
      BackupHeld(was, now, assets[i].destination, dir, i)
  }

  predicate BackupHeld(was: Files, now: Files, dest: Path, dir: string, i: nat)
    requires dest in was
  {
    var backup := BackupPath(dir, i, dest);
    backup in now && now[backup] == was[dest]
  }

  /** The path is no replaced destination of the first `n` assets. */
  predicate Spared(was: Files, assets: seq<Asset>, n: nat, p: Path)
    requires n <= |assets|
  {
    p in was ==> forall i :: 0 <= i < n ==> p != assets[i].destination
  }

  /** Which files a rollback over the first `n` assets has put back. */
  ghost predicate Restored(was: Files, start: Files, now: Files, assets: seq<Asset>, n: nat)
    requires n <= |assets|
  {
    && (forall i :: 0 <= i < n && assets[i].destination in was ==>
      assets[i].destination in now && now[assets[i].destination] == was[assets[i].destination])
    && (forall p :: Spared(was, assets, n, p) ==> SameAt(start, now, p))
  }

  lemma RestoredStep(was: Files, start: Files, now: Files, assets: seq<Asset>, n: nat)
    requires n < |assets| && Restored(was, start, now, assets, n)
    requires forall i :: 0 <= i < n ==> assets[i].destination != assets[n].destination
    ensures var dest := assets[n].destination;
      Restored(was, start, if dest in was then now[dest := was[dest]] else now, assets, n + 1)
  {
    var dest := assets[n].destination;
    var next := if dest in was then now[dest := was[dest]] else now;
    forall p | Spared(was, assets, n + 1, p) ensures SameAt(start, next, p) {
      assert Spared(was, assets, n, p) && SameAt(start, now, p);
      assert assets[n].destination == p ==> p !in was;
    }
  }

  lemma BackupSpared(was: Files, assets: seq<Asset>, dir: string, n: nat, k: nat)
    requires Separate(assets, dir) && n <= |assets| && k < |assets|
    ensures Spared(was, assets, n, BackupPath(dir, k, assets[k].destination))
  {
    forall i | 0 <= i < n ensures BackupPath(dir, k, assets[k].destination) != assets[i].destination {
      assert Apart(assets[i], assets[k], dir, k);
    }
  }

  lemma {:induction false} RollbackRestores(was: Files, start: Files, assets: seq<Asset>, dir: string, n: nat)
    requires Separate(assets, dir) && n <= |assets| && BackupsHeld(was, start, assets, dir)
    ensures var plan := RollbackOf(was, assets, dir, n);
      && RolledBack(start, plan, |plan|).Some?
      && Restored(was, start, RolledBack(start, plan, |plan|).value, assets, n)
  {
    if n > 0 {
      RollbackRestores(was, start, assets, dir, n - 1);
      var front, dest := RollbackOf(was, assets, dir, n - 1), assets[n - 1].destination;
      var before := RolledBack(start, front, |front|).value;
      RestoredStep(was, start, before, assets, n - 1);
      if dest in was {
        var backup := BackupPath(dir, n - 1, dest);
        assert BackupHeld(was, start, dest, dir, n - 1);
        BackupSpared(was, assets, dir, n - 1, n - 1);
        assert SameAt(start, before, backup);
        RolledBackSnoc(start, front, RollbackFile(backup, dest));
        assert RollbackOf(was, assets, dir, n) == front + [RollbackFile(backup, dest)];
      } else {
        assert RollbackOf(was, assets, dir, n) == front;
      }
    } else {
      assert RollbackOf(was, assets, dir, n) == [];
    }
  }

  lemma RolledBackSnoc(files: Files, front: seq<RollbackFile>, file: RollbackFile)
    requires RolledBack(files, front, |front|).Some? && file.backup in RolledBack(files, front, |front|).value
    ensures var before := RolledBack(files, front, |front|).value;
      RolledBack(files, front + [file], |front| + 1) == Some(before[file.destination := before[file.backup]])
  {
    RolledBackPrefix(files, front, front + [file], |front|);
  }

  lemma {:induction false} RolledBackPrefix(files: Files, front: seq<RollbackFile>, plan: seq<RollbackFile>, n: nat)
    requires n <= |front| <= |plan| && plan[..|front|] == front
    ensures RolledBack(files, front, n) == RolledBack(files, plan, n)
  {
    if n > 0 {
      RolledBackPrefix(files, front, plan, n - 1);
      assert front[n - 1] == plan[n - 1];
    }
  }

  predicate AfterRollback(was: Files, back: Files, a: Asset) {
    && a.source in was && a.destination in back
    && back[a.destination] == was[if a.destination in was then a.destination else a.source]
  }

  /** Running the plan that a successful apply wrote gives every file that existed its old
      bytes, leaves newly installed files in place, and so undoes the update at all
      destinations exactly when every destination existed before. */
  lemma ApplyThenRollback(matches: Digest, files: Files, assets: seq<Asset>, dir: string, plan: seq<RollbackFile>)
    requires Separate(assets, dir) && Applied(matches, files, assets, dir).Some?
    requires var now := Applied(matches, files, assets, dir).value;
      PlanPath(dir) in now && now[PlanPath(dir)] == Plan(plan)
    ensures var now := Applied(matches, files, assets, dir).value;
      && RolledBack(now, plan, |plan|).Some?
      && var back := RolledBack(now, plan, |plan|).value;
      && (forall i :: 0 <= i < |assets| ==> AfterRollback(files, back, assets[i]))
      && (forall p :: p != PlanPath(dir) && Untouched(assets, dir, |assets|, p) ==> SameAt(files, back, p))
      && ((forall i :: 0 <= i < |assets| ==> SameAt(files, back, assets[i].destination)) <==>
        (forall i :: 0 <= i < |assets| ==> assets[i].destination in files))
  {
    AppliedShape(matches, files, assets, dir);
    var now := Applied(matches, files, assets, dir).value;
    assert BackupsHeld(files, now, assets, dir) by {
      forall i | 0 <= i < |assets| && assets[i].destination in files
        ensures BackupHeld(files, now, assets[i].destination, dir, i)
      {
        assert AssetDone(files, now, assets[i], dir, i);
      }
    }
    RollbackRestores(files, now, assets, dir, |assets|);
    var back := RolledBack(now, plan, |plan|).value;
    forall i | 0 <= i < |assets|
      ensures AfterRollback(files, back, assets[i])
    {
      assert AssetDone(files, now, assets[i], dir, i);
      if assets[i].destination !in files {
        assert SameAt(now, back, assets[i].destination);
      }
    }
    forall p | p != PlanPath(dir) && Untouched(assets, dir, |assets|, p) ensures SameAt(files, back, p) {
      assert SameAt(files, now, p) && SameAt(now, back, p);
    }
  }

  /** The backup of a plan's entry is there when its turn comes. */
  predicate BackupThere(files: Files, plan: seq<RollbackFile>, k: nat)
    requires k < |plan|
  {
    plan[k].backup in files || exists j :: 0 <= j < k && plan[j].destination == plan[k].backup
  }

  /** A rollback goes through exactly when no backup is missing, and adds the destinations. */
  lemma {:induction false} RollbackExactly(files: Files, plan: seq<RollbackFile>, n: nat)
    requires n <= |plan|
    ensures RolledBack(files, plan, n).Some? <==> forall k :: 0 <= k < n ==> BackupThere(files, plan, k)
    ensures RolledBack(files, plan, n).Some? ==> forall p ::
      p in RolledBack(files, plan, n).value <==> p in files || exists j :: 0 <= j < n && plan[j].destination == p
  {
    if n > 0 {
      RollbackExactly(files, plan, n - 1);
      var before := RolledBack(files, plan, n - 1);
      if before.Some? {
        assert plan[n - 1].backup in before.value <==> BackupThere(files, plan, n - 1);
      }
      if RolledBack(files, plan, n).Some? {
        assert RolledBack(files, plan, n).value.Keys == before.value.Keys + {plan[n - 1].destination};
      }
    }
  }

  // --------------------------------------------------------------- an interrupted attempt

  /** What an attempt that stopped anywhere can have made of an asset: the source is there,
      and the destination is the old file, or is missing, or is the new file. */
  predicate AssetMidway(was: Files, now: Files, a: Asset) {
    && SameAt(was, now, a.source)
    && (SameAt(was, now, a.destination) || a.destination !in now
        || (a.source in was && now[a.destination] == was[a.source]))
  }

  ghost predicate Midway(was: Files, now: Files, assets: seq<Asset>) {
    forall i :: 0 <= i < |assets| ==> AssetMidway(was, now, assets[i])
  }

  /** An attempt that stopped between two replacements is one case of this. */
  lemma InstalledMidway(matches: Digest, files: Files, assets: seq<Asset>, dir: string, n: nat)
    requires Separate(assets, dir) && n <= |assets| && Installed(matches, files, assets, dir, n).Some?
    ensures Midway(files, Installed(matches, files, assets, dir, n).value.files, assets)
  {
    InstalledShape(matches, files, assets, dir, n);
    var now := Installed(matches, files, assets, dir, n).value.files;
    forall i | 0 <= i < |assets| ensures AssetMidway(files, now, assets[i]) {
      SourceUntouched(assets, dir, n, i);
      if i < n {
        assert AssetDone(files, now, assets[i], dir, i);
      }
    }
  }

  predicate PutBack(was: Files, back: Files, a: Asset) {
    a.destination in was ==> SameAt(was, back, a.destination)
  }

  /** Nothing was lost for this asset when the retry began: its destination did not exist,
      was still the old file, or had the new bytes all along. */
  predicate StillSafe(was: Files, middle: Files, a: Asset) {
    a.destination in was ==>
      SameAt(was, middle, a.destination)
      || (a.source in was && was[a.destination] == was[a.source])
  }

  /** A first attempt stopped anywhere and a second one succeeded. The second takes its
      backups from the files it finds, so rolling back restores an original exactly when the
      first attempt had not yet removed or replaced it, or had nothing to change in it. */
  lemma RetryThenRollback(matches: Digest, files: Files, middle: Files, assets: seq<Asset>, dir: string,
                          plan: seq<RollbackFile>)
    requires Separate(assets, dir) && Midway(files, middle, assets)
    requires Applied(matches, middle, assets, dir).Some?
    requires var now := Applied(matches, middle, assets, dir).value;
      PlanPath(dir) in now && now[PlanPath(dir)] == Plan(plan)
    ensures var now := Applied(matches, middle, assets, dir).value;
      && RolledBack(now, plan, |plan|).Some?
      && var back := RolledBack(now, plan, |plan|).value;
      && (forall i :: 0 <= i < |assets| ==>
          (PutBack(files, back, assets[i]) <==> StillSafe(files, middle, assets[i])))
      && ((forall i :: 0 <= i < |assets| ==> PutBack(files, back, assets[i])) <==>
          (forall i :: 0 <= i < |assets| ==> StillSafe(files, middle, assets[i])))
  {
    ApplyThenRollback(matches, middle, assets, dir, plan);
    var back := RolledBack(Applied(matches, middle, assets, dir).value, plan, |plan|).value;
    forall i | 0 <= i < |assets|
      ensures PutBack(files, back, assets[i]) <==> StillSafe(files, middle, assets[i])
    {
      assert AssetMidway(files, middle, assets[i]) && AfterRollback(middle, back, assets[i]);
    }
  }

  /** The loss is real: an attempt stopped between removing the destination and renaming the
      new file into its place. The retry finds no destination and lists nothing, so its plan
      puts nothing back, although the backup still has the old bytes. */
  lemma RemovedThenRetried(matches: Digest, files: Files, a: Asset, dir: string)
    requires Separate([a], dir) && a.source in files && a.destination in files
    requires matches(files[a.source], a.sha256) && files[a.destination] != files[a.source]
    ensures var (dest, backup) := (a.destination, BackupPath(dir, 0, a.destination));
      var middle := files[backup := files[dest]][TempPath(dest) := files[a.source]] - {dest};
      && Midway(files, middle, [a]) && !StillSafe(files, middle, a)
      && Applied(matches, middle, [a], dir).Some?
      && var now := Applied(matches, middle, [a], dir).value;
      && PlanPath(dir) in now && now[PlanPath(dir)] == Plan([]) && BackupHeld(files, now, dest, dir, 0)
      && RolledBack(now, [], 0) == Some(now) && dest in now && now[dest] == files[a.source]
  {
    var assets := [a];
    var (dest, backup) := (a.destination, BackupPath(dir, 0, a.destination));
    var middle := files[backup := files[dest]][TempPath(dest) := files[a.source]] - {dest};
    assert Apart(assets[0], assets[0], dir, 0) && assets[0].destination != PlanPath(dir);
    NamesApart(dir, dest, 0, dest, 0);
    assert Verified(matches, middle, a);
    assert Replaced(matches, middle, a, dir, 0).Some?;
    assert Installed(matches, middle, assets, dir, 0) == Some(Progress(middle, []));
    assert Installed(matches, middle, assets, dir, 1).Some?;
    AppliedShape(matches, middle, assets, dir);
    assert RollbackOf(middle, assets, dir, 0) == [];
    assert AssetDone(middle, Applied(matches, middle, assets, dir).value, assets[0], dir, 0);
  }
}
