/** The cleaner's loops over files and directories. */
module CacheDirectories {
  import opened Common
  import opened CacheCleaner
  import opened CacheEviction

  /** One entry of the walk over the download directories, with the directory it is in. */
  datatype Entry = Entry(root: Path, path: Path)

  function Paths(entries: seq<Entry>): seq<Path> {
    seq(|entries|, i requires 0 <= i < |entries| => entries[i].path)
  }

  // ------------------------------------------------------------------ empty directories

  function Parent(p: Path): Path
    requires p != []
  {
    p[..|p| - 1]
  }

  predicate Inside(p: Path, dir: Path) {
    p != [] && Parent(p) == dir
  }

  /** Every file and every directory is in a directory. */
  ghost predicate Rooted(files: Files, dirs: set<Path>) {
    && (forall p :: p in files ==> p != [] && Parent(p) in dirs)
    && (forall d :: d in dirs && d != [] ==> Parent(d) in dirs)
  }

  /** A directory can be removed when nothing is in it. */
  predicate Vacant(files: Files, dirs: set<Path>, dir: Path) {
    && dir in dirs
    && (forall p :: p in files ==> !Inside(p, dir))
    && (forall d :: d in dirs ==> !Inside(d, dir))
  }

  function Pruned(c: Config, files: Files, dirs: set<Path>, dir: Path, root: Path): set<Path>
    decreases |dir|
  {
    if dir == root || !Vacant(files, dirs, dir) || !c.removable(dir) then dirs
    else if dir == [] then dirs - {dir}
    else Pruned(c, files, dirs - {dir}, Parent(dir), root)
  }

  lemma VacantLeaves(files: Files, dirs: set<Path>, dir: Path)
    requires Rooted(files, dirs) && Vacant(files, dirs, dir)
    ensures Rooted(files, dirs - {dir})
  {
  }

  /** The directories from `dir` up to, but not including, its ancestor of depth `k`. */
  function Chain(dir: Path, k: nat): set<Path> {
    set j | k < j <= |dir| :: dir[..j]
  }

  lemma ChainExtends(dir: Path, k: nat)
    requires k < |dir|
    ensures Chain(dir, k) == Chain(Parent(dir), k) + {dir}
  {
    assert dir[..|dir|] == dir;
    forall j | k < j < |dir| ensures dir[..j] == Parent(dir)[..j] {
    }
    forall d | d in Chain(dir, k) ensures d in Chain(Parent(dir), k) + {dir} {
      var j :| k < j <= |dir| && d == dir[..j];
    }
    forall d | d in Chain(Parent(dir), k) ensures d in Chain(dir, k) {
      var j :| k < j <= |dir| - 1 && d == Parent(dir)[..j];
      assert d == dir[..j];
    }
  }

  /** Pruning removes a chain of empty directories from the starting one upwards, never the
      root, and stops only at the root or at a directory that has to stay. No file loses its
      directory. */
  lemma {:induction false} PruneExactly(c: Config, files: Files, dirs: set<Path>, dir: Path, root: Path)
    returns (k: nat)
    requires Rooted(files, dirs) && StartsWith(dir, root)
    ensures |root| <= k <= |dir| && Pruned(c, files, dirs, dir, root) == dirs - Chain(dir, k)
    ensures Rooted(files, dirs - Chain(dir, k))
    ensures dir[..k] == root || !Vacant(files, dirs - Chain(dir, k), dir[..k]) || !c.removable(dir[..k])
    decreases |dir|
  {
    assert dir[..|dir|] == dir;
    if dir == root || !Vacant(files, dirs, dir) || !c.removable(dir) {
      k := |dir|;
      assert dirs - Chain(dir, k) == dirs;
    } else {
      VacantLeaves(files, dirs, dir);
      k := PruneExactly(c, files, dirs - {dir}, Parent(dir), root);
      ChainExtends(dir, k);
      assert dirs - {dir} - Chain(Parent(dir), k) == dirs - Chain(dir, k);
      assert Parent(dir)[..k] == dir[..k];
    }
  }

  /** Every walked path lies strictly below its download directory. */
  predicate Below(entries: seq<Entry>, roots: seq<Path>) {
    && (forall i :: 0 <= i < |entries| ==> entries[i].root in roots)
    && (forall i :: 0 <= i < |entries| ==>
          StartsWith(entries[i].path, entries[i].root) && entries[i].path != entries[i].root)
    && (forall i, j :: 0 <= i < |entries| && 0 <= j < |roots| ==> entries[i].path != roots[j])
  }

  lemma ParentBelow(p: Path, root: Path)
    requires StartsWith(p, root) && p != root
    ensures p != [] && StartsWith(Parent(p), root)
  {
    assert p[..|p|] == p;
    assert Parent(p)[..|root|] == p[..|root|];
  }

  // --------------------------------------------------------- what is left of the directories

  /** The directory lost a file, and lies below a download directory. */
  ghost predicate Lost(was: Files, now: Files, d: Path, roots: seq<Path>) {
    && (exists p :: p in was && p !in now && StartsWith(p, d) && p != d)
    && (exists r :: r in roots && StartsWith(d, r) && d != r)
  }

  /** Only directories that lost a file below a download directory are gone, and none that could
      be removed is left empty that was not empty before, unless it is a download directory. */
  ghost predicate Tidied(c: Config, was: Files, wasDirs: set<Path>, now: Files, dirs: set<Path>, roots: seq<Path>) {
    && now.Keys <= was.Keys && dirs <= wasDirs
    && (forall d :: d in wasDirs && d !in dirs ==> Lost(was, now, d, roots))
    && (forall d :: d in dirs && d !in roots && Vacant(now, dirs, d) && c.removable(d) ==> Vacant(was, wasDirs, d))
  }

  /** Deleting a file and pruning its parents keeps the directories tidy. */
  lemma TidiedStep(c: Config, was: Files, wasDirs: set<Path>, files: Files, dirs: set<Path>, p: Path, root: Path,
                   roots: seq<Path>)
    requires Tidied(c, was, wasDirs, files, dirs, roots) && Rooted(files, dirs)
    requires p in files && StartsWith(p, root) && p != root && root in roots
    ensures p != [] && var next := files - {p};
      Tidied(c, was, wasDirs, next, Pruned(c, next, dirs, Parent(p), root), roots)
  {
    ParentBelow(p, root);
    var next, start := files - {p}, Parent(p);
    var k := PruneExactly(c, next, dirs, start, root);
    var left := dirs - Chain(start, k);
    forall d | d in wasDirs && d !in left ensures Lost(was, next, d, roots) {
      if d in Chain(start, k) {
        ChainLost(p, start, root, k, d);
      }
    }
    forall d | d in left && d !in roots && Vacant(next, left, d) && c.removable(d)
      ensures Vacant(was, wasDirs, d)
    {
      assert d != start[..k];
      StillVacant(files, dirs, p, k, d);
    }
  }

  lemma ChainLost(p: Path, start: Path, root: Path, k: nat, d: Path)
    requires p != [] && start == Parent(p) && StartsWith(start, root) && |root| <= k && d in Chain(start, k)
    ensures StartsWith(p, d) && p != d && StartsWith(d, root) && d != root
  {
    var j :| k < j <= |start| && d == start[..j];
    assert d == p[..j] && d[..|root|] == start[..|root|];
  }

  /** Nothing but the directory where the pruning stopped has become empty. */
  lemma StillVacant(files: Files, dirs: set<Path>, p: Path, k: nat, d: Path)
    requires p in files && p != [] && k <= |Parent(p)| && d != Parent(p)[..k]
    requires var left := dirs - Chain(Parent(p), k);
      d in left && Vacant(files - {p}, left, d)
    ensures Vacant(files, dirs, d)
  {
    var start := Parent(p);
    StartInChain(start, k);
    forall e | e in dirs ensures !Inside(e, d) {
      if e != [] && e in Chain(start, k) {
        ParentInChain(start, k, e);
      }
    }
  }

  lemma StartInChain(start: Path, k: nat)
    requires k <= |start|
    ensures start == start[..k] || start in Chain(start, k)
  {
    assert start[..|start|] == start;
  }

  lemma ParentInChain(start: Path, k: nat, e: Path)
    requires k <= |start| && e != [] && e in Chain(start, k)
    ensures Parent(e) == start[..k] || Parent(e) in Chain(start, k)
  {
    var j :| k < j <= |start| && e == start[..j];
    assert Parent(e) == start[..j - 1];
  }

  // ---------------------------------------------------------------------------- the loops

  class Downloads {
    var files: Files
    var dirs: set<Path>
    const config: Config

    constructor (config: Config, files: Files, dirs: set<Path>)
      ensures this.config == config && this.files == files && this.dirs == dirs
    {
      this.config, this.files, this.dirs := config, files, dirs;
    }

    method RemoveFile(p: Path) returns (ok: bool)
      modifies this`files
      ensures ok == (p in old(files) && config.removable(p))
      ensures files == if ok then old(files) - {p} else old(files)
    {
      ok := p in files && config.removable(p);
      if ok {
        files := files - {p};
      }
    }

    method RemoveDir(dir: Path) returns (ok: bool)
      modifies this`dirs
      ensures ok == (Vacant(files, old(dirs), dir) && config.removable(dir))
      ensures dirs == if ok then old(dirs) - {dir} else old(dirs)
    {
      ok := Vacant(files, dirs, dir) && config.removable(dir);
      if ok {
        dirs := dirs - {dir};
      }
    }

    method RemoveEmptyParents(start: Path, root: Path)
      modifies this`dirs
      ensures dirs == Pruned(config, files, old(dirs), start, root)
      ensures Rooted(files, old(dirs)) && StartsWith(start, root) ==> Rooted(files, dirs)
    {
      if Rooted(files, dirs) && StartsWith(start, root) {
        ghost var k := PruneExactly(config, files, dirs, start, root);
      }
      var dir := start;
      while dir != root
        invariant Pruned(config, files, old(dirs), start, root) == Pruned(config, files, dirs, dir, root)
        decreases |dir|
      {
        var ok := RemoveDir(dir);
        if !ok {
          break;
        }
        if dir == [] {
          break;
        }
        dir := Parent(dir);
      }
    }

    /** The age pass over the whole walk. */
    method AgeScan(entries: seq<Entry>, ghost roots: seq<Path>) returns (total: nat, candidates: seq<Candidate>)
      modifies this
      ensures Scan(files, total, candidates) == Visited(config, old(files), Paths(entries), |entries|)
      ensures Rooted(old(files), old(dirs)) && Below(entries, roots) ==>
        Rooted(files, dirs) && Tidied(config, old(files), old(dirs), files, dirs, roots)
      ensures forall x :: x in candidates ==> exists i :: 0 <= i < |entries| && x.path == entries[i].path
    {
      total, candidates := 0, [];
      ghost var walk := Paths(entries);
      for n := 0 to |entries|
        invariant Scan(files, total, candidates) == Visited(config, old(files), walk, n)
        invariant Rooted(old(files), old(dirs)) && Below(entries, roots) ==>
          Rooted(files, dirs) && Tidied(config, old(files), old(dirs), files, dirs, roots)
        invariant forall x :: x in candidates ==> exists i :: 0 <= i < n && x.path == entries[i].path
      {
        var path := entries[n].path;
        assert Visited(config, old(files), walk, n + 1) == Visit(config, Scan(files, total, candidates), path);
        if path !in files || InMetadata(path) {
          continue;
        }
        var file := files[path];
        if IsProtected(config, path) {
          total := total + file.size;
          continue;
        }
        if file.modified.Some? && Old(config, file) {
          ghost var before := files;
          var ok := RemoveFile(path);
          if !ok {
            total := total + file.size;
          } else if path != [] {
            if Rooted(old(files), old(dirs)) && Below(entries, roots) {
              ParentBelow(path, entries[n].root);
              TidiedStep(config, old(files), old(dirs), before, dirs, path, entries[n].root, roots);
            }
            RemoveEmptyParents(Parent(path), entries[n].root);
          }
        } else {
          total := total + file.size;
          candidates := candidates + [Candidate(path, file.size, TimeOf(file))];
        }
      }
    }

    /** The size pass over candidates in the given order. */
    method SizeScan(order: seq<Candidate>, start: nat, roots: seq<Path>, ghost was: Files, ghost wasDirs: set<Path>)
      returns (total: nat)
      modifies this
      ensures Store(files, total) == Evicted(config, Store(old(files), start), order, |order|)
      ensures Rooted(old(files), old(dirs)) && PathsBelow(order, roots) ==> Rooted(files, dirs)
      ensures Rooted(old(files), old(dirs)) && PathsBelow(order, roots) ==>
        (Tidied(config, was, wasDirs, old(files), old(dirs), roots) ==>
          Tidied(config, was, wasDirs, files, dirs, roots))
    {
      total := start;
      ghost var store := Store(files, start);
      ghost var good := Rooted(files, dirs) && PathsBelow(order, roots);
      ghost var tidy := good && Tidied(config, was, wasDirs, files, dirs, roots);
      for n := 0 to |order|
        invariant Store(files, total) == Evicted(config, store, order, n)
        invariant good ==> Rooted(files, dirs) && PathsBelow(order, roots)
        invariant tidy ==> good && Tidied(config, was, wasDirs, files, dirs, roots)
      {
        if total <= config.limit {
          Settled(config, store, order, n, |order|);
          break;
        }
        if order[n].size > config.limit {
          continue;
        }
        var path := order[n].path;
        ghost var before := files;
        var ok := RemoveFile(path);
        if ok {
          total := total - Min(order[n].size, total);
          PruneAfter(before, path, roots, was, wasDirs, good && order[n] in order, tidy && order[n] in order);
        }
      }
    }

    /** Removes the parents that deleting a file has left empty, below its download directory. */
    method PruneAfter(ghost before: Files, path: Path, roots: seq<Path>, ghost was: Files, ghost wasDirs: set<Path>,
                      ghost good: bool, ghost tidy: bool)
      requires path in before && files == before - {path}
      requires good ==> Rooted(before, dirs) && PathBelow(path, roots)
      requires tidy ==> good && Tidied(config, was, wasDirs, before, dirs, roots)
      modifies this`dirs
      ensures good ==> Rooted(files, dirs)
      ensures tidy ==> Tidied(config, was, wasDirs, files, dirs, roots)
    {
      var root := FindRoot(path, roots);
      if path != [] && root.Some? {
        if good {
          ParentBelow(path, root.value);
        }
        if tidy {
          TidiedStep(config, was, wasDirs, before, dirs, path, root.value, roots);
        }
        RemoveEmptyParents(Parent(path), root.value);
      }
    }

    /** The directories are left tidy: only ones that lost a file are gone, and no directory below
        the download directories is left empty that could be removed. */
    method CleanCache(entries: seq<Entry>, roots: seq<Path>) returns (total: nat)
      modifies this
      ensures Store(files, total) == Cleaned(config, old(files), Paths(entries))
      ensures Rooted(old(files), old(dirs)) && Below(entries, roots) ==>
        Rooted(files, dirs) && Tidied(config, old(files), old(dirs), files, dirs, roots)
    {
      var candidates;
      total, candidates := AgeScan(entries, roots);
      if Below(entries, roots) {
        CandidatesBelow(candidates, entries, roots);
      }
      if config.limit > 0 && total > config.limit {
        total := SizeScan(Sorted(candidates), total, roots, old(files), old(dirs));
      }
    }
  }

  predicate PathBelow(p: Path, roots: seq<Path>) {
    p !in roots && exists i :: 0 <= i < |roots| && StartsWith(p, roots[i])
  }

  predicate PathsBelow(order: seq<Candidate>, roots: seq<Path>) {
    forall x :: x in order ==> PathBelow(x.path, roots)
  }

  lemma CandidatesBelow(candidates: seq<Candidate>, entries: seq<Entry>, roots: seq<Path>)
    requires Below(entries, roots)
    requires forall x :: x in candidates ==> exists i :: 0 <= i < |entries| && x.path == entries[i].path
    ensures PathsBelow(Sorted(candidates), roots)
  {
    forall x | x in Sorted(candidates) ensures PathBelow(x.path, roots) {
      SortedKeeps(candidates);
      assert x in multiset(Sorted(candidates));
      var i :| 0 <= i < |entries| && x.path == entries[i].path;
      var j :| 0 <= j < |roots| && roots[j] == entries[i].root;
    }
  }

  /** The first download directory that holds the path. */
  method FindRoot(path: Path, roots: seq<Path>) returns (root: Option<Path>)
    ensures root.None? ==> forall i :: 0 <= i < |roots| ==> !StartsWith(path, roots[i])
    ensures root.Some? ==> exists i :: 0 <= i < |roots| && root.value == roots[i] && FirstHolder(path, roots, i)
  {
    root := None;
    for i := 0 to |roots|
      invariant forall j :: 0 <= j < i ==> !StartsWith(path, roots[j])
    {
      if StartsWith(path, roots[i]) {
        assert FirstHolder(path, roots, i);
        return Some(roots[i]);
      }
    }
  }

  predicate FirstHolder(path: Path, roots: seq<Path>, i: nat)
    requires i < |roots|
  {
    StartsWith(path, roots[i]) && forall j :: 0 <= j < i ==> !StartsWith(path, roots[j])
  }
}
