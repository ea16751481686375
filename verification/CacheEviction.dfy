/** What a whole cleaning run guarantees. */
module CacheEviction {
  import opened Common
  import opened CacheCleaner

  ghost predicate Shrunk(was: Files, now: Files) {
    forall p :: p in now ==> p in was && now[p] == was[p]
  }

  ghost predicate AllDescribed(c: Config, files: Files, cs: seq<Candidate>, walk: seq<Path>) {
    forall x :: x in cs ==> x.path in walk && Describes(c, files, x)
  }

  /** Each deletion takes the file's size off the total and off the usage. */
  lemma EvictStep(c: Config, start: Files, s: Store, x: Candidate, walk: seq<Path>)
    requires Shrunk(start, s.files) && x.path in walk && Describes(c, start, x)
    requires Usage(s.files, walk, |walk|) <= s.total
    ensures var next := Evict(c, s, x);
      && Shrunk(start, next.files) && next.total <= s.total
      && Usage(next.files, walk, |walk|) <= next.total
      && next.total - Usage(next.files, walk, |walk|) == s.total - Usage(s.files, walk, |walk|)
  {
    UsageWithout(s.files, walk, |walk|, x.path);
    assert walk[..|walk|] == walk;
  }

  lemma {:induction false} EvictedKeeps(c: Config, s: Store, cs: seq<Candidate>, walk: seq<Path>, n: nat)
    requires n <= |cs| && AllDescribed(c, s.files, cs, walk) && Usage(s.files, walk, |walk|) <= s.total
    ensures var e := Evicted(c, s, cs, n);
      && Shrunk(s.files, e.files) && e.total <= s.total
      && Usage(e.files, walk, |walk|) <= e.total
      && e.total - Usage(e.files, walk, |walk|) == s.total - Usage(s.files, walk, |walk|)
  {
    if n > 0 {
      EvictedKeeps(c, s, cs, walk, n - 1);
      EvictStep(c, s.files, Evicted(c, s, cs, n - 1), cs[n - 1], walk);
    }
  }

  /** Whatever is missing was deleted at its place in the order, while over the limit. */
  lemma {:induction false} DeletedWhen(c: Config, s: Store, cs: seq<Candidate>, n: nat, p: Path) returns (j: nat)
    requires n <= |cs| && p in s.files && p !in Evicted(c, s, cs, n).files
    ensures j < n && cs[j].path == p && Evicts(c, Evicted(c, s, cs, j), cs[j])
  {
    if p in Evicted(c, s, cs, n - 1).files {
      j := n - 1;
    } else {
      j := DeletedWhen(c, s, cs, n - 1, p);
    }
  }

  /** Once at the limit, nothing more happens. */
  lemma {:induction false} Settled(c: Config, s: Store, cs: seq<Candidate>, j: nat, n: nat)
    requires j <= n <= |cs| && Evicted(c, s, cs, j).total <= c.limit
    ensures Evicted(c, s, cs, n) == Evicted(c, s, cs, j)
    decreases n
  {
    if j < n {
      Settled(c, s, cs, j, n - 1);
    }
  }

  lemma {:induction false} Shrinks(c: Config, s: Store, cs: seq<Candidate>, j: nat, n: nat)
    requires j <= n <= |cs|
    ensures Shrunk(Evicted(c, s, cs, j).files, Evicted(c, s, cs, n).files)
    decreases n
  {
    if j < n {
      Shrinks(c, s, cs, j, n - 1);
    }
  }

  /** A deletable candidate that survives was reached only after the limit was met. */
  lemma SurvivorUnreached(c: Config, s: Store, cs: seq<Candidate>, j: nat, n: nat)
    requires j < n <= |cs| && cs[j].path in Evicted(c, s, cs, n).files
    requires cs[j].size <= c.limit && c.removable(cs[j].path)
    ensures Evicted(c, s, cs, j).total <= c.limit
  {
    if Evicted(c, s, cs, j).total > c.limit {
      Shrinks(c, s, cs, j, n);
      Shrinks(c, s, cs, j + 1, n);
    }
  }

  // ------------------------------------------------------------------- the whole run

  function Scanned(c: Config, files: Files, walk: seq<Path>): Scan {
    Visited(c, files, walk, |walk|)
  }

  lemma OrderDescribed(c: Config, files: Files, walk: seq<Path>)
    ensures var scan := Scanned(c, files, walk);
      && AllDescribed(c, scan.files, Sorted(scan.candidates), walk)
      && forall x :: x in scan.candidates <==> x in Sorted(scan.candidates)
  {
    var scan := Scanned(c, files, walk);
    AgePass(c, files, walk, |walk|);
    SortedKeeps(scan.candidates);
    assert walk[..|walk|] == walk;
    forall x ensures x in scan.candidates <==> x in Sorted(scan.candidates) {
      assert x in scan.candidates <==> x in multiset(scan.candidates);
      assert x in Sorted(scan.candidates) <==> x in multiset(Sorted(scan.candidates));
    }
  }

  /** The walk meets a file with bytes in it twice, and the first meeting does not delete it. */
  predicate MetTwice(c: Config, files: Files, walk: seq<Path>) {
    exists i :: 0 <= i < |walk| && MetAgain(c, files, walk, i)
  }

  predicate MetAgain(c: Config, files: Files, walk: seq<Path>, i: nat)
    requires i < |walk|
  {
    walk[i] in walk[..i] && Weight(files, walk[i]) > 0 && !Expires(c, files, walk[i])
  }

  lemma MetTwiceIsCounted(c: Config, files: Files, walk: seq<Path>)
    ensures CountedTwice(Scanned(c, files, walk).files, walk, |walk|) <==> MetTwice(c, files, walk)
  {
    var now := Scanned(c, files, walk).files;
    AgePass(c, files, walk, |walk|);
    assert walk[..|walk|] == walk;
    forall i | 0 <= i < |walk|
      ensures MetAgain(c, files, walk, i) <==> walk[i] in walk[..i] && Weight(now, walk[i]) > 0
    {
      assert walk[i] in walk;
    }
  }

  /** The running total never falls below the bytes left, and is exactly them if and only
      if the walk met no file twice that has bytes in it and is not deleted for its age. */
  lemma TotalExactly(c: Config, files: Files, walk: seq<Path>)
    ensures var done := Cleaned(c, files, walk);
      && Usage(done.files, walk, |walk|) <= done.total
      && (done.total == Usage(done.files, walk, |walk|) <==>
          !MetTwice(c, files, walk))
  {
    var scan := Scanned(c, files, walk);
    var order := Sorted(scan.candidates);
    AgePass(c, files, walk, |walk|);
    TallyAgainstUsage(scan.files, walk, |walk|);
    OrderDescribed(c, files, walk);
    EvictedKeeps(c, Store(scan.files, scan.total), order, walk, |order|);
    MetTwiceIsCounted(c, files, walk);
  }

  /** Files of active torrents, metadata and files outside the walk are never deleted, and
      every unprotected file older than thirty days is, unless the system refuses. */
  lemma DeletesOnlyAllowed(c: Config, files: Files, walk: seq<Path>)
    ensures var done := Cleaned(c, files, walk);
      && Shrunk(files, done.files)
      && (forall p :: p in files && p !in done.files ==>
          p in walk && !IsProtected(c, p) && !InMetadata(p) && c.removable(p))
      && (forall p :: p in walk && Expires(c, files, p) ==> p !in done.files)
  {
    var scan := Scanned(c, files, walk);
    var order, store := Sorted(scan.candidates), Store(scan.files, scan.total);
    var done := Cleaned(c, files, walk);
    AgePass(c, files, walk, |walk|);
    assert walk[..|walk|] == walk;
    Shrinks(c, store, order, 0, |order|);
    OrderDescribed(c, files, walk);
    forall p | p in files && p !in done.files
      ensures p in walk && !IsProtected(c, p) && !InMetadata(p) && c.removable(p)
    {
      if p in scan.files {
        var j := DeletedWhen(c, store, order, |order|, p);
        assert order[j] in order;
      }
    }
  }

  /** The path is a protected one or lies below one. */
  ghost predicate UnderProtection(c: Config, p: Path) {
    exists q, rest :: q in c.protectedPaths && p == q + rest
  }

  /** Written more than 2592000 seconds ago. */
  predicate Aged(c: Config, f: File) {
    f.modified.Some? && c.now - f.modified.value > 2_592_000
  }

  lemma RulesExactly(c: Config, p: Path, f: File)
    ensures IsProtected(c, p) <==> UnderProtection(c, p)
    ensures Old(c, f) <==> Aged(c, f)
    ensures TimeOf(f) == if f.modified.Some? then f.modified.value else 0
  {
    if p in c.protectedPaths {
      assert p == p + [];
    } else if IsProtected(c, p) {
      var q :| q in c.protectedPaths && StartsWith(p, q);
      assert p == q + p[|q|..];
    }
    if UnderProtection(c, p) {
      var q, rest :| q in c.protectedPaths && p == q + rest;
      assert StartsWith(p, q);
    }
  }

  /** Whatever the limit and the ages, nothing at or below a protected path is deleted, and
      nothing below a directory named `.metadata`. */
  lemma ProtectedKept(c: Config, files: Files, walk: seq<Path>, p: Path)
    requires p in files && (UnderProtection(c, p) || ".metadata" in p)
    ensures p in Cleaned(c, files, walk).files && Cleaned(c, files, walk).files[p] == files[p]
  {
    RulesExactly(c, p, files[p]);
    DeletesOnlyAllowed(c, files, walk);
  }

  /** Without a size limit a file goes if and only if the walk meets it, it is more than thirty
      days old, neither protected nor metadata, and the system lets it go. */
  lemma AgeAloneExactly(c: Config, files: Files, walk: seq<Path>, p: Path)
    requires c.limit == 0 && p in files
    ensures p !in Cleaned(c, files, walk).files <==>
      p in walk && !UnderProtection(c, p) && ".metadata" !in p && c.removable(p) && Aged(c, files[p])
  {
    RulesExactly(c, p, files[p]);
    DeletesOnlyAllowed(c, files, walk);
    AgePass(c, files, walk, |walk|);
    assert walk[..|walk|] == walk;
  }

  /** A walked file that the size pass may delete. */
  predicate Deletable(c: Config, files: Files, walk: seq<Path>, p: Path) {
    && p in walk && p in files && !IsProtected(c, p) && !InMetadata(p)
    && files[p].size <= c.limit && c.removable(p)
  }

  /** The place in the order of a deletable file that survived. */
  lemma SurvivorPlace(c: Config, files: Files, walk: seq<Path>, p: Path) returns (j: nat)
    requires c.limit > 0 && Scanned(c, files, walk).total > c.limit
    requires p in Cleaned(c, files, walk).files && Deletable(c, files, walk, p)
    ensures var scan := Scanned(c, files, walk);
      var order := Sorted(scan.candidates);
      && j < |order| && order[j].modified == TimeOf(files[p])
      && Evicted(c, Store(scan.files, scan.total), order, j).total <= c.limit
  {
    var scan := Scanned(c, files, walk);
    var order, store := Sorted(scan.candidates), Store(scan.files, scan.total);
    AgePass(c, files, walk, |walk|);
    assert walk[..|walk|] == walk;
    Shrinks(c, store, order, 0, |order|);
    OrderDescribed(c, files, walk);
    assert Eligible(c, scan.files, p);
    var x :| x in scan.candidates && x.path == p;
    j :| 0 <= j < |order| && order[j] == x;
    SurvivorUnreached(c, store, order, j, |order|);
  }

  /** The run ends at or below the limit, unless every unprotected file left is larger than
      the limit by itself or could not be deleted. */
  lemma EndsWithinLimit(c: Config, files: Files, walk: seq<Path>)
    requires c.limit > 0 && Cleaned(c, files, walk).total > c.limit
    ensures forall p :: p in Cleaned(c, files, walk).files ==> !Deletable(c, files, walk, p)
  {
    var scan := Scanned(c, files, walk);
    var order, store := Sorted(scan.candidates), Store(scan.files, scan.total);
    forall p | p in Cleaned(c, files, walk).files ensures !Deletable(c, files, walk, p) {
      if Deletable(c, files, walk, p) {
        var j := SurvivorPlace(c, files, walk, p);
        Settled(c, store, order, j, |order|);
      }
    }
  }

  /** The place in the order of a file deleted for space by the first `n` steps. */
  lemma DeletedPlace(c: Config, files: Files, walk: seq<Path>, n: nat, p: Path) returns (j: nat)
    requires n <= |Order(c, files, walk)|
    requires p in Scanned(c, files, walk).files && p !in After(c, files, walk, n).files
    ensures j < n && p in files && files[p] == Scanned(c, files, walk).files[p]
    ensures Order(c, files, walk)[j] == Candidate(p, files[p].size, TimeOf(files[p]))
    ensures Evicts(c, After(c, files, walk, j), Order(c, files, walk)[j])
  {
    var scan := Scanned(c, files, walk);
    AgePass(c, files, walk, |walk|);
    OrderDescribed(c, files, walk);
    j := DeletedWhen(c, Store(scan.files, scan.total), Order(c, files, walk), n, p);
    assert Order(c, files, walk)[j] in Order(c, files, walk);
  }

  function Order(c: Config, files: Files, walk: seq<Path>): seq<Candidate> {
    Sorted(Scanned(c, files, walk).candidates)
  }

  /** The state after `n` candidates of the size pass. */
  function After(c: Config, files: Files, walk: seq<Path>, n: nat): Store
    requires n <= |Order(c, files, walk)|
  {
    var scan := Scanned(c, files, walk);
    Evicted(c, Store(scan.files, scan.total), Order(c, files, walk), n)
  }

  lemma SurvivorNotOlder(c: Config, files: Files, walk: seq<Path>, j: nat, q: Path)
    requires c.limit > 0 && Scanned(c, files, walk).total > c.limit && j < |Order(c, files, walk)|
    requires After(c, files, walk, j).total > c.limit
    requires q in Cleaned(c, files, walk).files && Deletable(c, files, walk, q)
    ensures Order(c, files, walk)[j].modified <= TimeOf(files[q])
  {
    var scan, order := Scanned(c, files, walk), Order(c, files, walk);
    var m := SurvivorPlace(c, files, walk, q);
    SortedKeeps(scan.candidates);
    if m < j {
      Settled(c, Store(scan.files, scan.total), order, m, j);
    }
  }

  /** A file deleted for space was deleted while the total was over the limit, after no
      younger file; and no deletable file that survived is older. */
  lemma OldestGoFirst(c: Config, files: Files, walk: seq<Path>, p: Path) returns (j: nat)
    requires p in Scanned(c, files, walk).files && p !in Cleaned(c, files, walk).files
    ensures j < |Order(c, files, walk)| && Order(c, files, walk)[j].path == p && p in files
    ensures files[p].size <= c.limit && c.removable(p)
    ensures After(c, files, walk, j).total > c.limit > 0 && p in After(c, files, walk, j).files
    ensures forall q :: q in Scanned(c, files, walk).files && q !in After(c, files, walk, j).files ==>
      q in files && TimeOf(files[q]) <= TimeOf(files[p])
    ensures forall q :: q in Cleaned(c, files, walk).files && Deletable(c, files, walk, q) ==>
      TimeOf(files[p]) <= TimeOf(files[q])
  {
    var scan := Scanned(c, files, walk);
    j := DeletedPlace(c, files, walk, |Order(c, files, walk)|, p);
    forall q | q in scan.files && q !in After(c, files, walk, j).files
      ensures q in files && TimeOf(files[q]) <= TimeOf(files[p])
    {
      var i := DeletedPlace(c, files, walk, j, q);
      SortedKeeps(scan.candidates);
    }
    forall q | q in Cleaned(c, files, walk).files && Deletable(c, files, walk, q)
      ensures TimeOf(files[p]) <= TimeOf(files[q])
    {
      SurvivorNotOlder(c, files, walk, j, q);
    }
  }

  /** Under nested directories one file is counted twice, and is deleted although it fits. */
  lemma NestedWalkOverEvicts(p: Path, size: nat, limit: nat, now: int)
    requires !InMetadata(p) && 0 < size <= limit < 2 * size
    ensures var c := Config(limit, now, {}, (q: Path) => true);
      var files: Files := map[p := File(size, Some(now))];
      && Usage(files, [p, p], 2) <= limit
      && p !in Cleaned(c, files, [p, p]).files
  {
    var c := Config(limit, now, {}, (q: Path) => true);
    var files: Files := map[p := File(size, Some(now))];
    var walk := [p, p];
    var scan := Scanned(c, files, walk);
    var order, store := Sorted(scan.candidates), Store(scan.files, scan.total);
    TwoVisits(files, p);
    AgePass(c, files, walk, 2);
    assert scan.files == files;
    OrderDescribed(c, files, walk);
    EvictedKeeps(c, store, order, walk, |order|);
    if p in Cleaned(c, files, walk).files {
      assert Cleaned(c, files, walk).files == files;
      EndsWithinLimit(c, files, walk);
    }
  }

  lemma TwoVisits(files: Files, p: Path)
    requires p in files && !InMetadata(p)
    ensures Usage(files, [p, p], 2) == files[p].size && Tally(files, [p, p], 2) == 2 * files[p].size
  {
    var walk := [p, p];
    assert walk[..1] == [p] && walk[..0] == [];
    assert Usage(files, walk, 1) == files[p].size && Tally(files, walk, 1) == files[p].size;
  }
}
