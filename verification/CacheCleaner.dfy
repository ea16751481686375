/** Evicting cached files: first by age, then oldest first by size. */
module CacheCleaner {
  import opened Common

  type Path = seq<string>

  /** A file's size and its modification time, if the time can be read. */
  datatype File = File(size: nat, modified: Option<int>)

  type Files = map<Path, File>

  datatype Candidate = Candidate(path: Path, size: nat, modified: int)

  /** What a cleaning run is given: the limit, the clock, the paths of active torrents
      and which files the system lets it delete. */
  datatype Config = Config(limit: nat, now: int, protectedPaths: set<Path>, removable: Path -> bool)

  const THIRTY_DAYS: int := 30 * 24 * 60 * 60
  const UNIX_EPOCH: int := 0

  predicate StartsWith(p: Path, prefix: Path) {
    |prefix| <= |p| && p[..|prefix|] == prefix
  }

  predicate IsProtected(c: Config, p: Path) {
    p in c.protectedPaths || exists q :: q in c.protectedPaths && StartsWith(p, q)
  }

  predicate InMetadata(p: Path) {
    ".metadata" in p
  }

  predicate Old(c: Config, f: File) {
    f.modified.Some? && (if c.now < f.modified.value then 0 else c.now - f.modified.value) > THIRTY_DAYS
  }

  /** A file whose time cannot be read counts as the oldest. */
  function TimeOf(f: File): int {
    if f.modified.Some? then f.modified.value else UNIX_EPOCH
  }

  // ------------------------------------------------------------------- the age pass

  datatype Scan = Scan(files: Files, total: nat, candidates: seq<Candidate>)

  /** One entry of the directory walk. */
  function Visit(c: Config, s: Scan, p: Path): Scan {
    if p !in s.files || InMetadata(p) then s else
      var f := s.files[p];
      if IsProtected(c, p) then s.(total := s.total + f.size)
      else if Old(c, f) then
        if c.removable(p) then s.(files := s.files - {p}) else s.(total := s.total + f.size)
      else
        s.(total := s.total + f.size, candidates := s.candidates + [Candidate(p, f.size, TimeOf(f))])
  }

  function Visited(c: Config, files: Files, walk: seq<Path>, n: nat): Scan
    requires n <= |walk|
  {
    if n == 0 then Scan(files, 0, []) else Visit(c, Visited(c, files, walk, n - 1), walk[n - 1])
  }

  // ------------------------------------------------------------------ the size pass

  function Inserted(x: Candidate, cs: seq<Candidate>): seq<Candidate> {
    if cs != [] && cs[|cs| - 1].modified > x.modified
    then Inserted(x, cs[..|cs| - 1]) + [cs[|cs| - 1]] else cs + [x]
  }

  /** A stable sort, oldest first. */
  function Sorted(cs: seq<Candidate>): seq<Candidate> {
    if cs == [] then [] else Inserted(cs[|cs| - 1], Sorted(cs[..|cs| - 1]))
  }

  datatype Store = Store(files: Files, total: nat)

  predicate Evicts(c: Config, s: Store, x: Candidate) {
    s.total > c.limit && x.size <= c.limit && x.path in s.files && c.removable(x.path)
  }

  function Evict(c: Config, s: Store, x: Candidate): Store {
    if Evicts(c, s, x)
    then Store(s.files - {x.path}, s.total - Min(x.size, s.total)) else s
  }

  function Evicted(c: Config, s: Store, cs: seq<Candidate>, n: nat): Store
    requires n <= |cs|
  {
    if n == 0 then s else Evict(c, Evicted(c, s, cs, n - 1), cs[n - 1])
  }

  /** The whole run. */
  function Cleaned(c: Config, files: Files, walk: seq<Path>): Store {
    var scan := Visited(c, files, walk, |walk|);
    var store := Store(scan.files, scan.total);
    if c.limit > 0 && scan.total > c.limit then
      var order := Sorted(scan.candidates);
      Evicted(c, store, order, |order|)
    else store
  }

  // -------------------------------------------------------------- counting the files

  function Weight(files: Files, p: Path): nat {
    if p in files && !InMetadata(p) then files[p].size else 0
  }

  /** The sizes met along a walk, a file walked twice counting twice. */
  function Tally(files: Files, walk: seq<Path>, n: nat): nat
    requires n <= |walk|
  {
    if n == 0 then 0 else Tally(files, walk, n - 1) + Weight(files, walk[n - 1])
  }

  /** The summed sizes of the distinct files along a walk. */
  function Usage(files: Files, walk: seq<Path>, n: nat): nat
    requires n <= |walk|
  {
    if n == 0 then 0
    else Usage(files, walk, n - 1) + if walk[n - 1] in walk[..n - 1] then 0 else Weight(files, walk[n - 1])
  }

  /** Some file with bytes in it is met twice, as under nested directories. */
  predicate CountedTwice(files: Files, walk: seq<Path>, n: nat)
    requires n <= |walk|
  {
    exists i :: 0 <= i < n && walk[i] in walk[..i] && Weight(files, walk[i]) > 0
  }

  lemma {:induction false} TallyAgainstUsage(files: Files, walk: seq<Path>, n: nat)
    requires n <= |walk|
    ensures Usage(files, walk, n) <= Tally(files, walk, n)
    ensures Usage(files, walk, n) == Tally(files, walk, n) <==> !CountedTwice(files, walk, n)
  {
    if n > 0 {
      TallyAgainstUsage(files, walk, n - 1);
      if CountedTwice(files, walk, n - 1) {
        var i :| 0 <= i < n - 1 && walk[i] in walk[..i] && Weight(files, walk[i]) > 0;
        assert CountedTwice(files, walk, n);
      }
    }
  }

  lemma {:induction false} TallyWithout(files: Files, walk: seq<Path>, n: nat, p: Path)
    requires n <= |walk| && p !in walk[..n]
    ensures Tally(files - {p}, walk, n) == Tally(files, walk, n)
  {
    if n > 0 {
      assert walk[n - 1] in walk[..n] && forall q :: q in walk[..n - 1] ==> q in walk[..n];
      TallyWithout(files, walk, n - 1, p);
    }
  }

  lemma {:induction false} UsageWithout(files: Files, walk: seq<Path>, n: nat, p: Path)
    requires n <= |walk|
    ensures Usage(files, walk, n) ==
      Usage(files - {p}, walk, n) + if p in walk[..n] then Weight(files, p) else 0
  {
    if n > 0 {
      UsageWithout(files, walk, n - 1, p);
      assert walk[..n] == walk[..n - 1] + [walk[n - 1]];
    }
  }

  // ------------------------------------------------------------ what the age pass does

  /** A file that the age pass deletes when it meets it. */
  predicate Expires(c: Config, files: Files, p: Path) {
    p in files && !InMetadata(p) && !IsProtected(c, p) && Old(c, files[p]) && c.removable(p)
  }

  predicate Eligible(c: Config, files: Files, p: Path) {
    p in files && !InMetadata(p) && !IsProtected(c, p) && !Old(c, files[p])
  }

  ghost predicate AgePassed(c: Config, files: Files, now: Files, walk: seq<Path>, n: nat)
    requires n <= |walk|
  {
    && (forall p :: p in now ==> p in files && now[p] == files[p])
    && (forall p :: p in files ==> (p !in now <==> p in walk[..n] && Expires(c, files, p)))
  }

  predicate Describes(c: Config, files: Files, x: Candidate) {
    Eligible(c, files, x.path) && x == Candidate(x.path, files[x.path].size, TimeOf(files[x.path]))
  }

  /** The candidates are exactly the eligible files met so far. */
  ghost predicate Collected(c: Config, now: Files, cs: seq<Candidate>, walk: seq<Path>, n: nat)
    requires n <= |walk|
  {
    && (forall x :: x in cs ==> x.path in walk[..n] && Describes(c, now, x))
    && (forall p :: p in walk[..n] && Eligible(c, now, p) ==> exists x :: x in cs && x.path == p)
  }

  lemma {:induction false} AgePass(c: Config, files: Files, walk: seq<Path>, n: nat)
    requires n <= |walk|
    ensures var s := Visited(c, files, walk, n);
      && s.total == Tally(s.files, walk, n)
      && AgePassed(c, files, s.files, walk, n)
      && Collected(c, s.files, s.candidates, walk, n)
  {
    if n > 0 {
      AgePass(c, files, walk, n - 1);
      var s, p := Visited(c, files, walk, n - 1), walk[n - 1];
      AgeStep(c, files, s, walk, n - 1);
      CollectStep(c, s, walk, n - 1);
      assert Visited(c, files, walk, n) == Visit(c, s, p);
    }
  }

  /** Only a file that expires leaves the disk, and only then is it not counted. */
  lemma VisitEffect(c: Config, s: Scan, p: Path)
    ensures var next := Visit(c, s, p);
      && next.files == (if Expires(c, s.files, p) then s.files - {p} else s.files)
      && next.total == s.total + Weight(next.files, p)
  {
  }

  lemma AgeStep(c: Config, files: Files, s: Scan, walk: seq<Path>, n: nat)
    requires n < |walk| && s.total == Tally(s.files, walk, n) && AgePassed(c, files, s.files, walk, n)
    ensures var next := Visit(c, s, walk[n]);
      next.total == Tally(next.files, walk, n + 1) && AgePassed(c, files, next.files, walk, n + 1)
  {
    VisitEffect(c, s, walk[n]);
    if Expires(c, s.files, walk[n]) {
      TallyWithout(s.files, walk, n, walk[n]);
      AgedOut(c, files, s.files, walk, n);
    } else {
      Spared(c, files, s.files, walk, n);
    }
  }

  lemma AgedOut(c: Config, files: Files, now: Files, walk: seq<Path>, n: nat)
    requires n < |walk| && AgePassed(c, files, now, walk, n) && Expires(c, now, walk[n])
    ensures AgePassed(c, files, now - {walk[n]}, walk, n + 1)
  {
    assert walk[..n + 1] == walk[..n] + [walk[n]];
  }

  lemma Spared(c: Config, files: Files, now: Files, walk: seq<Path>, n: nat)
    requires n < |walk| && AgePassed(c, files, now, walk, n) && !Expires(c, now, walk[n])
    ensures AgePassed(c, files, now, walk, n + 1)
  {
    assert walk[..n + 1] == walk[..n] + [walk[n]];
  }

  lemma CollectStep(c: Config, s: Scan, walk: seq<Path>, n: nat)
    requires n < |walk| && Collected(c, s.files, s.candidates, walk, n)
    ensures var next := Visit(c, s, walk[n]);
      Collected(c, next.files, next.candidates, walk, n + 1)
  {
    var p, next := walk[n], Visit(c, s, walk[n]);
    var cs, more := s.candidates, next.candidates;
    assert walk[..n + 1] == walk[..n] + [p];
    forall q | q in walk[..n + 1] && Eligible(c, next.files, q)
      ensures exists x :: x in more && x.path == q
    {
      if q == p {
        assert more[|more| - 1].path == p && more[|more| - 1] in more;
      } else {
        var x :| x in cs && x.path == q;
        assert x in more;
      }
    }
  }

  // ---------------------------------------------------------------- the sort is a sort

  predicate OldestFirst(cs: seq<Candidate>) {
    forall i, j :: 0 <= i < j < |cs| ==> cs[i].modified <= cs[j].modified
  }

  function AtTime(cs: seq<Candidate>, t: int): seq<Candidate> {
    if cs == [] then []
    else AtTime(cs[..|cs| - 1], t) + if cs[|cs| - 1].modified == t then [cs[|cs| - 1]] else []
  }

  lemma {:induction false} InsertedPermutes(x: Candidate, cs: seq<Candidate>)
    ensures multiset(Inserted(x, cs)) == multiset(cs) + multiset{x}
  {
    if cs != [] && cs[|cs| - 1].modified > x.modified {
      InsertedPermutes(x, cs[..|cs| - 1]);
      assert cs == cs[..|cs| - 1] + [cs[|cs| - 1]];
    }
  }

  lemma {:induction false} InsertedOrdered(x: Candidate, cs: seq<Candidate>)
    requires OldestFirst(cs)
    ensures OldestFirst(Inserted(x, cs))
    ensures forall i :: 0 <= i < |Inserted(x, cs)| ==>
      Inserted(x, cs)[i].modified <= x.modified || (cs != [] && Inserted(x, cs)[i].modified <= cs[|cs| - 1].modified)
  {
    if cs != [] && cs[|cs| - 1].modified > x.modified {
      InsertedOrdered(x, cs[..|cs| - 1]);
    }
  }

  lemma {:induction false} InsertedStable(x: Candidate, cs: seq<Candidate>, t: int)
    requires OldestFirst(cs)
    ensures AtTime(Inserted(x, cs), t) == AtTime(cs, t) + if x.modified == t then [x] else []
  {
    var last := |cs| - 1;
    if cs != [] && cs[last].modified > x.modified {
      InsertedStable(x, cs[..last], t);
      var front := Inserted(x, cs[..last]);
      assert (front + [cs[last]])[..|front|] == front;
      if x.modified == t {
        YoungerElsewhere(cs, x.modified);
      }
    } else {
      assert (cs + [x])[..|cs|] == cs;
    }
  }

  lemma YoungerElsewhere(cs: seq<Candidate>, t: int)
    requires cs != [] && cs[|cs| - 1].modified > t
    ensures AtTime(cs, t) == AtTime(cs[..|cs| - 1], t)
  {
  }

  /** Sorting permutes, orders by time, and keeps the order of equal times. */
  lemma {:induction false} SortedKeeps(cs: seq<Candidate>)
    ensures OldestFirst(Sorted(cs)) && multiset(Sorted(cs)) == multiset(cs)
  {
    if cs != [] {
      var front := cs[..|cs| - 1];
      SortedKeeps(front);
      InsertedOrdered(cs[|cs| - 1], Sorted(front));
      InsertedPermutes(cs[|cs| - 1], Sorted(front));
      assert cs == front + [cs[|cs| - 1]];
    }
  }

  lemma {:induction false} SortedStable(cs: seq<Candidate>, t: int)
    ensures AtTime(Sorted(cs), t) == AtTime(cs, t)
  {
    if cs != [] {
      SortedStable(cs[..|cs| - 1], t);
      SortedKeeps(cs[..|cs| - 1]);
      InsertedStable(cs[|cs| - 1], Sorted(cs[..|cs| - 1]), t);
    }
  }
}
