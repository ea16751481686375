/** Whole runs of the playback lifecycle: requests, delayed tasks and sweeps in any
    order, with the clock moving forward between them. */
module PlaybackRuns {
  import opened Common
  import opened Playback

  /** The shared state, the detached tasks still to run, and the streams that
      clients hold open, by stream id. */
  datatype World = World(fs: State, tasks: multiset<Task>, open: map<nat, FileKey>)

  datatype Request =
    | AddTorrent(hash: Hash, fileCount: nat)
    | RemoveTorrent(hash: Hash)
    | Start(id: nat, key: FileKey, firstOk: bool, secondOk: bool)
    | End(id: nat, key: FileKey)
    | RefreshLease(key: FileKey, firstOk: bool, secondOk: bool)
    | RefreshExistingLease(key: FileKey, firstOk: bool, secondOk: bool)
    | Activate(key: FileKey, resumeOk: bool)
    | EndLease(key: FileKey)
    | Resolve(hash: Hash, resumeOk: bool)
    | SetSeeding(enabled: bool)

  /** Work of the sweep and of detached tasks. */
  datatype Work =
    | Sweep(now: nat)
    | SweepPause(hash: Hash, now: nat, reader: bool, metadata: bool, pauseOk: bool)
    | SweepRemove(hash: Hash, now: nat, reader: bool)
    | CleanupWork(key: FileKey, scheduled: Option<nat>)
    | PauseWork(hash: Hash, reader: bool, metadata: bool, pauseOk: bool)
    | ResumeWork(resumed: set<Hash>)
    | ExpiredWork(key: FileKey)

  datatype Event =
    | Tick(elapsed: nat)
    | Client(request: Request)
    | Background(work: Work)

  const START: World := World(INITIAL, multiset{}, map[])

  /** What clients guarantee: a torrent is added once and before it is streamed, a stream id
      is used by one stream at a time, and only an open stream ends. */
  predicate Requestable(w: World, r: Request) {
    match r
    case AddTorrent(h, _) => h !in w.fs.torrents && forall id :: id in w.open ==> w.open[id].hash != h
    case Start(id, _, _, _) => id !in w.open
    case End(id, k) => id in w.open && w.open[id] == k
    case _ => true
  }

  /** A sweep uses the time it read when it began; only a spawned task runs. */
  predicate Runnable(w: World, b: Work) {
    match b
    case Sweep(now) => now <= w.fs.clock
    case SweepPause(_, now, _, _, _) => now <= w.fs.clock
    case SweepRemove(_, now, _) => now <= w.fs.clock
    case CleanupWork(k, g) => Cleanup(k, g) in w.tasks
    case PauseWork(h, _, _, _) => Pause(h) in w.tasks
    case ResumeWork(_) => ResumeIdle in w.tasks
    case ExpiredWork(k) => Expired(k) in w.tasks
  }

  predicate Enabled(w: World, e: Event) {
    match e
    case Tick(_) => true
    case Client(r) => Requestable(w, r)
    case Background(b) => Runnable(w, b)
  }

  function Serve(s: State, r: Request): State {
    match r
    case AddTorrent(h, n) => Register(s, h, n)
    case RemoveTorrent(h) => Unregister(s, h)
    case Start(_, k, a, b) => StreamStart(s, k, a, b)
    case End(_, k) => StreamEnd(s, k)
    case RefreshLease(k, a, b) => Refresh(s, k, a, b)
    case RefreshExistingLease(k, a, b) => RefreshExisting(s, k, a, b)
    case Activate(k, ok) => ActivateMultifile(s, k.hash, k.idx, ok)
    case EndLease(k) => EndHls(s, k)
    case Resolve(h, ok) => ResolveMetadata(s, h, ok)
    case SetSeeding(b) => s.(seeding := b)
  }

  function Perform(s: State, b: Work): (r: State)
    ensures r == s.(torrents := r.torrents, leases := r.leases, selections := r.selections,
                    activeFile := r.activeFile, departed := r.departed)
  {
    match b
    case Sweep(now) => DropExpired(s, now)
    case SweepPause(h, now, r, m, ok) => RunPause(s, h, now, r, m, ok)
    case SweepRemove(h, now, r) => RemoveInactive(s, h, now, r)
    case CleanupWork(k, g) => RunCleanup(s, k, g)
    case PauseWork(h, r, m, ok) => RunPause(s, h, s.clock, r, m, ok)
    case ResumeWork(resumed) => RunResumeIdle(s, resumed)
    case ExpiredWork(k) => RunExpired(s, k)
  }

  /** The tasks a request spawns. */
  function Spawned(s: State, r: Request): seq<Task> {
    match r
    case End(_, k) => StreamEndTasks(StreamEnd(s, k), k)
    case EndLease(k) => EndHlsTasks(s, k)
    case SetSeeding(b) => if b then [ResumeIdle] else []
    case _ => []
  }

  function ExpiredTasks(keys: set<FileKey>): set<Task> {
    set k | k in keys :: Expired(k)
  }

  /** The pending tasks once the work is done. */
  function TasksAfter(w: World, b: Work): multiset<Task> {
    match b
    case Sweep(now) => w.tasks + multiset(ExpiredTasks(ExpiredKeys(w.fs, now)))
    case CleanupWork(k, g) => w.tasks - multiset{Cleanup(k, g)}
    case PauseWork(h, _, _, _) => w.tasks - multiset{Pause(h)}
    case ResumeWork(_) => w.tasks - multiset{ResumeIdle}
    case ExpiredWork(k) => w.tasks - multiset{Expired(k)}
    case _ => w.tasks
  }

  function OpenAfter(open: map<nat, FileKey>, r: Request): map<nat, FileKey> {
    match r
    case Start(id, k, _, _) => open[id := k]
    case End(id, _) => open - {id}
    case _ => open
  }

  function Step(w: World, e: Event): World
    requires Enabled(w, e)
  {
    match e
    case Tick(d) => w.(fs := w.fs.(clock := w.fs.clock + d))
    case Client(r) =>
      World(Serve(w.fs, r), w.tasks + multiset(Spawned(w.fs, r)), OpenAfter(w.open, r))
    case Background(b) => World(Perform(w.fs, b), TasksAfter(w, b), w.open)
  }

  predicate Legal(w: World, es: seq<Event>)
    decreases |es|
  {
    es == [] || (Enabled(w, es[0]) && Legal(Step(w, es[0]), es[1..]))
  }

  /** The world after a run; every prefix of a run is a run, so what holds after
      every run holds in every reachable state. */
  function After(w: World, es: seq<Event>): World
    requires Legal(w, es)
    decreases |es|
  {
    if es == [] then w else After(Step(w, es[0]), es[1..])
  }

  lemma {:induction false} RunsCompose(w: World, es: seq<Event>, fs: seq<Event>)
    requires Legal(w, es) && Legal(After(w, es), fs)
    ensures Legal(w, es + fs) && After(w, es + fs) == After(After(w, es), fs)
    decreases |es|
  {
    if es == [] {
      assert es + fs == fs;
    } else {
      assert (es + fs)[0] == es[0] && (es + fs)[1..] == es[1..] + fs;
      var next := Step(w, es[0]);
      assert Legal(next, es[1..]) && After(w, es) == After(next, es[1..]);
      RunsCompose(next, es[1..], fs);
    }
  }

  lemma TwoSteps(w: World, a: Event, b: Event)
    requires Enabled(w, a) && Enabled(Step(w, a), b)
    ensures Legal(w, [a, b]) && After(w, [a, b]) == Step(Step(w, a), b)
  {
    OneStep(Step(w, a), b);
    assert [a, b][0] == a && [a, b][1..] == [b];
  }

  lemma OneStep(w: World, e: Event)
    requires Enabled(w, e)
    ensures Legal(w, [e]) && After(w, [e]) == Step(w, e)
  {
    var next := Step(w, e);
    assert Legal(next, []) && After(next, []) == next;
    assert [e][0] == e && [e][1..] == [];
  }

  // ------------------------------------------------------- stream accounting

  function OpenOn(open: map<nat, FileKey>, h: Hash): set<nat> {
    set id | id in open && open[id].hash == h
  }

  function OpenOf(open: map<nat, FileKey>, k: FileKey): set<nat> {
    set id | id in open && open[id] == k
  }

  ghost predicate HashAccounted(s: State, open: map<nat, FileKey>, h: Hash) {
    && CountOf(s.streams, h) == |OpenOn(open, h)|
    && (h in s.streams ==> s.streams[h] > 0)
  }

  ghost predicate FileAccounted(s: State, open: map<nat, FileKey>, k: FileKey) {
    && CountOf(s.fileStreams, k) <= |OpenOf(open, k)|
    && (k in s.fileStreams ==> s.fileStreams[k] > 0)
    && (k.hash in s.torrents && !Multi(s, k.hash) ==>
          CountOf(s.fileStreams, k) == |OpenOf(open, k)|)
  }

  ghost predicate Accounted(w: World) {
    && (forall h :: HashAccounted(w.fs, w.open, h))
    && (forall k :: FileAccounted(w.fs, w.open, k))
  }

  lemma OpenOnStart(open: map<nat, FileKey>, id: nat, k: FileKey, h: Hash)
    requires id !in open
    ensures |OpenOn(open[id := k], h)| == |OpenOn(open, h)| + (if h == k.hash then 1 else 0)
  {
    assert OpenOn(open[id := k], h) ==
      OpenOn(open, h) + (if h == k.hash then {id} else {});
  }

  lemma OpenOfStart(open: map<nat, FileKey>, id: nat, k: FileKey, j: FileKey)
    requires id !in open
    ensures |OpenOf(open[id := k], j)| == |OpenOf(open, j)| + (if j == k then 1 else 0)
  {
    assert OpenOf(open[id := k], j) == OpenOf(open, j) + (if j == k then {id} else {});
  }

  lemma HashAccountedServe(w: World, r: Request, h: Hash)
    requires Requestable(w, r) && HashAccounted(w.fs, w.open, h)
    ensures HashAccounted(Serve(w.fs, r), OpenAfter(w.open, r), h)
  {
    match r
    case Start(id, k, _, _) =>
      OpenOnStart(w.open, id, k, h);
    case End(id, k) =>
      var fewer := w.open - {id};
      assert w.open == fewer[id := k];
      OpenOnStart(fewer, id, k, h);
    case _ =>
      assert Serve(w.fs, r).streams == w.fs.streams;
  }

  lemma FileAccountedStart(w: World, r: Request, k: FileKey)
    requires r.Start? && Requestable(w, r) && FileAccounted(w.fs, w.open, k)
    ensures FileAccounted(Serve(w.fs, r), OpenAfter(w.open, r), k)
  {
    OpenOfStart(w.open, r.id, r.key, k);
  }

  lemma FileAccountedEnd(w: World, r: Request, k: FileKey)
    requires r.End? && Requestable(w, r) && FileAccounted(w.fs, w.open, k)
    ensures FileAccounted(Serve(w.fs, r), OpenAfter(w.open, r), k)
  {
    var fewer := w.open - {r.id};
    assert w.open == fewer[r.id := r.key];
    OpenOfStart(fewer, r.id, r.key, k);
  }

  lemma FileAccountedAdd(w: World, r: Request, k: FileKey)
    requires r.AddTorrent? && Requestable(w, r) && FileAccounted(w.fs, w.open, k)
    ensures FileAccounted(Serve(w.fs, r), OpenAfter(w.open, r), k)
  {
    if k.hash == r.hash {
      assert OpenOf(w.open, k) == {};
    }
  }

  lemma FileAccountedRefresh(w: World, r: Request, k: FileKey)
    requires r.RefreshLease? || r.RefreshExistingLease?
    requires Requestable(w, r) && FileAccounted(w.fs, w.open, k)
    ensures FileAccounted(Serve(w.fs, r), OpenAfter(w.open, r), k)
  {
  }

  lemma FileAccountedServe(w: World, r: Request, k: FileKey)
    requires Requestable(w, r) && FileAccounted(w.fs, w.open, k)
    ensures FileAccounted(Serve(w.fs, r), OpenAfter(w.open, r), k)
  {
    match r
    case Start(_, _, _, _) => FileAccountedStart(w, r, k);
    case End(_, _) => FileAccountedEnd(w, r, k);
    case AddTorrent(_, _) => FileAccountedAdd(w, r, k);
    case RefreshLease(_, _, _) => FileAccountedRefresh(w, r, k);
    case RefreshExistingLease(_, _, _) => FileAccountedRefresh(w, r, k);
    case Activate(_, _) =>
    case Resolve(_, _) =>
    case RemoveTorrent(_) =>
    case EndLease(_) =>
    case SetSeeding(_) =>
  }

  lemma FileAccountedPerform(s: State, open: map<nat, FileKey>, b: Work, k: FileKey)
    requires FileAccounted(s, open, k)
    ensures FileAccounted(Perform(s, b), open, k)
  {
    var r := Perform(s, b);
    assert k.hash in r.torrents ==>
      k.hash in s.torrents && r.torrents[k.hash].fileCount == s.torrents[k.hash].fileCount;
  }

  lemma AccountedStep(w: World, e: Event)
    requires Enabled(w, e) && Accounted(w)
    ensures Accounted(Step(w, e))
  {
    var w' := Step(w, e);
    forall h ensures HashAccounted(w'.fs, w'.open, h) {
      assert HashAccounted(w.fs, w.open, h);
      if e.Client? { HashAccountedServe(w, e.request, h); }
    }
    forall k ensures FileAccounted(w'.fs, w'.open, k) {
      assert FileAccounted(w.fs, w.open, k);
      match e
      case Tick(_) =>
      case Client(r) => FileAccountedServe(w, r, k);
      case Background(b) => FileAccountedPerform(w.fs, w.open, b, k);
    }
  }

  lemma StartAccounted()
    ensures Accounted(START)
  {
    forall h ensures HashAccounted(START.fs, START.open, h) {
      assert OpenOn(START.open, h) == {};
    }
    forall k ensures FileAccounted(START.fs, START.open, k) {
      assert OpenOf(START.open, k) == {};
    }
  }

  /** Over every run: the per-torrent count is the number of open streams, a
      per-file count never exceeds the open streams of that file and equals it for
      a torrent with at most one file, and no zero is ever stored. */
  lemma {:induction false} StreamsAccounted(w: World, es: seq<Event>)
    requires Accounted(w) && Legal(w, es)
    ensures Accounted(After(w, es))
    decreases |es|
  {
    if es != [] {
      AccountedStep(w, es[0]);
      StreamsAccounted(Step(w, es[0]), es[1..]);
    }
  }
}
