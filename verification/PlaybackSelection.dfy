/** One selected file per multi-file torrent, over every run. */
module PlaybackSelection {
  import opened Common
  import opened Playback
  import opened PlaybackRuns

  /** The last plan sent to the handle names exactly the current selection. */
  predicate PlanFollows(s: State, h: Hash)
    requires h in s.torrents
  {
    && s.torrents[h].plan.activeFile == SelectedFile(s, h)
    && (h in s.selections ==> s.torrents[h].plan.generation == s.selections[h].generation)
  }

  ghost predicate OneSelected(s: State, h: Hash) {
    Multi(s, h) ==>
      && (forall k :: k in s.fileStreams && k.hash == h ==> Selects(s, k))
      && (forall k :: k in s.leases && k.hash == h && Live(s, k) ==> Selects(s, k))
      && PlanFollows(s, h)
  }

  predicate NoZero(s: State, k: FileKey) {
    k in s.fileStreams ==> s.fileStreams[k] > 0
  }

  ghost predicate AllOneSelected(s: State) {
    forall h :: OneSelected(s, h)
  }

  /** The key expired, the sweep took it, and before the sweep came to it the lease
      was granted again. */
  predicate Regranted(s: State, k: FileKey) {
    Multi(s, k.hash) && Live(s, k) && CountOf(s.fileStreams, k) == 0
  }

  /** A selection or a live lease of a torrent that is not registered. */
  predicate LeftOver(s: State, h: Hash) {
    h in s.selections || exists k :: k in s.leases && k.hash == h && Live(s, k)
  }

  /** No lease is taken for expired that was granted again, and no torrent of several files is
      added while something of it is left over. */
  predicate Benign(w: World, e: Event) {
    && (e.Background? && e.work.ExpiredWork? ==> !Regranted(w.fs, e.work.key))
    && (e.Client? && e.request.AddTorrent? && e.request.fileCount > 1 ==> !LeftOver(w.fs, e.request.hash))
  }

  predicate BenignRun(w: World, es: seq<Event>)
    requires Legal(w, es)
    decreases |es|
  {
    es == [] || (Benign(w, es[0]) && BenignRun(Step(w, es[0]), es[1..]))
  }

  lemma ActivateSelects(s: State, h: Hash, f: nat, ok: bool, g: Hash)
    requires g != h ==> OneSelected(s, g)
    ensures OneSelected(ActivateMultifile(s, h, f, ok), g)
  {
  }

  lemma ActivateFileSelects(s: State, h: Hash, f: nat, a: bool, b: bool, g: Hash)
    requires g != h ==> OneSelected(s, g)
    ensures OneSelected(ActivateFile(s, h, f, a, b), g)
    ensures Multi(s, h) ==> Selects(ActivateFile(s, h, f, a, b), FileKey(h, f))
  {
    var s1 := if h in s.torrents then WithTorrent(s, h, Resumed(s.torrents[h], a)) else s;
    var s2 := s1.(activeFile := Some(FileKey(h, f)));
    if g != h {
      assert OneSelected(s2, g);
    }
    ActivateSelects(s2, h, f, b, g);
  }

  lemma SettleSelects(s: State, k: FileKey, fallback: nat, h: Hash)
    requires h != k.hash ==> OneSelected(s, h)
    requires h == k.hash && Multi(s, h) ==>
      && (forall j :: j in s.fileStreams && j.hash == h ==> Selects(s, j))
      && (forall j :: j in s.leases && j.hash == h && Live(s, j) ==> Selects(s, j))
    ensures OneSelected(Settle(s, k, fallback), h)
  {
  }

  lemma ExpiredSelects(s: State, k: FileKey, h: Hash)
    requires OneSelected(s, h) && NoZero(s, k)
    requires !Regranted(s, k)
    ensures OneSelected(RunExpired(s, k), h)
  {
    if CountOf(s.fileStreams, k) == 0 {
      var s1 := ClearSelection(s, k);
      if h == k.hash && Multi(s, h) && Selects(s, k) {
        assert forall j :: j in s.leases && j.hash == h && Live(s1, j) ==> j == k;
      }
      SettleSelects(s1, k, 0, h);
    }
  }

  lemma ExpiredLosesRegranted(s: State, k: FileKey)
    requires Regranted(s, k)
    ensures Live(RunExpired(s, k), k) && !OneSelected(RunExpired(s, k), k.hash)
  {
    var s1 := ClearSelection(s, k);
    assert !Selects(s1, k);
    var r := Settle(s1, k, 0);
    assert k in r.leases && Live(r, k) && !Selects(r, k) && Multi(r, k.hash);
  }

  /** The sweep keeps the invariant exactly when it does not meet a lease that was
      granted again after the sweep collected its key. */
  lemma ExpiryExactly(s: State, k: FileKey)
    requires OneSelected(s, k.hash) && NoZero(s, k)
    ensures OneSelected(RunExpired(s, k), k.hash) <==> !Regranted(s, k)
  {
    if Regranted(s, k) {
      ExpiredLosesRegranted(s, k);
    } else {
      ExpiredSelects(s, k, k.hash);
    }
  }

  lemma DropExpiredSelects(s: State, now: nat, h: Hash)
    requires OneSelected(s, h)
    ensures OneSelected(DropExpired(s, now), h)
  {
  }

  lemma CleanupSelects(s: State, k: FileKey, g: Option<nat>, h: Hash)
    requires OneSelected(s, h) && NoZero(s, k)
    ensures OneSelected(RunCleanup(s, k, g), h)
  {
    if CountOf(s.fileStreams, k) == 0 && !Live(s, k)
       && !(Selects(s, k) && g != Some(s.selections[k.hash].generation)) {
      var s1 := ClearSelection(s, k);
      SettleSelects(s1, k, if g.Some? then g.value else 0, h);
    }
  }

  lemma StartSelects(s: State, k: FileKey, a: bool, b: bool, h: Hash)
    requires OneSelected(s, h)
    ensures OneSelected(StreamStart(s, k, a, b), h)
  {
    ActivateFileSelects(s, k.hash, k.idx, a, b, h);
    var s1 := ActivateFile(s, k.hash, k.idx, a, b);
    assert StreamStart(s, k, a, b) ==
      s1.(streams := Increment(s1.streams, k.hash), fileStreams := Increment(s1.fileStreams, k));
  }

  lemma RefreshSelects(s: State, k: FileKey, a: bool, b: bool, h: Hash)
    requires OneSelected(s, h)
    ensures OneSelected(Refresh(s, k, a, b), h)
  {
    var s1 := s.(leases := s.leases[k := s.clock + LEASE_TTL]);
    if h != k.hash {
      assert OneSelected(s1, h);
    }
    if k.hash in s.torrents {
      ActivateFileSelects(s1, k.hash, k.idx, a, b, h);
      assert Refresh(s, k, a, b) == ActivateFile(s1, k.hash, k.idx, a, b);
    } else {
      assert Refresh(s, k, a, b) == s1;
    }
  }

  /** A registration keeps the invariant exactly when it finds nothing left over, since it
      begins with an empty plan. */
  lemma AddExactly(w: World, r: Request)
    requires r.AddTorrent? && Requestable(w, r) && Accounted(w)
    ensures OneSelected(Serve(w.fs, r), r.hash) <==> r.fileCount <= 1 || !LeftOver(w.fs, r.hash)
  {
    forall k: FileKey | k.hash == r.hash ensures k !in w.fs.fileStreams {
      assert FileAccounted(w.fs, w.open, k);
      assert OpenOf(w.open, k) == {};
    }
    var s := Serve(w.fs, r);
    assert forall k :: Live(s, k) == Live(w.fs, k);
  }

  lemma AddSelects(w: World, r: Request, h: Hash)
    requires r.AddTorrent? && Requestable(w, r) && Accounted(w) && OneSelected(w.fs, h)
    requires Benign(w, Client(r))
    ensures OneSelected(Serve(w.fs, r), h)
  {
    if h == r.hash {
      AddExactly(w, r);
    }
  }

  lemma ServeSelects(w: World, r: Request, h: Hash)
    requires Requestable(w, r) && Benign(w, Client(r)) && Accounted(w) && OneSelected(w.fs, h)
    ensures OneSelected(Serve(w.fs, r), h)
  {
    match r
    case AddTorrent(_, _) => AddSelects(w, r, h);
    case Start(_, k, a, b) => StartSelects(w.fs, k, a, b, h);
    case RefreshLease(k, a, b) => RefreshSelects(w.fs, k, a, b, h);
    case RefreshExistingLease(k, a, b) => RefreshSelects(w.fs, k, a, b, h);
    case Activate(k, ok) => ActivateSelects(w.fs, k.hash, k.idx, ok, h);
    case RemoveTorrent(_) =>
    case End(_, _) =>
    case EndLease(_) =>
    case Resolve(_, _) =>
    case SetSeeding(_) =>
  }

  lemma PerformSelects(s: State, b: Work, h: Hash)
    requires OneSelected(s, h) && forall k :: NoZero(s, k)
    requires b.ExpiredWork? ==> !Regranted(s, b.key)
    ensures OneSelected(Perform(s, b), h)
  {
    match b
    case CleanupWork(k, g) => CleanupSelects(s, k, g, h);
    case ExpiredWork(k) => ExpiredSelects(s, k, h);
    case Sweep(now) => DropExpiredSelects(s, now, h);
    case SweepPause(_, _, _, _, _) =>
    case SweepRemove(_, _, _) =>
    case PauseWork(_, _, _, _) =>
    case ResumeWork(_) =>
  }

  lemma OneSelectedStep(w: World, e: Event, h: Hash)
    requires Enabled(w, e) && Benign(w, e) && Accounted(w) && OneSelected(w.fs, h)
    ensures OneSelected(Step(w, e).fs, h)
  {
    match e
    case Tick(_) =>
    case Client(r) => ServeSelects(w, r, h);
    case Background(b) =>
      assert forall k :: FileAccounted(w.fs, w.open, k) ==> NoZero(w.fs, k);
      PerformSelects(w.fs, b, h);
  }

  /** The invariant holds in every state the run passes through. */
  ghost predicate SelectedThroughout(w: World, es: seq<Event>)
    requires Legal(w, es)
    decreases |es|
  {
    AllOneSelected(w.fs) && (es == [] || SelectedThroughout(Step(w, es[0]), es[1..]))
  }

  /** Throughout a run every live lease and every per-file stream entry of a registered
      multi-file torrent names the selected file, and the last priority plan names exactly
      that selection, or none when there is none: if and only if the sweep never meets a
      lease that was granted again, and no registration of several files meets a selection or
      a live lease left over. */
  lemma {:induction false} OneSelectedExactly(w: World, es: seq<Event>)
    requires Accounted(w) && AllOneSelected(w.fs) && Legal(w, es)
    ensures SelectedThroughout(w, es) <==> BenignRun(w, es)
    decreases |es|
  {
    if es != [] {
      var next := Step(w, es[0]);
      if Benign(w, es[0]) {
        forall h ensures OneSelected(next.fs, h) {
          OneSelectedStep(w, es[0], h);
        }
        AccountedStep(w, es[0]);
        OneSelectedExactly(next, es[1..]);
      } else {
        HarmStep(w, es[0]);
      }
    }
  }

  lemma HarmStep(w: World, e: Event)
    requires Enabled(w, e) && !Benign(w, e) && Accounted(w)
    ensures !AllOneSelected(Step(w, e).fs)
  {
    if e.Client? {
      AddExactly(w, e.request);
      assert !OneSelected(Step(w, e).fs, e.request.hash);
    } else {
      ExpiredLosesRegranted(w.fs, e.work.key);
      assert !OneSelected(Step(w, e).fs, e.work.key.hash);
    }
  }

  /** From the start, every run in which the sweep meets no regranted lease and registrations
      meet nothing left over ends with one selected file per torrent. */
  lemma OneSelectedFile(es: seq<Event>)
    requires Legal(START, es) && BenignRun(START, es)
    ensures AllOneSelected(After(START, es).fs)
  {
    StartAccounted();
    OneSelectedExactly(START, es);
    ThroughoutAtEnd(START, es);
  }

  lemma {:induction false} ThroughoutAtEnd(w: World, es: seq<Event>)
    requires Legal(w, es) && SelectedThroughout(w, es)
    ensures AllOneSelected(After(w, es).fs)
    decreases |es|
  {
    if es != [] {
      ThroughoutAtEnd(Step(w, es[0]), es[1..]);
    }
  }

  /** A sweep that runs from collection to the last key without interruption never
      meets a regranted lease, so it keeps the invariant for every torrent. */
  lemma {:induction false} UninterruptedSweep(s: State, keys: seq<FileKey>, h: Hash)
    requires OneSelected(s, h)
    requires forall k :: k in keys ==> k !in s.leases && NoZero(s, k)
    ensures OneSelected(ExpireAll(s, keys), h)
    decreases |keys|
  {
    if keys != [] {
      var next := RunExpired(s, keys[0]);
      ExpiredSelects(s, keys[0], h);
      forall k | k in keys[1..] ensures k !in next.leases && NoZero(next, k) {
        assert k in keys && NoZero(s, k);
      }
      UninterruptedSweep(next, keys[1..], h);
    }
  }

  const RACED: FileKey := FileKey("a", 1)

  const GRANTED: seq<Event> := [Client(AddTorrent("a", 2)), Client(RefreshLease(RACED, true, true))]

  /** The lease expires and the sweep collects its key. */
  const COLLECTED: seq<Event> := [Tick(300), Background(Sweep(300))]

  /** The player refreshes the lease and only then does the sweep reach the key. */
  const OVERTAKEN: seq<Event> := [
    Client(RefreshLease(RACED, true, true)), Background(ExpiredWork(RACED))]

  lemma GrantedWorld()
    ensures Legal(START, GRANTED)
    ensures var s := After(START, GRANTED).fs;
      Multi(s, "a") && s.fileStreams == map[] && s.leases == map[RACED := 300] && s.clock == 0
  {
    TwoSteps(START, GRANTED[0], GRANTED[1]);
  }

  lemma CollectedWorld(w: World)
    requires w.fs.leases == map[RACED := 300] && w.fs.clock == 0
    ensures Legal(w, COLLECTED)
    ensures var r := After(w, COLLECTED);
      r.fs.torrents == w.fs.torrents && r.fs.fileStreams == w.fs.fileStreams && Expired(RACED) in r.tasks
  {
    var w1 := Step(w, COLLECTED[0]);
    assert RACED in ExpiredKeys(w1.fs, 300);
    assert Expired(RACED) in ExpiredTasks(ExpiredKeys(w1.fs, 300));
    TwoSteps(w, COLLECTED[0], COLLECTED[1]);
  }

  lemma OvertakenWorld(w: World)
    requires Multi(w.fs, "a") && w.fs.fileStreams == map[] && Expired(RACED) in w.tasks
    ensures Legal(w, OVERTAKEN)
    ensures Live(After(w, OVERTAKEN).fs, RACED) && !OneSelected(After(w, OVERTAKEN).fs, "a")
  {
    var s1 := Refresh(w.fs, RACED, true, true);
    assert Regranted(s1, RACED);
    ExpiredLosesRegranted(s1, RACED);
    TwoSteps(w, OVERTAKEN[0], OVERTAKEN[1]);
  }

  /** The race happens in a legal run from the empty state, and it leaves a live
      lease without a selection: there the invariant fails. */
  lemma RaceLosesSelection()
    ensures Legal(START, GRANTED + COLLECTED + OVERTAKEN)
    ensures Live(After(START, GRANTED + COLLECTED + OVERTAKEN).fs, RACED)
    ensures !OneSelected(After(START, GRANTED + COLLECTED + OVERTAKEN).fs, "a")
  {
    GrantedWorld();
    CollectedWorld(After(START, GRANTED));
    RunsCompose(START, GRANTED, COLLECTED);
    OvertakenWorld(After(START, GRANTED + COLLECTED));
    RunsCompose(START, GRANTED + COLLECTED, OVERTAKEN);
  }

  /** A lease may come before its torrent, which then begins with a live lease and no
      selection. */
  lemma EarlyLeaseUnselected(k: FileKey, n: nat)
    requires n > 1
    ensures var es := [Client(RefreshLease(k, true, true)), Client(AddTorrent(k.hash, n))];
      Legal(START, es) && Live(After(START, es).fs, k) && !OneSelected(After(START, es).fs, k.hash)
  {
    var first, second := Client(RefreshLease(k, true, true)), Client(AddTorrent(k.hash, n));
    TwoSteps(START, first, second);
    var w := Step(START, first);
    StartAccounted();
    AccountedStep(START, first);
    assert k in w.fs.leases && Live(w.fs, k);
    AddExactly(w, second.request);
  }
}
