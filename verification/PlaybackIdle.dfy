/** Idle pausing, over every run. */
module PlaybackIdle {
  import opened Common
  import opened Playback
  import opened PlaybackRuns

  /** The flag says whether this code last paused or last resumed the torrent. */
  predicate FlagHonest(s: State, h: Hash) {
    h in s.torrents ==> s.torrents[h].idlePaused == s.torrents[h].paused
  }

  ghost predicate FlagsHonest(s: State) {
    forall h :: FlagHonest(s, h)
  }

  lemma ActivateFlag(s: State, h: Hash, f: nat, a: bool, b: bool, g: Hash)
    requires FlagHonest(s, g)
    ensures FlagHonest(ActivateMultifile(s, h, f, b), g)
    ensures FlagHonest(ActivateFile(s, h, f, a, b), g)
  {
  }

  lemma SettleFlag(s: State, k: FileKey, fallback: nat, g: Hash)
    requires FlagHonest(s, g)
    ensures FlagHonest(Settle(ClearSelection(s, k), k, fallback), g)
  {
    assert FlagHonest(Refocus(ClearSelection(s, k), k), g);
  }

  lemma StartFlag(s: State, k: FileKey, a: bool, b: bool, g: Hash)
    requires FlagHonest(s, g)
    ensures FlagHonest(StreamStart(s, k, a, b), g)
  {
    ActivateFlag(s, k.hash, k.idx, a, b, g);
  }

  lemma RefreshFlag(s: State, k: FileKey, a: bool, b: bool, g: Hash)
    requires FlagHonest(s, g)
    ensures FlagHonest(Refresh(s, k, a, b), g)
  {
    var s1 := s.(leases := s.leases[k := s.clock + LEASE_TTL]);
    if k.hash in s.torrents {
      ActivateFlag(s1, k.hash, k.idx, a, b, g);
      assert Refresh(s, k, a, b) == ActivateFile(s1, k.hash, k.idx, a, b);
    } else {
      assert Refresh(s, k, a, b) == s1;
    }
  }

  /** The request registers a torrent again that left while this code had paused it. */
  predicate ReturnsPaused(s: State, r: Request) {
    r.AddTorrent? && r.hash in s.departed && s.departed[r.hash]
  }

  lemma ServeFlag(s: State, r: Request, h: Hash)
    requires FlagHonest(s, h) && !ReturnsPaused(s, r)
    ensures FlagHonest(Serve(s, r), h)
  {
    match r
    case Start(_, k, a, b) => StartFlag(s, k, a, b, h);
    case RefreshLease(k, a, b) => RefreshFlag(s, k, a, b, h);
    case RefreshExistingLease(k, a, b) => RefreshFlag(s, k, a, b, h);
    case Activate(k, ok) => ActivateFlag(s, k.hash, k.idx, ok, ok, h);
    case AddTorrent(_, _) =>
    case RemoveTorrent(_) =>
    case Resolve(_, _) =>
    case End(_, _) =>
    case EndLease(_) =>
    case SetSeeding(_) =>
  }

  lemma ReturnForgets(s: State, r: Request)
    requires ReturnsPaused(s, r)
    ensures !FlagHonest(Serve(s, r), r.hash)
  {
  }

  lemma PerformFlag(s: State, b: Work, h: Hash)
    requires FlagHonest(s, h)
    ensures FlagHonest(Perform(s, b), h)
  {
    match b
    case CleanupWork(k, g) => SettleFlag(s, k, if g.Some? then g.value else 0, h);
    case ExpiredWork(k) => SettleFlag(s, k, 0, h);
    case SweepPause(_, _, _, _, _) =>
    case SweepRemove(_, _, _) =>
    case PauseWork(_, _, _, _) =>
    case ResumeWork(_) =>
    case Sweep(_) =>
  }

  ghost predicate HonestThroughout(w: World, es: seq<Event>)
    requires Legal(w, es)
    decreases |es|
  {
    FlagsHonest(w.fs) && (es == [] || HonestThroughout(Step(w, es[0]), es[1..]))
  }

  predicate NoneReturnsPaused(w: World, es: seq<Event>)
    requires Legal(w, es)
    decreases |es|
  {
    es == [] ||
    ((es[0].Client? ==> !ReturnsPaused(w.fs, es[0].request)) && NoneReturnsPaused(Step(w, es[0]), es[1..]))
  }

  lemma FlagStep(w: World, e: Event, h: Hash)
    requires Enabled(w, e) && FlagHonest(w.fs, h) && (e.Client? ==> !ReturnsPaused(w.fs, e.request))
    ensures FlagHonest(Step(w, e).fs, h)
  {
    match e
    case Tick(_) =>
    case Client(r) => ServeFlag(w.fs, r, h);
    case Background(b) => PerformFlag(w.fs, b, h);
  }

  /** Whatever pause and resume calls fail, throughout a run the flag says whether this code
      last paused or last resumed the torrent: if and only if no torrent comes back that left
      the registry while paused, since a new engine does not know of the pause. */
  lemma {:induction false} FlagsHonestExactly(w: World, es: seq<Event>)
    requires FlagsHonest(w.fs) && Legal(w, es)
    ensures HonestThroughout(w, es) <==> NoneReturnsPaused(w, es)
    decreases |es|
  {
    if es != [] {
      var next := Step(w, es[0]);
      if es[0].Client? && ReturnsPaused(w.fs, es[0].request) {
        ReturnForgets(w.fs, es[0].request);
        assert !FlagsHonest(next.fs);
      } else {
        forall h ensures FlagHonest(next.fs, h) {
          assert FlagHonest(w.fs, h);
          FlagStep(w, es[0], h);
        }
        FlagsHonestExactly(next, es[1..]);
      }
    }
  }

  /** A torrent can be removed while paused, by the sweep alone. */
  const PAUSED: seq<Event> := [Client(AddTorrent("a", 1)), Client(SetSeeding(false))]

  const REMOVED: seq<Event> := [
    Background(SweepPause("a", 0, false, true, true)), Background(SweepRemove("a", 0, false))]

  lemma PausedWorld()
    ensures Legal(START, PAUSED)
    ensures var s := After(START, PAUSED).fs;
      s == INITIAL.(torrents := map["a" := Torrent(1, false, false, Plan(None, 0))], seeding := false)
    ensures After(START, PAUSED).open == map[]
  {
    TwoSteps(START, PAUSED[0], PAUSED[1]);
  }

  lemma RemovedWorld(w: World)
    requires w.fs == INITIAL.(torrents := map["a" := Torrent(1, false, false, Plan(None, 0))], seeding := false)
    ensures Legal(w, REMOVED) && After(w, REMOVED).open == w.open
    ensures After(w, REMOVED).fs == INITIAL.(seeding := false, departed := map["a" := true])
  {
    var w1 := Step(w, REMOVED[0]);
    assert w1.fs.torrents == map["a" := Torrent(1, true, true, Plan(None, 0))];
    TwoSteps(w, REMOVED[0], REMOVED[1]);
  }

  const RETURNED: seq<Event> := [Client(AddTorrent("a", 1))]

  lemma ReturnedWorld(w: World)
    requires w.open == map[] && w.fs == INITIAL.(seeding := false, departed := map["a" := true])
    ensures Legal(w, RETURNED)
    ensures var s := After(w, RETURNED).fs;
      "a" in s.torrents && !s.torrents["a"].idlePaused && s.torrents["a"].paused && !FlagHonest(s, "a")
  {
    var end := Step(w, RETURNED[0]);
    OneStep(w, RETURNED[0]);
    assert end.fs.torrents["a"].paused && !end.fs.torrents["a"].idlePaused;
  }

  /** The exception is real: added, paused by the sweep, removed by the sweep and added again,
      a torrent is paused and its flag says it is not. */
  lemma ReturnedPaused()
    ensures var es := PAUSED + REMOVED + RETURNED;
      && Legal(START, es) && !FlagsHonest(After(START, es).fs) && "a" in After(START, es).fs.torrents
      && var t := After(START, es).fs.torrents["a"];
      !t.idlePaused && t.paused
  {
    PausedWorld();
    RemovedWorld(After(START, PAUSED));
    RunsCompose(START, PAUSED, REMOVED);
    ReturnedWorld(After(START, PAUSED + REMOVED));
    RunsCompose(START, PAUSED + REMOVED, RETURNED);
  }

  /** An idle-paused torrent has nothing playing on it. */
  ghost predicate IdleQuiet(s: State, h: Hash) {
    h in s.torrents && s.torrents[h].idlePaused ==> !ActiveAt(s, h, s.clock)
  }

  predicate Asleep(s: State, h: Hash) {
    h in s.torrents && s.torrents[h].idlePaused
  }

  /** Activity on an idle-paused torrent resumes it: one of the resume calls made for it
      succeeds. A torrent with one file gets one call, others get two. */
  predicate Wakes(s: State, r: Request, h: Hash) {
    match r
    case Start(_, k, a, b) => k.hash == h && Asleep(s, h) ==> a || (Multi(s, h) && b)
    case RefreshLease(k, a, b) => k.hash == h && Asleep(s, h) ==> a || (Multi(s, h) && b)
    case Activate(k, ok) => k.hash == h && Asleep(s, h) && Multi(s, h) ==> ok
    case _ => true
  }

  predicate WakesThroughout(w: World, es: seq<Event>, h: Hash)
    requires Legal(w, es)
    decreases |es|
  {
    es == [] ||
    ((es[0].Client? ==> Wakes(w.fs, es[0].request, h)) && WakesThroughout(Step(w, es[0]), es[1..], h))
  }

  ghost predicate QuietThroughout(w: World, es: seq<Event>, h: Hash)
    requires Legal(w, es)
    decreases |es|
  {
    IdleQuiet(w.fs, h) && (es == [] || QuietThroughout(Step(w, es[0]), es[1..], h))
  }

  lemma SettleQuiet(s: State, k: FileKey, fallback: nat, g: Hash)
    requires IdleQuiet(s, g)
    ensures IdleQuiet(Settle(ClearSelection(s, k), k, fallback), g)
  {
    assert IdleQuiet(Refocus(ClearSelection(s, k), k), g);
  }

  /** A stream that starts on an idle-paused torrent keeps the property exactly when
      one of the resume calls it makes succeeds; a single-file torrent gets one call. */
  lemma StartWakesExactly(s: State, k: FileKey, a: bool, b: bool)
    requires k.hash in s.torrents && s.torrents[k.hash].idlePaused
    ensures IdleQuiet(StreamStart(s, k, a, b), k.hash) <==> a || (Multi(s, k.hash) && b)
  {
    var r := StreamStart(s, k, a, b);
    assert CountOf(r.streams, k.hash) > 0;
  }

  lemma ActivateWakesExactly(s: State, h: Hash, f: nat, ok: bool)
    requires Asleep(s, h) && Multi(s, h)
    ensures IdleQuiet(ActivateMultifile(s, h, f, ok), h) <==> ok
  {
    assert h in ActivateMultifile(s, h, f, ok).selections;
  }

  lemma RefreshWakesExactly(s: State, k: FileKey, a: bool, b: bool)
    requires Asleep(s, k.hash)
    ensures IdleQuiet(Refresh(s, k, a, b), k.hash) <==> a || (Multi(s, k.hash) && b)
  {
    var s1 := s.(leases := s.leases[k := s.clock + LEASE_TTL]);
    var r := Refresh(s, k, a, b);
    assert r == ActivateFile(s1, k.hash, k.idx, a, b);
    assert k in r.leases && r.leases[k] == s.clock + LEASE_TTL && r.clock == s.clock;
    assert ActiveAt(r, k.hash, r.clock);
    assert Asleep(r, k.hash) <==> !(a || (Multi(s, k.hash) && b));
  }

  /** A torrent that is awake stays so, and activity elsewhere changes nothing. */
  lemma ActivateElsewhere(s: State, k: FileKey, a: bool, b: bool, h: Hash)
    requires k.hash != h || !Asleep(s, h)
    requires k.hash != h ==> IdleQuiet(s, h)
    ensures IdleQuiet(ActivateFile(s, k.hash, k.idx, a, b), h)
    ensures k.hash == h ==> !Asleep(ActivateFile(s, k.hash, k.idx, a, b), h)
  {
  }

  lemma StartElsewhere(s: State, k: FileKey, a: bool, b: bool, h: Hash)
    requires IdleQuiet(s, h) && (k.hash != h || !Asleep(s, h))
    ensures IdleQuiet(StreamStart(s, k, a, b), h)
  {
    ActivateElsewhere(s, k, a, b, h);
  }

  lemma RefreshElsewhere(s: State, k: FileKey, a: bool, b: bool, h: Hash)
    requires IdleQuiet(s, h) && (k.hash != h || !Asleep(s, h))
    ensures IdleQuiet(Refresh(s, k, a, b), h)
  {
    var s1 := s.(leases := s.leases[k := s.clock + LEASE_TTL]);
    if k.hash in s.torrents {
      if h != k.hash {
        assert IdleQuiet(s1, h);
      }
      ActivateElsewhere(s1, k, a, b, h);
      assert Refresh(s, k, a, b) == ActivateFile(s1, k.hash, k.idx, a, b);
    } else {
      assert Refresh(s, k, a, b) == s1;
    }
  }

  lemma ActivityElsewhere(s: State, r: Request, h: Hash)
    requires IdleQuiet(s, h) && !r.AddTorrent?
    requires r.Start? || r.RefreshLease? || r.RefreshExistingLease? || r.Activate? ==> r.key.hash != h || !Asleep(s, h)
    ensures IdleQuiet(Serve(s, r), h)
  {
    match r
    case Start(_, k, a, b) => StartElsewhere(s, k, a, b, h);
    case RefreshLease(k, a, b) => RefreshElsewhere(s, k, a, b, h);
    case RefreshExistingLease(k, a, b) => RefreshElsewhere(s, k, a, b, h);
    case Activate(k, ok) =>
    case RemoveTorrent(_) =>
    case Resolve(_, _) =>
    case End(_, _) =>
    case EndLease(_) =>
    case SetSeeding(_) =>
  }

  /** A request leaves the torrent consistent exactly when it wakes it where it has to. A
      lease that is only renewed is live, so its torrent is awake already. */
  lemma ServeQuietExactly(s: State, r: Request, h: Hash)
    requires IdleQuiet(s, h) && !r.AddTorrent?
    ensures IdleQuiet(Serve(s, r), h) <==> Wakes(s, r, h)
  {
    if r.Start? && r.key.hash == h && Asleep(s, h) {
      StartWakesExactly(s, r.key, r.firstOk, r.secondOk);
    } else if r.RefreshLease? && r.key.hash == h && Asleep(s, h) {
      RefreshWakesExactly(s, r.key, r.firstOk, r.secondOk);
    } else if r.RefreshExistingLease? && r.key.hash == h && Asleep(s, h) {
      assert !Live(s, r.key);
    } else if r.Activate? && r.key.hash == h && Asleep(s, h) {
      if Multi(s, h) {
        ActivateWakesExactly(s, h, r.key.idx, r.resumeOk);
      }
    } else {
      ActivityElsewhere(s, r, h);
    }
  }

  lemma PauseQuiet(s: State, g: Hash, now: nat, r: bool, m: bool, ok: bool, h: Hash)
    requires IdleQuiet(s, h) && now <= s.clock
    ensures IdleQuiet(RunPause(s, g, now, r, m, ok), h)
  {
    assert ActiveAt(s, h, s.clock) ==> ActiveAt(s, h, now);
  }

  lemma PerformQuiet(w: World, b: Work, h: Hash)
    requires Runnable(w, b) && IdleQuiet(w.fs, h)
    ensures IdleQuiet(Perform(w.fs, b), h)
  {
    match b
    case CleanupWork(k, g) => SettleQuiet(w.fs, k, if g.Some? then g.value else 0, h);
    case ExpiredWork(k) => SettleQuiet(w.fs, k, 0, h);
    case SweepPause(g, now, r, m, ok) => PauseQuiet(w.fs, g, now, r, m, ok, h);
    case PauseWork(g, r, m, ok) => PauseQuiet(w.fs, g, w.fs.clock, r, m, ok, h);
    case SweepRemove(_, _, _) =>
    case ResumeWork(_) =>
    case Sweep(_) =>
  }

  /** Throughout a run an idle-paused torrent has no counted stream, no live lease and no
      file selection: if and only if every activity on it while it is paused gets one of
      its resume calls through. */
  lemma {:induction false} IdlePausedExactly(w: World, es: seq<Event>, h: Hash)
    requires IdleQuiet(w.fs, h) && Legal(w, es)
    ensures QuietThroughout(w, es, h) <==> WakesThroughout(w, es, h)
    decreases |es|
  {
    if es != [] {
      var next := Step(w, es[0]);
      match es[0] {
        case Tick(_) =>
        case Client(r) => if !r.AddTorrent? { ServeQuietExactly(w.fs, r, h); }
        case Background(b) => PerformQuiet(w, b, h);
      }
      if IdleQuiet(next.fs, h) {
        IdlePausedExactly(next, es[1..], h);
      } else {
        assert !QuietThroughout(next, es[1..], h);
      }
    }
  }

  /** The torrent's resume calls in this request succeed. */
  predicate ResumesSucceed(r: Request, h: Hash) {
    match r
    case Start(_, k, a, b) => k.hash == h ==> a && b
    case RefreshLease(k, a, b) => k.hash == h ==> a && b
    case Activate(k, ok) => k.hash == h ==> ok
    case _ => true
  }

  predicate AllResumesSucceed(es: seq<Event>, h: Hash) {
    forall i :: 0 <= i < |es| && es[i].Client? ==> ResumesSucceed(es[i].request, h)
  }

  lemma {:induction false} ResumedWakes(w: World, es: seq<Event>, h: Hash)
    requires Legal(w, es) && AllResumesSucceed(es, h)
    ensures WakesThroughout(w, es, h)
    decreases |es|
  {
    if es != [] {
      ResumedWakes(Step(w, es[0]), es[1..], h);
    }
  }

  /** In every run from the start in which the torrent's resume calls succeed, an idle-paused
      torrent has nothing playing on it, in every state of the run. */
  lemma IdlePausedIsIdle(es: seq<Event>, h: Hash)
    requires Legal(START, es) && AllResumesSucceed(es, h)
    ensures QuietThroughout(START, es, h)
  {
    ResumedWakes(START, es, h);
    IdlePausedExactly(START, es, h);
  }
}
