/** The playback machine, whose handlers are single steps, refines the machine in which
    drawing a generation and storing a selection are separate. */
module SelectionRefinement {
  import opened Common
  import opened Playback
  import opened PlaybackRuns
  import opened SelectionGenerations

  /** The pending cleanups of one file that captured the same generation. */
  function Pending(cleanups: set<Scheduled>, k: FileKey, captured: Option<nat>): set<Scheduled> {
    set c | c in cleanups && c.key == k && c.captured == captured
  }

  ghost predicate SameCleanups(tasks: multiset<Task>, cleanups: set<Scheduled>) {
    forall k, g :: tasks[Cleanup(k, g)] == |Pending(cleanups, k, g)|
  }

  /** Both machines have drawn as often, hold the same selections, and wait for the same
      cleanups; no activation is half-way. */
  ghost predicate Matches(w: World, m: Machine) {
    && m.counter == w.fs.generation && m.selections == w.fs.selections
    && SameCleanups(w.tasks, m.cleanups)
    && (forall c :: c in m.cleanups ==> c.at < m.time)
  }

  lemma StartMatches()
    ensures Matches(START, IDLE)
  {
    forall k, g ensures START.tasks[Cleanup(k, g)] == |Pending(IDLE.cleanups, k, g)| {
      assert Pending({}, k, g) == {};
    }
  }

  // ------------------------------------------------------------ one step at a time

  /** The request activates this file of a multi-file torrent. */
  predicate Activates(s: State, r: Request) {
    match r
    case Start(_, k, _, _) => Multi(s, k.hash)
    case RefreshLease(k, _, _) => Multi(s, k.hash)
    case RefreshExistingLease(k, _, _) => Live(s, k) && Multi(s, k.hash)
    case Activate(k, _) => Multi(s, k.hash)
    case _ => false
  }

  predicate Schedules(s: State, r: Request) {
    match r
    case End(_, k) => CountOf(StreamEnd(s, k).fileStreams, k) == 0
    case EndLease(k) => k in s.leases
    case _ => false
  }

  function RequestActions(s: State, m: Machine, r: Request): seq<Action> {
    if Activates(s, r) then [Draw(r.key), Store(m.counter + 1)]
    else if Schedules(s, r) then [Schedule(r.key)]
    else []
  }

  /** The selections and the generation after an activation of the file. */
  ghost predicate Chose(s: State, t: State, k: FileKey) {
    && t.generation == s.generation + 1
    && t.selections == s.selections[k.hash := Selection(k.idx, s.generation + 1)]
  }

  ghost predicate ChoseNothing(s: State, t: State) {
    t.generation == s.generation && t.selections == s.selections
  }

  lemma ActivateFileChooses(s: State, k: FileKey, a: bool, b: bool)
    ensures var t := ActivateFile(s, k.hash, k.idx, a, b);
      if Multi(s, k.hash) then Chose(s, t, k) else ChoseNothing(s, t)
  {
  }

  lemma RefreshChooses(s: State, k: FileKey, a: bool, b: bool)
    ensures var t := Refresh(s, k, a, b); if Multi(s, k.hash) then Chose(s, t, k) else ChoseNothing(s, t)
  {
    var s1 := s.(leases := s.leases[k := s.clock + LEASE_TTL]);
    assert Multi(s1, k.hash) == Multi(s, k.hash);
    if k.hash in s.torrents {
      ActivateFileChooses(s1, k, a, b);
    } else {
      assert Refresh(s, k, a, b) == s1;
    }
  }

  lemma StartChooses(s: State, k: FileKey, a: bool, b: bool)
    ensures if Multi(s, k.hash) then Chose(s, StreamStart(s, k, a, b), k) else ChoseNothing(s, StreamStart(s, k, a, b))
  {
    ActivateFileChooses(s, k, a, b);
  }

  lemma RefreshExistingChooses(s: State, k: FileKey, a: bool, b: bool)
    ensures var t := RefreshExisting(s, k, a, b);
      if Live(s, k) && Multi(s, k.hash) then Chose(s, t, k) else ChoseNothing(s, t)
  {
    if Live(s, k) {
      RefreshChooses(s, k, a, b);
    }
  }

  /** The selections and the generation once a request is served. */
  ghost predicate Choice(s: State, r: Request) {
    if Activates(s, r) then Chose(s, Serve(s, r), r.key) else ChoseNothing(s, Serve(s, r))
  }

  lemma RequestSelections(s: State, r: Request)
    ensures Choice(s, r)
  {
    match r
    case Start(_, _, _, _) => StartChoice(s, r);
    case RefreshLease(_, _, _) => RefreshChoice(s, r);
    case RefreshExistingLease(_, _, _) => RefreshExistingChoice(s, r);
    case Activate(_, _) => ActivateChoice(s, r);
    case _ => OthersChooseNothing(s, r);
  }

  lemma ServedAs(s: State, r: Request, t: State)
    requires t == Serve(s, r) && if Activates(s, r) then Chose(s, t, r.key) else ChoseNothing(s, t)
    ensures Choice(s, r)
  {
  }

  lemma StartChoice(s: State, r: Request)
    requires r.Start?
    ensures Choice(s, r)
  {
    StartChooses(s, r.key, r.firstOk, r.secondOk);
    ServedAs(s, r, StreamStart(s, r.key, r.firstOk, r.secondOk));
  }

  lemma RefreshChoice(s: State, r: Request)
    requires r.RefreshLease?
    ensures Choice(s, r)
  {
    RefreshChooses(s, r.key, r.firstOk, r.secondOk);
    ServedAs(s, r, Refresh(s, r.key, r.firstOk, r.secondOk));
  }

  lemma RefreshExistingChoice(s: State, r: Request)
    requires r.RefreshExistingLease?
    ensures Choice(s, r)
  {
    RefreshExistingChooses(s, r.key, r.firstOk, r.secondOk);
    ServedAs(s, r, RefreshExisting(s, r.key, r.firstOk, r.secondOk));
  }

  lemma ActivateChoice(s: State, r: Request)
    requires r.Activate?
    ensures Choice(s, r)
  {
    MultifileChooses(s, r.key, r.resumeOk);
  }

  lemma MultifileChooses(s: State, k: FileKey, ok: bool)
    ensures var t := ActivateMultifile(s, k.hash, k.idx, ok);
      if Multi(s, k.hash) then Chose(s, t, k) else ChoseNothing(s, t)
  {
  }

  lemma OthersChooseNothing(s: State, r: Request)
    requires !r.Start? && !r.RefreshLease? && !r.RefreshExistingLease? && !r.Activate?
    ensures Choice(s, r)
  {
  }

  lemma RequestCleanups(s: State, r: Request, k: FileKey, g: Option<nat>)
    ensures multiset(Spawned(s, r))[Cleanup(k, g)] ==
      if Schedules(s, r) && r.key == k && Captured(s, k) == g then 1 else 0
  {
    match r
    case End(_, j) =>
      assert Captured(StreamEnd(s, j), j) == Captured(s, j);
    case _ =>
  }

  lemma OneMore(cleanups: set<Scheduled>, c: Scheduled, k: FileKey, g: Option<nat>)
    requires c !in cleanups
    ensures |Pending(cleanups + {c}, k, g)| ==
      |Pending(cleanups, k, g)| + if c.key == k && c.captured == g then 1 else 0
  {
    assert Pending(cleanups + {c}, k, g) ==
      Pending(cleanups, k, g) + if c.key == k && c.captured == g then {c} else {};
  }

  lemma TwoActions(m: Machine, a: Action, b: Action)
    requires Possible(m, a) && Possible(Act(m, a), b)
    ensures Playable(m, [a, b]) && Outcome(m, [a, b]) == Act(Act(m, a), b)
  {
    assert [a, b][0] == a && [a, b][1..] == [b];
    OneAction(Act(m, a), b);
  }

  lemma OneAction(m: Machine, a: Action)
    requires Possible(m, a)
    ensures Playable(m, [a]) && Outcome(m, [a]) == Act(m, a)
  {
    var next := Act(m, a);
    assert Playable(next, []) && Outcome(next, []) == next;
    assert [a][0] == a && [a][1..] == [];
  }

  lemma ActionsReach(m: Machine, s: State, t: State, r: Request)
    requires m.counter == s.generation && m.selections == s.selections
    requires if Activates(s, r) then Chose(s, t, r.key) else ChoseNothing(s, t)
    ensures var acts := RequestActions(s, m, r);
      && Undisturbed(m, acts) && Playable(m, acts)
      && var n := Outcome(m, acts);
      && n.counter == t.generation && n.selections == t.selections && n.time >= m.time
      && n.cleanups == m.cleanups + (if Schedules(s, r) then {Scheduled(r.key, Captured(s, r.key), m.time)} else {})
      && (Schedules(s, r) ==> n.time > m.time)
  {
    var acts := RequestActions(s, m, r);
    if Activates(s, r) {
      TwoActions(m, acts[0], acts[1]);
    } else if Schedules(s, r) {
      OneAction(m, acts[0]);
    }
  }

  lemma RequestSameCleanups(tasks: multiset<Task>, cleanups: set<Scheduled>, s: State, r: Request, at: nat)
    requires SameCleanups(tasks, cleanups) && forall c :: c in cleanups ==> c.at < at
    ensures SameCleanups(tasks + multiset(Spawned(s, r)),
      cleanups + if Schedules(s, r) then {Scheduled(r.key, Captured(s, r.key), at)} else {})
  {
    var more := cleanups + if Schedules(s, r) then {Scheduled(r.key, Captured(s, r.key), at)} else {};
    var next := tasks + multiset(Spawned(s, r));
    forall k, g ensures next[Cleanup(k, g)] == |Pending(more, k, g)| {
      RequestCleanups(s, r, k, g);
      assert next[Cleanup(k, g)] == tasks[Cleanup(k, g)] + multiset(Spawned(s, r))[Cleanup(k, g)];
      if Schedules(s, r) {
        OneMore(cleanups, Scheduled(r.key, Captured(s, r.key), at), k, g);
      } else {
        assert more == cleanups;
      }
    }
  }

  lemma RequestMatches(w: World, m: Machine, r: Request)
    requires Matches(w, m) && Requestable(w, r)
    ensures var acts := RequestActions(w.fs, m, r);
      && Undisturbed(m, acts) && Playable(m, acts)
      && Matches(Step(w, Client(r)), Outcome(m, acts))
  {
    RequestSelections(w.fs, r);
    ActionsReach(m, w.fs, Serve(w.fs, r), r);
    RequestSameCleanups(w.tasks, m.cleanups, w.fs, r, m.time);
    MatchesNext(w, m, r, Step(w, Client(r)), Outcome(m, RequestActions(w.fs, m, r)));
  }

  lemma MatchesNext(w: World, m: Machine, r: Request, v: World, n: Machine)
    requires Matches(w, m) && v.tasks == w.tasks + multiset(Spawned(w.fs, r))
    requires n.counter == v.fs.generation && n.selections == v.fs.selections && n.time >= m.time
    requires n.cleanups ==
      m.cleanups + (if Schedules(w.fs, r) then {Scheduled(r.key, Captured(w.fs, r.key), m.time)} else {})
    requires Schedules(w.fs, r) ==> n.time > m.time
    requires SameCleanups(v.tasks, n.cleanups)
    ensures Matches(v, n)
  {
  }

  // ------------------------------------------------------------------------- tasks

  /** The cleanup finds its file in use. */
  predicate Busy(s: State, k: FileKey) {
    CountOf(s.fileStreams, k) > 0 || Live(s, k)
  }

  lemma OneFewer(tasks: multiset<Task>, cleanups: set<Scheduled>, c: Scheduled)
    requires SameCleanups(tasks, cleanups) && c in cleanups
    ensures SameCleanups(tasks - multiset{Cleanup(c.key, c.captured)}, cleanups - {c})
  {
    var next := tasks - multiset{Cleanup(c.key, c.captured)};
    assert cleanups - {c} + {c} == cleanups;
    OneMore(cleanups - {c}, c, c.key, c.captured);
    forall k, g ensures next[Cleanup(k, g)] == |Pending(cleanups - {c}, k, g)| {
      OneMore(cleanups - {c}, c, k, g);
    }
  }

  lemma ClearedSelections(s: State, k: FileKey, fallback: nat)
    ensures var r := Settle(ClearSelection(s, k), k, fallback);
      r.generation == s.generation &&
      r.selections == if Selects(s, k) then s.selections - {k.hash} else s.selections
  {
  }

  /** A cleanup removes the selection exactly when it is not skipped and its generation fits. */
  lemma CleanupSelections(s: State, k: FileKey, g: Option<nat>)
    ensures var r := RunCleanup(s, k, g);
      r.generation == s.generation &&
      r.selections == if !Busy(s, k) && Selects(s, k) && g == Some(s.selections[k.hash].generation)
                      then s.selections - {k.hash} else s.selections
  {
    ClearedSelections(s, k, if g.Some? then g.value else 0);
  }

  lemma CleanupMatches(w: World, m: Machine, k: FileKey, g: Option<nat>, c: Scheduled)
    requires Matches(w, m) && Cleanup(k, g) in w.tasks && c in Pending(m.cleanups, k, g)
    ensures var a := if Busy(w.fs, k) then Skip(c) else Clean(c);
      Possible(m, a) && Matches(Step(w, Background(CleanupWork(k, g))), Act(m, a))
  {
    CleanupSelections(w.fs, k, g);
    OneFewer(w.tasks, m.cleanups, c);
  }

  /** Other work of tasks and sweeps leaves selections, generations and cleanups alone. */
  lemma OtherWorkMatches(w: World, m: Machine, b: Work)
    requires Matches(w, m) && Runnable(w, b) && !b.CleanupWork? && !b.ExpiredWork?
    ensures Matches(Step(w, Background(b)), m)
  {
    var next := Step(w, Background(b));
    forall k, g ensures next.tasks[Cleanup(k, g)] == w.tasks[Cleanup(k, g)] {
    }
  }

  lemma ExpiredMatches(w: World, m: Machine, k: FileKey)
    requires Matches(w, m) && Expired(k) in w.tasks
    ensures var next := Step(w, Background(ExpiredWork(k)));
      if CountOf(w.fs.fileStreams, k) > 0 then Matches(next, m) else Matches(next, Act(m, Expire(k)))
  {
    ClearedSelections(w.fs, k, 0);
    assert SameCleanups(w.tasks - multiset{Expired(k)}, m.cleanups);
  }

  /** Every step of the playback machine is some undisturbed actions of the finer one. */
  lemma StepMatches(w: World, m: Machine, e: Event) returns (acts: seq<Action>)
    requires Matches(w, m) && Enabled(w, e)
    ensures Undisturbed(m, acts) && Playable(m, acts)
    ensures Matches(Step(w, e), Outcome(m, acts))
  {
    acts := [];
    match e {
      case Tick(_) =>
      case Client(r) =>
        RequestMatches(w, m, r);
        acts := RequestActions(w.fs, m, r);
      case Background(b) =>
        match b {
          case CleanupWork(k, g) =>
            assert |Pending(m.cleanups, k, g)| > 0;
            var c :| c in Pending(m.cleanups, k, g);
            CleanupMatches(w, m, k, g, c);
            acts := [if Busy(w.fs, k) then Skip(c) else Clean(c)];
            OneAction(m, acts[0]);
          case ExpiredWork(k) =>
            ExpiredMatches(w, m, k);
            if CountOf(w.fs.fileStreams, k) == 0 {
              acts := [Expire(k)];
              OneAction(m, acts[0]);
            }
          case _ => OtherWorkMatches(w, m, b);
        }
    }
  }

  lemma {:induction false} ActionsCompose(m: Machine, a: seq<Action>, b: seq<Action>)
    requires Playable(m, a) && Undisturbed(m, a)
    requires Playable(Outcome(m, a), b) && Undisturbed(Outcome(m, a), b)
    ensures Playable(m, a + b) && Undisturbed(m, a + b) && Outcome(m, a + b) == Outcome(Outcome(m, a), b)
    decreases |a|
  {
    if a == [] {
      assert a + b == b;
    } else if a[0].Draw? {
      assert (a + b)[..2] == a[..2] && (a + b)[2..] == a[2..] + b && (a + b)[1..] == a[1..] + b;
      assert (a + b)[1..][1..] == (a + b)[2..] && a[1..][1..] == a[2..];
      var m2 := Act(Act(m, a[0]), a[1]);
      assert Playable(m2, a[2..]) && Outcome(m, a) == Outcome(m2, a[2..]);
      ActionsCompose(m2, a[2..], b);
      assert Playable(Act(m, a[0]), (a + b)[1..]);
    } else {
      assert (a + b)[0] == a[0] && (a + b)[1..] == a[1..] + b;
      ActionsCompose(Act(m, a[0]), a[1..], b);
    }
  }

  /** Every run of the playback machine is matched by an undisturbed run of the finer one. */
  lemma {:induction false} RunsRefine(w: World, m: Machine, es: seq<Event>) returns (acts: seq<Action>)
    requires Matches(w, m) && Legal(w, es)
    ensures Undisturbed(m, acts) && Playable(m, acts)
    ensures Matches(After(w, es), Outcome(m, acts))
    decreases |es|
  {
    acts := [];
    if es != [] {
      var first := StepMatches(w, m, es[0]);
      var rest := RunsRefine(Step(w, es[0]), Outcome(m, first), es[1..]);
      ActionsCompose(m, first, rest);
      acts := first + rest;
    }
  }

  // ------------------------------------------------------------ what carries over

  lemma CapturedEarlier(es: seq<Event>, k: FileKey, g: Option<nat>)
    requires Legal(START, es) && Cleanup(k, g) in After(START, es).tasks && g.Some?
    ensures g.value <= After(START, es).fs.generation
  {
    StartMatches();
    var acts := RunsRefine(START, IDLE, es);
    OrderedAlways(IDLE, acts);
    var m := Outcome(IDLE, acts);
    assert |Pending(m.cleanups, k, g)| > 0;
    var c :| c in Pending(m.cleanups, k, g);
  }

  lemma CleanupSparesNewer(s: State, k: FileKey, g: Option<nat>, h: Hash)
    requires h in s.selections && (g.Some? ==> g.value < s.selections[h].generation)
    ensures h in RunCleanup(s, k, g).selections && RunCleanup(s, k, g).selections[h] == s.selections[h]
  {
    CleanupSelections(s, k, g);
  }

  /** A cleanup pending at some point of a run leaves alone every selection made after that
      point, even one of the same file. */
  lemma PendingCleanupSpares(es: seq<Event>, more: seq<Event>, k: FileKey, g: Option<nat>, h: Hash)
    requires Legal(START, es) && Legal(After(START, es), more)
    requires Cleanup(k, g) in After(START, es).tasks
    requires var s := After(After(START, es), more).fs;
      h in s.selections && s.selections[h].generation > After(START, es).fs.generation
    ensures var s := After(After(START, es), more).fs;
      h in RunCleanup(s, k, g).selections && RunCleanup(s, k, g).selections[h] == s.selections[h]
  {
    if g.Some? {
      CapturedEarlier(es, k, g);
    }
    CleanupSparesNewer(After(After(START, es), more).fs, k, g, h);
  }
}
