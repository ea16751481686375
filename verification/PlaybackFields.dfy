/** The playback machine told field by field. Every lemma says what a step leaves in one
    field, and after which steps, from the fields of the state before alone. */
module PlaybackFields {
  import opened Common
  import opened Playback
  import opened PlaybackRuns

  predicate Several(s: State, h: Hash) {
    h in s.torrents && s.torrents[h].fileCount > 1
  }

  function At<K>(m: map<K, nat>, k: K): nat {
    if k in m then m[k] else 0
  }

  predicate Unexpired(s: State, k: FileKey) {
    k in s.leases && s.clock < s.leases[k]
  }

  /** No counted stream, no lease beyond this time and no selection. */
  ghost predicate Unused(s: State, h: Hash, now: nat) {
    && (h in s.streams ==> s.streams[h] == 0)
    && (forall k :: k in s.fileStreams && k.hash == h ==> s.fileStreams[k] == 0)
    && (forall k :: k in s.leases && k.hash == h ==> s.leases[k] <= now)
    && h !in s.selections
  }

  /** The file that the event makes active. */
  function Opened(s: State, e: Event): Option<FileKey> {
    match e
    case Client(Start(_, k, _, _)) => Some(k)
    case Client(RefreshLease(k, _, _)) => if k.hash in s.torrents then Some(k) else None
    case Client(RefreshExistingLease(k, _, _)) =>
      if k.hash in s.torrents && Unexpired(s, k) then Some(k) else None
    case Client(Activate(k, _)) => if Several(s, k.hash) then Some(k) else None
    case _ => None
  }

  /** Another file of the same torrent of several becomes active. */
  predicate Ousted(s: State, e: Event, k: FileKey) {
    && Opened(s, e).Some? && Several(s, k.hash)
    && Opened(s, e).value.hash == k.hash && Opened(s, e).value.idx != k.idx
  }

  // ------------------------------------------------------------------ pause and resume

  /** Nothing stands against the pause of a torrent that is awake, and the call succeeds. */
  ghost predicate Pauses(s: State, b: Work, h: Hash) {
    match b
    case SweepPause(g, now, reader, metadata, ok) =>
      g == h && ok && metadata && !reader && !s.seeding && Unused(s, h, now)
    case PauseWork(g, reader, metadata, ok) =>
      g == h && ok && metadata && !reader && !s.seeding && Unused(s, h, s.clock)
    case _ => false
  }

  lemma PausesAre(s: State, b: Work, h: Hash)
    ensures Pauses(s, b, h) <==>
      match b
      case SweepPause(g, now, reader, metadata, ok) =>
        g == h && ok && metadata && !reader && !s.seeding && !ActiveAt(s, h, now)
      case PauseWork(g, reader, metadata, ok) =>
        g == h && ok && metadata && !reader && !s.seeding && !ActiveAt(s, h, s.clock)
      case _ => false
  {
    forall now ensures Unused(s, h, now) <==> !ActiveAt(s, h, now) {
    }
  }

  /** Work pauses a torrent that is awake if and only if seeding is off, its metadata is known,
      nobody reads it, nothing is playing on it and the pause call succeeds. */
  lemma PausesExactly(s: State, b: Work, h: Hash)
    requires h in s.torrents && !s.torrents[h].idlePaused
    ensures h in Perform(s, b).torrents && Perform(s, b).torrents[h].idlePaused <==> Pauses(s, b, h)
  {
    PausesAre(s, b, h);
  }

  predicate Resumes(s: State, e: Event, h: Hash)
    requires h in s.torrents
  {
    match e
    case Client(Start(_, k, a, b)) => k.hash == h && (a || (Several(s, h) && b))
    case Client(RefreshLease(k, a, b)) => k.hash == h && (a || (Several(s, h) && b))
    case Client(RefreshExistingLease(k, a, b)) =>
      k.hash == h && Unexpired(s, k) && (a || (Several(s, h) && b))
    case Client(Activate(k, ok)) => k.hash == h && Several(s, h) && ok
    case Client(Resolve(g, ok)) => g == h && s.torrents[h].idlePaused && ok
    case Background(ResumeWork(resumed)) => s.torrents[h].idlePaused && h in resumed
    case _ => false
  }

  ghost predicate PausedBy(s: State, e: Event, h: Hash) {
    e.Background? && Pauses(s, e.work, h)
  }

  /** The idle flag and the last pause or resume of a torrent that stays registered. */
  ghost predicate FlagsFollow(s: State, e: Event, r: State, h: Hash) {
    h in s.torrents && h in r.torrents ==>
      var t, u := s.torrents[h], r.torrents[h];
      && u.fileCount == t.fileCount
      && (u.idlePaused <==> !Resumes(s, e, h) && (t.idlePaused || PausedBy(s, e, h)))
      && (u.paused <==> !Resumes(s, e, h) && (t.paused || (PausedBy(s, e, h) && !t.idlePaused)))
  }

  // -------------------------------------------------------------------------- registry

  /** The torrent leaves: on request, or since the sweep finds nothing that refers to it. */
  ghost predicate Leaves(s: State, e: Event, h: Hash) {
    match e
    case Client(RemoveTorrent(g)) => g == h
    case Background(SweepRemove(g, now, reader)) =>
      g == h && !reader && Unused(s, h, now) && (s.activeFile.Some? ==> s.activeFile.value.hash != h)
    case _ => false
  }

  predicate Enters(e: Event, h: Hash) {
    e.Client? && e.request.AddTorrent? && e.request.hash == h
  }

  /** Which torrents are registered, and what is known of those that left. */
  ghost predicate RegistryFollows(s: State, e: Event, r: State, h: Hash) {
    && (h in r.torrents <==> Enters(e, h) || (h in s.torrents && !Leaves(s, e, h)))
    && (h in r.torrents && Enters(e, h) ==>
          r.torrents[h] == Torrent(e.request.fileCount, false, h in s.departed && s.departed[h], Plan(None, 0)))
    && (h in r.departed <==> h in s.departed || (h in s.torrents && Leaves(s, e, h)))
    && (h in r.departed ==>
          if h in s.torrents && Leaves(s, e, h) then r.departed[h] == s.torrents[h].paused
          else h in s.departed && r.departed[h] == s.departed[h])
  }

  // --------------------------------------------------------------- leases and counters

  predicate Grants(s: State, e: Event, k: FileKey) {
    match e
    case Client(RefreshLease(j, _, _)) => j == k
    case Client(RefreshExistingLease(j, _, _)) => j == k && Unexpired(s, k)
    case _ => false
  }

  predicate Revokes(s: State, e: Event, k: FileKey) {
    Ousted(s, e, k) ||
    match e
    case Client(RefreshExistingLease(j, _, _)) => j == k && !Unexpired(s, k)
    case Client(EndLease(j)) => j == k
    case Background(Sweep(now)) => k in s.leases && s.leases[k] <= now
    case _ => false
  }

  /** A lease is granted for 300 seconds, or goes when it is ended, found expired, or ousted by
      another file of its torrent. */
  ghost predicate LeaseFollows(s: State, e: Event, r: State, k: FileKey) {
    && (k in r.leases <==> Grants(s, e, k) || (k in s.leases && !Revokes(s, e, k)))
    && (k in r.leases ==> r.leases[k] == if Grants(s, e, k) then s.clock + 300 else At(s.leases, k))
  }

  /** One more for a stream that starts, one less for one that ends, and none for a file that is
      ousted. */
  ghost predicate CountersFollow(s: State, e: Event, r: State, h: Hash, k: FileKey) {
    && At(r.streams, h) ==
         (match e
          case Client(Start(_, j, _, _)) => At(s.streams, h) + if j.hash == h then 1 else 0
          case Client(End(_, j)) => Less(At(s.streams, h), j.hash == h)
          case _ => At(s.streams, h))
    && At(r.fileStreams, k) ==
         if Ousted(s, e, k) then 0 else
           match e
           case Client(Start(_, j, _, _)) => At(s.fileStreams, k) + if j == k then 1 else 0
           case Client(End(_, j)) => Less(At(s.fileStreams, k), j == k)
           case _ => At(s.fileStreams, k)
  }

  function Less(n: nat, one: bool): nat {
    if one && n > 0 then n - 1 else n
  }

  // ------------------------------------------------------- selection, focus and plan

  /** A cleanup or the sweep lets go of the file: nothing streams it, and for a cleanup neither
      a lease nor a selection of another generation speaks for it. */
  predicate LetsGo(s: State, e: Event, k: FileKey) {
    match e
    case Background(CleanupWork(j, g)) =>
      && j == k && At(s.fileStreams, k) == 0 && !Unexpired(s, k)
      && (k.hash in s.selections && s.selections[k.hash].file == k.idx ==>
            g == Some(s.selections[k.hash].generation))
    case Background(ExpiredWork(j)) => j == k && At(s.fileStreams, k) == 0
    case _ => false
  }

  /** The key of such work. */
  function Handled(e: Event): Option<FileKey> {
    match e
    case Background(CleanupWork(k, _)) => Some(k)
    case Background(ExpiredWork(k)) => Some(k)
    case _ => None
  }

  /** The selection of the torrent that is left when the file is let go. */
  function Left(s: State, k: FileKey): Option<Selection> {
    if k.hash in s.selections && s.selections[k.hash].file != k.idx then Some(s.selections[k.hash]) else None
  }

  function SelectionAfter(s: State, e: Event, h: Hash): Option<Selection> {
    var chosen, handled := Opened(s, e), Handled(e);
    if chosen.Some? && chosen.value.hash == h && Several(s, h) then
      Some(Selection(chosen.value.idx, s.generation + 1))
    else if handled.Some? && handled.value.hash == h && LetsGo(s, e, handled.value) then Left(s, handled.value)
    else if h in s.selections then Some(s.selections[h]) else None
  }

  ghost predicate SelectionFollows(s: State, e: Event, r: State, h: Hash) {
    && SelectionAfter(s, e, h) == (if h in r.selections then Some(r.selections[h]) else None)
    && r.generation ==
         s.generation + if Opened(s, e).Some? && Several(s, Opened(s, e).value.hash) then 1 else 0
  }

  /** The active file: the one opened last, until it is let go. */
  ghost predicate FocusFollows(s: State, e: Event, r: State) {
    r.activeFile ==
      if Opened(s, e).Some? then Opened(s, e)
      else if Handled(e).Some? && s.activeFile == Handled(e) && LetsGo(s, e, Handled(e).value) then
        (var left := Left(s, Handled(e).value);
         if left.Some? then Some(FileKey(Handled(e).value.hash, left.value.file)) else None)
      else s.activeFile
  }

  function Fallback(e: Event): nat {
    match e
    case Background(CleanupWork(_, g)) => if g.Some? then g.value else 0
    case _ => 0
  }

  /** The plan of a torrent that stays registered. */
  ghost predicate PlanFollows(s: State, e: Event, r: State, h: Hash) {
    h in s.torrents && h in r.torrents ==>
      var chosen, handled := Opened(s, e), Handled(e);
      r.torrents[h].plan ==
        if chosen.Some? && chosen.value.hash == h && Several(s, h) then
          Plan(Some(chosen.value.idx), s.generation + 1)
        else if handled.Some? && handled.value.hash == h && Several(s, h) && LetsGo(s, e, handled.value) then
          (var left := Left(s, handled.value);
           if left.Some? then Plan(Some(left.value.file), left.value.generation) else Plan(None, Fallback(e)))
        else s.torrents[h].plan
  }

  /** The clock moves with a tick alone, and the seeding policy with its request alone. */
  predicate PolicyFollows(s: State, e: Event, r: State) {
    && r.clock == s.clock + (if e.Tick? then e.elapsed else 0)
    && r.seeding == if e.Client? && e.request.SetSeeding? then e.request.enabled else s.seeding
  }

  /** All of it, for one torrent and one file. */
  ghost predicate Follows(s: State, e: Event, r: State, h: Hash, k: FileKey) {
    && FlagsFollow(s, e, r, h) && RegistryFollows(s, e, r, h) && PlanFollows(s, e, r, h)
    && LeaseFollows(s, e, r, k) && CountersFollow(s, e, r, h, k)
    && SelectionFollows(s, e, r, h) && FocusFollows(s, e, r) && PolicyFollows(s, e, r)
  }

  // ------------------------------------------------------------ requests that open a file

  function Others(m: map<FileKey, nat>, s: State, k: FileKey): map<FileKey, nat> {
    map j | j in m && !(Several(s, k.hash) && j.hash == k.hash && j.idx != k.idx) :: m[j]
  }

  /** The state once a file is open; `ok` says whether a resume call for it succeeded. */
  function OpenedState(s: State, k: FileKey, ok: bool, leases: map<FileKey, nat>): State {
    var several := Several(s, k.hash);
    var generation := if several then s.generation + 1 else s.generation;
    State(
      if k.hash !in s.torrents then s.torrents else
        var Torrent(fileCount, idlePaused, paused, plan) := s.torrents[k.hash];
        s.torrents[k.hash := Torrent(fileCount, idlePaused && !ok, paused && !ok,
                                     if several then Plan(Some(k.idx), generation) else plan)],
      s.streams, Others(s.fileStreams, s, k), Others(leases, s, k),
      if several then s.selections[k.hash := Selection(k.idx, generation)] else s.selections,
      Some(k), generation, s.seeding, s.clock, s.departed)
  }

  lemma ActivateMultifileIs(s: State, k: FileKey, ok: bool)
    ensures ActivateMultifile(s, k.hash, k.idx, ok) ==
      if Several(s, k.hash) then OpenedState(s, k, ok, s.leases) else s
  {
    if Several(s, k.hash) {
      assert Retain(s.fileStreams, k.hash, k.idx) == Others(s.fileStreams, s, k);
      assert Retain(s.leases, k.hash, k.idx) == Others(s.leases, s, k);
    }
  }

  lemma ActivateFileIs(s: State, k: FileKey, a: bool, b: bool)
    ensures ActivateFile(s, k.hash, k.idx, a, b) ==
      OpenedState(s, k, a || (Several(s, k.hash) && b), s.leases)
  {
    var s1 := (if k.hash in s.torrents then WithTorrent(s, k.hash, Resumed(s.torrents[k.hash], a)) else s)
                .(activeFile := Some(k));
    assert ActivateFile(s, k.hash, k.idx, a, b) == ActivateMultifile(s1, k.hash, k.idx, b);
    ActivateMultifileIs(s1, k, b);
    if Several(s, k.hash) {
      OpenedTwice(s, s1, k, a, b);
    } else {
      assert Others(s.fileStreams, s, k) == s.fileStreams && Others(s.leases, s, k) == s.leases;
    }
  }

  lemma OpenedTwice(s: State, s1: State, k: FileKey, a: bool, b: bool)
    requires Several(s, k.hash)
    requires var t := s.torrents[k.hash];
      s1 == s.(torrents := s.torrents[k.hash := Torrent(t.fileCount, t.idlePaused && !a, t.paused && !a, t.plan)],
               activeFile := Some(k))
    ensures OpenedState(s1, k, b, s.leases) == OpenedState(s, k, a || b, s.leases)
  {
  }

  lemma StartIs(s: State, k: FileKey, a: bool, b: bool)
    ensures var o := OpenedState(s, k, a || (Several(s, k.hash) && b), s.leases);
      StreamStart(s, k, a, b) ==
      o.(streams := o.streams[k.hash := At(o.streams, k.hash) + 1],
         fileStreams := o.fileStreams[k := At(o.fileStreams, k) + 1])
  {
    ActivateFileIs(s, k, a, b);
  }

  lemma RefreshIs(s: State, k: FileKey, a: bool, b: bool)
    ensures Refresh(s, k, a, b) ==
      if k.hash in s.torrents
      then OpenedState(s, k, a || (Several(s, k.hash) && b), s.leases[k := s.clock + 300])
      else s.(leases := s.leases[k := s.clock + 300])
  {
    var s1 := s.(leases := s.leases[k := s.clock + LEASE_TTL]);
    ActivateFileIs(s1, k, a, b);
  }

  lemma OpenedFollows(s: State, e: Event, k: FileKey, ok: bool, r: State, h: Hash)
    requires Opened(s, e) == Some(k) && !e.Tick? && !(e.Client? && (e.request.AddTorrent? || e.request.RemoveTorrent?))
    requires k.hash in s.torrents ==> (Resumes(s, e, k.hash) <==> ok)
    requires var o := OpenedState(s, k, ok, r.leases);
      r == o.(leases := r.leases, streams := r.streams, fileStreams := r.fileStreams)
    ensures FlagsFollow(s, e, r, h) && RegistryFollows(s, e, r, h) && PlanFollows(s, e, r, h)
    ensures SelectionFollows(s, e, r, h) && FocusFollows(s, e, r) && PolicyFollows(s, e, r)
  {
  }

  lemma StartFollows(s: State, q: Request, h: Hash, k: FileKey)
    requires q.Start?
    ensures Follows(s, Client(q), Serve(s, q), h, k)
  {
    StartIs(s, q.key, q.firstOk, q.secondOk);
    StartedFollows(s, q, Serve(s, q), h, k);
  }

  lemma StartedFollows(s: State, q: Request, r: State, h: Hash, k: FileKey)
    requires q.Start?
    requires var o := OpenedState(s, q.key, q.firstOk || (Several(s, q.key.hash) && q.secondOk), s.leases);
      r == o.(streams := o.streams[q.key.hash := At(o.streams, q.key.hash) + 1],
              fileStreams := o.fileStreams[q.key := At(o.fileStreams, q.key) + 1])
    ensures Follows(s, Client(q), r, h, k)
  {
    StartedMaps(s, Client(q), q.key, r, h, k);
    OpenedFollows(s, Client(q), q.key, q.firstOk || (Several(s, q.key.hash) && q.secondOk), r, h);
  }

  lemma StartedMaps(s: State, e: Event, j: FileKey, r: State, h: Hash, k: FileKey)
    requires e.Client? && e.request.Start? && e.request.key == j
    requires r.leases == Others(s.leases, s, j)
    requires r.streams == s.streams[j.hash := At(s.streams, j.hash) + 1]
    requires r.fileStreams == Others(s.fileStreams, s, j)[j := At(Others(s.fileStreams, s, j), j) + 1]
    ensures LeaseFollows(s, e, r, k) && CountersFollow(s, e, r, h, k)
  {
  }

  lemma OtherMaps(s: State, e: Event, j: FileKey, r: State, h: Hash, k: FileKey)
    requires Opened(s, e) == Some(j) && e.Client? && !e.request.Start?
    requires r.leases == Others(if Grants(s, e, j) then s.leases[j := s.clock + 300] else s.leases, s, j)
    requires r.streams == s.streams && r.fileStreams == Others(s.fileStreams, s, j)
    ensures LeaseFollows(s, e, r, k) && CountersFollow(s, e, r, h, k)
  {
  }

  lemma RefreshFollows(s: State, q: Request, h: Hash, k: FileKey)
    requires q.RefreshLease?
    ensures Follows(s, Client(q), Serve(s, q), h, k)
  {
    RefreshIs(s, q.key, q.firstOk, q.secondOk);
    RefreshedFollows(s, Client(q), q.key, q.firstOk || (Several(s, q.key.hash) && q.secondOk), Serve(s, q), h, k);
  }

  lemma RefreshedFollows(s: State, e: Event, j: FileKey, ok: bool, r: State, h: Hash, k: FileKey)
    requires e.Client? && (e.request.RefreshLease? || (e.request.RefreshExistingLease? && Unexpired(s, j)))
    requires e.request.key == j && ok == (e.request.firstOk || (Several(s, j.hash) && e.request.secondOk))
    requires var granted := s.leases[j := s.clock + 300];
      r == if j.hash in s.torrents then OpenedState(s, j, ok, granted) else s.(leases := granted)
    ensures Follows(s, e, r, h, k)
  {
    if j.hash in s.torrents {
      OtherMaps(s, e, j, r, h, k);
      OpenedFollows(s, e, j, ok, r, h);
    }
  }

  /** Renewing a live lease is granting it. */
  lemma RefreshExistingFollows(s: State, q: Request, h: Hash, k: FileKey)
    requires q.RefreshExistingLease?
    ensures Follows(s, Client(q), Serve(s, q), h, k)
  {
    RefreshExistingIs(s, q.key, q.firstOk, q.secondOk);
    if Unexpired(s, q.key) {
      RefreshedFollows(s, Client(q), q.key, q.firstOk || (Several(s, q.key.hash) && q.secondOk), Serve(s, q), h, k);
    } else {
      StaleFollows(s, q, Serve(s, q), h, k);
    }
  }

  lemma RefreshExistingIs(s: State, k: FileKey, a: bool, b: bool)
    ensures var granted := s.leases[k := s.clock + 300];
      RefreshExisting(s, k, a, b) ==
      if !Unexpired(s, k) then s.(leases := s.leases - {k})
      else if k.hash in s.torrents then OpenedState(s, k, a || (Several(s, k.hash) && b), granted)
      else s.(leases := granted)
  {
    RefreshIs(s, k, a, b);
  }

  lemma StaleFollows(s: State, q: Request, r: State, h: Hash, k: FileKey)
    requires q.RefreshExistingLease? && !Unexpired(s, q.key) && r == s.(leases := s.leases - {q.key})
    ensures Follows(s, Client(q), r, h, k)
  {
  }

  lemma ActivateFollows(s: State, q: Request, h: Hash, k: FileKey)
    requires q.Activate?
    ensures Follows(s, Client(q), Serve(s, q), h, k)
  {
    ActivateMultifileIs(s, q.key, q.resumeOk);
    ActivatedFollows(s, q, Serve(s, q), h, k);
  }

  lemma ActivatedFollows(s: State, q: Request, r: State, h: Hash, k: FileKey)
    requires q.Activate?
    requires r == if Several(s, q.key.hash) then OpenedState(s, q.key, q.resumeOk, s.leases) else s
    ensures Follows(s, Client(q), r, h, k)
  {
    if Several(s, q.key.hash) {
      OtherMaps(s, Client(q), q.key, r, h, k);
      OpenedFollows(s, Client(q), q.key, q.resumeOk, r, h);
    }
  }

  // ---------------------------------------------------------------- work that lets go

  /** The state once a file is let go. */
  function ReleasedState(s: State, k: FileKey, fallback: nat): State {
    var left := Left(s, k);
    s.(torrents := if !Several(s, k.hash) then s.torrents else
         s.torrents[k.hash := s.torrents[k.hash].(plan :=
           if left.Some? then Plan(Some(left.value.file), left.value.generation) else Plan(None, fallback))],
       selections := if left.Some? then s.selections else s.selections - {k.hash},
       activeFile := if s.activeFile != Some(k) then s.activeFile
                     else if left.Some? then Some(FileKey(k.hash, left.value.file)) else None)
  }

  lemma SettleIs(s: State, k: FileKey, fallback: nat)
    ensures Settle(ClearSelection(s, k), k, fallback) == ReleasedState(s, k, fallback)
  {
    assert k.hash !in s.selections ==> s.selections - {k.hash} == s.selections;
  }

  lemma CleanupFollows(s: State, b: Work, h: Hash, k: FileKey)
    requires b.CleanupWork?
    ensures Follows(s, Background(b), Perform(s, b), h, k)
  {
    CleanupIs(s, b.key, b.scheduled);
    ReleasedFollows(s, Background(b), b.key, Perform(s, b), h, k);
  }

  lemma CleanupIs(s: State, k: FileKey, g: Option<nat>)
    ensures RunCleanup(s, k, g) ==
      if LetsGo(s, Background(CleanupWork(k, g)), k) then ReleasedState(s, k, if g.Some? then g.value else 0) else s
  {
    SettleIs(s, k, if g.Some? then g.value else 0);
  }

  lemma ExpiredFollows(s: State, b: Work, h: Hash, k: FileKey)
    requires b.ExpiredWork?
    ensures Follows(s, Background(b), Perform(s, b), h, k)
  {
    SettleIs(s, b.key, 0);
    ReleasedFollows(s, Background(b), b.key, Perform(s, b), h, k);
  }

  lemma ReleasedFollows(s: State, e: Event, j: FileKey, r: State, h: Hash, k: FileKey)
    requires e.Background? && (e.work.CleanupWork? || e.work.ExpiredWork?) && e.work.key == j
    requires r == if LetsGo(s, e, j) then ReleasedState(s, j, Fallback(e)) else s
    ensures Follows(s, e, r, h, k)
  {
  }

  // ------------------------------------------------------------------- everything else

  lemma PauseFollows(s: State, b: Work, h: Hash, k: FileKey)
    requires b.SweepPause? || b.PauseWork?
    ensures Follows(s, Background(b), Perform(s, b), h, k)
  {
    PausesAre(s, b, b.hash);
    PausedFollows(s, b, Perform(s, b), h, k);
  }

  lemma PausedFollows(s: State, b: Work, r: State, h: Hash, k: FileKey)
    requires b.SweepPause? || b.PauseWork?
    requires r == if Pauses(s, b, b.hash) && b.hash in s.torrents && !s.torrents[b.hash].idlePaused
                  then s.(torrents := s.torrents[b.hash := s.torrents[b.hash].(idlePaused := true, paused := true)])
                  else s
    ensures Follows(s, Background(b), r, h, k)
  {
  }

  lemma ResumeFollows(s: State, b: Work, h: Hash, k: FileKey)
    requires b.ResumeWork?
    ensures Follows(s, Background(b), Perform(s, b), h, k)
  {
  }

  lemma SweepFollows(s: State, b: Work, h: Hash, k: FileKey)
    requires b.Sweep? || b.SweepRemove?
    ensures Follows(s, Background(b), Perform(s, b), h, k)
  {
    if b.SweepRemove? {
      assert Unused(s, b.hash, b.now) <==> !ActiveAt(s, b.hash, b.now);
      RemovedFollows(s, Background(b), b.hash, Perform(s, b), h, k);
    } else {
      SweptFollows(s, b, Perform(s, b), h, k);
    }
  }

  lemma SweptFollows(s: State, b: Work, r: State, h: Hash, k: FileKey)
    requires b.Sweep?
    requires r == s.(leases := s.leases - set j | j in s.leases && s.leases[j] <= b.now)
    ensures Follows(s, Background(b), r, h, k)
  {
  }

  lemma RemovedFollows(s: State, e: Event, g: Hash, r: State, h: Hash, k: FileKey)
    requires e == Client(RemoveTorrent(g)) || (e.Background? && e.work.SweepRemove? && e.work.hash == g)
    requires r == if Leaves(s, e, g) && g in s.torrents
                  then s.(torrents := s.torrents - {g}, departed := s.departed[g := s.torrents[g].paused]) else s
    ensures Follows(s, e, r, h, k)
  {
  }

  lemma OtherFollows(s: State, q: Request, h: Hash, k: FileKey)
    requires q.End? || q.EndLease? || q.Resolve? || q.SetSeeding? || q.RemoveTorrent?
    ensures Follows(s, Client(q), Serve(s, q), h, k)
  {
    match q
    case End(_, _) => EndFollows(s, q, h, k);
    case Resolve(_, _) => ResolveFollows(s, q, h, k);
    case RemoveTorrent(g) => RemovedFollows(s, Client(q), g, Serve(s, q), h, k);
    case _ =>
  }

  lemma EndFollows(s: State, q: Request, h: Hash, k: FileKey)
    requires q.End?
    ensures Follows(s, Client(q), Serve(s, q), h, k)
  {
  }

  lemma ResolveFollows(s: State, q: Request, h: Hash, k: FileKey)
    requires q.Resolve?
    ensures Follows(s, Client(q), Serve(s, q), h, k)
  {
    WokenFollows(s, q, Serve(s, q), h, k);
  }

  lemma WokenFollows(s: State, q: Request, r: State, h: Hash, k: FileKey)
    requires q.Resolve?
    requires r == if q.hash in s.torrents && s.torrents[q.hash].idlePaused && q.resumeOk
                  then s.(torrents := s.torrents[q.hash := s.torrents[q.hash].(idlePaused := false, paused := false)])
                  else s
    ensures Follows(s, Client(q), r, h, k)
  {
  }

  lemma AddFollows(s: State, q: Request, h: Hash, k: FileKey)
    requires q.AddTorrent? && q.hash !in s.torrents
    ensures Follows(s, Client(q), Serve(s, q), h, k)
  {
  }

  /** What every request, task and sweep step does to each field: which torrents are registered,
      their flags and plans, each lease, counter and selection, the active file, the clock and
      the policy. */
  lemma FieldsAfter(w: World, e: Event, h: Hash, k: FileKey)
    requires Enabled(w, e)
    ensures Follows(w.fs, e, Step(w, e).fs, h, k)
  {
    match e
    case Tick(_) =>
    case Client(q) => ServeFollows(w.fs, q, h, k);
    case Background(b) => PerformFollows(w.fs, b, h, k);
  }

  lemma ServeFollows(s: State, q: Request, h: Hash, k: FileKey)
    requires q.AddTorrent? ==> q.hash !in s.torrents
    ensures Follows(s, Client(q), Serve(s, q), h, k)
  {
    match q
    case Start(_, _, _, _) => StartFollows(s, q, h, k);
    case RefreshLease(_, _, _) => RefreshFollows(s, q, h, k);
    case RefreshExistingLease(_, _, _) => RefreshExistingFollows(s, q, h, k);
    case Activate(_, _) => ActivateFollows(s, q, h, k);
    case AddTorrent(_, _) => AddFollows(s, q, h, k);
    case _ => OtherFollows(s, q, h, k);
  }

  lemma PerformFollows(s: State, b: Work, h: Hash, k: FileKey)
    ensures Follows(s, Background(b), Perform(s, b), h, k)
  {
    match b
    case CleanupWork(_, _) => CleanupFollows(s, b, h, k);
    case ExpiredWork(_) => ExpiredFollows(s, b, h, k);
    case SweepPause(_, _, _, _, _) => PauseFollows(s, b, h, k);
    case PauseWork(_, _, _, _) => PauseFollows(s, b, h, k);
    case ResumeWork(_) => ResumeFollows(s, b, h, k);
    case _ => SweepFollows(s, b, h, k);
  }

  // ---------------------------------------------------------------------------- tasks

  /** What the client's request spawns: cleanup and pause when the last stream of the file and of
      the torrent ends or a lease is ended, and resuming when seeding is enabled again. */
  function Spawns(s: State, e: Event, t: Task): nat {
    match t
    case Cleanup(k, g) =>
      (var captured := if k.hash in s.selections && s.selections[k.hash].file == k.idx
                       then Some(s.selections[k.hash].generation) else None;
       match e
       case Client(End(_, j)) => if j == k && At(s.fileStreams, k) <= 1 && g == captured then 1 else 0
       case Client(EndLease(j)) => if j == k && k in s.leases && g == captured then 1 else 0
       case _ => 0)
    case Pause(h) =>
      (match e
       case Client(End(_, j)) =>
         if j.hash == h && At(s.streams, h) <= 1 && At(s.fileStreams, j) <= 1 then 1 else 0
       case Client(EndLease(j)) => if j.hash == h && j in s.leases then 1 else 0
       case _ => 0)
    case ResumeIdle => if e == Client(SetSeeding(true)) then 1 else 0
    case Expired(k) =>
      (match e
       case Background(Sweep(now)) => if k in s.leases && s.leases[k] <= now then 1 else 0
       case _ => 0)
  }

  /** The task that such work runs. */
  function Ran(e: Event): Option<Task> {
    match e
    case Background(CleanupWork(k, g)) => Some(Cleanup(k, g))
    case Background(PauseWork(h, _, _, _)) => Some(Pause(h))
    case Background(ResumeWork(_)) => Some(ResumeIdle)
    case Background(ExpiredWork(k)) => Some(Expired(k))
    case _ => None
  }

  lemma EndTasks(w: World, e: Event, t: Task)
    requires Enabled(w, e) && e.Client? && e.request.End?
    ensures Step(w, e).tasks[t] == w.tasks[t] + Spawns(w.fs, e, t)
  {
    var k := e.request.key;
    var s, r := w.fs, StreamEnd(w.fs, k);
    assert CountOf(r.streams, k.hash) == Less(At(s.streams, k.hash), true);
    assert CountOf(r.fileStreams, k) == Less(At(s.fileStreams, k), true);
    assert r.selections == s.selections;
  }

  lemma SweepTasks(w: World, now: nat, t: Task)
    requires now <= w.fs.clock
    ensures Step(w, Background(Sweep(now))).tasks[t] == w.tasks[t] + Spawns(w.fs, Background(Sweep(now)), t)
  {
    var expired := ExpiredTasks(ExpiredKeys(w.fs, now));
    assert t in expired <==> t.Expired? && t.key in w.fs.leases && w.fs.leases[t.key] <= now;
    assert Step(w, Background(Sweep(now))).tasks == w.tasks + multiset(expired);
  }

  lemma RanTask(w: World, b: Work, t: Task)
    requires Runnable(w, b) && !b.Sweep?
    ensures TasksAfter(w, b)[t] == w.tasks[t] - if Ran(Background(b)) == Some(t) then 1 else 0
  {
  }

  /** Which tasks a step adds, and which one it takes away. */
  lemma TasksFollow(w: World, e: Event, t: Task)
    requires Enabled(w, e)
    ensures Step(w, e).tasks[t] ==
      w.tasks[t] + Spawns(w.fs, e, t) - if Ran(e) == Some(t) then 1 else 0
  {
    if e.Background? && e.work.Sweep? {
      SweepTasks(w, e.work.now, t);
    } else if e.Background? {
      RanTask(w, e.work, t);
    } else if e.Client? && e.request.End? {
      EndTasks(w, e, t);
    }
  }
}
