/** What each playback operation of `BackendEngineFS` does to the shared maps.

    A state holds the maps the engine registry shares between requests, delayed
    tasks and the periodic sweep. Every function below is one request handler or
    one task body, as a function from the state before to the state after. Torrents
    whose handle manages its own playback are not part of this model, so
    `manages_playback_lifecycle` is false throughout. */
module Playback {
  import opened Common

  /** A lower-case info hash. */
  type Hash = string

  datatype FileKey = FileKey(hash: Hash, idx: nat)

  datatype Selection = Selection(file: nat, generation: nat)

  /** The last priority plan sent to a torrent's handle. */
  datatype Plan = Plan(activeFile: Option<nat>, generation: nat)

  /** `idlePaused` is the engine's flag; `paused` records whether this code last
      paused (true) or resumed (false) the torrent successfully. */
  datatype Torrent = Torrent(fileCount: nat, idlePaused: bool, paused: bool, plan: Plan)

  /** For a torrent that is no longer registered, `departed` says whether this code had last
      paused it: the torrent itself may live on in the backend. */
  datatype State = State(
    torrents: map<Hash, Torrent>,
    streams: map<Hash, nat>,
    fileStreams: map<FileKey, nat>,
    leases: map<FileKey, nat>,
    selections: map<Hash, Selection>,
    activeFile: Option<FileKey>,
    generation: nat,
    seeding: bool,
    clock: nat,
    departed: map<Hash, bool>)

  /** A detached task, holding what it captured when it was spawned. */
  datatype Task =
    | Cleanup(key: FileKey, scheduled: Option<nat>)
    | Pause(hash: Hash)
    | ResumeIdle
    | Expired(key: FileKey)

  const LEASE_TTL: nat := 300

  const INITIAL: State := State(map[], map[], map[], map[], map[], None, 0, true, 0, map[])

  // ---------------------------------------------------------------- readings

  function CountOf<K>(m: map<K, nat>, k: K): nat {
    if k in m then m[k] else 0
  }

  /** A lease is active while its expiry lies in the future. */
  predicate LiveAt(s: State, k: FileKey, now: nat) {
    k in s.leases && s.leases[k] > now
  }

  predicate Live(s: State, k: FileKey) {
    LiveAt(s, k, s.clock)
  }

  predicate Multi(s: State, h: Hash) {
    h in s.torrents && s.torrents[h].fileCount > 1
  }

  /** The same torrents are registered, with the same numbers of files. */
  ghost predicate SameRegistry(s: State, r: State) {
    && r.torrents.Keys == s.torrents.Keys
    && forall h :: h in s.torrents ==> r.torrents[h].fileCount == s.torrents[h].fileCount
  }

  /** The selection of the key's torrent names the key's file. */
  predicate Selects(s: State, k: FileKey) {
    k.hash in s.selections && s.selections[k.hash].file == k.idx
  }

  /** The activity test in front of every idle pause. */
  predicate ActiveAt(s: State, h: Hash, now: nat) {
    || CountOf(s.streams, h) > 0
    || (exists k :: k in s.fileStreams && k.hash == h && s.fileStreams[k] > 0)
    || (exists k :: k in s.leases && k.hash == h && LiveAt(s, k, now))
    || h in s.selections
  }

  // ------------------------------------------------------------ building blocks

  function Increment<K>(m: map<K, nat>, k: K): map<K, nat> {
    m[k := CountOf(m, k) + 1]
  }

  /** Saturating decrement; an entry that reaches zero is dropped. */
  function Decrement<K>(m: map<K, nat>, k: K): map<K, nat> {
    if k !in m then m
    else if m[k] <= 1 then m - {k}
    else m[k := m[k] - 1]
  }

  /** Keeps the entries of other torrents and of the one file. */
  function Retain(m: map<FileKey, nat>, h: Hash, f: nat): map<FileKey, nat> {
    map k | k in m && (k.hash != h || k.idx == f) :: m[k]
  }

  function Resumed(t: Torrent, ok: bool): Torrent {
    if ok then t.(idlePaused := false, paused := false) else t
  }

  /** An idle-paused torrent is resumed if its resume succeeds. */
  function Woken(t: Torrent, ok: bool): Torrent {
    if t.idlePaused then Resumed(t, ok) else t
  }

  function WithTorrent(s: State, h: Hash, t: Torrent): (r: State)
    ensures r == s.(torrents := r.torrents)
  {
    s.(torrents := s.torrents[h := t])
  }

  function Reconcile(s: State, h: Hash, active: Option<nat>, generation: nat): (r: State)
    ensures r == s.(torrents := r.torrents)
    ensures SameRegistry(s, r)
  {
    if Multi(s, h) then WithTorrent(s, h, s.torrents[h].(plan := Plan(active, generation)))
    else s
  }

  function SelectedFile(s: State, h: Hash): Option<nat> {
    if h in s.selections then Some(s.selections[h].file) else None
  }

  /** `active_file` moves from the cleaned file to the selection that is left. */
  function Refocus(s: State, k: FileKey): (r: State)
    ensures r == s.(activeFile := r.activeFile)
  {
    if s.activeFile != Some(k) then s
    else s.(activeFile := if k.hash in s.selections
                          then Some(FileKey(k.hash, s.selections[k.hash].file)) else None)
  }

  // ---------------------------------------------------------------- requests

  function ActivateMultifile(s: State, h: Hash, f: nat, resumeOk: bool): (r: State)
    ensures r == s.(torrents := r.torrents, fileStreams := r.fileStreams, leases := r.leases,
                    selections := r.selections, activeFile := r.activeFile, generation := r.generation)
    ensures SameRegistry(s, r)
    ensures r.fileStreams == if Multi(s, h) then Retain(s.fileStreams, h, f) else s.fileStreams
    ensures r.leases == if Multi(s, h) then Retain(s.leases, h, f) else s.leases
  {
    if !Multi(s, h) then s else
      var g := s.generation + 1;
      var t := Resumed(s.torrents[h], resumeOk);
      State(s.torrents[h := t.(plan := Plan(Some(f), g))], s.streams,
            Retain(s.fileStreams, h, f), Retain(s.leases, h, f),
            s.selections[h := Selection(f, g)], Some(FileKey(h, f)), g, s.seeding, s.clock, s.departed)
  }

  /** `firstOk` and `secondOk` are the outcomes of the two resume calls. */
  function ActivateFile(s: State, h: Hash, f: nat, firstOk: bool, secondOk: bool): (r: State)
    ensures r == s.(torrents := r.torrents, fileStreams := r.fileStreams, leases := r.leases,
                    selections := r.selections, activeFile := r.activeFile, generation := r.generation)
    ensures SameRegistry(s, r)
    ensures r.fileStreams == if Multi(s, h) then Retain(s.fileStreams, h, f) else s.fileStreams
    ensures r.leases == if Multi(s, h) then Retain(s.leases, h, f) else s.leases
    ensures r.selections == if Multi(s, h) then s.selections[h := Selection(f, s.generation + 1)]
                            else s.selections
    ensures h in s.torrents ==>
      r.torrents[h] == Resumed(s.torrents[h], firstOk || (Multi(s, h) && secondOk))
                         .(plan := r.torrents[h].plan)
    ensures forall g :: g in s.torrents && g != h ==> r.torrents[g] == s.torrents[g]
  {
    var s1 := if h in s.torrents then WithTorrent(s, h, Resumed(s.torrents[h], firstOk)) else s;
    ActivateMultifile(s1.(activeFile := Some(FileKey(h, f))), h, f, secondOk)
  }

  function StreamStart(s: State, k: FileKey, firstOk: bool, secondOk: bool): (r: State)
    ensures r == s.(torrents := r.torrents, streams := r.streams, fileStreams := r.fileStreams,
                    leases := r.leases, selections := r.selections, activeFile := r.activeFile,
                    generation := r.generation)
    ensures SameRegistry(s, r)
    ensures r.fileStreams == Increment(
              if Multi(s, k.hash) then Retain(s.fileStreams, k.hash, k.idx) else s.fileStreams, k)
  {
    var s1 := ActivateFile(s, k.hash, k.idx, firstOk, secondOk);
    s1.(streams := Increment(s1.streams, k.hash), fileStreams := Increment(s1.fileStreams, k))
  }

  function StreamEnd(s: State, k: FileKey): (r: State)
    ensures r == s.(streams := r.streams, fileStreams := r.fileStreams)
  {
    s.(streams := Decrement(s.streams, k.hash), fileStreams := Decrement(s.fileStreams, k))
  }

  /** The generation a cleanup captures: that of the selection it may clear. */
  function Captured(s: State, k: FileKey): Option<nat> {
    if Selects(s, k) then Some(s.selections[k.hash].generation) else None
  }

  /** The tasks `on_stream_end` leaves behind, given the state it produced. */
  function StreamEndTasks(s: State, k: FileKey): seq<Task> {
    (if CountOf(s.streams, k.hash) == 0 && CountOf(s.fileStreams, k) == 0
     then [Pause(k.hash)] else [])
    + (if CountOf(s.fileStreams, k) == 0 then [Cleanup(k, Captured(s, k))] else [])
  }

  function Refresh(s: State, k: FileKey, firstOk: bool, secondOk: bool): (r: State)
    ensures r == s.(torrents := r.torrents, fileStreams := r.fileStreams, leases := r.leases,
                    selections := r.selections, activeFile := r.activeFile, generation := r.generation)
    ensures SameRegistry(s, r)
    ensures r.fileStreams ==
      if Multi(s, k.hash) then Retain(s.fileStreams, k.hash, k.idx) else s.fileStreams
  {
    var s1 := s.(leases := s.leases[k := s.clock + LEASE_TTL]);
    if k.hash in s.torrents then ActivateFile(s1, k.hash, k.idx, firstOk, secondOk) else s1
  }

  function RefreshExisting(s: State, k: FileKey, firstOk: bool, secondOk: bool): (r: State)
    ensures r == s.(torrents := r.torrents, fileStreams := r.fileStreams, leases := r.leases,
                    selections := r.selections, activeFile := r.activeFile, generation := r.generation)
    ensures SameRegistry(s, r)
  {
    if Live(s, k) then Refresh(s, k, firstOk, secondOk)
    else s.(leases := s.leases - {k})
  }

  function EndHls(s: State, k: FileKey): (r: State)
    ensures r == s.(leases := r.leases)
  {
    s.(leases := s.leases - {k})
  }

  function EndHlsTasks(s: State, k: FileKey): seq<Task> {
    if k in s.leases then [Cleanup(k, Captured(s, k)), Pause(k.hash)] else []
  }

  /** A request that is still resolving metadata wakes an idle-paused torrent. */
  function ResolveMetadata(s: State, h: Hash, resumeOk: bool): (r: State)
    ensures r == s.(torrents := r.torrents)
    ensures SameRegistry(s, r)
  {
    if h in s.torrents then WithTorrent(s, h, Woken(s.torrents[h], resumeOk)) else s
  }

  // ------------------------------------------------------------------- tasks

  function ClearSelection(s: State, k: FileKey): (r: State)
    ensures r == s.(selections := r.selections)
  {
    if Selects(s, k) then s.(selections := s.selections - {k.hash}) else s
  }

  /** Moves `active_file` and the priority plan to whatever selection is left. */
  function Settle(s: State, k: FileKey, fallback: nat): (r: State)
    ensures r == s.(torrents := r.torrents, activeFile := r.activeFile)
    ensures SameRegistry(s, r)
  {
    var generation := if k.hash in s.selections then s.selections[k.hash].generation else fallback;
    Reconcile(Refocus(s, k), k.hash, SelectedFile(s, k.hash), generation)
  }

  function RunCleanup(s: State, k: FileKey, scheduled: Option<nat>): (r: State)
    ensures r == s.(torrents := r.torrents, selections := r.selections, activeFile := r.activeFile)
    ensures SameRegistry(s, r)
  {
    if CountOf(s.fileStreams, k) > 0 || Live(s, k) then s
    else if Selects(s, k) && scheduled != Some(s.selections[k.hash].generation) then s
    else Settle(ClearSelection(s, k), k, if scheduled.Some? then scheduled.value else 0)
  }

  /** The sweep's treatment of one key it found expired earlier. The lease is not
      looked at again. */
  function RunExpired(s: State, k: FileKey): (r: State)
    ensures r == s.(torrents := r.torrents, selections := r.selections, activeFile := r.activeFile)
    ensures SameRegistry(s, r)
  {
    if CountOf(s.fileStreams, k) > 0 then s else Settle(ClearSelection(s, k), k, 0)
  }

  /** The idle pause, shared by the delayed task (`now` is the clock) and by the
      sweep (`now` is when the sweep began). */
  function RunPause(s: State, h: Hash, now: nat, reader: bool, metadata: bool, pauseOk: bool): (r: State)
    ensures r == s.(torrents := r.torrents)
    ensures SameRegistry(s, r)
  {
    if s.seeding || ActiveAt(s, h, now) || h !in s.torrents || reader || !metadata
       || s.torrents[h].idlePaused || !pauseOk
    then s
    else WithTorrent(s, h, s.torrents[h].(idlePaused := true, paused := true))
  }

  /** Seeding was re-enabled: `resumed` are the torrents whose resume succeeds. */
  function RunResumeIdle(s: State, resumed: set<Hash>): (r: State)
    ensures r == s.(torrents := r.torrents)
    ensures SameRegistry(s, r)
  {
    s.(torrents := map h | h in s.torrents :: Woken(s.torrents[h], h in resumed))
  }

  function ExpiredKeys(s: State, now: nat): set<FileKey> {
    set k | k in s.leases && !LiveAt(s, k, now)
  }

  /** The first half of a sweep drops every expired lease at once. */
  function DropExpired(s: State, now: nat): (r: State)
    ensures r == s.(leases := r.leases)
  {
    s.(leases := s.leases - ExpiredKeys(s, now))
  }

  /** The second half of a sweep handles the collected keys one after another. */
  function ExpireAll(s: State, keys: seq<FileKey>): (r: State)
    ensures r == s.(torrents := r.torrents, selections := r.selections, activeFile := r.activeFile)
    ensures SameRegistry(s, r)
    decreases |keys|
  {
    if keys == [] then s else ExpireAll(RunExpired(s, keys[0]), keys[1..])
  }

  /** A torrent leaves the registry. Nothing pauses or resumes it on the way. */
  function Unregister(s: State, h: Hash): (r: State)
    ensures r == s.(torrents := r.torrents, departed := r.departed)
  {
    if h in s.torrents
    then s.(torrents := s.torrents - {h}, departed := s.departed[h := s.torrents[h].paused])
    else s
  }

  /** A torrent enters the registry with a fresh engine, whose flag is not set. */
  function Register(s: State, h: Hash, fileCount: nat): (r: State)
    ensures r == s.(torrents := r.torrents)
  {
    WithTorrent(s, h, Torrent(fileCount, false, h in s.departed && s.departed[h], Plan(None, 0)))
  }

  /** The sweep removes a torrent that nothing refers to any more. */
  function RemoveInactive(s: State, h: Hash, now: nat, reader: bool): (r: State)
    ensures r == s.(torrents := r.torrents, departed := r.departed)
  {
    if reader || ActiveAt(s, h, now) || (s.activeFile.Some? && s.activeFile.value.hash == h)
    then s
    else Unregister(s, h)
  }
}
