/** The playback operations as they are coded: updates in place of the shared maps.
    Each method is proved to compute the state function that `Playback` gives it. */
module PlaybackEngine {
  import opened Common
  import opened Playback
  import opened PlaybackSelection
  import opened PlaybackRuns
  import opened PlaybackFields

  class BackendEngineFs {
    var engines: map<Hash, Torrent>
    var activeStreams: map<Hash, nat>
    var activeFileStreams: map<FileKey, nat>
    var activePlaybackLeases: map<FileKey, nat>
    var activeMultifileFiles: map<Hash, Selection>
    var activeFile: Option<FileKey>
    var priorityGeneration: nat
    var seedingEnabled: bool
    var nowSecs: nat
    /** Whether torrents that are no longer registered were last paused by this code. */
    ghost var departed: map<Hash, bool>

    ghost function View(): State
      reads this
    {
      State(engines, activeStreams, activeFileStreams, activePlaybackLeases,
            activeMultifileFiles, activeFile, priorityGeneration, seedingEnabled, nowSecs, departed)
    }

    constructor ()
      ensures View() == INITIAL
    {
      engines, activeStreams, activeFileStreams := map[], map[], map[];
      activePlaybackLeases, activeMultifileFiles, activeFile := map[], map[], None;
      priorityGeneration, seedingEnabled, nowSecs := 0, true, 0;
      departed := map[];
    }

    method ResumeTorrent(h: Hash, ok: bool)
      requires h in engines
      modifies this`engines
      ensures engines == old(engines)[h := Resumed(old(engines)[h], ok)]
    {
      if ok {
        engines := engines[h := engines[h].(idlePaused := false, paused := false)];
      }
    }

    method ReconcileMultifileEngine(h: Hash, active: Option<nat>, generation: nat) returns (sent: bool)
      requires h in engines
      modifies this`engines
      ensures View() == Reconcile(old(View()), h, active, generation)
      ensures sent == Multi(View(), h)
    {
      if engines[h].fileCount <= 1 {
        return false;
      }
      engines := engines[h := engines[h].(plan := Plan(active, generation))];
      sent := true;
    }

    /** Draws a generation, makes the file the selected one and forgets the other files. */
    method SelectFile(h: Hash, f: nat) returns (generation: nat)
      modifies this`priorityGeneration, this`activeMultifileFiles, this`activePlaybackLeases,
        this`activeFileStreams, this`activeFile
      ensures generation == old(priorityGeneration) + 1
      ensures View() == old(View()).(
        generation := generation, selections := old(activeMultifileFiles)[h := Selection(f, generation)],
        leases := Retain(old(activePlaybackLeases), h, f), fileStreams := Retain(old(activeFileStreams), h, f),
        activeFile := Some(FileKey(h, f)))
    {
      priorityGeneration := priorityGeneration + 1;
      generation := priorityGeneration;
      activeMultifileFiles := activeMultifileFiles[h := Selection(f, generation)];
      activePlaybackLeases := Retain(activePlaybackLeases, h, f);
      activeFileStreams := Retain(activeFileStreams, h, f);
      activeFile := Some(FileKey(h, f));
    }

    method ActivateMultifileFile(h: Hash, f: nat, resumeOk: bool)
      modifies this
      ensures View() == ActivateMultifile(old(View()), h, f, resumeOk)
    {
      if h !in engines || engines[h].fileCount <= 1 {
        return;
      }
      var generation := SelectFile(h, f);
      ResumeTorrent(h, resumeOk);
      var _ := ReconcileMultifileEngine(h, Some(f), generation);
    }

    method ActivateRequestedFile(h: Hash, f: nat, firstOk: bool, secondOk: bool)
      modifies this
      ensures View() == ActivateFile(old(View()), h, f, firstOk, secondOk)
    {
      var isMultifile := false;
      if h in engines {
        isMultifile := engines[h].fileCount > 1;
        ResumeTorrent(h, firstOk);
      }
      activeFile := Some(FileKey(h, f));
      if isMultifile {
        ActivateMultifileFile(h, f, secondOk);
      }
    }

    method OnStreamStart(k: FileKey, firstOk: bool, secondOk: bool)
      modifies this
      ensures View() == StreamStart(old(View()), k, firstOk, secondOk)
    {
      ActivateRequestedFile(k.hash, k.idx, firstOk, secondOk);
      var count := if k.hash in activeStreams then activeStreams[k.hash] else 0;
      activeStreams := activeStreams[k.hash := count + 1];
      var fileCount := if k in activeFileStreams then activeFileStreams[k] else 0;
      activeFileStreams := activeFileStreams[k := fileCount + 1];
    }

    method OnStreamEnd(k: FileKey) returns (spawned: seq<Task>)
      modifies this`activeStreams, this`activeFileStreams
      ensures View() == StreamEnd(old(View()), k)
      ensures spawned == StreamEndTasks(View(), k)
    {
      var hashRemaining := 0;
      if k.hash in activeStreams {
        hashRemaining := if activeStreams[k.hash] > 0 then activeStreams[k.hash] - 1 else 0;
        if hashRemaining == 0 {
          activeStreams := activeStreams - {k.hash};
        } else {
          activeStreams := activeStreams[k.hash := hashRemaining];
        }
      }
      var fileRemaining := 0;
      if k in activeFileStreams {
        fileRemaining := if activeFileStreams[k] > 0 then activeFileStreams[k] - 1 else 0;
        if fileRemaining == 0 {
          activeFileStreams := activeFileStreams - {k};
        } else {
          activeFileStreams := activeFileStreams[k := fileRemaining];
        }
      }
      spawned := [];
      if hashRemaining == 0 && fileRemaining == 0 {
        spawned := spawned + [Pause(k.hash)];
      }
      if fileRemaining == 0 {
        var cleanup := ScheduleFileCleanup(k);
        spawned := spawned + [cleanup];
      }
    }

    method ScheduleFileCleanup(k: FileKey) returns (task: Task)
      ensures task == Cleanup(k, Captured(View(), k))
    {
      var scheduledGeneration: Option<nat> := None;
      if k.hash in activeMultifileFiles && activeMultifileFiles[k.hash].file == k.idx {
        scheduledGeneration := Some(activeMultifileFiles[k.hash].generation);
      }
      task := Cleanup(k, scheduledGeneration);
    }

    method RefreshHlsPlayback(k: FileKey, firstOk: bool, secondOk: bool)
      modifies this
      ensures View() == Refresh(old(View()), k, firstOk, secondOk)
    {
      activePlaybackLeases := activePlaybackLeases[k := nowSecs + LEASE_TTL];
      assert View() == old(View()).(leases := old(activePlaybackLeases)[k := nowSecs + LEASE_TTL]);
      if k.hash in engines {
        ActivateRequestedFile(k.hash, k.idx, firstOk, secondOk);
      }
    }

    method RefreshExistingHlsPlayback(k: FileKey, firstOk: bool, secondOk: bool) returns (refreshed: bool)
      modifies this
      ensures View() == RefreshExisting(old(View()), k, firstOk, secondOk)
      ensures refreshed == Live(old(View()), k)
    {
      refreshed := false;
      if k in activePlaybackLeases {
        if activePlaybackLeases[k] > nowSecs {
          activePlaybackLeases := activePlaybackLeases[k := nowSecs + LEASE_TTL];
          assert View() == old(View()).(leases := old(activePlaybackLeases)[k := nowSecs + LEASE_TTL]);
          refreshed := true;
        } else {
          activePlaybackLeases := activePlaybackLeases - {k};
          assert View() == old(View()).(leases := old(activePlaybackLeases) - {k});
        }
      }
      assert !refreshed ==> View() == RefreshExisting(old(View()), k, firstOk, secondOk);
      if refreshed && k.hash in engines {
        ActivateRequestedFile(k.hash, k.idx, firstOk, secondOk);
      }
    }

    method EndHlsPlayback(k: FileKey) returns (spawned: seq<Task>)
      modifies this`activePlaybackLeases
      ensures View() == EndHls(old(View()), k)
      ensures spawned == EndHlsTasks(old(View()), k)
    {
      var removed := k in activePlaybackLeases;
      activePlaybackLeases := activePlaybackLeases - {k};
      spawned := [];
      if removed {
        var cleanup := ScheduleFileCleanup(k);
        spawned := [cleanup, Pause(k.hash)];
      }
    }

    /** Clears the file's selection and points `active_file` and the priority plan at
        what is left. */
    method ReleaseFile(k: FileKey, fallback: nat)
      modifies this`activeMultifileFiles, this`activeFile, this`engines
      ensures View() == Settle(ClearSelection(old(View()), k), k, fallback)
    {
      var left: Option<Selection> := None;
      if k.hash in activeMultifileFiles {
        if activeMultifileFiles[k.hash].file == k.idx {
          activeMultifileFiles := activeMultifileFiles - {k.hash};
        } else {
          left := Some(activeMultifileFiles[k.hash]);
        }
      }
      if activeFile == Some(k) {
        activeFile := if left.Some? then Some(FileKey(k.hash, left.value.file)) else None;
      }
      if k.hash in engines {
        var _ := ReconcileMultifileEngine(
          k.hash,
          if left.Some? then Some(left.value.file) else None,
          if left.Some? then left.value.generation else fallback);
      }
    }

    method DelayedCleanup(k: FileKey, scheduled: Option<nat>)
      modifies this`activeMultifileFiles, this`activeFile, this`engines
      ensures View() == RunCleanup(old(View()), k, scheduled)
    {
      if k in activeFileStreams && activeFileStreams[k] > 0 {
        return;
      }
      if k in activePlaybackLeases && activePlaybackLeases[k] > nowSecs {
        return;
      }
      if k.hash in activeMultifileFiles && activeMultifileFiles[k.hash].file == k.idx
         && scheduled != Some(activeMultifileFiles[k.hash].generation) {
        return;
      }
      ReleaseFile(k, if scheduled.Some? then scheduled.value else 0);
    }

    /** The sweep's lease pass. The order in which keys are handled is unspecified, so
        the order taken is part of the result. */
    method ExpireLeases(now: nat) returns (order: seq<FileKey>)
      modifies this`activePlaybackLeases, this`activeMultifileFiles, this`activeFile, this`engines
      ensures forall k :: k in order <==> k in ExpiredKeys(old(View()), now)
      ensures forall i, j :: 0 <= i < j < |order| ==> order[i] != order[j]
      ensures View() == ExpireAll(DropExpired(old(View()), now), order)
    {
      ghost var s := DropExpired(View(), now);
      var expired := set k | k in activePlaybackLeases && activePlaybackLeases[k] <= now;
      assert expired == ExpiredKeys(View(), now);
      activePlaybackLeases := activePlaybackLeases - expired;
      order := [];
      var pending := expired;
      while pending != {}
        invariant pending <= expired
        invariant forall k :: k in order <==> k in expired - pending
        invariant forall i, j :: 0 <= i < j < |order| ==> order[i] != order[j]
        invariant View() == ExpireAll(s, order)
        decreases pending
      {
        var k :| k in pending;
        ghost var before := View();
        if !(k in activeFileStreams && activeFileStreams[k] > 0) {
          ReleaseFile(k, 0);
        }
        assert View() == RunExpired(before, k) && k !in order;
        ExpireAllSnoc(s, order, k);
        pending, order := pending - {k}, order + [k];
      }
    }

    method IsActive(h: Hash, now: nat) returns (active: bool)
      ensures active == ActiveAt(View(), h, now)
    {
      var hashActive := h in activeStreams && activeStreams[h] > 0;
      var fileActive :=
        exists k :: k in activeFileStreams && k.hash == h && activeFileStreams[k] > 0;
      var playbackActive :=
        exists k :: k in activePlaybackLeases && k.hash == h && activePlaybackLeases[k] > now;
      var multifileActive := h in activeMultifileFiles;
      active := hashActive || fileActive || playbackActive || multifileActive;
    }

    /** The body of the delayed pause (`now` is the clock) and of the sweep's idle pass. */
    method PauseIfIdle(h: Hash, now: nat, reader: bool, metadata: bool, pauseOk: bool)
      modifies this`engines
      ensures View() == RunPause(old(View()), h, now, reader, metadata, pauseOk)
    {
      if seedingEnabled {
        return;
      }
      var active := IsActive(h, now);
      if active || h !in engines || reader || !metadata || engines[h].idlePaused {
        return;
      }
      engines := engines[h := engines[h].(idlePaused := true)];
      if pauseOk {
        engines := engines[h := engines[h].(paused := true)];
      } else {
        engines := engines[h := engines[h].(idlePaused := false)];
      }
    }

    /** The sweep's idle pass: every engine is judged by the state the pass began in. */
    method PauseIdle(now: nat, readers: set<Hash>, resolved: set<Hash>, pausable: set<Hash>)
      modifies this`engines
      ensures engines == map h | h in old(engines) ::
        Judged(old(View()), h, now, readers, resolved, pausable)
    {
      ghost var s := View();
      var pending := engines.Keys;
      while pending != {}
        invariant pending <= s.torrents.Keys
        invariant View() == s.(torrents := engines) && engines.Keys == s.torrents.Keys
        invariant forall h :: h in pending ==> engines[h] == s.torrents[h]
        invariant forall h :: h in s.torrents && h !in pending ==>
          engines[h] == Judged(s, h, now, readers, resolved, pausable)
        decreases pending
      {
        var h :| h in pending;
        JudgedAlone(s, View(), h, now, readers, resolved, pausable);
        PauseIfIdle(h, now, h in readers, h in resolved, h in pausable);
        pending := pending - {h};
      }
    }

    method SetSeedingEnabled(enabled: bool) returns (spawned: seq<Task>)
      modifies this`seedingEnabled
      ensures View() == old(View()).(seeding := enabled)
      ensures spawned == if enabled then [ResumeIdle] else []
    {
      seedingEnabled := enabled;
      spawned := if enabled then [ResumeIdle] else [];
    }

    method WakeIdle(h: Hash, resumeOk: bool)
      requires h in engines
      modifies this`engines
      ensures engines == old(engines)[h := Woken(old(engines)[h], resumeOk)]
    {
      if engines[h].idlePaused {
        engines := engines[h := engines[h].(idlePaused := false)];
        if resumeOk {
          engines := engines[h := engines[h].(paused := false)];
        } else {
          engines := engines[h := engines[h].(idlePaused := true)];
        }
      }
    }

    /** The work spawned by re-enabled seeding: wakes every torrent that the idle policy had
        paused, and keeps the flag of one whose resume fails. */
    method ResumeAfterSeeding(resumable: set<Hash>)
      modifies this`engines
      ensures View() == RunResumeIdle(old(View()), resumable)
    {
      ghost var was := engines;
      var pending := engines.Keys;
      while pending != {}
        invariant pending <= was.Keys && engines.Keys == was.Keys
        invariant forall h :: h in pending ==> engines[h] == was[h]
        invariant forall h :: h in was && h !in pending ==> engines[h] == Woken(was[h], h in resumable)
        decreases pending
      {
        var h :| h in pending;
        WakeIdle(h, h in resumable);
        pending := pending - {h};
      }
      assert engines == map h | h in was :: Woken(was[h], h in resumable);
    }
  }

  /** What the idle pass makes of one engine. */
  ghost function Judged(s: State, h: Hash, now: nat, readers: set<Hash>, resolved: set<Hash>,
                        pausable: set<Hash>): Torrent
    requires h in s.torrents
  {
    RunPause(s, h, now, h in readers, h in resolved, h in pausable).torrents[h]
  }

  /** Pausing other engines first makes no difference to an engine's judgement. */
  lemma JudgedAlone(s: State, v: State, h: Hash, now: nat, readers: set<Hash>, resolved: set<Hash>,
                    pausable: set<Hash>)
    requires v == s.(torrents := v.torrents) && h in s.torrents && h in v.torrents
    requires v.torrents[h] == s.torrents[h]
    ensures RunPause(v, h, now, h in readers, h in resolved, h in pausable).torrents ==
      v.torrents[h := Judged(s, h, now, readers, resolved, pausable)]
  {
    assert ActiveAt(v, h, now) == ActiveAt(s, h, now);
  }

  lemma {:induction false} ExpireAllSnoc(s: State, keys: seq<FileKey>, k: FileKey)
    ensures ExpireAll(s, keys + [k]) == RunExpired(ExpireAll(s, keys), k)
    decreases |keys|
  {
    if keys == [] {
      assert [k][1..] == [];
    } else {
      assert (keys + [k])[1..] == keys[1..] + [k];
      ExpireAllSnoc(RunExpired(s, keys[0]), keys[1..], k);
    }
  }

  /** A whole lease pass of the sweep, in whatever order it takes the keys, keeps one
      selected file per torrent. */
  lemma ExpireLeasesSelects(s: State, now: nat, order: seq<FileKey>, h: Hash)
    requires OneSelected(s, h) && forall k :: NoZero(s, k)
    requires forall k :: k in order ==> k in ExpiredKeys(s, now)
    ensures OneSelected(ExpireAll(DropExpired(s, now), order), h)
  {
    DropExpiredSelects(s, now, h);
    assert forall k :: NoZero(s, k) ==> NoZero(DropExpired(s, now), k);
    UninterruptedSweep(DropExpired(s, now), order, h);
  }

  /** The sweep's idle pass pauses an engine exactly when seeding is off, nothing is playing on its
      torrent, nobody reads it, its metadata is known and the call succeeds. */
  lemma JudgedExactly(s: State, h: Hash, now: nat, readers: set<Hash>, resolved: set<Hash>, pausable: set<Hash>)
    requires h in s.torrents
    ensures Judged(s, h, now, readers, resolved, pausable) ==
      if !s.seeding && Unused(s, h, now) && h !in readers && h in resolved && h in pausable
         && !s.torrents[h].idlePaused
      then s.torrents[h].(idlePaused := true, paused := true) else s.torrents[h]
  {
    var b := SweepPause(h, now, h in readers, h in resolved, h in pausable);
    PausesAre(s, b, h);
    assert Perform(s, b) == RunPause(s, h, now, h in readers, h in resolved, h in pausable);
  }

  /** The selected file is one of the keys, and nothing streams it. */
  predicate Lapsed(s: State, keys: seq<FileKey>, h: Hash) {
    && h in s.selections && FileKey(h, s.selections[h].file) in keys
    && At(s.fileStreams, FileKey(h, s.selections[h].file)) == 0
  }

  lemma ExpiredClears(s: State, k: FileKey, h: Hash)
    ensures var r := RunExpired(s, k);
      && r.fileStreams == s.fileStreams
      && (h in r.selections <==> h in s.selections && !Lapsed(s, [k], h))
      && (h in r.selections ==> r.selections[h] == s.selections[h])
  {
    assert RunExpired(s, k) == Perform(s, ExpiredWork(k));
    ExpiredFollows(s, ExpiredWork(k), h, k);
    SelectionLapses(s, k, RunExpired(s, k), h);
  }

  lemma SelectionLapses(s: State, k: FileKey, r: State, h: Hash)
    requires SelectionFollows(s, Background(ExpiredWork(k)), r, h)
    ensures h in r.selections <==> h in s.selections && !Lapsed(s, [k], h)
    ensures h in r.selections ==> r.selections[h] == s.selections[h]
  {
  }

  /** The sweep's lease pass clears exactly the selections of files whose lease expired and that
      nothing streams, whatever order it takes them in. */
  lemma {:induction false} LeasePassClears(s: State, keys: seq<FileKey>, h: Hash)
    ensures var r := ExpireAll(s, keys);
      && (h in r.selections <==> h in s.selections && !Lapsed(s, keys, h))
      && (h in r.selections ==> r.selections[h] == s.selections[h])
    decreases |keys|
  {
    if keys != [] {
      var next := RunExpired(s, keys[0]);
      ExpiredClears(s, keys[0], h);
      LeasePassClears(next, keys[1..], h);
      LapsedEither(s, next, keys, h);
    }
  }

  lemma LapsedEither(s: State, next: State, keys: seq<FileKey>, h: Hash)
    requires keys != [] && next.fileStreams == s.fileStreams
    requires h in next.selections <==> h in s.selections && !Lapsed(s, [keys[0]], h)
    requires h in next.selections ==> next.selections[h] == s.selections[h]
    ensures h in next.selections && !Lapsed(next, keys[1..], h) <==> h in s.selections && !Lapsed(s, keys, h)
  {
    assert keys == [keys[0]] + keys[1..];
  }
}
