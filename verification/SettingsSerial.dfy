/** However settings transactions interleave, their effect is that of running the
    committed ones one after another, in the order in which their writes succeeded. */
module SettingsSerial {
  import opened Common
  import opened SettingsProtocol
  import opened SettingsOrder

  /** The persistent and the live settings between two transactions. */
  datatype Pair = Pair(raw: Settings, live: Settings)

  function Apply(p: Pair, k: Kind): Pair {
    Pair(Candidate(k, p.live, p.raw), Proposed(k, p.live))
  }

  /** A serial run of the logged transactions. */
  function Replay(start: Pair, log: seq<Kind>): Pair {
    if log == [] then start else Apply(Replay(start, log[..|log| - 1]), log[|log| - 1])
  }

  function Sequences(log: seq<Kind>): seq<nat> {
    if log == [] then []
    else Sequences(log[..|log| - 1]) + if log[|log| - 1].Tracker? then [log[|log| - 1].sequence] else []
  }

  lemma ReplayOne(start: Pair, log: seq<Kind>, k: Kind)
    ensures Replay(start, log + [k]) == Apply(Replay(start, log), k)
    ensures Sequences(log + [k]) == Sequences(log) + if k.Tracker? then [k.sequence] else []
  {
    assert (log + [k])[..|log|] == log;
  }

  /** Where a transaction inside the lock stands between two states of the serial run. */
  predicate Between(s: System, t: Task, p: Pair) {
    match t.phase
    case Persisting(next, disk) => Pair(s.raw, s.live) == p && Pair(disk, next) == Apply(p, t.kind)
    case Written(next, disk) => Pair(disk, next) == p && (t.kind.Save? ==> next == s.live)
    case Recorded(next) => Pair(s.raw, next) == p
    case _ => Pair(s.raw, s.live) == p
  }

  /** The file is always what the serial run has written; `raw` and `live` follow it,
      except for the one transaction that is inside the lock. */
  ghost predicate Serial(s: System, start: Pair) {
    var p := Replay(start, s.log);
    && Locked(s)
    && s.file == (if s.log == [] then None else Some(p.raw))
    && s.committed == Sequences(s.log)
    && if s.lock.None? then Pair(s.raw, s.live) == p else Between(s, s.tasks[s.lock.value], p)
  }

  /** A write that succeeds is the next step of the serial run. */
  lemma SerialWrite(s: System, id: nat, ok: bool, start: Pair)
    requires CanMove(s, id, Write(ok)) && Serial(s, start)
    ensures Serial(MoveTask(s, id, Write(ok)), start)
  {
    LockedMove(s, id, Write(ok));
    assert s.lock == Some(id);
    if ok {
      ReplayOne(start, s.log, s.tasks[id].kind);
    }
  }

  lemma SerialMove(s: System, id: nat, m: Move, start: Pair)
    requires CanMove(s, id, m) && Serial(s, start)
    ensures Serial(MoveTask(s, id, m), start)
  {
    LockedMove(s, id, m);
    match m
    case Cancel =>
    case Acquire =>
    case Register =>
    case Check =>
    case Write(ok) => SerialWrite(s, id, ok, start);
    case Record =>
    case Publish =>
    case Release =>
    case Finish =>
  }

  lemma SerialStep(s: System, e: Event, start: Pair)
    requires Enabled(s, e) && Serial(s, start)
    ensures Serial(Step(s, e), start)
  {
    LockedStep(s, e);
    match e
    case Call(_) =>
    case CallTracker(_, _) =>
    case Advance(id, m) => SerialMove(s, id, m, start);
    case Close =>
  }

  /** After any interleaving of saves, updates, tracker saves, failed writes, cancelled
      callers and close, the file is what the committed transactions would have written
      one after another, and whenever the lock is free so are `raw` and `live`. */
  lemma {:induction false} CommitsAreSerial(s: System, es: seq<Event>, start: Pair)
    requires Serial(s, start) && Legal(s, es)
    ensures var r := After(s, es);
      && Serial(r, start)
      && r.file == (if r.log == [] then None else Some(Replay(start, r.log).raw))
      && (r.lock.None? ==> Pair(r.raw, r.live) == Replay(start, r.log))
    decreases |es|
  {
    if es != [] {
      SerialStep(s, es[0], start);
      CommitsAreSerial(Step(s, es[0]), es[1..], start);
    }
  }

  lemma StartSerial(raw: Settings, live: Settings)
    ensures Serial(Start(raw, live), Pair(raw, live))
  {
  }

  // ------------------------------------------------------- what a serial run leaves

  predicate Sets(k: Kind, field: string) {
    k.Update? && field in k.changes
  }

  lemma {:induction false} FieldUntouched(start: Pair, log: seq<Kind>, field: string)
    requires forall i :: 0 <= i < |log| ==> !Sets(log[i], field)
    ensures field in Replay(start, log).live.rest <==> field in start.live.rest
    ensures field in start.live.rest ==> Replay(start, log).live.rest[field] == start.live.rest[field]
    decreases |log|
  {
    if log != [] {
      FieldUntouched(start, log[..|log| - 1], field);
      assert !Sets(log[|log| - 1], field);
    }
  }

  /** No update is lost: a field has the value of the last committed update that sets it. */
  lemma {:induction false} LastUpdateWins(start: Pair, log: seq<Kind>, i: nat, field: string)
    requires i < |log| && Sets(log[i], field)
    requires forall j :: i < j < |log| ==> !Sets(log[j], field)
    ensures field in Replay(start, log).live.rest
    ensures Replay(start, log).live.rest[field] == log[i].changes[field]
    decreases |log|
  {
    if i < |log| - 1 {
      LastUpdateWins(start, log[..|log| - 1], i, field);
      assert !Sets(log[|log| - 1], field);
    }
  }

  /** The transaction of the log changes the protected setting, when it is its turn. */
  ghost predicate ChangedAt(start: Pair, log: seq<Kind>, i: nat, p: Protected)
    requires i < |log|
  {
    ChangesIt(log[i], p, Replay(start, log[..i]).live)
  }

  ghost predicate NoneChanges(start: Pair, log: seq<Kind>, from: nat, p: Protected) {
    forall i :: from <= i < |log| ==> !ChangedAt(start, log, i, p)
  }

  lemma PrefixChanges(start: Pair, log: seq<Kind>, p: Protected)
    requires log != []
    ensures var n := |log| - 1; forall i :: 0 <= i < n ==>
      (ChangedAt(start, log[..n], i, p) <==> ChangedAt(start, log, i, p))
  {
    var n := |log| - 1;
    assert forall i :: 0 <= i < n ==> log[..n][..i] == log[..i];
  }

  /** No trusted change is lost: the protected value in `raw`, and so in the file, is that of the
      last committed update that changed it, or the first one if none did. */
  lemma {:induction false} LastChangeWins(start: Pair, log: seq<Kind>, i: nat, p: Protected)
    requires i <= |log| && NoneChanges(start, log, i, p)
    requires i > 0 ==> ChangedAt(start, log, i - 1, p)
    ensures ValueOf(Replay(start, log).raw, p) == if i == 0 then ValueOf(start.raw, p) else Named(log[i - 1], p).value
    decreases |log|
  {
    if log != [] {
      var n := |log| - 1;
      var before := Replay(start, log[..n]);
      ProtectedWritten(log[n], before.live, before.raw, p);
      if i <= n {
        PrefixChanges(start, log, p);
        LastChangeWins(start, log[..n], i, p);
        assert !ChangedAt(start, log, n, p);
      }
    }
  }

  ghost predicate NoneNames(log: seq<Kind>, from: nat, p: Protected) {
    forall i :: from <= i < |log| ==> Named(log[i], p).None?
  }

  /** The live value is that of the last committed update that names it, or the first one. */
  lemma {:induction false} LastNamedIsLive(start: Pair, log: seq<Kind>, i: nat, p: Protected)
    requires i <= |log| && NoneNames(log, i, p) && (i > 0 ==> Named(log[i - 1], p).Some?)
    ensures ValueOf(Replay(start, log).live, p) == if i == 0 then ValueOf(start.live, p) else Named(log[i - 1], p).value
    decreases |log|
  {
    if log != [] {
      var n := |log| - 1;
      var before := Replay(start, log[..n]);
      ProtectedWritten(log[n], before.live, before.raw, p);
      if i <= n {
        LastNamedIsLive(start, log[..n], i, p);
        assert Named(log[n], p).None?;
      }
    }
  }

  /** After any run from the start, whenever the lock is free: the file and `raw` have each
      protected value from the last committed update that changed it, or the first one; and the
      live settings have it from the last one that named it. */
  lemma ProtectedAfterRun(raw: Settings, live: Settings, es: seq<Event>, i: nat, j: nat, p: Protected)
    requires Legal(Start(raw, live), es)
    requires var r := After(Start(raw, live), es);
      && r.lock.None? && i <= |r.log| && NoneChanges(Pair(raw, live), r.log, i, p)
      && (i > 0 ==> ChangedAt(Pair(raw, live), r.log, i - 1, p))
      && j <= |r.log| && NoneNames(r.log, j, p) && (j > 0 ==> Named(r.log[j - 1], p).Some?)
    ensures var r := After(Start(raw, live), es);
      && (r.file.Some? <==> r.log != []) && (r.file.Some? ==> r.file.value == r.raw)
      && ValueOf(r.raw, p) == (if i == 0 then ValueOf(raw, p) else Named(r.log[i - 1], p).value)
      && ValueOf(r.live, p) == (if j == 0 then ValueOf(live, p) else Named(r.log[j - 1], p).value)
  {
    var s, start := Start(raw, live), Pair(raw, live);
    StartSerial(raw, live);
    CommitsAreSerial(s, es, start);
    var r := After(s, es);
    assert Pair(r.raw, r.live) == Replay(start, r.log);
    LastChangeWins(start, r.log, i, p);
    LastNamedIsLive(start, r.log, j, p);
  }

  lemma {:induction false} SequenceLogged(log: seq<Kind>, i: nat)
    requires i < |log| && log[i].Tracker?
    ensures log[i].sequence in Sequences(log)
    decreases |log|
  {
    if i < |log| - 1 {
      SequenceLogged(log[..|log| - 1], i);
    }
  }

  lemma LaterIsNewer(log: seq<Kind>, i: nat)
    requires i < |log| - 1 && log[i].Tracker? && log[|log| - 1].Tracker? && Increasing(Sequences(log))
    ensures log[|log| - 1].sequence in Sequences(log) && log[i].sequence < log[|log| - 1].sequence
  {
    var ns, older := Sequences(log), Sequences(log[..|log| - 1]);
    assert ns == older + [log[|log| - 1].sequence];
    SequenceLogged(log[..|log| - 1], i);
    var j :| 0 <= j < |older| && older[j] == log[i].sequence;
    assert ns[j] == older[j] && ns[|older|] == log[|log| - 1].sequence;
  }

  /** With increasing sequences, the last tracker save of the log is the newest one. */
  lemma {:induction false} NewestTrackers(start: Pair, log: seq<Kind>, i: nat)
    requires i < |log| && log[i].Tracker? && Increasing(Sequences(log))
    requires forall n :: n in Sequences(log) ==> n <= log[i].sequence
    ensures var live := Replay(start, log).live;
      live.trackers == log[i].trackers && live.trackersUpdated == log[i].timestamp
    decreases |log|
  {
    var front, last := log[..|log| - 1], log[|log| - 1];
    if i < |log| - 1 {
      if last.Tracker? {
        LaterIsNewer(log, i);
        assert false;
      } else {
        assert Sequences(log) == Sequences(front);
        NewestTrackers(start, front, i);
      }
    }
  }

  /** After any run from the start, whenever the lock is free the live trackers are those
      of the committed save with the largest sequence, however the saves overtook each other. */
  lemma LiveTrackersNewest(raw: Settings, live: Settings, es: seq<Event>, i: nat)
    requires SameUnprotected(raw, live) && Legal(Start(raw, live), es)
    requires var r := After(Start(raw, live), es);
      && r.lock.None? && i < |r.log| && r.log[i].Tracker?
      && forall n :: n in r.committed ==> n <= r.log[i].sequence
    ensures var r := After(Start(raw, live), es);
      r.live.trackers == r.log[i].trackers && r.live.trackersUpdated == r.log[i].timestamp
  {
    var s := Start(raw, live);
    StartCoherent(raw, live);
    StartSerial(raw, live);
    CommitsIncrease(s, es);
    CommitsAreSerial(s, es, Pair(raw, live));
    NewestTrackers(Pair(raw, live), After(s, es).log, i);
  }
}
