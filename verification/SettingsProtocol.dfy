/** The settings transaction protocol: explicit saves, settings updates and tracker
    saves run as tasks that share one lock, one admission gate and one file. */
module SettingsProtocol {
  import opened Common

  /** `rest` holds the fields that no step of the protocol treats specially, by name. */
  datatype Settings = Settings(
    privateSources: bool,
    invalidTls: bool,
    trackers: seq<string>,
    trackersUpdated: int,
    rest: map<string, int>)

  predicate SameUnprotected(a: Settings, b: Settings) {
    a.trackers == b.trackers && a.trackersUpdated == b.trackersUpdated && a.rest == b.rest
  }

  predicate SameProtected(a: Settings, b: Settings) {
    a.privateSources == b.privateSources && a.invalidTls == b.invalidTls
  }

  /** What goes to disk: the live settings under the protected values of `raw`. */
  function PreserveProtected(live: Settings, raw: Settings): (disk: Settings)
    ensures SameUnprotected(disk, live) && SameProtected(disk, raw)
  {
    live.(privateSources := raw.privateSources, invalidTls := raw.invalidTls)
  }

  datatype Kind =
    | Save
    | Update(privateSources: Option<bool>, invalidTls: Option<bool>, changes: map<string, int>, trusted: bool)
    | Tracker(sequence: nat, trackers: seq<string>, timestamp: int)

  /** How far a task has come. From `Queued` and `Holding` a caller can still be
      cancelled; from `Waiting` and `Persisting` on it runs detached. */
  datatype Phase =
    | Queued
    | Drawn
    | Holding
    | Waiting
    | Checking
    | Persisting(next: Settings, disk: Settings)
    | Written(next: Settings, disk: Settings)
    | Recorded(next: Settings)
    | Releasing
    | Finishing
    | Done

  datatype Task = Task(kind: Kind, phase: Phase)

  /** The supervisor's admission gate and the two counters beside it. */
  datatype Gate = Gate(closed: bool, latest: nat, nextSequence: nat, active: nat)

  /** `file` is what was written since the start, if anything. `admitted`, `passed`
      and `committed` record tracker sequences: those the gate let in, those that
      passed the staleness check, and those whose write succeeded, in order. `log`
      holds every transaction whose write succeeded, in the order of the writes. */
  datatype System = System(
    raw: Settings,
    live: Settings,
    file: Option<Settings>,
    lock: Option<nat>,
    tasks: seq<Task>,
    gate: Gate,
    admitted: set<nat>,
    passed: seq<nat>,
    committed: seq<nat>,
    log: seq<Kind>)

  function Start(raw: Settings, live: Settings): System {
    System(raw, live, None, None, [], Gate(false, 0, 0, 0), {}, [], [], [])
  }

  // -------------------------------------------------------------------- gate

  function DrawSequence(g: Gate): Gate {
    g.(nextSequence := g.nextSequence + 1)
  }

  /** Admission while the gate is open; a tracker save raises the newest sequence. */
  function Admit(g: Gate, sequence: Option<nat>): Gate {
    g.(latest := if sequence.Some? && sequence.value > g.latest then sequence.value else g.latest,
       active := g.active + 1)
  }

  function Leave(g: Gate): Gate
    requires g.active > 0
  {
    g.(active := g.active - 1)
  }

  // ------------------------------------------------------------- transactions

  /** An untrusted caller may not change a protected value. */
  predicate Forbidden(k: Kind, live: Settings) {
    && k.Update? && !k.trusted
    && ((k.privateSources.Some? && k.privateSources.value != live.privateSources)
        || (k.invalidTls.Some? && k.invalidTls.value != live.invalidTls))
  }

  function Chosen(value: Option<bool>, current: bool): bool {
    if value.Some? then value.value else current
  }

  /** The settings a transaction will publish, computed under the lock. */
  function Proposed(k: Kind, live: Settings): Settings {
    match k
    case Save => live
    case Update(p, t, changes, _) =>
      live.(privateSources := Chosen(p, live.privateSources),
            invalidTls := Chosen(t, live.invalidTls), rest := live.rest + changes)
    case Tracker(_, trackers, timestamp) =>
      live.(trackers := trackers, trackersUpdated := timestamp)
  }

  /** The settings it will write: protected values come from `raw` unless this very
      update changes them. */
  function Candidate(k: Kind, live: Settings, raw: Settings): Settings {
    var next := Proposed(k, live);
    if k.Update? then
      next.(privateSources := if next.privateSources != live.privateSources then next.privateSources
                              else raw.privateSources,
            invalidTls := if next.invalidTls != live.invalidTls then next.invalidTls
                          else raw.invalidTls)
    else PreserveProtected(next, raw)
  }

  // -------------------------------------------------------------------- steps

  datatype Move =
    | Cancel
    | Acquire
    | Register
    | Check
    | Write(ok: bool)
    | Record
    | Publish
    | Release
    | Finish

  datatype Event =
    | Call(kind: Kind)
    | CallTracker(trackers: seq<string>, timestamp: int)
    | Advance(id: nat, move: Move)
    | Close

  predicate Arrival(e: Event) {
    e.Call? || e.CallTracker?
  }

  predicate CanMove(s: System, id: nat, m: Move) {
    id < |s.tasks| &&
    var p := s.tasks[id].phase;
    match m
    case Cancel => p.Queued? || p.Holding?
    case Acquire => s.lock.None? && (p.Queued? || p.Waiting?)
    case Register => p.Drawn? || p.Holding?
    case Check => p.Checking? && s.tasks[id].kind.Tracker?
    case Write(_) => p.Persisting?
    case Record => p.Written?
    case Publish => p.Recorded?
    case Release => p.Releasing?
    case Finish => p.Finishing? && s.gate.active > 0
  }

  predicate Enabled(s: System, e: Event) {
    match e
    case Call(k) => !k.Tracker?
    case CallTracker(_, _) => true
    case Advance(id, m) => CanMove(s, id, m)
    case Close => true
  }

  function Moved(s: System, id: nat, phase: Phase): System
    requires id < |s.tasks|
  {
    s.(tasks := s.tasks[id := Task(s.tasks[id].kind, phase)])
  }

  /** A task leaves without being admitted, letting go of the lock if it holds it. */
  function Abandoned(s: System, id: nat): System
    requires id < |s.tasks|
  {
    var r := Moved(s, id, Done);
    if s.tasks[id].phase.Holding? then r.(lock := None) else r
  }

  function Registered(s: System, id: nat): System
    requires id < |s.tasks| && (s.tasks[id].phase.Drawn? || s.tasks[id].phase.Holding?)
  {
    var k := s.tasks[id].kind;
    if s.gate.closed || (s.tasks[id].phase.Holding? && Forbidden(k, s.live)) then Abandoned(s, id)
    else if s.tasks[id].phase.Holding? then
      Moved(s, id, Persisting(Proposed(k, s.live), Candidate(k, s.live, s.raw)))
        .(gate := Admit(s.gate, None))
    else
      var sequence := if k.Tracker? then Some(k.sequence) else None;
      Moved(s, id, Waiting).(
        gate := Admit(s.gate, sequence),
        admitted := if k.Tracker? then s.admitted + {k.sequence} else s.admitted)
  }

  function Checked(s: System, id: nat): System
    requires id < |s.tasks| && s.tasks[id].kind.Tracker?
  {
    var k := s.tasks[id].kind;
    if k.sequence < s.gate.latest then Moved(s, id, Releasing)
    else
      Moved(s, id, Persisting(Proposed(k, s.live), Candidate(k, s.live, s.raw)))
        .(passed := s.passed + [k.sequence])
  }

  function WriteDone(s: System, id: nat, ok: bool): System
    requires id < |s.tasks| && s.tasks[id].phase.Persisting?
  {
    var Task(k, Persisting(next, disk)) := s.tasks[id];
    if !ok then Moved(s, id, Releasing)
    else
      Moved(s, id, Written(next, disk)).(
        file := Some(disk),
        log := s.log + [k],
        committed := if k.Tracker? then s.committed + [k.sequence] else s.committed)
  }

  function MoveTask(s: System, id: nat, m: Move): (r: System)
    requires CanMove(s, id, m)
    ensures |r.tasks| == |s.tasks| && r.tasks[id].kind == s.tasks[id].kind
    ensures r.tasks == s.tasks[id := r.tasks[id]]
    ensures r.gate.closed == s.gate.closed && r.gate.nextSequence == s.gate.nextSequence
  {
    match m
    case Cancel => Abandoned(s, id)
    case Acquire =>
      Moved(s, id, if s.tasks[id].phase.Queued? then Holding else Checking).(lock := Some(id))
    case Register => Registered(s, id)
    case Check => Checked(s, id)
    case Write(ok) => WriteDone(s, id, ok)
    case Record =>
      var Task(k, Written(next, disk)) := s.tasks[id];
      Moved(s, id, if k.Save? then Releasing else Recorded(next)).(raw := disk)
    case Publish => Moved(s, id, Releasing).(live := s.tasks[id].phase.next)
    case Release => Moved(s, id, Finishing).(lock := None)
    case Finish => Moved(s, id, Done).(gate := Leave(s.gate))
  }

  function Step(s: System, e: Event): System
    requires Enabled(s, e)
  {
    match e
    case Call(k) => s.(tasks := s.tasks + [Task(k, Queued)])
    case CallTracker(trackers, timestamp) =>
      var gate := DrawSequence(s.gate);
      s.(gate := gate,
         tasks := s.tasks + [Task(Tracker(gate.nextSequence, trackers, timestamp), Drawn)])
    case Advance(id, m) => MoveTask(s, id, m)
    case Close => s.(gate := s.gate.(closed := true))
  }

  predicate Legal(s: System, es: seq<Event>)
    decreases |es|
  {
    es == [] || (Enabled(s, es[0]) && Legal(Step(s, es[0]), es[1..]))
  }

  function After(s: System, es: seq<Event>): System
    requires Legal(s, es)
    decreases |es|
  {
    if es == [] then s else After(Step(s, es[0]), es[1..])
  }

  // ---------------------------------------------------------- lock discipline

  predicate HoldsLock(p: Phase) {
    p.Holding? || p.Checking? || p.Persisting? || p.Written? || p.Recorded? || p.Releasing?
  }

  predicate Admitted(p: Phase) {
    p.Waiting? || p.Checking? || p.Persisting? || p.Written? || p.Recorded? || p.Releasing?
    || p.Finishing?
  }

  predicate WellKinded(t: Task) {
    && (t.phase.Drawn? || t.phase.Waiting? || t.phase.Checking? ==> t.kind.Tracker?)
    && (t.phase.Queued? || t.phase.Holding? ==> !t.kind.Tracker?)
    && (t.phase.Recorded? ==> !t.kind.Save?)
  }

  ghost predicate Locked(s: System) {
    && (s.lock.Some? ==> s.lock.value < |s.tasks|)
    && (forall i :: 0 <= i < |s.tasks| ==>
          WellKinded(s.tasks[i]) && (HoldsLock(s.tasks[i].phase) <==> s.lock == Some(i)))
  }

  lemma LockedMove(s: System, id: nat, m: Move)
    requires CanMove(s, id, m) && Locked(s)
    ensures Locked(MoveTask(s, id, m))
  {
    match m
    case Cancel =>
    case Acquire =>
    case Register =>
    case Check =>
    case Write(_) =>
    case Record =>
    case Publish =>
    case Release =>
    case Finish =>
  }

  lemma LockedStep(s: System, e: Event)
    requires Enabled(s, e) && Locked(s)
    ensures Locked(Step(s, e))
  {
    match e
    case Call(_) =>
    case CallTracker(_, _) =>
    case Advance(id, m) => LockedMove(s, id, m);
    case Close =>
  }

  // ---------------------------------------------------------------- agreement

  /** The file holds `raw` once anything was written, and `raw` and `live` differ at
      most in protected values. */
  predicate Synced(s: System) {
    (s.file.Some? ==> s.file.value == s.raw) && SameUnprotected(s.raw, s.live)
  }

  /** What holds while a task is inside the lock, by phase. */
  predicate Underway(s: System, t: Task) {
    match t.phase
    case Persisting(next, disk) =>
      Synced(s) && SameUnprotected(disk, next) && (t.kind.Save? ==> next == s.live)
    case Written(next, disk) =>
      && s.file == Some(disk) && SameUnprotected(disk, next)
      && (t.kind.Save? ==> next == s.live)
    case Recorded(next) => s.file == Some(s.raw) && SameUnprotected(s.raw, next)
    case _ => Synced(s)
  }

  ghost predicate Coherent(s: System) {
    Locked(s) && if s.lock.None? then Synced(s) else Underway(s, s.tasks[s.lock.value])
  }

  lemma CoherentMove(s: System, id: nat, m: Move)
    requires CanMove(s, id, m) && Coherent(s)
    ensures Coherent(MoveTask(s, id, m))
  {
    LockedMove(s, id, m);
    match m
    case Cancel =>
    case Acquire =>
    case Register =>
    case Check =>
    case Write(_) =>
    case Record =>
    case Publish =>
    case Release =>
    case Finish =>
  }

  lemma CoherentStep(s: System, e: Event)
    requires Enabled(s, e) && Coherent(s)
    ensures Coherent(Step(s, e))
  {
    LockedStep(s, e);
    match e
    case Call(_) =>
    case CallTracker(_, _) =>
    case Advance(id, m) => CoherentMove(s, id, m);
    case Close =>
  }

  /** After any interleaving of saves, updates, tracker saves, failed writes,
      cancelled callers and close: whenever the lock is free the file equals `raw`
      once anything was written, and `raw` agrees with `live` on unprotected fields. */
  lemma {:induction false} FreeLockMeansSynced(s: System, es: seq<Event>)
    requires Coherent(s) && Legal(s, es)
    ensures Coherent(After(s, es))
    ensures After(s, es).lock.None? ==> Synced(After(s, es))
    decreases |es|
  {
    if es != [] {
      CoherentStep(s, es[0]);
      FreeLockMeansSynced(Step(s, es[0]), es[1..]);
    }
  }

  lemma StartCoherent(raw: Settings, live: Settings)
    requires SameUnprotected(raw, live)
    ensures Coherent(Start(raw, live)) && Ordered(Start(raw, live)) && Counted(Start(raw, live))
  {
  }

  // --------------------------------------------------------- protected values

  /** The two protected settings. */
  datatype Protected = PrivateSources | InvalidTls

  function ValueOf(s: Settings, p: Protected): bool {
    match p
    case PrivateSources => s.privateSources
    case InvalidTls => s.invalidTls
  }

  /** The value that an update names for a protected setting. */
  function Named(k: Kind, p: Protected): Option<bool> {
    match k
    case Update(private, tls, _, _) =>
      (match p
       case PrivateSources => private
       case InvalidTls => tls)
    case _ => None
  }

  /** The transaction names a value that differs from the live one. */
  predicate ChangesIt(k: Kind, p: Protected, live: Settings) {
    Named(k, p).Some? && Named(k, p).value != ValueOf(live, p)
  }

  /** A transaction writes the protected values that it changes, and `raw`'s otherwise; it makes
      live the values that it names, and keeps the others. */
  lemma ProtectedWritten(k: Kind, live: Settings, raw: Settings, p: Protected)
    ensures ValueOf(Candidate(k, live, raw), p) ==
      if ChangesIt(k, p, live) then Named(k, p).value else ValueOf(raw, p)
    ensures ValueOf(Proposed(k, live), p) ==
      if Named(k, p).Some? then Named(k, p).value else ValueOf(live, p)
  {
  }

  /** Nothing but an update that is not trusted and changes a protected value is refused. */
  lemma RefusedExactly(k: Kind, live: Settings)
    ensures Forbidden(k, live) <==> k.Update? && !k.trusted && exists p :: ChangesIt(k, p, live)
  {
    assert k.Update? ==> (ChangesIt(k, PrivateSources, live) || ChangesIt(k, InvalidTls, live) <==>
      exists p :: ChangesIt(k, p, live));
  }

  /** A caller gets in exactly while the gate is open and its update is not refused; a write that
      succeeds is in the file and in the log, and one that fails leaves both alone. */
  lemma ProgressExactly(s: System, id: nat, m: Move)
    requires CanMove(s, id, m) && (m.Register? || m.Write?)
    ensures var t, r := s.tasks[id], MoveTask(s, id, m);
      && (m.Register? ==>
           if s.gate.closed || (t.phase.Holding? && Forbidden(t.kind, s.live))
           then r.tasks[id].phase.Done? && r.gate == s.gate
           else r.tasks[id].phase == (if t.phase.Drawn? then Waiting else
                  Persisting(Proposed(t.kind, s.live), Candidate(t.kind, s.live, s.raw))))
      && (m.Write? ==>
           && r.file == (if m.ok then Some(t.phase.disk) else s.file)
           && r.log == (if m.ok then s.log + [t.kind] else s.log)
           && r.tasks[id].phase == if m.ok then Written(t.phase.next, t.phase.disk) else Releasing)
  {
  }

  /** The transaction may change protected values in `raw`. */
  predicate Privileged(k: Kind) {
    k.Update? && k.trusted && (k.privateSources.Some? || k.invalidTls.Some?)
  }

  ghost predicate Guarded(s: System, initial: Settings) {
    && SameProtected(s.raw, initial)
    && (forall i :: 0 <= i < |s.tasks| ==> !Privileged(s.tasks[i].kind))
    && (forall i :: 0 <= i < |s.tasks| && s.tasks[i].phase.Persisting? ==>
          SameProtected(s.tasks[i].phase.disk, initial))
    && (forall i :: 0 <= i < |s.tasks| && s.tasks[i].phase.Written? ==>
          SameProtected(s.tasks[i].phase.disk, initial))
  }

  lemma GuardedStep(s: System, e: Event, initial: Settings)
    requires Enabled(s, e) && Guarded(s, initial)
    requires e.Call? ==> !Privileged(e.kind)
    ensures Guarded(Step(s, e), initial)
  {
  }

  /** Without a trusted update that names a protected field, no interleaving changes
      the protected values of `raw`, whatever environment overrides `live` carries. */
  lemma {:induction false} ProtectedValuesKept(s: System, es: seq<Event>, initial: Settings)
    requires Guarded(s, initial) && Legal(s, es)
    requires forall i :: 0 <= i < |es| && es[i].Call? ==> !Privileged(es[i].kind)
    ensures SameProtected(After(s, es).raw, initial)
    decreases |es|
  {
    if es != [] {
      GuardedStep(s, es[0], initial);
      ProtectedValuesKept(Step(s, es[0]), es[1..], initial);
    }
  }

  // ------------------------------------------------------------ tracker order

  /** A tracker task whose write is still to come. */
  predicate Uncommitted(p: Phase) {
    p.Drawn? || p.Waiting? || p.Checking? || p.Persisting?
  }

  predicate Increasing(xs: seq<nat>) {
    forall i, j :: 0 <= i < j < |xs| ==> xs[i] < xs[j]
  }

  ghost predicate SequencesUsedOnce(s: System) {
    && (forall i :: 0 <= i < |s.tasks| && s.tasks[i].kind.Tracker? ==>
          s.tasks[i].kind.sequence <= s.gate.nextSequence)
    && (forall i, j :: 0 <= i < j < |s.tasks| && s.tasks[i].kind.Tracker? && s.tasks[j].kind.Tracker? ==>
          s.tasks[i].kind.sequence != s.tasks[j].kind.sequence)
    && (forall i :: 0 <= i < |s.tasks| && s.tasks[i].kind.Tracker? && Uncommitted(s.tasks[i].phase) ==>
          s.tasks[i].kind.sequence !in s.committed)
  }

  /** `latest` is the largest admitted sequence: a rejected one never counts. */
  ghost predicate LatestIsAdmitted(s: System) {
    && (s.gate.latest == 0 || s.gate.latest in s.admitted) && s.gate.latest <= s.gate.nextSequence
    && (forall n :: n in s.admitted ==> n <= s.gate.latest)
    && (forall i :: 0 <= i < |s.tasks| && s.tasks[i].kind.Tracker? && Admitted(s.tasks[i].phase) ==>
          s.tasks[i].kind.sequence in s.admitted)
    && (forall i :: 0 <= i < |s.tasks| && s.tasks[i].kind.Tracker? && s.tasks[i].phase.Drawn? ==>
          s.tasks[i].kind.sequence !in s.admitted)
  }

  ghost predicate Ordered(s: System) {
    && Locked(s) && SequencesUsedOnce(s) && LatestIsAdmitted(s)
    && Increasing(s.committed)
    && (forall n :: n in s.committed ==> n <= s.gate.latest && n <= s.gate.nextSequence)
    && (forall i :: 0 <= i < |s.tasks| && s.tasks[i].kind.Tracker? && s.tasks[i].phase.Persisting? ==>
          forall n :: n in s.committed ==> n < s.tasks[i].kind.sequence)
  }

  // ------------------------------------------------------------ close and drain

  function ActiveTasks(ts: seq<Task>): nat {
    if ts == [] then 0
    else ActiveTasks(ts[..|ts| - 1]) + (if Admitted(ts[|ts| - 1].phase) then 1 else 0)
  }

  ghost predicate Counted(s: System) {
    s.gate.active == ActiveTasks(s.tasks)
  }
}
