/** Tracker ordering, closing and draining of the settings protocol. */
module SettingsOrder {
  import opened SettingsProtocol

  lemma UsedOnceMove(s: System, id: nat, m: Move)
    requires CanMove(s, id, m) && Ordered(s)
    ensures SequencesUsedOnce(MoveTask(s, id, m))
  {
    var r := MoveTask(s, id, m);
    assert forall i :: 0 <= i < |s.tasks| ==> r.tasks[i].kind == s.tasks[i].kind;
    assert Uncommitted(r.tasks[id].phase) ==>
      r.committed == s.committed && (r.tasks[id].kind.Tracker? ==> Uncommitted(s.tasks[id].phase));
  }

  lemma LatestMove(s: System, id: nat, m: Move)
    requires CanMove(s, id, m) && Ordered(s)
    ensures LatestIsAdmitted(MoveTask(s, id, m))
  {
    var r := MoveTask(s, id, m);
    assert forall i :: 0 <= i < |s.tasks| ==> r.tasks[i].kind == s.tasks[i].kind;
  }

  lemma OrderedMove(s: System, id: nat, m: Move)
    requires CanMove(s, id, m) && Ordered(s)
    ensures Ordered(MoveTask(s, id, m))
  {
    LockedStep(s, Advance(id, m));
    UsedOnceMove(s, id, m);
    LatestMove(s, id, m);
    var r := MoveTask(s, id, m);
    if r.committed != s.committed {
      assert s.tasks[id].phase.Persisting? && s.tasks[id].kind.Tracker?;
      assert forall i :: 0 <= i < |s.committed| ==> s.committed[i] in s.committed;
    }
  }

  lemma OrderedStep(s: System, e: Event)
    requires Enabled(s, e) && Ordered(s)
    ensures Ordered(Step(s, e))
  {
    match e
    case Advance(id, m) => OrderedMove(s, id, m);
    case Call(_) => LockedStep(s, e);
    case CallTracker(_, _) => LockedStep(s, e);
    case Close => LockedStep(s, e);
  }

  /** Over every run the sequences of committed tracker saves strictly increase, so no
      save overwrites a newer committed one. */
  lemma {:induction false} CommitsIncrease(s: System, es: seq<Event>)
    requires Ordered(s) && Legal(s, es)
    ensures Ordered(After(s, es)) && Increasing(After(s, es).committed)
    decreases |es|
  {
    if es != [] {
      OrderedStep(s, es[0]);
      CommitsIncrease(Step(s, es[0]), es[1..]);
    }
  }

  /** A tracker save passes its check exactly when it is the newest admitted one, so a
      save rejected at close makes none stale. */
  lemma NewestPasses(s: System, id: nat)
    requires Ordered(s) && CanMove(s, id, Check)
    ensures MoveTask(s, id, Check).tasks[id].phase.Persisting? <==>
              forall n :: n in s.admitted ==> n <= s.tasks[id].kind.sequence
    ensures MoveTask(s, id, Check).tasks[id].phase.Persisting? <==>
              s.tasks[id].kind.sequence == s.gate.latest
  {
  }

  /** Once a sequence has been admitted, no older save passes its check again, whether
      the newer one commits, fails or is still waiting. */
  lemma {:induction false} OlderNeverRevives(s: System, es: seq<Event>)
    requires Legal(s, es)
    ensures s.gate.latest <= After(s, es).gate.latest
    ensures s.passed <= After(s, es).passed
    ensures forall i :: |s.passed| <= i < |After(s, es).passed| ==> After(s, es).passed[i] >= s.gate.latest
    decreases |es|
  {
    if es != [] {
      OlderNeverRevives(Step(s, es[0]), es[1..]);
    }
  }

  // ------------------------------------------------------------ close and drain

  lemma {:induction false} ActiveTasksMove(ts: seq<Task>, i: nat, t: Task)
    requires i < |ts|
    ensures ActiveTasks(ts[i := t]) ==
      ActiveTasks(ts) - (if Admitted(ts[i].phase) then 1 else 0) + (if Admitted(t.phase) then 1 else 0)
    decreases |ts|
  {
    var n := |ts| - 1;
    if i < n {
      assert ts[i := t][..n] == ts[..n][i := t];
      ActiveTasksMove(ts[..n], i, t);
    } else {
      assert ts[i := t][..n] == ts[..n];
    }
  }

  lemma ActiveTasksArrive(ts: seq<Task>, t: Task)
    ensures ActiveTasks(ts + [t]) == ActiveTasks(ts) + (if Admitted(t.phase) then 1 else 0)
  {
    assert (ts + [t])[..|ts|] == ts;
  }

  /** A lower bound that keeps the gate's counter from underflowing. */
  lemma {:induction false} ActiveTasksPositive(ts: seq<Task>, i: nat)
    requires i < |ts| && Admitted(ts[i].phase)
    ensures ActiveTasks(ts) > 0
    decreases |ts|
  {
    if i < |ts| - 1 {
      ActiveTasksPositive(ts[..|ts| - 1], i);
    }
  }

  lemma CountedStep(s: System, e: Event)
    requires Enabled(s, e) && Counted(s)
    ensures Counted(Step(s, e))
  {
    var r := Step(s, e);
    match e
    case Call(_) => ActiveTasksArrive(s.tasks, r.tasks[|s.tasks|]);
    case CallTracker(_, _) => ActiveTasksArrive(s.tasks, r.tasks[|s.tasks|]);
    case Advance(id, _) => CountedAdvance(s, e);
    case Close =>
  }

  lemma CountedAdvance(s: System, e: Event)
    requires e.Advance? && Enabled(s, e) && Counted(s)
    ensures Counted(Step(s, e))
  {
    var r := Step(s, e);
    ActiveTasksMove(s.tasks, e.id, r.tasks[e.id]);
    assert r.tasks == s.tasks[e.id := r.tasks[e.id]];
  }

  /** Over every run the active count is the number of admitted unfinished tasks. */
  lemma {:induction false} ActiveCountExact(s: System, es: seq<Event>)
    requires Counted(s) && Legal(s, es)
    ensures Counted(After(s, es))
    decreases |es|
  {
    if es != [] {
      CountedStep(s, es[0]);
      ActiveCountExact(Step(s, es[0]), es[1..]);
    }
  }

  /** After close the gate stays shut: whatever is admitted later was admitted already. */
  lemma {:induction false} NothingAdmittedAfterClose(s: System, es: seq<Event>)
    requires s.gate.closed && Legal(s, es)
    ensures var r := After(s, es);
      && r.gate.closed && r.admitted == s.admitted && |s.tasks| <= |r.tasks|
      && (forall i :: 0 <= i < |r.tasks| && Admitted(r.tasks[i].phase) ==>
            i < |s.tasks| && Admitted(s.tasks[i].phase))
    decreases |es|
  {
    if es != [] {
      NothingAdmittedAfterClose(Step(s, es[0]), es[1..]);
    }
  }

  function Distance(p: Phase): nat {
    match p
    case Queued => 9
    case Drawn => 9
    case Holding => 8
    case Waiting => 8
    case Checking => 7
    case Persisting(_, _) => 6
    case Written(_, _) => 5
    case Recorded(_) => 4
    case Releasing => 3
    case Finishing => 2
    case Done => 0
  }

  /** How many steps the tasks still have in them, at most. */
  function Remaining(ts: seq<Task>): nat {
    if ts == [] then 0 else Remaining(ts[..|ts| - 1]) + Distance(ts[|ts| - 1].phase)
  }

  lemma {:induction false} RemainingMove(ts: seq<Task>, i: nat, t: Task)
    requires i < |ts|
    ensures Remaining(ts[i := t]) == Remaining(ts) - Distance(ts[i].phase) + Distance(t.phase)
    decreases |ts|
  {
    var n := |ts| - 1;
    if i < n {
      assert ts[i := t][..n] == ts[..n][i := t];
      RemainingMove(ts[..n], i, t);
    } else {
      assert ts[i := t][..n] == ts[..n];
    }
  }

  lemma DistanceDrops(s: System, id: nat, m: Move)
    requires CanMove(s, id, m)
    ensures Distance(MoveTask(s, id, m).tasks[id].phase) < Distance(s.tasks[id].phase)
  {
  }

  /** Every step of a task brings it nearer its end; only arrivals add work. */
  lemma RemainingStep(s: System, e: Event)
    requires Enabled(s, e)
    ensures Arrival(e) ==> Remaining(Step(s, e).tasks) == Remaining(s.tasks) + 9
    ensures e.Close? ==> Remaining(Step(s, e).tasks) == Remaining(s.tasks)
    ensures !Arrival(e) && !e.Close? ==> Remaining(Step(s, e).tasks) < Remaining(s.tasks)
  {
    var r := Step(s, e);
    match e
    case Call(_) => assert r.tasks[..|s.tasks|] == s.tasks;
    case CallTracker(_, _) => assert r.tasks[..|s.tasks|] == s.tasks;
    case Advance(id, m) =>
      DistanceDrops(s, id, m);
      RemainingMove(s.tasks, id, r.tasks[id]);
    case Close =>
  }

  function Arrivals(es: seq<Event>): nat {
    if es == [] then 0 else (if Arrival(es[0]) then 1 else 0) + Arrivals(es[1..])
  }

  function TaskSteps(es: seq<Event>): nat {
    if es == [] then 0
    else (if Arrival(es[0]) || es[0].Close? then 0 else 1) + TaskSteps(es[1..])
  }

  /** A run takes at most as many task steps as its tasks had left plus nine for each
      caller that arrived, so draining cannot go on for ever. */
  lemma {:induction false} RunsAreBounded(s: System, es: seq<Event>)
    requires Legal(s, es)
    ensures TaskSteps(es) + Remaining(After(s, es).tasks) <= Remaining(s.tasks) + 9 * Arrivals(es)
    decreases |es|
  {
    if es != [] {
      RemainingStep(s, es[0]);
      RunsAreBounded(Step(s, es[0]), es[1..]);
    }
  }

  /** The next step of a transaction, if it can take one now. */
  function NextMove(p: Phase): Move {
    match p
    case Queued => Acquire
    case Waiting => Acquire
    case Drawn => Register
    case Holding => Register
    case Checking => Check
    case Persisting(_, _) => Write(true)
    case Written(_, _) => Record
    case Recorded(_) => Publish
    case Releasing => Release
    case Finishing => Finish
    case Done => Cancel
  }

  lemma {:induction false} SomeAdmitted(ts: seq<Task>) returns (i: nat)
    requires ActiveTasks(ts) > 0
    ensures i < |ts| && Admitted(ts[i].phase)
    decreases |ts|
  {
    if Admitted(ts[|ts| - 1].phase) {
      i := |ts| - 1;
    } else {
      i := SomeAdmitted(ts[..|ts| - 1]);
    }
  }

  /** While an admitted task is unfinished some task can take a step, whoever holds the
      lock; with no active task left, every admitted task has finished and a drain of
      the closed coordinator returns. */
  lemma DrainProgress(s: System) returns (id: nat)
    requires Locked(s) && Counted(s) && s.gate.active > 0
    ensures id < |s.tasks| && CanMove(s, id, NextMove(s.tasks[id].phase))
  {
    if s.lock.Some? {
      id := s.lock.value;
    } else {
      id := SomeAdmitted(s.tasks);
    }
  }

  /** Draining waits for the active count to reach zero, and that is exactly when no
      admitted task is unfinished. */
  lemma DrainedExactly(s: System)
    requires Counted(s)
    ensures s.gate.active == 0 <==> forall i :: 0 <= i < |s.tasks| ==> !Admitted(s.tasks[i].phase)
  {
    forall i | 0 <= i < |s.tasks| && Admitted(s.tasks[i].phase)
      ensures s.gate.active > 0
    {
      ActiveTasksPositive(s.tasks, i);
    }
    if s.gate.active > 0 {
      var i := SomeAdmitted(s.tasks);
    }
  }
}
