/** Selections and delayed cleanups at the grain of single map and counter accesses.

    Drawing a generation and storing the selection are separate steps here, so any
    number of activations may be in flight at once and may store in any order. */
module SelectionGenerations {
  import opened Common
  import opened Playback

  /** A delayed cleanup with the generation it captured and when it did so. */
  datatype Scheduled = Scheduled(key: FileKey, captured: Option<nat>, at: nat)

  /** `drawn` holds the activations that have a generation but no selection yet;
      `storedAt` is when each current selection was stored, and `newest` is the last
      generation drawn for each torrent. */
  datatype Machine = Machine(
    counter: nat,
    drawn: map<nat, FileKey>,
    selections: map<Hash, Selection>,
    storedAt: map<Hash, nat>,
    cleanups: set<Scheduled>,
    newest: map<Hash, nat>,
    time: nat)

  /** A cleanup that finds its file in use is skipped. */
  datatype Action =
    | Draw(key: FileKey)
    | Store(generation: nat)
    | Schedule(key: FileKey)
    | Clean(cleanup: Scheduled)
    | Skip(cleanup: Scheduled)
    | Expire(key: FileKey)

  const IDLE: Machine := Machine(0, map[], map[], map[], {}, map[], 0)

  predicate Possible(m: Machine, a: Action) {
    match a
    case Store(g) => g in m.drawn
    case Clean(c) => c in m.cleanups
    case Skip(c) => c in m.cleanups
    case _ => true
  }

  predicate Names(m: Machine, k: FileKey) {
    k.hash in m.selections && m.selections[k.hash].file == k.idx
  }

  /** Whether running the cleanup would remove the torrent's current selection. */
  predicate Removes(m: Machine, c: Scheduled) {
    Names(m, c.key) && c.captured == Some(m.selections[c.key.hash].generation)
  }

  function Forget(m: Machine, h: Hash): Machine {
    m.(selections := m.selections - {h}, storedAt := m.storedAt - {h})
  }

  function Act(m: Machine, a: Action): Machine
    requires Possible(m, a)
  {
    var n := m.(time := m.time + 1);
    match a
    case Draw(k) =>
      n.(counter := m.counter + 1, drawn := m.drawn[m.counter + 1 := k],
         newest := m.newest[k.hash := m.counter + 1])
    case Store(g) =>
      var k := m.drawn[g];
      n.(drawn := m.drawn - {g}, selections := m.selections[k.hash := Selection(k.idx, g)],
         storedAt := m.storedAt[k.hash := m.time])
    case Schedule(k) =>
      var captured := if Names(m, k) then Some(m.selections[k.hash].generation) else None;
      n.(cleanups := m.cleanups + {Scheduled(k, captured, m.time)})
    case Clean(c) =>
      var left := n.(cleanups := m.cleanups - {c});
      if Removes(m, c) then Forget(left, c.key.hash) else left
    case Skip(c) => n.(cleanups := m.cleanups - {c})
    case Expire(k) => if Names(m, k) then Forget(n, k.hash) else n
  }

  predicate Playable(m: Machine, acts: seq<Action>)
    decreases |acts|
  {
    acts == [] || (Possible(m, acts[0]) && Playable(Act(m, acts[0]), acts[1..]))
  }

  function Outcome(m: Machine, acts: seq<Action>): Machine
    requires Playable(m, acts)
    decreases |acts|
  {
    if acts == [] then m else Outcome(Act(m, acts[0]), acts[1..])
  }

  /** Drawn generations are still unused, used ones are never drawn again, and a
      cleanup matches only a selection stored before the cleanup was scheduled. */
  ghost predicate Ordered(m: Machine) {
    && (forall g :: g in m.drawn ==> g <= m.counter)
    && m.storedAt.Keys == m.selections.Keys
    && (forall h :: h in m.selections ==>
          && m.selections[h].generation <= m.counter
          && m.selections[h].generation !in m.drawn
          && m.storedAt[h] < m.time)
    && (forall c :: c in m.cleanups && c.captured.Some? ==>
          && c.captured.value <= m.counter
          && c.captured.value !in m.drawn
          && (Removes(m, c) ==> m.storedAt[c.key.hash] < c.at))
  }

  lemma OrderedAct(m: Machine, a: Action)
    requires Possible(m, a) && Ordered(m)
    ensures Ordered(Act(m, a))
  {
  }

  lemma {:induction false} OrderedAlways(m: Machine, acts: seq<Action>)
    requires Ordered(m) && Playable(m, acts)
    ensures Ordered(Outcome(m, acts))
    decreases |acts|
  {
    if acts != [] {
      OrderedAct(m, acts[0]);
      OrderedAlways(Act(m, acts[0]), acts[1..]);
    }
  }

  /** Under any interleaving, running a cleanup leaves alone every selection that was
      stored after the cleanup was scheduled, even one of the same file. */
  lemma StaleCleanupSpares(acts: seq<Action>, c: Scheduled, h: Hash)
    requires Playable(IDLE, acts)
    requires var m := Outcome(IDLE, acts);
      c in m.cleanups && h in m.selections && h in m.storedAt && m.storedAt[h] >= c.at
    ensures var m := Outcome(IDLE, acts);
      h in Act(m, Clean(c)).selections && Act(m, Clean(c)).selections[h] == m.selections[h]
  {
    OrderedAlways(IDLE, acts);
  }

  /** Every selection carries the last generation drawn for its torrent. */
  ghost predicate NewestSelected(m: Machine) {
    forall h :: h in m.selections ==> h in m.newest && m.selections[h].generation == m.newest[h]
  }

  /** Some activation of the torrent has drawn and not stored yet. */
  ghost predicate Underway(m: Machine, h: Hash) {
    exists g :: g in m.drawn && m.drawn[g].hash == h
  }

  /** A torrent with no activation under way has the selection of its newest one, if any. */
  ghost predicate NewestWhenCalm(m: Machine) {
    forall h :: h in m.selections && !Underway(m, h) ==>
      h in m.newest && m.selections[h].generation == m.newest[h]
  }

  /** The store ends its torrent's activations, and a later one has drawn. */
  ghost predicate Overtaken(m: Machine, a: Action) {
    && a.Store? && a.generation in m.drawn
    && var h := m.drawn[a.generation].hash;
    && (forall g :: g in m.drawn && m.drawn[g].hash == h ==> g == a.generation)
    && !(h in m.newest && m.newest[h] == a.generation)
  }

  /** One store keeps that, on a torrent with a selection or without one, exactly when it
      is not overtaken. */
  lemma StoreExactly(m: Machine, g: nat)
    requires g in m.drawn && NewestWhenCalm(m)
    ensures NewestWhenCalm(Act(m, Store(g))) <==>
      var h := m.drawn[g].hash;
      (exists other :: other in m.drawn && other != g && m.drawn[other].hash == h) ||
      (h in m.newest && m.newest[h] == g)
  {
    var h, r := m.drawn[g].hash, Act(m, Store(g));
    assert h in r.selections && r.selections[h].generation == g && r.newest == m.newest;
    if other :| other in m.drawn && other != g && m.drawn[other].hash == h {
      assert other in r.drawn && Underway(r, h);
    }
    forall i | i != h && Underway(m, i) ensures Underway(r, i) {
      var d :| d in m.drawn && m.drawn[d].hash == i;
      assert d in r.drawn;
    }
  }

  lemma CalmStep(m: Machine, a: Action)
    requires Possible(m, a) && Ordered(m) && NewestWhenCalm(m)
    ensures NewestWhenCalm(Act(m, a)) <==> !Overtaken(m, a)
  {
    if a.Store? {
      StoreExactly(m, a.generation);
    } else {
      StaysUnderway(m, a);
    }
  }

  lemma StaysUnderway(m: Machine, a: Action)
    requires Possible(m, a) && Ordered(m) && !a.Store?
    ensures forall h :: Underway(m, h) || (a.Draw? && h == a.key.hash) ==> Underway(Act(m, a), h)
  {
    var r := Act(m, a);
    forall h | Underway(m, h) ensures Underway(r, h) {
      var g :| g in m.drawn && m.drawn[g].hash == h;
      assert g in r.drawn && r.drawn[g] == m.drawn[g];
    }
    if a.Draw? {
      assert m.counter + 1 in r.drawn;
    }
  }

  ghost predicate CalmThroughout(m: Machine, acts: seq<Action>)
    requires Playable(m, acts)
    decreases |acts|
  {
    NewestWhenCalm(m) && (acts != [] ==> CalmThroughout(Act(m, acts[0]), acts[1..]))
  }

  ghost predicate NeverOvertaken(m: Machine, acts: seq<Action>)
    requires Playable(m, acts)
    decreases |acts|
  {
    acts != [] ==> !Overtaken(m, acts[0]) && NeverOvertaken(Act(m, acts[0]), acts[1..])
  }

  /** Over every run from the start, with any activations in flight: a torrent at rest always
      has the selection of its newest activation if and only if no store is overtaken. */
  lemma NewestExactly(acts: seq<Action>)
    requires Playable(IDLE, acts)
    ensures CalmThroughout(IDLE, acts) <==> NeverOvertaken(IDLE, acts)
  {
    CalmRun(IDLE, acts);
  }

  lemma {:induction false} CalmRun(m: Machine, acts: seq<Action>)
    requires Ordered(m) && NewestWhenCalm(m) && Playable(m, acts)
    ensures CalmThroughout(m, acts) <==> NeverOvertaken(m, acts)
    decreases |acts|
  {
    if acts != [] {
      CalmStep(m, acts[0]);
      OrderedAct(m, acts[0]);
      if Overtaken(m, acts[0]) {
        assert !NewestWhenCalm(Act(m, acts[0])) && !CalmThroughout(Act(m, acts[0]), acts[1..]);
      } else {
        CalmRun(Act(m, acts[0]), acts[1..]);
      }
    }
  }

  /** Every activation stores as soon as it has drawn. */
  ghost predicate Undisturbed(m: Machine, acts: seq<Action>)
    decreases |acts|
  {
    if acts == [] then true
    else if acts[0].Draw? then
      |acts| > 1 && acts[1] == Store(m.counter + 1) &&
      Undisturbed(Act(Act(m, acts[0]), acts[1]), acts[2..])
    else !acts[0].Store? && Possible(m, acts[0]) && Undisturbed(Act(m, acts[0]), acts[1..])
  }

  /** With draw and store as one step, the selection always carries the newest generation. */
  lemma {:induction false} AtomicActivationsNewest(m: Machine, acts: seq<Action>)
    requires NewestSelected(m) && Undisturbed(m, acts)
    ensures Playable(m, acts) && NewestSelected(Outcome(m, acts))
    decreases |acts|
  {
    if acts != [] {
      if acts[0].Draw? {
        var m1 := Act(m, acts[0]);
        AtomicActivationsNewest(Act(m1, acts[1]), acts[2..]);
        assert acts[1..][0] == acts[1] && acts[1..][1..] == acts[2..];
        assert Playable(m1, acts[1..]) && Outcome(m1, acts[1..]) == Outcome(Act(m1, acts[1]), acts[2..]);
      } else {
        AtomicActivationsNewest(Act(m, acts[0]), acts[1..]);
      }
    }
  }

  /** At this grain the stored selection need not be the newest: two activations can
      store in the opposite order to the one in which they drew. */
  const OVERTAKING: seq<Action> := [Draw(FileKey("a", 1)), Draw(FileKey("a", 2)), Store(2), Store(1)]

  lemma NewestNotAlwaysSelected()
    ensures Playable(IDLE, OVERTAKING)
    ensures var m := Outcome(IDLE, OVERTAKING);
      && m.drawn == map[] && m.selections["a"] == Selection(1, 1) && m.counter == 2
      && !NewestWhenCalm(m)
  {
    var m1 := Act(IDLE, OVERTAKING[0]);
    var m2 := Act(m1, OVERTAKING[1]);
    var m3 := Act(m2, OVERTAKING[2]);
    var m4 := Act(m3, OVERTAKING[3]);
    assert m4.drawn == map[] && "a" in m4.selections && !Underway(m4, "a") && m4.newest["a"] == 2;
    assert OVERTAKING[3..] == [OVERTAKING[3]] && OVERTAKING[3..][1..] == [];
    assert Playable(m3, OVERTAKING[3..]) && Outcome(m3, OVERTAKING[3..]) == m4;
    assert OVERTAKING[2..][1..] == OVERTAKING[3..];
    assert Playable(m2, OVERTAKING[2..]) && Outcome(m2, OVERTAKING[2..]) == m4;
    assert OVERTAKING[1..][1..] == OVERTAKING[2..];
  }
}
