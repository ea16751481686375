/** Concurrent callers that share one probe per file through single-use cells. */
module SingleFlight {
  import opened Common

  /** A probe's result. Only a ready one may be cached; a hash is always ready. */
  datatype Outcome = Ready(value: int) | Incomplete(value: int) | Failed(message: string)

  datatype Cell = Cell(file: nat, value: Option<Outcome>)

  /** Where a caller stands: after the cache lookup, waiting on a cell or filling it, holding
      the result, past the clean-up of the in-flight map, and done. */
  datatype Phase =
    | Looked
    | Waiting(cell: nat)
    | Probing(cell: nat)
    | Received(cell: nat)
    | Tidied(cell: nat)
    | Finished(source: Option<nat>, outcome: Outcome)

  /** A caller, the file it asks for, and when it looked into the cache. */
  datatype Caller = Caller(file: nat, phase: Phase, looked: nat)

  datatype State = State(
    cache: map<nat, Outcome>,
    inflight: map<nat, nat>,
    cells: seq<Cell>,
    callers: map<nat, Caller>,
    now: nat,
    stored: map<nat, nat>)

  datatype Event =
    | Look(who: nat, file: nat)
    | Join(who: nat)
    | StartProbe(who: nat)
    | EndProbe(who: nat, outcome: Outcome)
    | Receive(who: nat)
    | Tidy(who: nat)
    | Store(who: nat)
    | Cancel(who: nat)

  function Start(): State {
    State(map[], map[], [], map[], 0, map[])
  }

  predicate HasCell(p: Phase) {
    p.Waiting? || p.Probing? || p.Received? || p.Tidied?
  }

  /** The cell hands its value to everybody, and lets one caller at a time fill it. */
  predicate Allowed(s: State, e: Event) {
    if e.Look? then e.who !in s.callers else
      && e.who in s.callers
      && var c := s.callers[e.who];
      match e
      case Join(_) => c.phase.Looked?
      case StartProbe(_) =>
        && c.phase.Waiting? && c.phase.cell < |s.cells| && s.cells[c.phase.cell].value.None?
        && forall w :: w in s.callers ==> s.callers[w].phase != Probing(c.phase.cell)
      case EndProbe(_, _) => c.phase.Probing? && c.phase.cell < |s.cells|
      case Receive(_) => c.phase.Waiting? && c.phase.cell < |s.cells| && s.cells[c.phase.cell].value.Some?
      case Tidy(_) => c.phase.Received?
      case Store(_) => c.phase.Tidied? && c.phase.cell < |s.cells| && s.cells[c.phase.cell].value.Some?
      case Cancel(_) => true
  }

  function Moved(s: State, who: nat, phase: Phase): (r: State)
    requires who in s.callers
    ensures r == s.(callers := r.callers)
  {
    s.(callers := s.callers[who := s.callers[who].(phase := phase)])
  }

  function Looks(s: State, who: nat, file: nat): (r: State)
    ensures r == s.(callers := r.callers)
  {
    var phase := if file in s.cache && s.cache[file].Ready? then Finished(None, s.cache[file]) else Looked;
    s.(callers := s.callers[who := Caller(file, phase, s.now)])
  }

  function Joins(s: State, who: nat): (r: State)
    requires who in s.callers
    ensures r == s.(callers := r.callers, cells := r.cells, inflight := r.inflight)
  {
    var file := s.callers[who].file;
    if file in s.inflight then Moved(s, who, Waiting(s.inflight[file]))
    else
      var made := s.(inflight := s.inflight[file := |s.cells|], cells := s.cells + [Cell(file, None)]);
      Moved(made, who, Waiting(|s.cells|))
  }

  function Ends(s: State, who: nat, outcome: Outcome): (r: State)
    requires who in s.callers && s.callers[who].phase.Probing? && s.callers[who].phase.cell < |s.cells|
    ensures r == s.(callers := r.callers, cells := r.cells)
  {
    var cell := s.callers[who].phase.cell;
    Moved(s.(cells := s.cells[cell := s.cells[cell].(value := Some(outcome))]), who, Received(cell))
  }

  function Tidies(s: State, who: nat): (r: State)
    requires who in s.callers && s.callers[who].phase.Received?
    ensures r == s.(callers := r.callers, inflight := r.inflight)
  {
    var Caller(file, phase, _) := s.callers[who];
    var left := if file in s.inflight && s.inflight[file] == phase.cell then s.inflight - {file} else s.inflight;
    Moved(s.(inflight := left), who, Tidied(phase.cell))
  }

  function Stores(s: State, who: nat): (r: State)
    requires who in s.callers && s.callers[who].phase.Tidied? && s.callers[who].phase.cell < |s.cells|
    requires s.cells[s.callers[who].phase.cell].value.Some?
    ensures r == s.(callers := r.callers, cache := r.cache, stored := r.stored)
  {
    var Caller(file, phase, _) := s.callers[who];
    var outcome := s.cells[phase.cell].value.value;
    var kept := if outcome.Ready? then s.(
      cache := s.cache[file := outcome],
      stored := if file in s.stored then s.stored else s.stored[file := s.now]) else s;
    Moved(kept, who, Finished(Some(phase.cell), outcome))
  }

  function Acted(s: State, e: Event): (r: State)
    requires Allowed(s, e)
    ensures r.now == s.now
  {
    match e
    case Look(who, file) => Looks(s, who, file)
    case Join(who) => Joins(s, who)
    case StartProbe(who) => Moved(s, who, Probing(s.callers[who].phase.cell))
    case EndProbe(who, outcome) => Ends(s, who, outcome)
    case Receive(who) => Moved(s, who, Received(s.callers[who].phase.cell))
    case Tidy(who) => Tidies(s, who)
    case Store(who) => Stores(s, who)
    case Cancel(who) => s.(callers := s.callers - {who})
  }

  function Step(s: State, e: Event): State
    requires Allowed(s, e)
  {
    Acted(s, e).(now := s.now + 1)
  }

  // ---------------------------------------------------------------------- the invariant

  /** A cell that has no value yet is the one in the map for its file. */
  ghost predicate CellsPlaced(s: State) {
    && (forall f :: f in s.inflight ==> s.inflight[f] < |s.cells| && s.cells[s.inflight[f]].file == f)
    && (forall c :: 0 <= c < |s.cells| && s.cells[c].value.None? ==>
      s.cells[c].file in s.inflight && s.inflight[s.cells[c].file] == c)
  }

  predicate CallerSound(s: State, c: Caller) {
    && c.looked <= s.now
    && (HasCell(c.phase) ==> c.phase.cell < |s.cells| && s.cells[c.phase.cell].file == c.file)
    && (c.phase.Probing? ==> s.cells[c.phase.cell].value.None?)
    && (c.phase.Received? || c.phase.Tidied? ==> s.cells[c.phase.cell].value.Some?)
    && (c.phase.Finished? && c.phase.source.Some? ==>
      c.phase.source.value < |s.cells| && s.cells[c.phase.source.value] == Cell(c.file, Some(c.phase.outcome)))
  }

  ghost predicate CallersSound(s: State) {
    forall w :: w in s.callers ==> CallerSound(s, s.callers[w])
  }

  predicate SamePlace(a: Caller, b: Caller) {
    a.phase.Probing? && a.phase == b.phase
  }

  /** At most one caller fills a cell. */
  ghost predicate OneFiller(s: State) {
    forall v, w :: v in s.callers && w in s.callers && SamePlace(s.callers[v], s.callers[w]) ==> v == w
  }

  ghost predicate CacheReady(s: State) {
    && s.cache.Keys == s.stored.Keys
    && (forall f :: f in s.cache ==> s.cache[f].Ready? && s.stored[f] <= s.now)
    && (forall w :: w in s.callers && s.callers[w].file in s.stored && !s.callers[w].phase.Finished? ==>
      s.callers[w].looked <= s.stored[s.callers[w].file])
  }

  ghost predicate Sound(s: State) {
    CellsPlaced(s) && CallersSound(s) && OneFiller(s) && CacheReady(s)
  }

  lemma JoinPlaced(s: State, who: nat)
    requires CellsPlaced(s) && Allowed(s, Join(who))
    ensures CellsPlaced(Joins(s, who))
  {
  }

  lemma EndPlaced(s: State, who: nat, outcome: Outcome)
    requires CellsPlaced(s) && Allowed(s, EndProbe(who, outcome))
    ensures CellsPlaced(Ends(s, who, outcome))
  {
  }

  lemma TidyPlaced(s: State, who: nat)
    requires CellsPlaced(s) && CallersSound(s) && Allowed(s, Tidy(who))
    ensures CellsPlaced(Tidies(s, who))
  {
    assert CallerSound(s, s.callers[who]);
  }

  lemma CellsStep(s: State, e: Event)
    requires CellsPlaced(s) && CallersSound(s) && Allowed(s, e)
    ensures CellsPlaced(Step(s, e))
  {
    match e
    case Look(who, file) =>
    case Join(who) => JoinPlaced(s, who);
    case StartProbe(who) =>
    case EndProbe(who, outcome) => EndPlaced(s, who, outcome);
    case Receive(who) =>
    case Tidy(who) => TidyPlaced(s, who);
    case Store(who) =>
    case Cancel(who) =>
  }

  /** Cells only gain a value, and only the caller that fills a cell gives it one. */
  lemma CallersStep(s: State, e: Event)
    requires CellsPlaced(s) && CallersSound(s) && OneFiller(s) && Allowed(s, e)
    ensures CallersSound(Step(s, e))
  {
    var r := Step(s, e);
    forall w | w in r.callers ensures CallerSound(r, r.callers[w]) {
      if w in s.callers {
        assert CallerSound(s, s.callers[w]);
      }
      if e.EndProbe? && w != e.who {
        assert !SamePlace(s.callers[e.who], s.callers[w]);
      }
    }
  }

  lemma FillerStep(s: State, e: Event)
    requires OneFiller(s) && Allowed(s, e)
    ensures OneFiller(Step(s, e))
  {
    match e
    case Look(who, file) =>
    case Join(who) =>
    case StartProbe(who) =>
    case EndProbe(who, outcome) =>
    case Receive(who) =>
    case Tidy(who) =>
    case Store(who) =>
    case Cancel(who) =>
  }

  lemma CacheStep(s: State, e: Event)
    requires CallersSound(s) && CacheReady(s) && Allowed(s, e)
    ensures CacheReady(Step(s, e))
  {
    match e
    case Look(who, file) =>
    case Join(who) =>
    case StartProbe(who) =>
    case EndProbe(who, outcome) =>
    case Receive(who) =>
    case Tidy(who) =>
    case Store(who) => CacheStore(s, who);
    case Cancel(who) =>
  }

  lemma CacheStore(s: State, who: nat)
    requires CallersSound(s) && CacheReady(s) && Allowed(s, Store(who))
    ensures CacheReady(Step(s, Store(who)))
  {
    forall w | w in s.callers ensures s.callers[w].looked <= s.now {
      assert CallerSound(s, s.callers[w]);
    }
  }

  lemma SoundStep(s: State, e: Event)
    requires Sound(s) && Allowed(s, e)
    ensures Sound(Step(s, e))
  {
    CellsStep(s, e);
    CallersStep(s, e);
    FillerStep(s, e);
    CacheStep(s, e);
  }

  // ----------------------------------------------------------------------- whole runs

  ghost predicate Run(s: State, events: seq<Event>, end: State)
    decreases |events|
  {
    if events == [] then s == end
    else Allowed(s, events[0]) && Run(Step(s, events[0]), events[1..], end)
  }

  lemma {:induction false} SoundAlways(s: State, events: seq<Event>, end: State)
    requires Sound(s) && Run(s, events, end)
    ensures Sound(end)
    decreases |events|
  {
    if events != [] {
      SoundStep(s, events[0]);
      SoundAlways(Step(s, events[0]), events[1..], end);
    }
  }

  ghost predicate Reachable(s: State) {
    exists events :: Run(Start(), events, s)
  }

  lemma ReachableSound(s: State)
    requires Reachable(s)
    ensures Sound(s)
  {
    var events :| Run(Start(), events, s);
    SoundAlways(Start(), events, s);
  }

  predicate Probes(s: State, w: nat, file: nat) {
    w in s.callers && s.callers[w].file == file && s.callers[w].phase.Probing?
  }

  lemma ProbesMapped(s: State, w: nat, file: nat)
    requires CellsPlaced(s) && CallersSound(s) && Probes(s, w, file)
    ensures file in s.inflight && s.callers[w].phase == Probing(s.inflight[file])
  {
    assert CallerSound(s, s.callers[w]);
  }

  /** In every reachable state at most one caller probes a given file. */
  lemma OneProbePerFile(s: State, file: nat, v: nat, w: nat)
    requires Reachable(s) && Probes(s, v, file) && Probes(s, w, file)
    ensures v == w
  {
    ReachableSound(s);
    ProbesMapped(s, v, file);
    ProbesMapped(s, w, file);
    assert SamePlace(s.callers[v], s.callers[w]);
  }

  lemma CellKept(s: State, e: Event, c: nat)
    requires CallersSound(s) && Allowed(s, e) && c < |s.cells|
    ensures c < |Step(s, e).cells| && Step(s, e).cells[c].file == s.cells[c].file
    ensures s.cells[c].value.Some? ==> Step(s, e).cells[c] == s.cells[c]
  {
    if e.EndProbe? {
      assert CallerSound(s, s.callers[e.who]);
    }
  }

  /** A lookup is answered with what the cache holds for the file, if that is ready, and goes on
      to the cells otherwise. */
  lemma LookExactly(s: State, who: nat, file: nat)
    requires Allowed(s, Look(who, file))
    ensures var r := Step(s, Look(who, file));
      && r.cache == s.cache && r.cells == s.cells && r.inflight == s.inflight && who in r.callers
      && r.callers[who].file == file
      && r.callers[who].phase ==
        if file in s.cache && s.cache[file].Ready? then Finished(None, s.cache[file]) else Looked
  {
  }

  /** A cell keeps its file, and its value once it has one. */
  lemma {:induction false} CellsLast(s: State, events: seq<Event>, end: State, c: nat)
    requires Sound(s) && Run(s, events, end) && c < |s.cells|
    ensures c < |end.cells| && end.cells[c].file == s.cells[c].file
    ensures s.cells[c].value.Some? ==> end.cells[c] == s.cells[c]
    decreases |events|
  {
    if events != [] {
      SoundStep(s, events[0]);
      CellKept(s, events[0], c);
      CellsLast(Step(s, events[0]), events[1..], end, c);
    }
  }

  /** Callers that shared a cell were given the same result, however far apart they finished. */
  lemma SharersAgree(s: State, more: seq<Event>, end: State, v: nat, w: nat, c: nat)
    requires Reachable(s) && Run(s, more, end)
    requires v in s.callers && s.callers[v].phase.Finished? && s.callers[v].phase.source == Some(c)
    requires w in end.callers && end.callers[w].phase.Finished? && end.callers[w].phase.source == Some(c)
    ensures s.callers[v].file == end.callers[w].file
    ensures s.callers[v].phase.outcome == end.callers[w].phase.outcome
  {
    ReachableSound(s);
    SoundAlways(s, more, end);
    assert CallerSound(s, s.callers[v]) && CallerSound(end, end.callers[w]);
    CellsLast(s, more, end, c);
  }

  /** While a cell has no value it stays in the map, whoever finishes late: nobody can start a
      second probe beside it. */
  lemma UnfilledCellStays(s: State, more: seq<Event>, end: State, c: nat)
    requires Reachable(s) && Run(s, more, end)
    requires c < |s.cells| && c < |end.cells| && end.cells[c].value.None?
    ensures s.cells[c].file in s.inflight && s.inflight[s.cells[c].file] == c
    ensures end.cells[c].file == s.cells[c].file
    ensures s.cells[c].file in end.inflight && end.inflight[s.cells[c].file] == c
  {
    ReachableSound(s);
    SoundAlways(s, more, end);
    CellsLast(s, more, end, c);
  }

  /** The cache holds only ready results, and a caller that looks after one was stored never
      probes: a probe beside a cached result belongs to a caller that had looked before. */
  lemma CachedSparesProbes(s: State, file: nat, w: nat)
    requires Reachable(s) && file in s.cache
    ensures s.cache[file].Ready? && file in s.stored
    ensures Probes(s, w, file) ==> s.callers[w].looked <= s.stored[file]
  {
    ReachableSound(s);
  }

  // ------------------------------------------------------- one successful probe per file

  predicate ReadyCell(s: State, c: nat, file: nat) {
    c < |s.cells| && s.cells[c].file == file && s.cells[c].value.Some? && s.cells[c].value.value.Ready?
  }

  /** The join makes a cell for a file that was probed with success already. */
  ghost predicate LateJoin(s: State, e: Event) {
    && e.Join? && e.who in s.callers
    && var file := s.callers[e.who].file;
    file !in s.inflight && exists c: nat :: ReadyCell(s, c, file)
  }

  ghost predicate NoLateJoin(s: State, events: seq<Event>)
    decreases |events|
  {
    events == [] ||
    (Allowed(s, events[0]) && !LateJoin(s, events[0]) && NoLateJoin(Step(s, events[0]), events[1..]))
  }

  /** After a success no further cell was made for the file. */
  ghost predicate ReadyIsLast(s: State) {
    forall c: nat, d: nat :: c < d < |s.cells| && s.cells[c].file == s.cells[d].file ==>
      !ReadyCell(s, c, s.cells[c].file)
  }

  /** The cell in the map is the last one made for its file. */
  ghost predicate MappedIsNewest(s: State) {
    forall f, d :: f in s.inflight && s.inflight[f] < d < |s.cells| ==> s.cells[d].file != f
  }

  lemma NewestStep(s: State, e: Event)
    requires Sound(s) && MappedIsNewest(s) && Allowed(s, e)
    ensures MappedIsNewest(Step(s, e))
  {
    match e
    case Look(who, file) =>
    case Join(who) =>
    case StartProbe(who) =>
    case EndProbe(who, outcome) =>
    case Receive(who) =>
    case Tidy(who) =>
    case Store(who) =>
    case Cancel(who) =>
  }

  lemma JoinReady(s: State, who: nat)
    requires Sound(s) && ReadyIsLast(s) && Allowed(s, Join(who))
    ensures ReadyIsLast(Step(s, Join(who))) <==> !LateJoin(s, Join(who))
  {
    var file, r := s.callers[who].file, Step(s, Join(who));
    if file in s.inflight {
      assert r.cells == s.cells;
    } else {
      assert r.cells == s.cells + [Cell(file, None)];
      if LateJoin(s, Join(who)) {
        var c: nat :| ReadyCell(s, c, file);
        assert ReadyCell(r, c, file) && c < |s.cells| && r.cells[|s.cells|].file == file;
      } else {
        forall c: nat, d: nat | c < d < |r.cells| && r.cells[c].file == r.cells[d].file
          ensures !ReadyCell(r, c, r.cells[c].file)
        {
          assert r.cells[c] == s.cells[c] && !ReadyCell(s, c, file);
        }
      }
    }
  }

  lemma FillReady(s: State, who: nat, outcome: Outcome)
    requires Sound(s) && MappedIsNewest(s) && ReadyIsLast(s) && Allowed(s, EndProbe(who, outcome))
    ensures ReadyIsLast(Step(s, EndProbe(who, outcome)))
  {
    var r, cell := Step(s, EndProbe(who, outcome)), s.callers[who].phase.cell;
    assert CallerSound(s, s.callers[who]);
    forall c: nat, d: nat | c < d < |r.cells| && r.cells[c].file == r.cells[d].file
      ensures !ReadyCell(r, c, r.cells[c].file)
    {
      assert s.cells[c].file == s.cells[d].file && c != cell;
      assert !ReadyCell(s, c, s.cells[c].file);
    }
  }

  lemma ReadyStep(s: State, e: Event)
    requires Sound(s) && MappedIsNewest(s) && ReadyIsLast(s) && Allowed(s, e)
    ensures ReadyIsLast(Step(s, e)) <==> !LateJoin(s, e)
  {
    if e.Join? {
      JoinReady(s, e.who);
    } else if e.EndProbe? {
      FillReady(s, e.who, e.outcome);
    } else {
      assert Step(s, e).cells == s.cells;
      assert forall c: nat, f: nat :: ReadyCell(Step(s, e), c, f) <==> ReadyCell(s, c, f);
    }
  }

  /** A second cell after a success stays for good. */
  lemma ReadyStaysBroken(s: State, events: seq<Event>, end: State)
    requires Sound(s) && Run(s, events, end) && !ReadyIsLast(s)
    ensures !ReadyIsLast(end)
  {
    var c: nat, d: nat :| c < d < |s.cells| && s.cells[c].file == s.cells[d].file && ReadyCell(s, c, s.cells[c].file);
    CellsLast(s, events, end, c);
    CellsLast(s, events, end, d);
    assert ReadyCell(end, c, end.cells[c].file);
  }

  lemma {:induction false} ReadyAlways(s: State, events: seq<Event>, end: State)
    requires Sound(s) && MappedIsNewest(s) && ReadyIsLast(s) && Run(s, events, end)
    ensures ReadyIsLast(end) <==> NoLateJoin(s, events)
    ensures MappedIsNewest(end)
    decreases |events|
  {
    if events != [] {
      var next := Step(s, events[0]);
      SoundStep(s, events[0]);
      NewestStep(s, events[0]);
      ReadyStep(s, events[0]);
      if LateJoin(s, events[0]) {
        ReadyStaysBroken(next, events[1..], end);
        NewestAlways(next, events[1..], end);
      } else {
        ReadyAlways(next, events[1..], end);
      }
    }
  }

  lemma {:induction false} NewestAlways(s: State, events: seq<Event>, end: State)
    requires Sound(s) && MappedIsNewest(s) && Run(s, events, end)
    ensures MappedIsNewest(end)
    decreases |events|
  {
    if events != [] {
      SoundStep(s, events[0]);
      NewestStep(s, events[0]);
      NewestAlways(Step(s, events[0]), events[1..], end);
    }
  }

  /** Over every run no cell is made for a file after one of its cells was filled with a ready
      result: if and only if no caller joins late, that is, finds neither the old cell in the
      map nor, when it looked, the result in the cache. */
  lemma OneSuccessPerFileExactly(events: seq<Event>, end: State)
    requires Run(Start(), events, end)
    ensures ReadyIsLast(end) <==> NoLateJoin(Start(), events)
  {
    ReadyAlways(Start(), events, end);
  }

  lemma ProbesBesideReady(s: State, file: nat, c: nat, w: nat)
    requires Sound(s) && MappedIsNewest(s) && ReadyCell(s, c, file) && Probes(s, w, file)
    ensures !ReadyIsLast(s)
  {
    ProbesMapped(s, w, file);
    assert CallerSound(s, s.callers[w]);
    var cell := s.inflight[file];
    assert cell != c && s.cells[cell].file == file;
  }

  /** And in a run without late joins nobody probes a file that was probed with success. */
  lemma SuccessEndsProbing(events: seq<Event>, end: State, file: nat, c: nat, w: nat)
    requires Run(Start(), events, end) && NoLateJoin(Start(), events) && ReadyCell(end, c, file)
    ensures !Probes(end, w, file)
  {
    ReadyAlways(Start(), events, end);
    SoundAlways(Start(), events, end);
    if Probes(end, w, file) {
      ProbesBesideReady(end, file, c, w);
    }
  }

  /** It does happen: a caller that missed the cache just before the result was stored, and
      looks for a cell just after the old one was removed, probes once more. */
  lemma SecondProbeAfterSuccess(file: nat, value: int) returns (s: State)
    ensures Reachable(s) && file in s.cache && s.cache[file] == Ready(value) && Probes(s, 1, file)
  {
    var s7 := StoredBehind(file, value);
    var s8 := Extend(s7, Join(1));
    s := Extend(s8, StartProbe(1));
  }

  /** The first caller has removed the cell and stored its result. */
  lemma StoredBehind(file: nat, value: int) returns (s: State)
    ensures Reachable(s)
    ensures s == State(map[file := Ready(value)], map[], [Cell(file, Some(Ready(value)))],
      map[0 := Caller(file, Finished(Some(0), Ready(value)), 0), 1 := Caller(file, Looked, 4)], 7, map[file := 6])
  {
    var s5 := MissedTwice(file, value);
    var s6 := Extend(s5, Tidy(0));
    assert s6 == State(map[], map[], s5.cells, s5.callers[0 := Caller(file, Tidied(0), 0)], 6, map[]);
    s := Extend(s6, Store(0));
  }

  /** The first caller has its result, and the second has just missed the cache. */
  lemma MissedTwice(file: nat, value: int) returns (s: State)
    ensures Reachable(s)
    ensures s == State(map[], map[file := 0], [Cell(file, Some(Ready(value)))],
      map[0 := Caller(file, Received(0), 0), 1 := Caller(file, Looked, 4)], 5, map[])
  {
    var s3 := FirstProbes(file);
    var s4 := Extend(s3, EndProbe(0, Ready(value)));
    s := Extend(s4, Look(1, file));
  }

  lemma FirstProbes(file: nat) returns (s: State)
    ensures Reachable(s)
    ensures s == State(map[], map[file := 0], [Cell(file, None)], map[0 := Caller(file, Probing(0), 0)], 3, map[])
  {
    assert Run(Start(), [], Start());
    var s1 := Extend(Start(), Look(0, file));
    assert s1 == Start().(callers := map[0 := Caller(file, Looked, 0)], now := 1);
    var s2 := Extend(s1, Join(0));
    assert s2 == State(map[], map[file := 0], [Cell(file, None)], map[0 := Caller(file, Waiting(0), 0)], 2, map[]);
    s := Extend(s2, StartProbe(0));
  }

  lemma Extend(s: State, e: Event) returns (next: State)
    requires Reachable(s) && Allowed(s, e)
    ensures next == Step(s, e) && Reachable(next)
  {
    next := Step(s, e);
    var events :| Run(Start(), events, s);
    RunSnoc(Start(), events, s, e);
    assert Run(Start(), events + [e], next);
  }

  lemma {:induction false} RunSnoc(s: State, events: seq<Event>, middle: State, e: Event)
    requires Run(s, events, middle) && Allowed(middle, e)
    ensures Run(s, events + [e], Step(middle, e))
    decreases |events|
  {
    if events == [] {
      assert ([] + [e])[1..] == [];
    } else {
      RunSnoc(Step(s, events[0]), events[1..], middle, e);
      assert (events + [e])[1..] == events[1..] + [e];
    }
  }
}
