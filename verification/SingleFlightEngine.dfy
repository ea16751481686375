/** The locked sections of a shared probe, each of them one step of the protocol. */
module SingleFlightEngine {
  import opened Common
  import opened SingleFlight

  class Engine {
    var probeCache: map<nat, Outcome>
    var probeInflight: map<nat, nat>
    /** The cells ever made; the in-flight map and the callers refer to them by number. */
    var cells: seq<Cell>
    ghost var callers: map<nat, Caller>
    ghost var now: nat
    ghost var stored: map<nat, nat>

    ghost function View(): State
      reads this
    {
      State(probeCache, probeInflight, cells, callers, now, stored)
    }

    constructor ()
      ensures View() == Start() && Sound(View())
    {
      probeCache, probeInflight, cells, callers, now, stored := map[], map[], [], map[], 0, map[];
    }

    ghost method Record(s: State)
      modifies this`callers, this`now, this`stored
      ensures callers == s.callers && now == s.now && stored == s.stored
    {
      callers, now, stored := s.callers, s.now, s.stored;
    }

    /** The cache lookup. */
    method LookUp(ghost who: nat, file: nat) returns (hit: Option<Outcome>)
      requires Sound(View()) && Allowed(View(), Look(who, file))
      modifies this
      ensures View() == Step(old(View()), Look(who, file)) && Sound(View())
      ensures hit.Some? ==> hit.value.Ready? && callers[who].phase == Finished(None, hit.value)
      ensures hit.None? ==> callers[who].phase.Looked?
      ensures hit ==
        if file in old(probeCache) && old(probeCache)[file].Ready? then Some(old(probeCache)[file]) else None
    {
      hit := None;
      if file in probeCache {
        if probeCache[file].Ready? {
          hit := Some(probeCache[file]);
        }
      }
      SoundStep(View(), Look(who, file));
      Record(Step(View(), Look(who, file)));
    }

    /** Shares the file's cell, making one if there is none. */
    method JoinInflight(ghost who: nat, file: nat) returns (cell: nat)
      requires Sound(View()) && Allowed(View(), Join(who)) && callers[who].file == file
      modifies this
      ensures View() == Step(old(View()), Join(who)) && Sound(View())
      ensures callers[who] == old(callers)[who].(phase := Waiting(cell))
      ensures cell < |cells| && probeInflight == old(probeInflight)[file := cell]
      ensures cell == if file in old(probeInflight) then old(probeInflight)[file] else |old(cells)|
      ensures cells == old(cells) + if file in old(probeInflight) then [] else [Cell(file, None)]
    {
      ghost var before := View();
      SoundStep(before, Join(who));
      if file !in probeInflight {
        probeInflight := probeInflight[file := |cells|];
        cells := cells + [Cell(file, None)];
      }
      cell := probeInflight[file];
      Record(Step(before, Join(who)));
    }

    /** Fills the cell with the outcome of a probe. */
    method Fill(ghost who: nat, cell: nat, outcome: Outcome)
      requires Sound(View()) && Allowed(View(), EndProbe(who, outcome)) && callers[who].phase == Probing(cell)
      modifies this
      ensures View() == Step(old(View()), EndProbe(who, outcome)) && Sound(View())
      ensures cells == old(cells)[cell := Cell(old(cells)[cell].file, Some(outcome))]
      ensures probeInflight == old(probeInflight) && probeCache == old(probeCache)
    {
      ghost var before := View();
      SoundStep(before, EndProbe(who, outcome));
      cells := cells[cell := cells[cell].(value := Some(outcome))];
      Record(Step(before, EndProbe(who, outcome)));
    }

    /** Removes the cell from the map, unless another cell has taken its place. */
    method RemoveInflight(ghost who: nat, file: nat, cell: nat)
      requires Sound(View()) && Allowed(View(), Tidy(who))
      requires callers[who].file == file && callers[who].phase == Received(cell)
      modifies this
      ensures View() == Step(old(View()), Tidy(who)) && Sound(View())
      ensures probeInflight ==
        if file in old(probeInflight) && old(probeInflight)[file] == cell then old(probeInflight) - {file}
        else old(probeInflight)
    {
      ghost var before := View();
      SoundStep(before, Tidy(who));
      if file in probeInflight && probeInflight[file] == cell {
        probeInflight := probeInflight - {file};
      }
      Record(Step(before, Tidy(who)));
    }

    method StoreResult(ghost who: nat, file: nat, cell: nat) returns (outcome: Outcome)
      requires Sound(View()) && Allowed(View(), Store(who))
      requires callers[who].file == file && callers[who].phase == Tidied(cell)
      modifies this
      ensures View() == Step(old(View()), Store(who)) && Sound(View())
      ensures callers[who].phase == Finished(Some(cell), outcome)
      ensures old(cells)[cell].value == Some(outcome)
      ensures probeCache == if outcome.Ready? then old(probeCache)[file := outcome] else old(probeCache)
    {
      ghost var before := View();
      SoundStep(before, Store(who));
      outcome := cells[cell].value.value;
      if outcome.Ready? {
        probeCache := probeCache[file := outcome];
      }
      Record(Step(before, Store(who)));
    }
  }
}
