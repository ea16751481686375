/** The sample lookup in the arithmetic of a release build: 32-bit sums that wrap. */
module SampleLookup {
  import opened Common
  import opened SampleTable
  import opened Residues

  /** The loop's variables. */
  datatype Cursor = Cursor(chunk: nat, sample: nat, index: nat)

  const FIRST: Cursor := Cursor(1, 1, 0)

  predicate Words(table: seq<Run>) {
    forall i :: 0 <= i < |table| ==> table[i].firstChunk < U32 && table[i].samples < U32
  }

  /** The loop leaves at this turn, by its condition or by its break. */
  predicate Leaves(table: seq<Run>, target: nat, c: Cursor)
    requires c.index < |table|
  {
    c.sample >= target
    || (c.sample + table[NextIndex(table, c.chunk, c.index)].samples) % U32 > target
  }

  function Turned(table: seq<Run>, c: Cursor): (r: Cursor)
    requires c.index < |table|
    ensures r.index < |table|
  {
    var index := NextIndex(table, c.chunk, c.index);
    Cursor((c.chunk + 1) % U32, (c.sample + table[index].samples) % U32, index)
  }

  /** The chunk the loop leaves with, if it leaves within so many turns. */
  function Lookup(table: seq<Run>, target: nat, c: Cursor, turns: nat): Option<nat>
    requires c.index < |table|
    decreases turns
  {
    if turns == 0 then None
    else if Leaves(table, target, c) then Some(c.chunk)
    else Lookup(table, target, Turned(table, c), turns - 1)
  }

  /** The loop, going round at most `turns` times: the source goes round for ever. */
  method SampleToChunk(sampleNumber: nat, stsc: seq<Run>, turns: nat) returns (r: Option<nat>)
    requires sampleNumber < U32 && Words(stsc)
    ensures stsc == [] ==> r == Some(sampleNumber)
    ensures stsc != [] ==> r == Lookup(stsc, sampleNumber, FIRST, turns)
    ensures WellFormed(stsc) ==> forall d :: d >= 1 && FirstStop(stsc, sampleNumber, d) ==>
      r == if d <= turns then Some(d % U32) else None
    ensures WellFormed(stsc) && Endless(stsc, sampleNumber) ==> r == None
    ensures WellFormed(stsc) ==> forall c :: 1 <= c <= turns < c + U32 && Holds(stsc, c, sampleNumber) ==>
      (r == Some(c) <==> SumFits(stsc, c, sampleNumber))
  {
    if stsc == [] {
      return Some(sampleNumber);
    }
    r := Scan(sampleNumber, stsc, turns);
    if WellFormed(stsc) {
      LookupExactly(stsc, sampleNumber, turns);
      FindsHolder(stsc, sampleNumber, turns);
    }
  }

  method Scan(sampleNumber: nat, stsc: seq<Run>, turns: nat) returns (r: Option<nat>)
    requires stsc != []
    ensures r == Lookup(stsc, sampleNumber, FIRST, turns)
  {
    var chunk: nat, sample: nat, samplesPerChunk, stscIdx := 1, 1, stsc[0].samples, 0;
    for t := 0 to turns
      invariant stscIdx < |stsc| && samplesPerChunk == stsc[stscIdx].samples
      invariant Lookup(stsc, sampleNumber, FIRST, turns) ==
        Lookup(stsc, sampleNumber, Cursor(chunk, sample, stscIdx), turns - t)
    {
      if sample >= sampleNumber {
        return Some(chunk);
      }
      if stscIdx + 1 < |stsc| && chunk >= stsc[stscIdx + 1].firstChunk {
        stscIdx := stscIdx + 1;
        samplesPerChunk := stsc[stscIdx].samples;
      }
      if (sample + samplesPerChunk) % U32 > sampleNumber {
        return Some(chunk);
      }
      sample := (sample + samplesPerChunk) % U32;
      chunk := (chunk + 1) % U32;
    }
    r := None;
  }

  // --------------------------------------------------------- when and where it leaves

  /** What the loop finds at a chunk, told from the table: chunks counted without wrapping,
      first samples in 32 bits. */
  predicate Stops(table: seq<Run>, target: nat, d: nat)
    requires WellFormed(table) && d >= 1
  {
    FirstSample(table, d) % U32 >= target || FirstSample(table, d + 1) % U32 > target
  }

  ghost predicate FirstStop(table: seq<Run>, target: nat, d: nat)
    requires WellFormed(table) && d >= 1
  {
    Stops(table, target, d) && NoneStops(table, target, 1, d)
  }

  ghost predicate Endless(table: seq<Run>, target: nat)
    requires WellFormed(table)
  {
    forall d :: d >= 1 ==> !Stops(table, target, d)
  }

  /** Where the loop stands when it comes to a chunk. */
  function At(table: seq<Run>, d: nat): Cursor
    requires WellFormed(table) && d >= 1
  {
    Cursor(d % U32, FirstSample(table, d) % U32, RunOf(table, if d == 1 then 1 else d - 1))
  }

  /** Chunk numbers wrap only after the last run has begun, so the runs are never mistaken. */
  lemma AtIndex(table: seq<Run>, d: nat)
    requires WellFormed(table) && Words(table) && d >= 1
    ensures NextIndex(table, At(table, d).chunk, At(table, d).index) == RunOf(table, d)
  {
    RunAdvances(table, d);
    var i := At(table, d).index;
    if i + 1 < |table| {
      assert table[i + 1].firstChunk > (if d == 1 then 1 else d - 1);
      assert d <= table[i + 1].firstChunk < U32;
    }
  }

  lemma AddInWords(a: nat, b: nat)
    ensures (a % U32 + b) % U32 == (a + b) % U32
  {
  }

  lemma AtTurns(table: seq<Run>, target: nat, d: nat)
    requires WellFormed(table) && Words(table) && d >= 1
    ensures Leaves(table, target, At(table, d)) <==> Stops(table, target, d)
    ensures Turned(table, At(table, d)) == At(table, d + 1)
  {
    AtIndex(table, d);
    AddInWords(FirstSample(table, d), SamplesIn(table, d));
    AddInWords(d, 1);
  }

  ghost predicate NoneStops(table: seq<Run>, target: nat, from: nat, to: nat)
    requires WellFormed(table) && from >= 1
  {
    forall e :: from <= e < to ==> !Stops(table, target, e)
  }

  /** One turn of the loop at a chunk. */
  lemma LookupTurn(table: seq<Run>, target: nat, d: nat, turns: nat)
    requires WellFormed(table) && Words(table) && d >= 1 && turns >= 1
    ensures Lookup(table, target, At(table, d), turns) ==
      if Stops(table, target, d) then Some(d % U32) else Lookup(table, target, At(table, d + 1), turns - 1)
  {
    AtTurns(table, target, d);
  }

  /** Chunks that do not stop the loop take one turn each. */
  lemma {:induction false} RunsOn(table: seq<Run>, target: nat, from: nat, d: nat, turns: nat)
    requires WellFormed(table) && Words(table) && 1 <= from <= d <= from + turns
    requires NoneStops(table, target, from, d)
    ensures Lookup(table, target, At(table, from), turns) ==
      Lookup(table, target, At(table, d), from + turns - d)
    decreases turns
  {
    if from < d {
      LookupTurn(table, target, from, turns);
      assert !Stops(table, target, from);
      RunsOn(table, target, from + 1, d, turns - 1);
    }
  }

  lemma LookupFrom(table: seq<Run>, target: nat, from: nat, d: nat, turns: nat)
    requires WellFormed(table) && Words(table) && 1 <= from <= d
    requires NoneStops(table, target, from, d)
    ensures from + turns <= d ==> Lookup(table, target, At(table, from), turns) == None
    ensures from + turns > d && Stops(table, target, d) ==>
      Lookup(table, target, At(table, from), turns) == Some(d % U32)
  {
    if from + turns <= d {
      RunsOn(table, target, from, from + turns, turns);
    } else {
      RunsOn(table, target, from, d, turns);
      LookupTurn(table, target, d, from + turns - d);
    }
  }

  lemma AtFirst(table: seq<Run>)
    requires WellFormed(table)
    ensures At(table, 1) == FIRST
  {
  }

  lemma LookupAtStop(table: seq<Run>, target: nat, d: nat)
    requires WellFormed(table) && Words(table) && d >= 1 && FirstStop(table, target, d)
    ensures Lookup(table, target, FIRST, d) == Some(d % U32)
  {
    AtFirst(table);
    LookupFrom(table, target, 1, d, d);
  }

  /** The loop leaves at the first chunk that stops it, with that chunk's number in 32 bits,
      and never leaves if no chunk stops it. */
  lemma LookupExactly(table: seq<Run>, target: nat, turns: nat)
    requires WellFormed(table) && Words(table)
    ensures forall d :: d >= 1 && FirstStop(table, target, d) ==>
      Lookup(table, target, FIRST, turns) == if d <= turns then Some(d % U32) else None
    ensures Endless(table, target) ==> Lookup(table, target, FIRST, turns) == None
  {
    AtFirst(table);
    forall d | d >= 1 && FirstStop(table, target, d)
      ensures Lookup(table, target, FIRST, turns) == if d <= turns then Some(d % U32) else None
    {
      LookupFrom(table, target, 1, d, turns);
    }
    if Endless(table, target) {
      LookupFrom(table, target, 1, turns + 1, turns);
    }
  }

  lemma SmallWord(n: nat)
    requires n < U32
    ensures n % U32 == n
  {
  }

  lemma BeforeHolder(table: seq<Run>, target: nat, c: nat, e: nat)
    requires WellFormed(table) && 1 <= e < c && target < U32 && Holds(table, c, target)
    ensures !Stops(table, target, e)
  {
    FirstSampleGrows(table, e, c);
    SmallWord(FirstSample(table, e));
    SmallWord(FirstSample(table, e + 1));
  }

  lemma WrapsBack(first: nat, more: nat, target: nat)
    requires first < target < first + more && target < U32 && more < U32
    ensures (first + more) % U32 > target <==> first + more < U32
  {
    if first + more >= U32 {
      assert (first + more) % U32 == first + more - U32;
    }
  }

  /** The chunk that holds the sample is the first that can stop the loop, and it does so
      exactly when the 32-bit sum formed in it stays in range. */
  lemma HolderStopsExactly(table: seq<Run>, target: nat, c: nat)
    requires WellFormed(table) && Words(table) && c >= 1 && target < U32 && Holds(table, c, target)
    ensures FirstStop(table, target, c) <==> SumFits(table, c, target)
    ensures Stops(table, target, c) <==> SumFits(table, c, target)
    ensures NoneStops(table, target, 1, c) && c < U32
  {
    forall e | 1 <= e < c ensures !Stops(table, target, e) {
      BeforeHolder(table, target, c, e);
    }
    var first, more := FirstSample(table, c), SamplesIn(table, c);
    assert FirstSample(table, c + 1) == first + more;
    if first < target {
      WrapsBack(first, more, target);
    }
  }

  lemma {:induction false} LeavesSomewhere(table: seq<Run>, target: nat, from: nat, turns: nat) returns (d: nat)
    requires WellFormed(table) && Words(table) && from >= 1
    requires Lookup(table, target, At(table, from), turns).Some?
    ensures from <= d < from + turns && Lookup(table, target, At(table, from), turns) == Some(d % U32)
    ensures Stops(table, target, d) && NoneStops(table, target, from, d)
    decreases turns
  {
    if turns > 0 {
      LookupTurn(table, target, from, turns);
    }
    if Stops(table, target, from) {
      d := from;
    } else {
      d := LeavesSomewhere(table, target, from + 1, turns - 1);
    }
  }

  /** A loop that runs on past a chunk does not answer with it before chunk numbers come
      round again. */
  lemma RunsPast(table: seq<Run>, target: nat, c: nat, turns: nat)
    requires WellFormed(table) && Words(table) && 1 <= c <= turns < c + U32 && c < U32
    requires NoneStops(table, target, 1, c + 1)
    ensures Lookup(table, target, At(table, 1), turns) != Some(c)
  {
    RunsOn(table, target, 1, c + 1, turns);
    if Lookup(table, target, At(table, c + 1), turns - c).Some? {
      var d := LeavesSomewhere(table, target, c + 1, turns - c);
      OtherResidue(c, d);
    }
  }

  /** Given the turns to reach the sample's own chunk, and before chunk numbers come round
      again, the loop answers with that chunk if and only if the sum in it stays in range. */
  lemma FindsExactly(table: seq<Run>, target: nat, c: nat, turns: nat)
    requires WellFormed(table) && Words(table) && target < U32
    requires 1 <= c <= turns < c + U32 && Holds(table, c, target)
    ensures Lookup(table, target, FIRST, turns) == Some(c) <==> SumFits(table, c, target)
  {
    AtFirst(table);
    HolderStopsExactly(table, target, c);
    if Stops(table, target, c) {
      LookupFrom(table, target, 1, c, turns);
      SmallWord(c);
    } else {
      RunsPast(table, target, c, turns);
    }
  }

  /** However long it takes, the loop answers with this chunk. */
  ghost predicate EverAnswers(table: seq<Run>, target: nat, c: nat)
    requires WellFormed(table)
  {
    exists turns: nat :: Lookup(table, target, FIRST, turns) == Some(c)
  }

  lemma StopAnswers(table: seq<Run>, target: nat, d: nat)
    requires WellFormed(table) && Words(table) && d >= 1 && FirstStop(table, target, d)
    ensures EverAnswers(table, target, d % U32)
  {
    LookupAtStop(table, target, d);
  }

  lemma AnswerStops(table: seq<Run>, target: nat, c: nat) returns (d: nat)
    requires WellFormed(table) && Words(table) && EverAnswers(table, target, c)
    ensures d >= 1 && FirstStop(table, target, d) && d % U32 == c
  {
    var turns: nat :| Lookup(table, target, FIRST, turns) == Some(c);
    AtFirst(table);
    d := LeavesSomewhere(table, target, 1, turns);
  }

  /** The first chunk that stops the loop is a later one of the same number in 32 bits. */
  ghost predicate ComesRound(table: seq<Run>, target: nat, c: nat)
    requires WellFormed(table)
  {
    exists d :: d > c && d >= 1 && FirstStop(table, target, d) && d % U32 == c
  }

  /** However long it may take: the loop answers with the chunk that holds the sample if and
      only if the sum formed in it stays in range, or chunk numbers come round to it. */
  lemma EverFindsExactly(table: seq<Run>, target: nat, c: nat)
    requires WellFormed(table) && Words(table) && target < U32 && c >= 1 && Holds(table, c, target)
    ensures EverAnswers(table, target, c) <==> SumFits(table, c, target) || ComesRound(table, target, c)
  {
    HolderStopsExactly(table, target, c);
    if EverAnswers(table, target, c) {
      var d := AnswerStops(table, target, c);
      assert d == c || d > c;
    }
    if SumFits(table, c, target) {
      StopAnswers(table, target, c);
    } else if ComesRound(table, target, c) {
      var d :| d > c && d >= 1 && FirstStop(table, target, d) && d % U32 == c;
      StopAnswers(table, target, d);
    }
  }

  lemma FindsHolder(table: seq<Run>, target: nat, turns: nat)
    requires WellFormed(table) && Words(table) && target < U32
    ensures forall c :: 1 <= c <= turns < c + U32 && Holds(table, c, target) ==>
      (Lookup(table, target, FIRST, turns) == Some(c) <==> SumFits(table, c, target))
  {
    forall c | 1 <= c <= turns < c + U32 && Holds(table, c, target)
      ensures Lookup(table, target, FIRST, turns) == Some(c) <==> SumFits(table, c, target)
    {
      FindsExactly(table, target, c, turns);
    }
  }

  lemma OtherResidue(c: nat, d: nat)
    requires c < d < c + U32 && c < U32
    ensures d % U32 != c
  {
    assert d < U32 || d % U32 == d - U32;
  }

  // ------------------------------------------------------------------ what goes wrong

  lemma LastBegins(table: seq<Run>)
    requires WellFormed(table)
    ensures table[|table| - 1].firstChunk >= 1
  {
    if |table| > 1 {
      assert table[0].firstChunk < table[|table| - 1].firstChunk;
    }
  }

  /** The largest first sample, in 32 bits, of the chunks from the last run on. */
  function TailTop(table: seq<Run>): nat
    requires WellFormed(table) && table[|table| - 1].firstChunk >= 1
  {
    Largest(FirstSample(table, table[|table| - 1].firstChunk), table[|table| - 1].samples, U32)
  }

  /** For any table: the loop runs for ever exactly when no chunk before the last run stops it
      and the wanted sample is beyond the largest number the first samples of the last run
      come to, `2^32 - g` and a rest, for the greatest common divisor `g` of the run's sample
      count and `2^32`. */
  lemma EndlessExactly(table: seq<Run>, target: nat)
    requires WellFormed(table)
    ensures var last := table[|table| - 1];
      last.firstChunk >= 1 &&
      (Endless(table, target) <==> NoneStops(table, target, 1, last.firstChunk) && TailTop(table) < target)
  {
    var last := table[|table| - 1];
    LastBegins(table);
    if TailTop(table) < target && NoneStops(table, target, 1, last.firstChunk) {
      forall d | d >= last.firstChunk ensures !Stops(table, target, d) {
        BelowTop(table, d);
        BelowTop(table, d + 1);
      }
    }
    if Endless(table, target) {
      var d := TopReached(table);
      assert !Stops(table, target, d);
    }
  }

  lemma BelowTop(table: seq<Run>, d: nat)
    requires WellFormed(table) && 1 <= table[|table| - 1].firstChunk <= d
    ensures FirstSample(table, d) % U32 <= TailTop(table)
  {
    var last := table[|table| - 1];
    TailSamples(table, last.firstChunk, d);
    ProgressionBelow(FirstSample(table, last.firstChunk), last.samples, U32, d - last.firstChunk);
  }

  lemma TopReached(table: seq<Run>) returns (d: nat)
    requires WellFormed(table) && 1 <= table[|table| - 1].firstChunk
    ensures d >= table[|table| - 1].firstChunk && FirstSample(table, d) % U32 == TailTop(table)
  {
    var last := table[|table| - 1];
    var j := ProgressionReaches(FirstSample(table, last.firstChunk), last.samples, U32);
    d := last.firstChunk + j;
    assert FirstSample(table, d) == FirstSample(table, last.firstChunk) + j * last.samples by {
      TailSamples(table, last.firstChunk, d);
    }
  }

  /** With one run whose chunks divide the 32-bit range evenly, the first samples come round
      in step and the largest is `2^32 - k + 1`: a sample beyond it keeps the loop going for
      ever, and no other does. */
  lemma EvenRunEndlessExactly(k: nat, q: nat, target: nat)
    requires q >= 2 && k * q == U32 && target < U32
    ensures WellFormed([Run(1, k)]) && Words([Run(1, k)])
    ensures Endless([Run(1, k)], target) <==> target > U32 - k + 1
  {
    LargestEven(k, q, U32);
    OneRunEndless(k, target);
  }

  lemma OneRunEndless(k: nat, target: nat)
    requires k > 0
    ensures WellFormed([Run(1, k)])
    ensures Endless([Run(1, k)], target) <==> Largest(1, k, U32) < target
  {
    EndlessExactly([Run(1, k)], target);
  }

  lemma {:induction false} OneRunSamples(k: nat, d: nat)
    requires k > 0 && d >= 1
    ensures FirstSample([Run(1, k)], d) == 1 + (d - 1) * k
    decreases d
  {
    if d > 1 {
      OneRunSamples(k, d - 1);
    }
  }

  /** Two chunks of 2^31 samples and sample 2^31 + 2: chunk 2 holds it, and the loop never
      comes to an end. */
  lemma HalfRangeNeverEnds(turns: nat)
    ensures var table := [Run(1, 0x8000_0000)];
      && WellFormed(table) && Holds(table, 2, 0x8000_0002) && !SumFits(table, 2, 0x8000_0002)
      && Lookup(table, 0x8000_0002, FIRST, turns) == None
  {
    var table := [Run(1, 0x8000_0000)];
    EvenRunEndlessExactly(0x8000_0000, 2, 0x8000_0002);
    OneRunSamples(0x8000_0000, 2);
    LookupExactly(table, 0x8000_0002, turns);
  }

  /** A run of empty chunks, which the table reader lets through, keeps the loop going for
      ever for every sample after the first. */
  lemma {:induction false} EmptyRunNeverEnds(target: nat, chunk: nat, turns: nat)
    requires 1 < target
    ensures Lookup([Run(1, 0)], target, Cursor(chunk, 1, 0), turns) == None
    decreases turns
  {
    if turns > 0 {
      EmptyRunNeverEnds(target, (chunk + 1) % U32, turns - 1);
    }
  }

  predicate ShortTail(table: seq<Run>) {
    table == [Run(1, U32 - 1), Run(2, 1)]
  }

  lemma {:induction false} ShortTailSamples(table: seq<Run>, d: nat)
    requires ShortTail(table) && d >= 2
    ensures WellFormed(table) && FirstSample(table, 1) == 1 && FirstSample(table, d) == U32 + (d - 2)
    decreases d
  {
    assert RunOf(table, 1) == 0 && FirstSample(table, 1) == 1;
    if d > 2 {
      ShortTailSamples(table, d - 1);
      assert RunOf(table, d - 1) == 1;
    }
  }

  lemma ShortTailStops(table: seq<Run>, target: nat, d: nat)
    requires ShortTail(table) && WellFormed(table) && target == U32 - 1 && 1 <= d <= U32 + 1
    ensures Stops(table, target, d) <==> d == U32 + 1
  {
    ShortTailSamples(table, d + 1);
    if d >= 2 {
      ShortTailSamples(table, d);
    }
  }

  lemma ShortTailFirstStop(table: seq<Run>, target: nat, turns: nat)
    requires ShortTail(table) && WellFormed(table) && target == U32 - 1 && turns == U32 + 1
    ensures FirstStop(table, target, turns)
  {
    ShortTailStops(table, target, turns);
    forall d | 1 <= d < turns ensures !Stops(table, target, d) {
      ShortTailStops(table, target, d);
    }
  }

  lemma ShortTailHolds(table: seq<Run>, target: nat)
    requires ShortTail(table) && target == U32 - 1
    ensures WellFormed(table) && Words(table) && Holds(table, 1, target) && !SumFits(table, 1, target)
  {
    ShortTailSamples(table, 2);
    assert RunOf(table, 1) == 0;
  }

  /** The bound on the turns is tight: once chunk numbers have come round, the right chunk can
      be answered by accident although the sum went out of range. */
  lemma RightByAccident(table: seq<Run>, target: nat, turns: nat)
    requires ShortTail(table) && target == U32 - 1 && turns == U32 + 1
    ensures WellFormed(table) && Holds(table, 1, target) && !SumFits(table, 1, target)
    ensures Lookup(table, target, FIRST, turns) == Some(1)
  {
    ShortTailHolds(table, target);
    ShortTailFirstStop(table, target, turns);
    OneRound(turns);
    AnswersOne(table, target, turns);
  }

  lemma OneRound(turns: nat)
    requires turns == U32 + 1
    ensures turns % U32 == 1
  {
  }

  lemma AnswersOne(table: seq<Run>, target: nat, turns: nat)
    requires WellFormed(table) && Words(table) && turns >= 1 && turns % U32 == 1 && FirstStop(table, target, turns)
    ensures Lookup(table, target, FIRST, turns) == Some(1)
  {
    LookupAtStop(table, target, turns);
  }
}
