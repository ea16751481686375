/** MP4 sample-to-chunk tables: reading the table and finding a sample's chunk. */
module SampleTable {
  import opened Common
  import opened Ebml

  /** From chunk `firstChunk` on, every chunk holds `samples` samples. */
  datatype Run = Run(firstChunk: nat, samples: nat)

  const U32: nat := 0x1_0000_0000

  predicate WellFormed(table: seq<Run>) {
    && table != [] && table[0].firstChunk == 1
    && (forall i, j :: 0 <= i < j < |table| ==> table[i].firstChunk < table[j].firstChunk)
    && (forall i :: 0 <= i < |table| ==> table[i].samples > 0)
  }

  // ------------------------------------------------------------ what a table means

  /** The run a chunk belongs to: the last one that starts no later. */
  function RunOf(table: seq<Run>, chunk: nat): (i: nat)
    requires WellFormed(table) && chunk >= 1
    ensures i < |table| && table[i].firstChunk <= chunk
    ensures forall j :: i < j < |table| ==> table[j].firstChunk > chunk
  {
    RunFrom(table, chunk, |table| - 1)
  }

  function RunFrom(table: seq<Run>, chunk: nat, from: nat): (i: nat)
    requires WellFormed(table) && chunk >= 1 && from < |table|
    requires forall j :: from < j < |table| ==> table[j].firstChunk > chunk
    ensures i < |table| && table[i].firstChunk <= chunk
    ensures forall j :: i < j < |table| ==> table[j].firstChunk > chunk
  {
    if table[from].firstChunk <= chunk then from else RunFrom(table, chunk, from - 1)
  }

  function SamplesIn(table: seq<Run>, chunk: nat): (n: nat)
    requires WellFormed(table) && chunk >= 1
    ensures n > 0
  {
    table[RunOf(table, chunk)].samples
  }

  /** The number of the first sample of a chunk, counting from one. */
  function FirstSample(table: seq<Run>, chunk: nat): (n: nat)
    requires WellFormed(table) && chunk >= 1
    ensures n >= chunk
  {
    if chunk == 1 then 1 else FirstSample(table, chunk - 1) + SamplesIn(table, chunk - 1)
  }

  predicate Holds(table: seq<Run>, chunk: nat, sample: nat)
    requires WellFormed(table) && chunk >= 1
  {
    FirstSample(table, chunk) <= sample < FirstSample(table, chunk) + SamplesIn(table, chunk)
  }

  lemma {:induction false} FirstSampleGrows(table: seq<Run>, a: nat, b: nat)
    requires WellFormed(table) && 1 <= a < b
    ensures FirstSample(table, a) + SamplesIn(table, a) <= FirstSample(table, b)
    decreases b
  {
    if a < b - 1 {
      FirstSampleGrows(table, a, b - 1);
    }
  }

  /** No sample lies in two chunks. */
  lemma HoldsUnique(table: seq<Run>, a: nat, b: nat, sample: nat)
    requires WellFormed(table) && a >= 1 && b >= 1
    requires Holds(table, a, sample) && Holds(table, b, sample)
    ensures a == b
  {
    if a < b {
      FirstSampleGrows(table, a, b);
    } else if b < a {
      FirstSampleGrows(table, b, a);
    }
  }

  /** The 32-bit sum the loop forms in the sample's own chunk stays in range. The loop
      does not look at a chunk whose first sample is the wanted one. */
  predicate SumFits(table: seq<Run>, chunk: nat, sample: nat)
    requires WellFormed(table) && chunk >= 1
  {
    sample == FirstSample(table, chunk) || FirstSample(table, chunk) + SamplesIn(table, chunk) < U32
  }

  /** The right answer for a sample: the one chunk that holds it if the sum in that chunk
      stays in range, and an overflow if it does not. */
  ghost predicate Answers(table: seq<Run>, sample: nat, r: Option<nat>)
    requires WellFormed(table)
  {
    && (r.Some? ==> r.value >= 1 && Holds(table, r.value, sample))
    && forall c :: c >= 1 && Holds(table, c, sample) ==>
      (r == Some(c) <==> SumFits(table, c, sample)) && (r == None <==> !SumFits(table, c, sample))
  }

  lemma Located(table: seq<Run>, chunk: nat, sample: nat)
    requires WellFormed(table) && chunk >= 1 && Holds(table, chunk, sample)
    ensures Answers(table, sample, if SumFits(table, chunk, sample) then Some(chunk) else None)
  {
    HoldsOnly(table, chunk, sample);
  }

  // ---------------------------------------------------------------------- lookup

  /** The lookup loop in a build that checks its arithmetic; `None` is the overflow it stops
      at. Such a build ends on any table, since chunk numbers run out. */
  method SampleToChunkChecked(sampleNumber: nat, stsc: seq<Run>) returns (r: Option<nat>)
    requires sampleNumber < U32
    ensures stsc == [] ==> r == Some(sampleNumber)
    ensures stsc != [] && sampleNumber <= 1 ==> r == Some(1)
    ensures Right(stsc, sampleNumber, r)
  {
    if stsc == [] {
      return Some(sampleNumber);
    }
    var chunk := 1;
    var sample := 1;
    var samplesPerChunk := stsc[0].samples;
    var stscIdx := 0;
    FollowsFirst(stsc);
    while sample < sampleNumber
      invariant stscIdx < |stsc| && 1 <= chunk < U32 && 1 <= sample
      invariant (sample <= sampleNumber || sample == 1) && (sampleNumber <= 1 ==> chunk == 1)
      invariant Follows(stsc, chunk, sample, stscIdx) && samplesPerChunk == stsc[stscIdx].samples
      decreases sampleNumber - sample, U32 - chunk
    {
      FollowStep(stsc, chunk, sample, stscIdx, sampleNumber);
      if stscIdx + 1 < |stsc| && chunk >= stsc[stscIdx + 1].firstChunk {
        stscIdx := stscIdx + 1;
        samplesPerChunk := stsc[stscIdx].samples;
      }
      if sample + samplesPerChunk >= U32 {
        return None;
      }
      if sample + samplesPerChunk > sampleNumber {
        return Some(chunk);
      }
      sample := sample + samplesPerChunk;
      if chunk + 1 == U32 {
        return None;
      }
      chunk := chunk + 1;
    }
    FollowEnds(stsc, chunk, sample, stscIdx, sampleNumber);
    r := Some(chunk);
  }

  /** On any table that is well formed, the answer is right. */
  ghost predicate Right(table: seq<Run>, sample: nat, r: Option<nat>) {
    WellFormed(table) && sample >= 1 ==> Answers(table, sample, r)
  }

  ghost predicate Follows(table: seq<Run>, chunk: nat, sample: nat, index: nat) {
    WellFormed(table) ==> chunk >= 1 && Tracked(table, chunk, sample, index)
  }

  lemma FollowsFirst(table: seq<Run>)
    requires table != []
    ensures Follows(table, 1, 1, 0)
  {
  }

  lemma FollowStep(table: seq<Run>, chunk: nat, sample: nat, index: nat, target: nat)
    requires chunk >= 1 && index < |table| && sample < target < U32 && Follows(table, chunk, sample, index)
    ensures var next := NextIndex(table, chunk, index);
      var sum := sample + table[next].samples;
      && Follows(table, chunk + 1, sum, next)
      && (sum >= U32 || chunk + 1 >= U32 > target >= sum ==> Right(table, target, None))
      && (target < sum < U32 ==> Right(table, target, Some(chunk)))
  {
    if WellFormed(table) {
      TrackStep(table, chunk, sample, index, target);
    }
  }

  lemma FollowEnds(table: seq<Run>, chunk: nat, sample: nat, index: nat, target: nat)
    requires chunk >= 1 && Follows(table, chunk, sample, index) && target <= sample
    requires sample <= target || sample == 1
    ensures Right(table, target, Some(chunk))
  {
    if WellFormed(table) && target >= 1 {
      Located(table, chunk, target);
    }
  }

  /** The loop's variables, on a well-formed table: the sample is the chunk's first, and the
      index is the run of the chunk before. */
  ghost predicate Tracked(table: seq<Run>, chunk: nat, sample: nat, index: nat)
    requires WellFormed(table) && chunk >= 1
  {
    chunk <= sample == FirstSample(table, chunk) && index == RunOf(table, if chunk == 1 then 1 else chunk - 1)
  }

  function NextIndex(table: seq<Run>, chunk: nat, index: nat): nat {
    if index + 1 < |table| && chunk >= table[index + 1].firstChunk then index + 1 else index
  }

  lemma TrackStep(table: seq<Run>, chunk: nat, sample: nat, index: nat, target: nat)
    requires WellFormed(table) && chunk >= 1 && index < |table| && Tracked(table, chunk, sample, index)
    requires sample < target
    ensures var next := NextIndex(table, chunk, index);
      var sum := sample + table[next].samples;
      && chunk < sum && Tracked(table, chunk + 1, sum, next)
      && (sum >= U32 > target ==> Answers(table, target, None))
      && (target < sum < U32 ==> Answers(table, target, Some(chunk)))
  {
    RunAdvances(table, chunk);
    if target < sample + SamplesIn(table, chunk) {
      Located(table, chunk, target);
    }
  }

  /** From one chunk to the next the run changes by at most one place. */
  lemma RunAdvances(table: seq<Run>, chunk: nat)
    requires WellFormed(table) && chunk >= 1
    ensures var i := RunOf(table, if chunk == 1 then 1 else chunk - 1);
      RunOf(table, chunk) ==
        if i + 1 < |table| && chunk >= table[i + 1].firstChunk then i + 1 else i
  {
  }

  lemma HoldsOnly(table: seq<Run>, chunk: nat, sample: nat)
    requires WellFormed(table) && chunk >= 1 && Holds(table, chunk, sample)
    ensures forall c :: c >= 1 && Holds(table, c, sample) ==> c == chunk
  {
    forall c | c >= 1 && Holds(table, c, sample) ensures c == chunk {
      HoldsUnique(table, c, chunk, sample);
    }
  }

  /** Every sample number from one on lies in some chunk. */
  lemma {:induction false} SomeChunkHolds(table: seq<Run>, sample: nat) returns (chunk: nat)
    requires WellFormed(table) && sample >= 1
    ensures chunk >= 1 && Holds(table, chunk, sample)
  {
    if sample == 1 {
      chunk := 1;
    } else {
      chunk := SomeChunkHolds(table, sample - 1);
      if !Holds(table, chunk, sample) {
        chunk := chunk + 1;
      }
    }
  }

  /** The failure of the 32-bit sum is real: one chunk of 2^32 - 1 samples holds sample
      2, and the loop overflows before it can say so. */
  lemma OverflowExample()
    ensures var table := [Run(1, U32 - 1)];
      WellFormed(table) && Holds(table, 1, 2) && !SumFits(table, 1, 2)
  {
  }

  // ------------------------------------------------------------- reading the table

  const MAX_RUNS: nat := 100

  function Word(data: seq<Byte>, at: nat): nat
    requires at + 4 <= |data|
  {
    BigEndian(data[at..at + 4])
  }

  /** The runs read from a box: at most a hundred, and only those that fit. */
  function RunsRead(data: seq<Byte>, i: nat, count: nat): seq<Run>
    decreases count - i
  {
    if i >= count || 16 + i * 12 + 12 > |data| then []
    else [Run(Word(data, 16 + i * 12), Word(data, 20 + i * 12))] + RunsRead(data, i + 1, count)
  }

  function StscRuns(data: seq<Byte>): seq<Run> {
    if |data| < 16 then [] else RunsRead(data, 0, Min(Word(data, 12), MAX_RUNS))
  }

  method ParseStsc(data: seq<Byte>) returns (entries: seq<Run>)
    ensures entries == StscRuns(data)
  {
    if |data| < 16 {
      return [];
    }
    var entryCount := Word(data, 12);
    entries := [];
    var n := Min(entryCount, MAX_RUNS);
    var i := 0;
    while i < n
      invariant 0 <= i <= n
      invariant StscRuns(data) == entries + RunsRead(data, i, n)
    {
      var offset := 16 + i * 12;
      if offset + 12 > |data| {
        break;
      }
      var run := Run(Word(data, offset), Word(data, offset + 4));
      assert entries + ([run] + RunsRead(data, i + 1, n)) == entries + [run] + RunsRead(data, i + 1, n);
      entries := entries + [run];
      i := i + 1;
    }
  }

  function EncodeRun(r: Run, description: nat): seq<Byte> {
    BytesOf(r.firstChunk, 4) + BytesOf(r.samples, 4) + BytesOf(description, 4)
  }

  function EncodeRuns(runs: seq<Run>, description: nat): (bs: seq<Byte>)
    ensures |bs| == 12 * |runs|
  {
    if runs == [] then [] else EncodeRun(runs[0], description) + EncodeRuns(runs[1..], description)
  }

  /** A sample-to-chunk box: twelve bytes of header, the count, and the entries. */
  function EncodeStsc(header: seq<Byte>, runs: seq<Run>, description: nat): seq<Byte> {
    header + BytesOf(|runs|, 4) + EncodeRuns(runs, description)
  }

  predicate Encodable(runs: seq<Run>) {
    |runs| < U32 && forall i :: 0 <= i < |runs| ==> runs[i].firstChunk < U32 && runs[i].samples < U32
  }

  lemma WordInverts(n: nat)
    requires n < U32
    ensures BigEndian(BytesOf(n, 4)) == n
  {
    assert Pow256(2) == 0x1_0000;
    assert Pow256(4) == U32;
    BytesInvert(n, 4);
  }

  lemma WordOfBytes(before: seq<Byte>, word: seq<Byte>, after: seq<Byte>)
    requires |word| == 4
    ensures Word(before + word + after, |before|) == BigEndian(word)
  {
    assert (before + word + after)[|before|..|before| + 4] == word;
  }

  lemma ThreeWords(a: seq<Byte>, b: seq<Byte>, c: seq<Byte>, rest: seq<Byte>)
    requires |a| == 4 && |b| == 4 && |c| == 4
    ensures var tail := a + b + c + rest;
      tail[0..4] == a && tail[4..8] == b && tail[12..] == rest
  {
  }

  lemma RunReadBack(r: Run, description: nat, rest: seq<Byte>)
    requires r.firstChunk < U32 && r.samples < U32
    ensures var tail := EncodeRun(r, description) + rest;
      Word(tail, 0) == r.firstChunk && Word(tail, 4) == r.samples && tail[12..] == rest
  {
    ThreeWords(BytesOf(r.firstChunk, 4), BytesOf(r.samples, 4), BytesOf(description, 4), rest);
    WordInverts(r.firstChunk);
    WordInverts(r.samples);
  }

  lemma WordOfTail(data: seq<Byte>, at: nat, i: nat)
    requires at + i + 4 <= |data|
    ensures Word(data[at..], i) == Word(data, at + i)
  {
    assert data[at..][i..i + 4] == data[at + i..at + i + 4];
  }

  lemma {:induction false} RunsReadBack(data: seq<Byte>, runs: seq<Run>, i: nat, count: nat,
                                        description: nat, trailing: seq<Byte>)
    requires Encodable(runs) && i <= count && (count <= i + |runs| || |trailing| < 12)
    requires 16 + i * 12 <= |data| && data[16 + i * 12..] == EncodeRuns(runs, description) + trailing
    ensures RunsRead(data, i, count) == runs[..Min(count - i, |runs|)]
    decreases |runs|
  {
    if i < count && runs != [] {
      var rest := EncodeRuns(runs[1..], description) + trailing;
      OneRunRead(data, runs[0], i, count, description, rest);
      assert EncodeRuns(runs, description) + trailing == EncodeRun(runs[0], description) + rest;
      RunsReadBack(data, runs[1..], i + 1, count, description, trailing);
      PrefixCons(runs, Min(count - i, |runs|));
    } else if runs == [] {
      assert EncodeRuns(runs, description) + trailing == trailing;
    }
  }

  lemma PrefixCons(runs: seq<Run>, n: nat)
    requires 0 < n <= |runs|
    ensures runs[..n] == [runs[0]] + runs[1..][..n - 1]
  {
  }

  lemma OneRunRead(data: seq<Byte>, r: Run, i: nat, count: nat, description: nat, rest: seq<Byte>)
    requires r.firstChunk < U32 && r.samples < U32 && i < count
    requires 16 + i * 12 <= |data| && data[16 + i * 12..] == EncodeRun(r, description) + rest
    ensures 28 + i * 12 <= |data| && data[16 + (i + 1) * 12..] == rest
    ensures RunsRead(data, i, count) == [r] + RunsRead(data, i + 1, count)
  {
    var at := 16 + i * 12;
    var tail := data[at..];
    RunReadBack(r, description, rest);
    WordOfTail(data, at, 0);
    WordOfTail(data, at, 4);
    assert data[at + 12..] == tail[12..];
  }

  /** Whatever the count in the header says, and wherever the data ends: as many runs come back
      as the count, the limit of a hundred and the complete entries allow. */
  lemma StscCut(header: seq<Byte>, count: nat, runs: seq<Run>, description: nat, trailing: seq<Byte>)
    requires |header| == 12 && Encodable(runs) && count < U32 && (count <= |runs| || |trailing| < 12)
    ensures StscRuns(header + BytesOf(count, 4) + EncodeRuns(runs, description) + trailing) ==
      runs[..Min(Min(count, 100), |runs|)]
  {
    var body := EncodeRuns(runs, description) + trailing;
    var data := header + BytesOf(count, 4) + EncodeRuns(runs, description) + trailing;
    assert data == header + BytesOf(count, 4) + body;
    WordOfBytes(header, BytesOf(count, 4), body);
    WordInverts(count);
    assert data[16..] == body;
    RunsReadBack(data, runs, 0, Min(count, MAX_RUNS), description, trailing);
  }

  /** Reading an encoded table gives back its first hundred runs. */
  lemma StscRoundTrip(header: seq<Byte>, runs: seq<Run>, description: nat, trailing: seq<Byte>)
    requires |header| == 12 && Encodable(runs)
    ensures StscRuns(EncodeStsc(header, runs, description) + trailing) == runs[..Min(|runs|, MAX_RUNS)]
  {
    StscCut(header, |runs|, runs, description, trailing);
  }

  /** The table read is the whole table exactly when it has at most a hundred runs. */
  lemma StscComplete(header: seq<Byte>, runs: seq<Run>, description: nat)
    requires |header| == 12 && Encodable(runs)
    ensures StscRuns(EncodeStsc(header, runs, description)) == runs <==> |runs| <= MAX_RUNS
  {
    StscRoundTrip(header, runs, description, []);
    assert EncodeStsc(header, runs, description) + [] == EncodeStsc(header, runs, description);
    assert |runs| <= MAX_RUNS ==> runs[..|runs|] == runs;
  }

  lemma PrefixRun(table: seq<Run>, k: nat, chunk: nat)
    requires WellFormed(table) && 1 <= k < |table| && WellFormed(table[..k])
    requires 1 <= chunk < table[k].firstChunk
    ensures RunOf(table[..k], chunk) == RunOf(table, chunk)
    ensures SamplesIn(table[..k], chunk) == SamplesIn(table, chunk)
  {
    var i, j := RunOf(table[..k], chunk), RunOf(table, chunk);
    assert j < k && table[..k][j] == table[j] && table[..k][i] == table[i];
  }

  lemma {:induction false} PrefixAgrees(table: seq<Run>, k: nat, chunk: nat)
    requires WellFormed(table) && 1 <= k < |table| && WellFormed(table[..k])
    requires 1 <= chunk < table[k].firstChunk
    ensures FirstSample(table[..k], chunk) == FirstSample(table, chunk)
    decreases chunk
  {
    if chunk > 1 {
      PrefixRun(table, k, chunk - 1);
      PrefixAgrees(table, k, chunk - 1);
    }
  }

  lemma CutRun(table: seq<Run>, k: nat, chunk: nat)
    requires WellFormed(table) && 1 <= k < |table| && WellFormed(table[..k]) && chunk >= table[k].firstChunk
    ensures chunk >= 1 && SamplesIn(table[..k], chunk) == table[k - 1].samples
  {
    assert table[k - 1].firstChunk < table[k].firstChunk;
    assert table[..k][k - 1] == table[k - 1];
  }

  lemma OneBlockMore(a: nat, before: nat, m: nat, k: nat)
    requires m >= 1 && before == a + (m - 1) * k
    ensures before + k == a + m * k
  {
  }

  /** Once the last run has begun the first samples are an arithmetic progression. */
  lemma {:induction false} TailSamples(table: seq<Run>, from: nat, d: nat)
    requires WellFormed(table) && 1 <= table[|table| - 1].firstChunk <= from <= d
    ensures FirstSample(table, d) == FirstSample(table, from) + (d - from) * table[|table| - 1].samples
    decreases d
  {
    var a, k := FirstSample(table, from), table[|table| - 1].samples;
    if d == from {
      assert (d - from) * k == 0;
    } else {
      TailSamples(table, from, d - 1);
      var before := FirstSample(table, d - 1);
      TailStep(table, d);
      OneBlockMore(a, before, d - from, k);
    }
  }

  lemma TailStep(table: seq<Run>, d: nat)
    requires WellFormed(table) && 1 <= table[|table| - 1].firstChunk < d
    ensures FirstSample(table, d) == FirstSample(table, d - 1) + table[|table| - 1].samples
  {
    assert RunOf(table, d - 1) == |table| - 1;
  }

  /** From the first run that was not read, the cut table goes on with the last run it has. */
  lemma CutSamples(table: seq<Run>, k: nat, chunk: nat)
    requires WellFormed(table) && 1 <= k < |table| && WellFormed(table[..k])
    requires chunk >= table[k].firstChunk
    ensures FirstSample(table[..k], chunk) ==
      FirstSample(table, table[k].firstChunk) + (chunk - table[k].firstChunk) * table[k - 1].samples
  {
    var start := table[k].firstChunk;
    assert table[0].firstChunk <= table[k - 1].firstChunk < start;
    CutStart(table, k, start);
    TailSamples(table[..k], start, chunk);
  }

  lemma CutStart(table: seq<Run>, k: nat, start: nat)
    requires WellFormed(table) && 1 <= k < |table| && WellFormed(table[..k]) && start == table[k].firstChunk
    ensures start >= 1 && FirstSample(table[..k], start) == FirstSample(table, start)
  {
    assert table[0].firstChunk < start;
    PrefixRun(table, k, start - 1);
    PrefixAgrees(table, k, start - 1);
  }

  /** The table cut at a hundred runs puts a sample into its own chunk exactly when that chunk
      comes before the first run that was not read, or when counting on in steps of the last
      run that was read happens to arrive at the same chunk. */
  lemma TruncationExactly(table: seq<Run>, chunk: nat, sample: nat)
    requires WellFormed(table) && |table| > MAX_RUNS && chunk >= 1 && Holds(table, chunk, sample)
    ensures WellFormed(table[..MAX_RUNS])
    ensures var start, step := table[MAX_RUNS].firstChunk, table[MAX_RUNS - 1].samples;
      Holds(table[..MAX_RUNS], chunk, sample) <==>
        chunk < start ||
        (chunk - start) * step <= sample - FirstSample(table, start) < (chunk - start) * step + step
  {
    var start := table[MAX_RUNS].firstChunk;
    assert table[0].firstChunk < start;
    assert WellFormed(table[..MAX_RUNS]);
    if chunk < start {
      PrefixRun(table, MAX_RUNS, chunk);
      PrefixAgrees(table, MAX_RUNS, chunk);
    } else {
      CutSamples(table, MAX_RUNS, chunk);
      CutRun(table, MAX_RUNS, chunk);
    }
  }
}
