/** Several files persisted at the same time, each checking the budget before it writes. */
module PersistRuns {
  import opened PieceCache
  import opened DiskCache

  /** A persist between its budget check and its write. The stamp is the number of writes
      that had happened when it checked. */
  datatype Admitted = Admitted(file: CachedFile, stamp: nat)

  datatype State = State(files: seq<CachedFile>, admitted: map<nat, Admitted>, writes: nat)

  datatype Event = Check(id: nat, file: CachedFile) | Write(id: nat, end: WriteEnd) | GiveUp(id: nat)

  predicate Allowed(s: State, e: Event) {
    match e
    case Check(id, _) => id !in s.admitted
    case Write(id, _) => id in s.admitted
    case GiveUp(id) => id in s.admitted
  }

  /** What a write leaves in the cache directory: the file, part of it, or nothing. */
  function Left(file: CachedFile, end: WriteEnd): (r: seq<CachedFile>)
    ensures |r| <= 1 && forall i :: 0 <= i < |r| ==> |r[i].data| <= |file.data|
  {
    var data := Leftover(file.data, end);
    if data.Some? then [file.(data := data.value)] else []
  }

  function StoredAll(files: seq<CachedFile>, more: seq<CachedFile>): seq<CachedFile>
    decreases |more|
  {
    if more == [] then files else StoredAll(Stored(files, more[0]), more[1..])
  }

  function Step(max: nat, s: State, e: Event): State
    requires Allowed(s, e)
  {
    match e
    case Check(id, file) =>
      if 0 < max && |file.data| <= max && Usage(s.files) + |file.data| <= max
      then s.(admitted := s.admitted[id := Admitted(file, s.writes)]) else s
    case Write(id, end) =>
      State(StoredAll(s.files, Left(s.admitted[id].file, end)), s.admitted - {id}, s.writes + 1)
    case GiveUp(id) => s.(admitted := s.admitted - {id})
  }

  ghost predicate Run(max: nat, s: State, events: seq<Event>, end: State)
    decreases |events|
  {
    if events == [] then s == end
    else Allowed(s, events[0]) && Run(max, Step(max, s, events[0]), events[1..], end)
  }

  /** No write falls between a persist's check and its own write. */
  ghost predicate Alone(max: nat, s: State, events: seq<Event>)
    decreases |events|
  {
    if events == [] then true
    else
      && Allowed(s, events[0])
      && (events[0].Write? ==> s.admitted[events[0].id].stamp == s.writes)
      && Alone(max, Step(max, s, events[0]), events[1..])
  }

  ghost predicate WithinBudget(max: nat, s: State) {
    && Usage(s.files) <= max
    && (forall id :: id in s.admitted ==>
      s.admitted[id].stamp <= s.writes &&
      (s.admitted[id].stamp == s.writes ==> Usage(s.files) + |s.admitted[id].file.data| <= max))
  }

  /** Persists that do not overlap never push the cache over its limit. */
  lemma {:induction false} AloneStaysWithinBudget(max: nat, s: State, events: seq<Event>, end: State)
    requires WithinBudget(max, s) && Alone(max, s, events) && Run(max, s, events, end)
    ensures WithinBudget(max, end)
    decreases |events|
  {
    if events != [] {
      if events[0].Write? {
        StoresAddUp(s.files, Left(s.admitted[events[0].id].file, events[0].end));
      }
      AloneStaysWithinBudget(max, Step(max, s, events[0]), events[1..], end);
    }
  }

  // ------------------------------------------------------------- when persists overlap

  predicate Distinct(files: seq<CachedFile>) {
    forall i, j :: 0 <= i < j < |files| ==> !SameName(files[i], files[j])
  }

  function Sizes(files: seq<CachedFile>): nat {
    if files == [] then 0 else |files[0].data| + Sizes(files[1..])
  }

  /** The size of the files that writing some files one after the other replaces. */
  function Displaced(files: seq<CachedFile>, more: seq<CachedFile>): nat
    decreases |more|
  {
    if more == [] then 0 else Replaced(files, more[0]) + Displaced(Stored(files, more[0]), more[1..])
  }

  /** The size of those files that were there before any was written. */
  function Present(files: seq<CachedFile>, more: seq<CachedFile>): nat {
    if more == [] then 0 else Replaced(files, more[0]) + Present(files, more[1..])
  }

  lemma {:induction false} StoresAddUp(files: seq<CachedFile>, more: seq<CachedFile>)
    ensures Usage(StoredAll(files, more)) + Displaced(files, more) == Usage(files) + Sizes(more)
    decreases |more|
  {
    if more != [] {
      StoredUsage(files, more[0]);
      StoresAddUp(Stored(files, more[0]), more[1..]);
    }
  }

  lemma {:induction false} StoredKeeps(files: seq<CachedFile>, a: CachedFile, b: CachedFile)
    requires !SameName(a, b)
    ensures Replaced(Stored(files, a), b) == Replaced(files, b)
  {
    if files != [] {
      var front, last := files[..|files| - 1], files[|files| - 1];
      StoredKeeps(front, a, b);
      var kept := if SameName(last, a) then front else Stored(front, a);
      assert Stored(files, a)[..|Stored(files, a)| - 1] == kept;
    }
  }

  lemma {:induction false} PresentKeeps(files: seq<CachedFile>, a: CachedFile, more: seq<CachedFile>)
    requires forall i :: 0 <= i < |more| ==> !SameName(a, more[i])
    ensures Present(Stored(files, a), more) == Present(files, more)
    decreases |more|
  {
    if more != [] {
      StoredKeeps(files, a, more[0]);
      PresentKeeps(files, a, more[1..]);
    }
  }

  /** Files of different names replace only what was there before. */
  lemma {:induction false} DisplacedArePresent(files: seq<CachedFile>, more: seq<CachedFile>)
    requires Distinct(more)
    ensures Displaced(files, more) == Present(files, more)
    decreases |more|
  {
    if more != [] {
      forall i | 0 <= i < |more[1..]| ensures !SameName(more[0], more[1..][i]) {
        assert more[1..][i] == more[i + 1];
      }
      PresentKeeps(files, more[0], more[1..]);
      DisplacedArePresent(Stored(files, more[0]), more[1..]);
    }
  }

  ghost predicate Legal(max: nat, s: State, events: seq<Event>)
    decreases |events|
  {
    events == [] || (Allowed(s, events[0]) && Legal(max, Step(max, s, events[0]), events[1..]))
  }

  /** What one event leaves in the cache directory. */
  function WrittenBy(s: State, e: Event): seq<CachedFile>
    requires Allowed(s, e)
  {
    if e.Write? then Left(s.admitted[e.id].file, e.end) else []
  }

  /** The files a run leaves, whole or in part, in the order of the writes. */
  ghost function Written(max: nat, s: State, events: seq<Event>): seq<CachedFile>
    requires Legal(max, s, events)
    decreases |events|
  {
    if events == [] then []
    else WrittenBy(s, events[0]) + Written(max, Step(max, s, events[0]), events[1..])
  }

  lemma StepStores(max: nat, s: State, e: Event)
    requires Allowed(s, e)
    ensures Step(max, s, e).files == StoredAll(s.files, WrittenBy(s, e))
  {
  }

  lemma {:induction false} StoredAllJoin(files: seq<CachedFile>, a: seq<CachedFile>, b: seq<CachedFile>)
    ensures StoredAll(files, a + b) == StoredAll(StoredAll(files, a), b)
    decreases |a|
  {
    if a == [] {
      assert a + b == b;
    } else {
      assert (a + b)[1..] == a[1..] + b;
      StoredAllJoin(Stored(files, a[0]), a[1..], b);
    }
  }

  lemma {:induction false} RunStores(max: nat, s: State, events: seq<Event>, end: State)
    requires Run(max, s, events, end) && Legal(max, s, events)
    ensures end.files == StoredAll(s.files, Written(max, s, events))
    decreases |events|
  {
    if events != [] {
      var next := Step(max, s, events[0]);
      StepStores(max, s, events[0]);
      RunStores(max, next, events[1..], end);
      StoredAllJoin(s.files, WrittenBy(s, events[0]), Written(max, next, events[1..]));
    }
  }

  /** Over every run, however checks and writes interleave and however the writes end: the
      usage grows by what was written less what that replaced, so the limit is passed if and
      only if the files do not fit in place of those. */
  lemma WritesAddUp(max: nat, s: State, events: seq<Event>, end: State)
    requires Run(max, s, events, end) && Legal(max, s, events)
    ensures var written := Written(max, s, events);
      && Usage(end.files) + Displaced(s.files, written) == Usage(s.files) + Sizes(written)
      && (Usage(end.files) > max <==> Usage(s.files) + Sizes(written) > max + Displaced(s.files, written))
  {
    RunStores(max, s, events, end);
    StoresAddUp(s.files, Written(max, s, events));
  }

  predicate Waiting(s: State, ids: seq<nat>) {
    && (forall i :: 0 <= i < |ids| ==> ids[i] in s.admitted)
    && (forall i, j :: 0 <= i < j < |ids| ==> ids[i] != ids[j])
  }

  function FilesOf(s: State, ids: seq<nat>): seq<CachedFile>
    requires Waiting(s, ids)
  {
    seq(|ids|, i requires 0 <= i < |ids| => s.admitted[ids[i]].file)
  }

  function WriteAll(ids: seq<nat>): seq<Event> {
    if ids == [] then [] else [Write(ids[0], Complete)] + WriteAll(ids[1..])
  }

  lemma {:induction false} WriteAllWrites(max: nat, s: State, ids: seq<nat>)
    requires Waiting(s, ids)
    ensures Legal(max, s, WriteAll(ids)) && Written(max, s, WriteAll(ids)) == FilesOf(s, ids)
    decreases |ids|
  {
    if ids != [] {
      var next, events := Step(max, s, Write(ids[0], Complete)), WriteAll(ids);
      assert events[0] == Write(ids[0], Complete) && events[1..] == WriteAll(ids[1..]);
      assert Waiting(next, ids[1..]);
      WriteAllWrites(max, next, ids[1..]);
      assert WrittenBy(s, events[0]) == [s.admitted[ids[0]].file];
      assert FilesOf(s, ids) == [s.admitted[ids[0]].file] + FilesOf(next, ids[1..]);
    }
  }

  /** Any number of files of different names that were all admitted against the same usage:
      writing them all goes over the limit exactly when together they do not fit in place of
      those of their names. */
  lemma OverlapExceeds(max: nat, s: State, ids: seq<nat>, end: State)
    requires Waiting(s, ids) && Distinct(FilesOf(s, ids))
    requires WithinBudget(max, s) && forall i :: 0 <= i < |ids| ==> s.admitted[ids[i]].stamp == s.writes
    requires Run(max, s, WriteAll(ids), end)
    ensures Usage(end.files) > max <==>
      Usage(s.files) + Sizes(FilesOf(s, ids)) > max + Present(s.files, FilesOf(s, ids))
    ensures forall i :: 0 <= i < |ids| ==> Usage(s.files) + |FilesOf(s, ids)[i].data| <= max
  {
    WriteAllWrites(max, s, ids);
    WritesAddUp(max, s, WriteAll(ids), end);
    DisplacedArePresent(s.files, FilesOf(s, ids));
  }

  function CheckAll(files: seq<CachedFile>, first: nat): seq<Event> {
    if files == [] then [] else [Check(first, files[0])] + CheckAll(files[1..], first + 1)
  }

  predicate Fits(max: nat, s: State, file: CachedFile) {
    0 < max && Usage(s.files) + |file.data| <= max
  }

  /** Such a state is easily reached: files that each fit alone are all admitted when they are
      checked before any of them is written. */
  lemma {:induction false} CheckedTogether(max: nat, s: State, files: seq<CachedFile>, first: nat, end: State)
    requires forall i :: 0 <= i < |files| ==> Fits(max, s, files[i])
    requires Run(max, s, CheckAll(files, first), end)
    ensures end.files == s.files && end.writes == s.writes
    ensures forall id :: first <= id < first + |files| ==>
      id in end.admitted && end.admitted[id] == Admitted(files[id - first], s.writes)
    ensures forall id :: id in s.admitted && id < first ==>
      id in end.admitted && end.admitted[id] == s.admitted[id]
    decreases |files|
  {
    if files != [] {
      var events := CheckAll(files, first);
      var next := Step(max, s, Check(first, files[0]));
      assert events[0] == Check(first, files[0]) && events[1..] == CheckAll(files[1..], first + 1);
      assert Fits(max, s, files[0]) && next.files == s.files;
      CheckedTogether(max, next, files[1..], first + 1, end);
      assert first in next.admitted && end.admitted[first] == Admitted(files[0], s.writes);
    }
  }

  /** One after the other, the second file is refused exactly when the two do not fit in place
      of what the first one replaced. */
  lemma OneAfterOther(max: nat, s: State, a: CachedFile, b: CachedFile, end: State)
    requires s.admitted == map[] && Fits(max, s, a) && Fits(max, s, b)
    requires Run(max, s, [Check(0, a), Write(0, Complete), Check(1, b)], end)
    ensures 1 in end.admitted <==> Usage(s.files) + |a.data| + |b.data| <= max + Replaced(s.files, a)
  {
    StoredUsage(s.files, a);
    ThreeSteps(max, s, a, b, end);
  }

  lemma First(max: nat, s: State, e: Event, rest: seq<Event>, end: State) returns (next: State)
    requires Run(max, s, [e] + rest, end)
    ensures Allowed(s, e) && next == Step(max, s, e) && Run(max, next, rest, end)
    ensures rest == [] ==> next == end
  {
    assert ([e] + rest)[1..] == rest;
    next := Step(max, s, e);
  }

  lemma ThreeSteps(max: nat, s: State, a: CachedFile, b: CachedFile, end: State)
    requires s.admitted == map[] && 0 < max
    requires Usage(s.files) + |a.data| <= max
    requires Run(max, s, [Check(0, a), Write(0, Complete), Check(1, b)], end)
    ensures 1 in end.admitted <==> |b.data| <= max && Usage(Stored(s.files, a)) + |b.data| <= max
  {
    assert [Check(0, a), Write(0, Complete), Check(1, b)] == [Check(0, a)] + [Write(0, Complete), Check(1, b)];
    var s1 := First(max, s, Check(0, a), [Write(0, Complete), Check(1, b)], end);
    assert [Write(0, Complete), Check(1, b)] == [Write(0, Complete)] + [Check(1, b)];
    var s2 := First(max, s1, Write(0, Complete), [Check(1, b)], end);
    assert s1.admitted[0].file == a && Left(a, Complete) == [a] && [a][1..] == [];
    assert s2.files == StoredAll(s.files, [a]) == Stored(s.files, a);
    assert [Check(1, b)] == [Check(1, b)] + [];
    var s3 := First(max, s2, Check(1, b), [], end);
  }
}
