/** HLS media playlists: cutting a duration into segments and rendering them. Strings have
    one character per byte. */
module Hls {
  import opened Common

  const SEGMENT_DURATION: real := 4.0

  function Ceil(x: real): int {
    -((-x).Floor)
  }

  lemma CeilBounds(x: real)
    ensures (Ceil(x) - 1) as real < x <= Ceil(x) as real
  {
  }

  lemma CeilLeast(x: real, n: int)
    ensures x <= n as real <==> Ceil(x) <= n
  {
    CeilBounds(x);
    if n < Ceil(x) {
      assert n as real <= (Ceil(x) - 1) as real;
    } else {
      assert Ceil(x) as real <= n as real;
    }
  }

  // ------------------------------------------------------------------------- segments

  datatype Segment = Segment(start: real, duration: real)

  /** A negative count becomes zero, as Rust's conversion to an unsigned integer does. */
  function Count(duration: real): nat {
    var count := Ceil(duration / SEGMENT_DURATION);
    if count < 0 then 0 else count
  }

  function SegmentAt(duration: real, i: nat): Segment {
    var start := i as real * SEGMENT_DURATION;
    Segment(start, if start + SEGMENT_DURATION > duration then duration - start else SEGMENT_DURATION)
  }

  method GetSegments(duration: real) returns (segments: seq<Segment>)
    ensures |segments| == Count(duration)
    ensures forall i :: 0 <= i < |segments| ==> segments[i] == SegmentAt(duration, i)
    ensures Tiles(segments, duration)
  {
    segments := [];
    var count := Count(duration);
    for i := 0 to count
      invariant |segments| == i
      invariant forall j :: 0 <= j < i ==> segments[j] == SegmentAt(duration, j)
    {
      var start := i as real * SEGMENT_DURATION;
      var length := if start + SEGMENT_DURATION > duration then duration - start else SEGMENT_DURATION;
      segments := segments + [Segment(start, length)];
    }
    SegmentsTile(segments, duration);
  }

  /** The segments follow each other from zero to the end without gap or overlap, each of
      them positive and no longer than the segment duration. */
  predicate Tiles(segments: seq<Segment>, duration: real) {
    && (segments == [] <==> duration <= 0.0)
    && (segments != [] ==> segments[0].start == 0.0 && EndOf(segments[|segments| - 1]) == duration)
    && (forall i :: 0 <= i < |segments| ==> 0.0 < segments[i].duration <= SEGMENT_DURATION)
    && (forall i :: 0 < i < |segments| ==> EndOf(segments[i - 1]) == segments[i].start)
  }

  function EndOf(s: Segment): real {
    s.start + s.duration
  }

  /** A segment exists exactly when it starts before the end, and is whole unless it is last. */
  lemma SegmentShape(duration: real, i: nat)
    ensures i < Count(duration) <==> i as real * SEGMENT_DURATION < duration
    ensures i + 1 < Count(duration) ==> SegmentAt(duration, i).duration == SEGMENT_DURATION
    ensures i + 1 == Count(duration) ==> EndOf(SegmentAt(duration, i)) == duration
  {
    CeilLeast(duration / SEGMENT_DURATION, i);
    CeilLeast(duration / SEGMENT_DURATION, i + 1);
  }

  lemma SegmentsTile(segments: seq<Segment>, duration: real)
    requires |segments| == Count(duration)
    requires forall i :: 0 <= i < |segments| ==> segments[i] == SegmentAt(duration, i)
    ensures Tiles(segments, duration)
  {
    forall i | 0 <= i < |segments|
      ensures 0.0 < segments[i].duration <= SEGMENT_DURATION
      ensures i > 0 ==> EndOf(segments[i - 1]) == segments[i].start
    {
      SegmentShape(duration, i);
      if i > 0 {
        SegmentShape(duration, i - 1);
      }
    }
    SegmentShape(duration, 0);
    if segments != [] {
      SegmentShape(duration, |segments| - 1);
    }
  }

  /** Every instant of the file is in one segment and in no other. */
  lemma {:induction false} InstantInOneSegment(segments: seq<Segment>, duration: real, t: real) returns (k: nat)
    requires Tiles(segments, duration) && 0.0 <= t < duration
    ensures k < |segments| && segments[k].start <= t < EndOf(segments[k])
    ensures forall i :: 0 <= i < |segments| && segments[i].start <= t < EndOf(segments[i]) ==> i == k
  {
    k := |segments| - 1;
    while segments[k].start > t
      invariant k < |segments| && t < EndOf(segments[k])
      decreases k
    {
      k := k - 1;
    }
    forall i | 0 <= i < |segments| && segments[i].start <= t < EndOf(segments[i]) ensures i == k {
      if i < k {
        EndsBefore(segments, duration, i, k);
      } else if k < i {
        EndsBefore(segments, duration, k, i);
      }
    }
  }

  lemma {:induction false} EndsBefore(segments: seq<Segment>, duration: real, i: nat, j: nat)
    requires Tiles(segments, duration) && i < j < |segments|
    ensures EndOf(segments[i]) <= segments[j].start
    decreases j
  {
    if i < j - 1 {
      EndsBefore(segments, duration, i, j - 1);
    }
  }

  // ------------------------------------------------------------------------ rendering

  /** A duration in millionths of a second, rounded. */
  function Micros(x: real): int {
    (x * 1000000.0 + 0.5).Floor
  }

  function Padded(n: nat, width: nat): (s: string)
    ensures |s| == width
  {
    if width == 0 then "" else Padded(n / 10, width - 1) + [DigitChar(n % 10)]
  }

  /** A number with six decimals. */
  function SixDecimals(x: real): string
    requires x >= 0.0
  {
    Decimal(Micros(x) / 1000000) + "." + Padded(Micros(x) % 1000000, 6)
  }

  function TargetDuration(segments: seq<Segment>, n: nat): (target: nat)
    requires n <= |segments| && forall i :: 0 <= i < |segments| ==> segments[i].duration > 0.0
    ensures forall i :: 0 <= i < n ==> segments[i].duration <= target as real
  {
    if n == 0 then 0 else
      var before := TargetDuration(segments, n - 1);
      var here := Ceil(segments[n - 1].duration);
      CeilBounds(segments[n - 1].duration);
      if here > before then here else before
  }

  method MaxDuration(segments: seq<Segment>) returns (target: nat)
    requires forall i :: 0 <= i < |segments| ==> segments[i].duration > 0.0
    ensures target == TargetDuration(segments, |segments|)
  {
    target := 0;
    for i := 0 to |segments|
      invariant target == TargetDuration(segments, i)
    {
      CeilBounds(segments[i].duration);
      var here := Ceil(segments[i].duration);
      if here > target {
        target := here;
      }
    }
  }

  /** The target duration is the length of some segment, rounded up. */
  lemma {:induction false} TargetReached(segments: seq<Segment>, duration: real, n: nat)
    requires Tiles(segments, duration) && n <= |segments|
    ensures n > 0 ==> 1 <= TargetDuration(segments, n) <= 4
    ensures n > 0 ==> exists i :: 0 <= i < n && TargetDuration(segments, n) == Ceil(segments[i].duration)
  {
    if n > 0 {
      TargetReached(segments, duration, n - 1);
      var x := segments[n - 1].duration;
      CeilLeast(x, 4);
      CeilLeast(x, 0);
    }
  }

  function Header(target: nat): string {
    "#EXTM3U\n" + "#EXT-X-VERSION:3\n" + "#EXT-X-TARGETDURATION:" + Decimal(target) + "\n" +
    "#EXT-X-MEDIA-SEQUENCE:0\n" + "#EXT-X-PLAYLIST-TYPE:VOD\n"
  }

  function Track(audio: Option<nat>): string {
    if audio.Some? then "audio-" + Decimal(audio.value) + "-" else ""
  }

  function InfoLine(duration: real): string
    requires duration >= 0.0
  {
    "#EXTINF:" + SixDecimals(duration) + ",\n"
  }

  /** What the lines of one playlist have in common. */
  datatype Names = Names(base: string, audio: Option<nat>, query: string)

  function NameLine(names: Names, i: nat): string {
    names.base + Track(names.audio) + Decimal(i) + ".ts?" + names.query + "\n"
  }

  function Entries(segments: seq<Segment>, names: Names, n: nat): string
    requires n <= |segments| && forall i :: 0 <= i < |segments| ==> segments[i].duration > 0.0
  {
    if n == 0 then ""
    else Entries(segments, names, n - 1) + InfoLine(segments[n - 1].duration) + NameLine(names, n - 1)
  }

  function Playlist(segments: seq<Segment>, names: Names): string
    requires forall i :: 0 <= i < |segments| ==> segments[i].duration > 0.0
  {
    Header(TargetDuration(segments, |segments|)) + Entries(segments, names, |segments|) + "#EXT-X-ENDLIST\n"
  }

  /** While nothing is known of the duration, a playlist that clients load again. */
  const WAITING: string :=
    "#EXTM3U\n" + "#EXT-X-VERSION:3\n" + "#EXT-X-TARGETDURATION:2\n" + "#EXT-X-MEDIA-SEQUENCE:0\n"

  // ------------------------------------------------------------------------- capacity

  const USIZE_MAX: nat := 0xFFFF_FFFF_FFFF_FFFF
  const ISIZE_MAX: nat := 0x7FFF_FFFF_FFFF_FFFF

  function DecimalDigits(n: nat): nat {
    if n < 10 then 1 else DecimalDigits(n / 10) + 1
  }

  lemma {:induction false} DigitsOfDecimal(n: nat)
    ensures |Decimal(n)| == DecimalDigits(n)
  {
    if n >= 10 {
      DigitsOfDecimal(n / 10);
    }
  }

  function CheckedAdd(a: Option<nat>, b: nat): Option<nat> {
    if a.Some? && a.value + b <= USIZE_MAX then Some(a.value + b) else None
  }

  function CheckedMul(a: nat, b: nat): Option<nat> {
    if a * b <= USIZE_MAX then Some(a * b) else None
  }

  const FIXED_HEADER_BYTES: nat := 8 + 17 + 22 + 1 + 24 + 25 + 15
  const EXTINF_FIXED_BYTES: nat := 8 + 9
  const FILENAME_FIXED_BYTES: nat := 4 + 1

  function AudioBytes(audio: Option<nat>): nat {
    if audio.Some? then 6 + DecimalDigits(audio.value) + 1 else 0
  }

  function StreamPlaylistCapacity(count: nat, target: nat, names: Names): Option<nat> {
    var targetDigits := DecimalDigits(target);
    var indexDigits := DecimalDigits(if count == 0 then 0 else count - 1);
    var one := CheckedAdd(Some(EXTINF_FIXED_BYTES), targetDigits);
    var two := CheckedAdd(one, |names.base|);
    var three := CheckedAdd(two, AudioBytes(names.audio));
    var four := CheckedAdd(three, indexDigits);
    var five := CheckedAdd(four, FILENAME_FIXED_BYTES);
    var each := CheckedAdd(five, |names.query|);
    if each.None? then None else
      var head := CheckedAdd(Some(FIXED_HEADER_BYTES), targetDigits);
      var all := CheckedMul(count, each.value);
      if all.None? then None else
        var capacity := CheckedAdd(head, all.value);
        if capacity.Some? && capacity.value <= ISIZE_MAX then capacity else None
  }

  /** The same sums without bounds. */
  function EntryBytes(count: nat, target: nat, names: Names): nat {
    EXTINF_FIXED_BYTES + DecimalDigits(target) + |names.base| + AudioBytes(names.audio) +
    DecimalDigits(if count == 0 then 0 else count - 1) + FILENAME_FIXED_BYTES + |names.query|
  }

  function CapacityBytes(count: nat, target: nat, names: Names): nat {
    FIXED_HEADER_BYTES + DecimalDigits(target) + count * EntryBytes(count, target, names)
  }

  /** For a playlist with segments, a capacity is given exactly when it is no more than a
      string may hold, and then it is the exact sum. */
  lemma CapacityExactly(count: nat, target: nat, names: Names)
    requires count >= 1
    ensures var bytes := CapacityBytes(count, target, names);
      StreamPlaylistCapacity(count, target, names) == if bytes <= ISIZE_MAX then Some(bytes) else None
  {
    AtLeastOnce(count, EntryBytes(count, target, names));
  }

  lemma AtLeastOnce(count: nat, each: nat)
    requires count >= 1
    ensures each <= count * each
  {
  }

  // -------------------------------------------------------------- length of a playlist

  lemma MicrosBounded(x: real, target: nat)
    requires 0.0 <= x <= target as real
    ensures 0 <= Micros(x) / 1000000 <= target
  {
    assert x * 1000000.0 <= (target * 1000000) as real;
    assert Micros(x) <= target * 1000000;
  }

  lemma InfoLineLength(x: real)
    requires 0.0 < x <= SEGMENT_DURATION
    ensures |InfoLine(x)| == EXTINF_FIXED_BYTES + 1
  {
    MicrosBounded(x, 4);
  }

  lemma NameLineLength(names: Names, i: nat)
    ensures |NameLine(names, i)| ==
      |names.base| + AudioBytes(names.audio) + DecimalDigits(i) + FILENAME_FIXED_BYTES + |names.query|
  {
    DigitsOfDecimal(i);
    if names.audio.Some? {
      DigitsOfDecimal(names.audio.value);
    }
  }

  lemma HeaderLength(target: nat)
    requires target < 10
    ensures |Header(target)| + |"#EXT-X-ENDLIST\n"| == FIXED_HEADER_BYTES + 1
  {
  }

  /** How many bytes the shorter indices save. */
  function Saved(digits: nat, n: nat): int {
    if n == 0 then 0 else Saved(digits, n - 1) + digits - DecimalDigits(n - 1)
  }

  lemma {:induction false} EntriesLength(segments: seq<Segment>, duration: real, names: Names, digits: nat, n: nat)
    requires Tiles(segments, duration) && n <= |segments|
    ensures var each := EXTINF_FIXED_BYTES + 1 + |names.base| + AudioBytes(names.audio) + digits +
      FILENAME_FIXED_BYTES + |names.query|;
      |Entries(segments, names, n)| == n * each - Saved(digits, n)
  {
    var each := EXTINF_FIXED_BYTES + 1 + |names.base| + AudioBytes(names.audio) + digits +
      FILENAME_FIXED_BYTES + |names.query|;
    if n > 0 {
      EntriesLength(segments, duration, names, digits, n - 1);
      InfoLineLength(segments[n - 1].duration);
      NameLineLength(names, n - 1);
      assert n * each == (n - 1) * each + each;
    }
  }

  lemma {:induction false} DigitsMonotone(a: nat, b: nat)
    requires a <= b
    ensures 1 <= DecimalDigits(a) <= DecimalDigits(b)
    decreases b
  {
    if a >= 10 {
      DigitsMonotone(a / 10, b / 10);
    }
  }

  lemma {:induction false} SavedNothing(count: nat, n: nat)
    requires 1 <= n <= count
    ensures Saved(DecimalDigits(count - 1), n) >= 0
    ensures Saved(DecimalDigits(count - 1), n) == 0 <==> DecimalDigits(count - 1) == 1
  {
    DigitsMonotone(n - 1, count - 1);
    if n > 1 {
      SavedNothing(count, n - 1);
    }
  }

  /** A playlist never outgrows the capacity computed for it, and fills it exactly when all
      its indices have one digit. */
  lemma PlaylistFits(segments: seq<Segment>, duration: real, names: Names)
    requires Tiles(segments, duration) && segments != []
    ensures var target := TargetDuration(segments, |segments|);
      var bytes := CapacityBytes(|segments|, target, names);
      && |Playlist(segments, names)| <= bytes
      && (|Playlist(segments, names)| == bytes <==> |segments| <= 10)
  {
    var count, target := |segments|, TargetDuration(segments, |segments|);
    TargetReached(segments, duration, count);
    HeaderLength(target);
    var digits := DecimalDigits(count - 1);
    EntriesLength(segments, duration, names, digits, count);
    SavedNothing(count, count);
    DigitsMonotone(0, count - 1);
  }

  // ------------------------------------------------------------- announced durations

  function Announced(segments: seq<Segment>, n: nat): int
    requires n <= |segments|
  {
    if n == 0 then 0 else Announced(segments, n - 1) + Micros(segments[n - 1].duration)
  }

  lemma {:induction false} WholeSegmentsAnnounced(segments: seq<Segment>, duration: real, n: nat)
    requires |segments| == Count(duration) && n < |segments|
    requires forall i :: 0 <= i < |segments| ==> segments[i] == SegmentAt(duration, i)
    ensures Announced(segments, n) == 4000000 * n
  {
    if n > 0 {
      WholeSegmentsAnnounced(segments, duration, n - 1);
      SegmentShape(duration, n - 1);
    }
  }

  /** The durations in the playlist, each rounded on its own, add up to the rounded duration
      of the whole file. */
  lemma AnnouncedTotal(segments: seq<Segment>, duration: real)
    requires duration > 0.0 && |segments| == Count(duration)
    requires forall i :: 0 <= i < |segments| ==> segments[i] == SegmentAt(duration, i)
    ensures Announced(segments, |segments|) == Micros(duration)
  {
    SegmentsTile(segments, duration);
    var last := |segments| - 1;
    WholeSegmentsAnnounced(segments, duration, last);
    assert segments[last].start == last as real * SEGMENT_DURATION;
    var x, whole := segments[last].duration * 1000000.0 + 0.5, 4000000 * last;
    assert duration * 1000000.0 + 0.5 == x + whole as real;
    FloorShift(x, whole);
  }

  lemma FloorShift(x: real, n: int)
    ensures (x + n as real).Floor == x.Floor + n
  {
    var f := x.Floor;
    assert f as real + n as real == (f + n) as real;
  }

  /** Rounded to the nearest integer, no announced duration exceeds the target duration, as
      section 4.3.3.1 of RFC 8216 demands. */
  lemma RoundedWithinTarget(segments: seq<Segment>, duration: real, i: nat)
    requires Tiles(segments, duration) && i < |segments|
    ensures (Micros(segments[i].duration) + 500000) / 1000000 <= TargetDuration(segments, |segments|)
  {
    var target := TargetDuration(segments, |segments|);
    var x := segments[i].duration;
    assert x * 1000000.0 <= (target * 1000000) as real;
    assert Micros(x) <= target * 1000000;
  }

  // ----------------------------------------------------------------------- the playlist

  method GetStreamPlaylist(duration: real, names: Names) returns (m3u: string, capacity: nat)
    ensures duration <= 0.0 ==> m3u == WAITING
    ensures duration > 0.0 ==> exists segments ::
      && |segments| == Count(duration) && (forall i :: 0 <= i < |segments| ==> segments[i] == SegmentAt(duration, i))
      && Tiles(segments, duration) && m3u == Playlist(segments, names)
    ensures capacity > 0 ==> |m3u| <= capacity <= ISIZE_MAX
  {
    var segments := GetSegments(duration);
    if segments == [] {
      return WAITING, 0;
    }
    var target := MaxDuration(segments);
    var reserved := StreamPlaylistCapacity(|segments|, target, names);
    capacity := if reserved.Some? then reserved.value else 0;
    m3u := Render(segments, names, target);
    PlaylistFits(segments, duration, names);
    CapacityExactly(|segments|, target, names);
  }

  method Render(segments: seq<Segment>, names: Names, target: nat) returns (m3u: string)
    requires forall j :: 0 <= j < |segments| ==> segments[j].duration > 0.0
    requires target == TargetDuration(segments, |segments|)
    ensures m3u == Playlist(segments, names)
  {
    var head := Header(target);
    m3u := head;
    for i := 0 to |segments|
      invariant m3u == head + Entries(segments, names, i)
    {
      m3u := AddEntry(m3u, segments, names, i, head);
    }
    m3u := m3u + "#EXT-X-ENDLIST\n";
  }

  method AddEntry(m3u: string, segments: seq<Segment>, names: Names, i: nat, ghost head: string) returns (r: string)
    requires i < |segments| && forall j :: 0 <= j < |segments| ==> segments[j].duration > 0.0
    requires m3u == head + Entries(segments, names, i)
    ensures r == head + Entries(segments, names, i + 1)
  {
    var info, name := InfoLine(segments[i].duration), NameLine(names, i);
    r := m3u + info;
    r := r + name;
    Regroup(head, Entries(segments, names, i), info, name);
  }

  lemma Regroup(a: string, b: string, c: string, d: string)
    ensures a + b + c + d == a + (b + c + d)
  {
  }
}
