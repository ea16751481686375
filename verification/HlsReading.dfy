/** Reading a rendered media playlist line by line. */
module HlsReading {
  import opened Common
  import opened Hls

  predicate ReadsNumber(s: string, n: nat) {
    s != "" && AllDigits(s) && NumberOf(s) == n
  }

  /** A point with six digits behind it. */
  predicate MicrosText(s: string, whole: string, rest: string, micros: nat) {
    && s == whole + "." + rest && whole != "" && |rest| == 6 && AllDigits(whole) && AllDigits(rest)
    && NumberOf(whole) * 1_000_000 + NumberOf(rest) == micros
  }

  /** The millionths nearest to a duration, and the larger ones when two are equally near. */
  predicate Nearest(x: real, micros: int) {
    micros as real - 0.5 <= x * 1_000_000.0 < micros as real + 0.5
  }

  ghost predicate ReadsDuration(s: string, x: real) {
    exists whole, rest, micros: nat :: MicrosText(s, whole, rest, micros) && Nearest(x, micros)
  }

  ghost predicate ReadsTrack(s: string, audio: Option<nat>) {
    if audio.None? then s == ""
    else exists id :: s == "audio-" + id + "-" && ReadsNumber(id, audio.value)
  }

  ghost predicate EntryText(entry: string, d: string, track: string, id: string, s: Segment, names: Names, i: nat) {
    && entry == "#EXTINF:" + d + ",\n" + names.base + track + id + ".ts?" + names.query + "\n"
    && ReadsDuration(d, s.duration) && ReadsTrack(track, names.audio) && ReadsNumber(id, i)
  }

  /** The two lines of a segment: its duration, and the name of its file with its number. */
  ghost predicate ReadsEntry(entry: string, s: Segment, names: Names, i: nat) {
    exists d, track, id :: EntryText(entry, d, track, id, s, names, i)
  }

  /** The least whole number of seconds that no segment exceeds. */
  predicate LeastTarget(target: nat, segments: seq<Segment>) {
    && (forall i :: 0 <= i < |segments| ==> segments[i].duration <= target as real)
    && (exists i :: 0 <= i < |segments| && segments[i].duration > (target - 1) as real)
  }

  ghost predicate FileText(m3u: string, target: string, entries: seq<string>, segments: seq<Segment>, names: Names,
                           n: nat)
  {
    && m3u == Concat(["#EXTM3U\n", "#EXT-X-VERSION:3\n", "#EXT-X-TARGETDURATION:", target, "\n",
                      "#EXT-X-MEDIA-SEQUENCE:0\n", "#EXT-X-PLAYLIST-TYPE:VOD\n"]) +
              Concat(entries) + "#EXT-X-ENDLIST\n"
    && ReadsNumber(target, n) && LeastTarget(n, segments) && |entries| == |segments|
    && forall i :: 0 <= i < |segments| ==> ReadsEntry(entries[i], segments[i], names, i)
  }

  ghost predicate ReadsPlaylist(m3u: string, segments: seq<Segment>, names: Names) {
    exists target, entries, n :: FileText(m3u, target, entries, segments, names, n)
  }

  lemma DecimalReads(n: nat)
    ensures ReadsNumber(Decimal(n), n)
  {
    DecimalRoundTrip(n);
  }

  lemma {:induction false} PaddedReads(n: nat, width: nat, bound: nat)
    requires n < bound && bound == Pow10(width)
    ensures AllDigits(Padded(n, width)) && NumberOf(Padded(n, width)) == n
    decreases width
  {
    if width > 0 {
      var front := Padded(n / 10, width - 1);
      PaddedReads(n / 10, width - 1, Pow10(width - 1));
      assert Padded(n, width)[..width - 1] == front;
    }
  }

  function Pow10(width: nat): nat {
    if width == 0 then 1 else 10 * Pow10(width - 1)
  }

  lemma DurationReads(x: real)
    requires x >= 0.0
    ensures ReadsDuration(SixDecimals(x), x)
  {
    var micros := Micros(x);
    assert Nearest(x, micros);
    DecimalReads(micros / 1000000);
    assert Pow10(6) == 1000000;
    PaddedReads(micros % 1000000, 6, 1000000);
    MicrosRead(SixDecimals(x), Decimal(micros / 1000000), Padded(micros % 1000000, 6), micros, x);
  }

  lemma MicrosRead(s: string, whole: string, rest: string, micros: nat, x: real)
    requires MicrosText(s, whole, rest, micros) && Nearest(x, micros)
    ensures ReadsDuration(s, x)
  {
  }

  lemma EntryReads(s: Segment, names: Names, i: nat)
    requires s.duration >= 0.0
    ensures ReadsEntry(InfoLine(s.duration) + NameLine(names, i), s, names, i)
  {
    DurationReads(s.duration);
    DecimalReads(i);
    if names.audio.Some? {
      DecimalReads(names.audio.value);
    }
    var d, track, id := SixDecimals(s.duration), Track(names.audio), Decimal(i);
    EntryJoined(d, names.base, track, id, names.query);
    assert EntryText(InfoLine(s.duration) + NameLine(names, i), d, track, id, s, names, i);
  }

  lemma EntryJoined(d: string, base: string, track: string, id: string, query: string)
    ensures "#EXTINF:" + d + ",\n" + (base + track + id + ".ts?" + query + "\n") ==
      "#EXTINF:" + d + ",\n" + base + track + id + ".ts?" + query + "\n"
  {
  }

  function EntryTexts(segments: seq<Segment>, names: Names, n: nat): (r: seq<string>)
    requires n <= |segments| && forall i :: 0 <= i < |segments| ==> segments[i].duration > 0.0
    ensures |r| == n
  {
    seq(n, i requires 0 <= i < n => InfoLine(segments[i].duration) + NameLine(names, i))
  }

  lemma {:induction false} EntriesConcat(segments: seq<Segment>, names: Names, n: nat)
    requires n <= |segments| && forall i :: 0 <= i < |segments| ==> segments[i].duration > 0.0
    ensures Concat(EntryTexts(segments, names, n)) == Entries(segments, names, n)
  {
    var texts := EntryTexts(segments, names, n);
    if n > 0 {
      EntriesConcat(segments, names, n - 1);
      assert texts[..n - 1] == EntryTexts(segments, names, n - 1);
      var info, name := InfoLine(segments[n - 1].duration), NameLine(names, n - 1);
      assert texts[n - 1] == info + name;
      Joined(Entries(segments, names, n - 1), info, name);
    } else {
      assert texts == [];
    }
  }

  lemma Joined(a: string, b: string, c: string)
    ensures a + b + c == a + (b + c)
  {
  }

  lemma TargetIsLeast(segments: seq<Segment>, duration: real)
    requires Tiles(segments, duration) && segments != []
    ensures LeastTarget(TargetDuration(segments, |segments|), segments)
  {
    TargetReached(segments, duration, |segments|);
    var i :| 0 <= i < |segments| && TargetDuration(segments, |segments|) == Ceil(segments[i].duration);
    CeilBounds(segments[i].duration);
  }

  /** A rendered playlist reads as its header with the least target duration, two lines for each
      segment in order, and its end. */
  lemma PlaylistReads(segments: seq<Segment>, duration: real, names: Names)
    requires Tiles(segments, duration) && segments != []
    ensures ReadsPlaylist(Playlist(segments, names), segments, names)
  {
    var n := TargetDuration(segments, |segments|);
    var entries := EntryTexts(segments, names, |segments|);
    TargetIsLeast(segments, duration);
    DecimalReads(n);
    EntriesConcat(segments, names, |segments|);
    forall i | 0 <= i < |segments| ensures ReadsEntry(entries[i], segments[i], names, i) {
      EntryReads(segments[i], names, i);
    }
    HeaderReads(n);
    assert FileText(Playlist(segments, names), Decimal(n), entries, segments, names, n);
  }

  lemma ConcatSnoc(parts: seq<string>, last: string)
    ensures Concat(parts + [last]) == Concat(parts) + last
  {
    assert (parts + [last])[..|parts|] == parts;
  }

  lemma FourParts(a: string, b: string, c: string, d: string)
    ensures Concat([a, b, c, d]) == a + b + c + d
  {
    ConcatSnoc([], a);
    assert [] + [a] == [a] && "" + a == a;
    ConcatSnoc([a], b);
    assert [a] + [b] == [a, b];
    ConcatSnoc([a, b], c);
    assert [a, b] + [c] == [a, b, c];
    ConcatSnoc([a, b, c], d);
    assert [a, b, c] + [d] == [a, b, c, d];
  }

  lemma HeaderReads(n: nat)
    ensures Header(n) == Concat(["#EXTM3U\n", "#EXT-X-VERSION:3\n", "#EXT-X-TARGETDURATION:", Decimal(n), "\n",
                                 "#EXT-X-MEDIA-SEQUENCE:0\n", "#EXT-X-PLAYLIST-TYPE:VOD\n"])
  {
    var a, b, c, d := "#EXTM3U\n", "#EXT-X-VERSION:3\n", "#EXT-X-TARGETDURATION:", Decimal(n);
    var e, f, g := "\n", "#EXT-X-MEDIA-SEQUENCE:0\n", "#EXT-X-PLAYLIST-TYPE:VOD\n";
    SevenParts(a, b, c, d, e, f, g);
  }

  lemma SevenParts(a: string, b: string, c: string, d: string, e: string, f: string, g: string)
    ensures Concat([a, b, c, d, e, f, g]) == a + b + c + d + e + f + g
  {
    FourParts(a, b, c, d);
    ConcatSnoc([a, b, c, d], e);
    assert [a, b, c, d] + [e] == [a, b, c, d, e];
    ConcatSnoc([a, b, c, d, e], f);
    assert [a, b, c, d, e] + [f] == [a, b, c, d, e, f];
    ConcatSnoc([a, b, c, d, e, f], g);
    assert [a, b, c, d, e, f] + [g] == [a, b, c, d, e, f, g];
  }

  /** While the duration is unknown, a header without an end. */
  lemma WaitingReads()
    ensures WAITING == Concat(["#EXTM3U\n", "#EXT-X-VERSION:3\n", "#EXT-X-TARGETDURATION:2\n",
                               "#EXT-X-MEDIA-SEQUENCE:0\n"])
  {
    FourParts("#EXTM3U\n", "#EXT-X-VERSION:3\n", "#EXT-X-TARGETDURATION:2\n", "#EXT-X-MEDIA-SEQUENCE:0\n");
  }
}
