/** Which lines and blocks of any WebVTT file the parser takes for a cue. */
module SubtitlePattern {
  import opened Common
  import opened Text
  import opened Subtitles
  import opened SubtitleRoundTrip

  predicate AllSpace(s: string) {
    forall i :: 0 <= i < |s| ==> IsSpace(s[i])
  }

  /** Two, two, two and three digits. */
  predicate StampParts(s: string, h: string, m: string, sec: string, u: string, ms: nat) {
    && s == h + ":" + m + ":" + sec + "." + u
    && AllDigits(h) && AllDigits(m) && AllDigits(sec) && AllDigits(u)
    && |h| == 2 && |m| == 2 && |sec| == 2 && |u| == 3
    && ms == NumberOf(h) * 3600000 + NumberOf(m) * 60000 + NumberOf(sec) * 1000 + NumberOf(u)
  }

  ghost predicate Stamp(s: string, ms: nat) {
    exists h, m, sec, u :: StampParts(s, h, m, sec, u, ms)
  }

  /** Stamp, arrow and stamp with any white space before and between them, and anything behind. */
  ghost predicate TimingParts(line: string, w: string, from: string, x: string, y: string, to: string, rest: string,
                              start: nat, end: nat)
  {
    && line == w + from + x + "-->" + y + to + rest
    && AllSpace(w) && AllSpace(x) && AllSpace(y) && Stamp(from, start) && Stamp(to, end)
  }

  ghost predicate Timing(line: string, start: nat, end: nat) {
    exists w, from, x, y, to, rest :: TimingParts(line, w, from, x, y, to, rest, start, end)
  }

  lemma {:induction false} TrimStartDrops(w: string, s: string)
    requires AllSpace(w) && (s == "" || !IsSpace(s[0]))
    ensures TrimStart(w + s) == s
    decreases |w|
  {
    if w == "" {
      assert w + s == s;
    } else {
      assert (w + s)[1..] == w[1..] + s;
      TrimStartDrops(w[1..], s);
    }
  }

  lemma {:induction false} TrimStartLeaves(s: string) returns (w: string)
    ensures AllSpace(w) && s == w + TrimStart(s)
  {
    if s != "" && IsSpace(s[0]) {
      w := TrimStartLeaves(s[1..]);
      assert s == [s[0]] + s[1..];
      assert s == ([s[0]] + w) + TrimStart(s);
      w := [s[0]] + w;
    } else {
      w := "";
    }
  }

  lemma StampMatches(from: string, ms: nat, rest: string)
    requires Stamp(from, ms)
    ensures |from| == 12 && IsDigit(from[0]) && MatchStamp(from + rest) == Some(ms)
    ensures (from + rest)[12..] == rest
  {
    var h, m, sec, u :| StampParts(from, h, m, sec, u, ms);
    StampOfParts(h, m, sec, u, rest);
    assert StampText(h, m, sec, u, rest) == from + rest;
    assert from[0] == h[0];
  }

  lemma MatchIsStamp(s: string)
    requires MatchStamp(s).Some?
    ensures |s| >= 12 && Stamp(s[..12], MatchStamp(s).value) && s == s[..12] + s[12..]
  {
    var h, m, sec, u := s[0..2], s[3..5], s[6..8], s[9..12];
    assert s[..12] == h + ":" + m + ":" + sec + "." + u;
    assert StampParts(s[..12], h, m, sec, u, MatchStamp(s).value);
  }

  lemma PartsMatch(line: string, w: string, from: string, x: string, y: string, to: string, rest: string,
                   start: nat, end: nat)
    requires TimingParts(line, w, from, x, y, to, rest, start, end)
    ensures MatchTiming(line) == Some((start, end))
  {
    var c := to + rest;
    var b := "-->" + (y + c);
    var a := from + (x + b);
    Nested(w, from, x, y, to, rest);
    StampMatches(from, start, x + b);
    StampMatches(to, end, rest);
    TrimStartDrops(w, a);
    TrimStartDrops(x, b);
    Behind("-->", y + c);
    TrimStartDrops(y, c);
    MatchesAt(line, a, b, c, start, end);
  }

  lemma Nested(w: string, from: string, x: string, y: string, to: string, rest: string)
    ensures w + from + x + "-->" + y + to + rest == w + (from + (x + ("-->" + (y + (to + rest)))))
  {
    assert x + "-->" + y + to + rest == x + ("-->" + (y + (to + rest)));
    assert w + from + x + "-->" + y + to + rest == w + (from + (x + "-->" + y + to + rest));
  }

  lemma Behind(a: string, b: string)
    ensures (a + b)[|a|..] == b && a <= a + b
  {
  }

  lemma MatchesAt(line: string, a: string, b: string, c: string, start: nat, end: nat)
    requires a == TrimStart(line) && |a| >= 12 && MatchStamp(a) == Some(start)
    requires b == TrimStart(a[12..]) && "-->" <= b
    requires c == TrimStart(b[3..]) && MatchStamp(c) == Some(end)
    ensures MatchTiming(line) == Some((start, end))
  {
  }

  lemma MatchHasParts(line: string)
    requires MatchTiming(line).Some?
    ensures Timing(line, MatchTiming(line).value.0, MatchTiming(line).value.1)
  {
    var w := TrimStartLeaves(line);
    var a := TrimStart(line);
    MatchIsStamp(a);
    var x := TrimStartLeaves(a[12..]);
    var b := TrimStart(a[12..]);
    assert b == "-->" + b[3..];
    var y := TrimStartLeaves(b[3..]);
    var c := TrimStart(b[3..]);
    MatchIsStamp(c);
    PartsJoin(line, w, a, x, b, y, c);
    HasParts(line, w, a[..12], x, y, c[..12], c[12..], MatchTiming(line).value.0, MatchTiming(line).value.1);
  }

  lemma HasParts(line: string, w: string, from: string, x: string, y: string, to: string, rest: string,
                 start: nat, end: nat)
    requires TimingParts(line, w, from, x, y, to, rest, start, end)
    ensures Timing(line, start, end)
  {
  }

  lemma PartsJoin(line: string, w: string, a: string, x: string, b: string, y: string, c: string)
    requires |a| >= 12 && |c| >= 12 && |b| >= 3
    requires line == w + a && a[12..] == x + b && b == "-->" + b[3..] && b[3..] == y + c
    ensures line == w + a[..12] + x + "-->" + y + c[..12] + c[12..]
  {
    Nested(w, a[..12], x, y, c[..12], c[12..]);
    assert c[..12] + c[12..] == c && a == a[..12] + a[12..];
  }

  /** The parser reads a timing line exactly when it has this shape, and reads its two times. */
  lemma TimingExactly(line: string, start: nat, end: nat)
    ensures MatchTiming(line) == Some((start, end)) <==> Timing(line, start, end)
  {
    if MatchTiming(line).Some? {
      MatchHasParts(line);
    }
    if Timing(line, start, end) {
      var w, from, x, y, to, rest :| TimingParts(line, w, from, x, y, to, rest, start, end);
      PartsMatch(line, w, from, x, y, to, rest, start, end);
    }
  }

  /** A block is a cue when its first line with an arrow is a timing line; the cue's text is the
      lines behind it, without white space around them. */
  ghost predicate BlockIsCue(block: string, n: nat, c: Cue) {
    var lines := Lines(block);
    && n < |lines| && HasArrow(lines[n]) && (forall i :: 0 <= i < n ==> !HasArrow(lines[i]))
    && Timing(lines[n], c.startMs, c.endMs)
    && c.text == Trim(Join(lines[n + 1..])) && c.style == None
  }

  lemma BlockExactly(block: string, c: Cue)
    ensures ParseBlock(block) == Some(c) <==> exists n: nat :: BlockIsCue(block, n, c)
  {
    var lines := Lines(block);
    var n := TimingIndex(lines);
    if n < |lines| {
      TimingExactly(lines[n], c.startMs, c.endMs);
      if ParseBlock(block) == Some(c) {
        assert BlockIsCue(block, n, c);
      }
    }
    if m: nat :| BlockIsCue(block, m, c) {
      assert m == n;
    }
  }

  /** Trimming takes away white space at both ends, and nothing else. */
  lemma TrimExactly(s: string, core: string)
    ensures Trim(s) == core <==>
      Trimmed(core) && exists w, x :: AllSpace(w) && AllSpace(x) && s == w + core + x
  {
    TrimMakesTrimmed(s);
    var w := TrimStartLeaves(s);
    var x := TrimEndLeaves(TrimStart(s));
    assert s == w + Trim(s) + x;
    if Trimmed(core) && exists w, x :: AllSpace(w) && AllSpace(x) && s == w + core + x {
      var v, y :| AllSpace(v) && AllSpace(y) && s == v + core + y;
      TrimDrops(v, core, y);
    }
  }

  lemma {:induction false} TrimEndLeaves(s: string) returns (x: string)
    ensures AllSpace(x) && s == TrimEnd(s) + x
  {
    if s != "" && IsSpace(s[|s| - 1]) {
      x := TrimEndLeaves(s[..|s| - 1]);
      assert s == s[..|s| - 1] + [s[|s| - 1]];
      assert s == TrimEnd(s) + (x + [s[|s| - 1]]);
      x := x + [s[|s| - 1]];
    } else {
      x := "";
    }
  }

  lemma {:induction false} TrimEndDrops(s: string, x: string)
    requires AllSpace(x) && (s == "" || !IsSpace(s[|s| - 1]))
    ensures TrimEnd(s + x) == s
    decreases |x|
  {
    if x == "" {
      assert s + x == s;
    } else {
      assert (s + x)[..|s + x| - 1] == s + x[..|x| - 1];
      TrimEndDrops(s, x[..|x| - 1]);
    }
  }

  lemma TrimDrops(w: string, core: string, x: string)
    requires AllSpace(w) && AllSpace(x) && Trimmed(core)
    ensures Trim(w + core + x) == core
  {
    if core == "" {
      assert w + core + x == (w + x) + "";
      TrimStartDrops(w + x, "");
    } else {
      assert w + core + x == w + (core + x);
      TrimStartDrops(w, core + x);
      TrimEndDrops(core, x);
    }
  }

  /** Every kind of line end becomes one, and the text of a line stays as it is. */
  lemma NormalizeEnds(line: string, rest: string)
    requires '\r' !in line
    ensures Normalize(line + "\r\n" + rest) == line + "\n" + Normalize(rest)
    ensures Normalize(line + "\n" + rest) == line + "\n" + Normalize(rest)
    ensures rest == "" || rest[0] != '\n' ==> Normalize(line + "\r" + rest) == line + "\n" + Normalize(rest)
    ensures Normalize(line) == line
  {
    NormalizeIdentity(line);
    NormalizeLine(line, "\r\n" + rest);
    NormalizeLine(line, "\n" + rest);
    NormalizeLine(line, "\r" + rest);
    NormalizeStart(rest);
    Regrouped(line, "\r\n", rest);
    Regrouped(line, "\n", rest);
    Regrouped(line, "\r", rest);
    Regrouped(line, "\n", Normalize(rest));
  }

  lemma Regrouped(a: string, b: string, c: string)
    ensures a + b + c == a + (b + c)
  {
  }

  lemma NormalizeStart(rest: string)
    ensures Normalize("\r\n" + rest) == "\n" + Normalize(rest)
    ensures Normalize("\n" + rest) == "\n" + Normalize(rest)
    ensures rest == "" || rest[0] != '\n' ==> Normalize("\r" + rest) == "\n" + Normalize(rest)
  {
    var a, b, c := "\r\n" + rest, "\n" + rest, "\r" + rest;
    assert a[2..] == rest && b[1..] == rest && c[1..] == rest;
    assert ReplaceCrLf(a) == "\n" + ReplaceCrLf(rest) && ReplaceCrLf(b) == "\n" + ReplaceCrLf(rest);
    assert rest == "" || rest[0] != '\n' ==> ReplaceCrLf(c) == "\r" + ReplaceCrLf(rest);
  }

  lemma {:induction false} NormalizeLine(line: string, tail: string)
    requires '\r' !in line
    ensures Normalize(line + tail) == line + Normalize(tail)
    decreases |line|
  {
    if line == "" {
      assert line + tail == tail;
    } else {
      NormalizeLine(line[1..], tail);
      NormalizeOne(line[0], line[1..] + tail);
      assert line + tail == [line[0]] + (line[1..] + tail);
    }
  }

  lemma NormalizeOne(c: char, s: string)
    requires c != '\r'
    ensures Normalize([c] + s) == [c] + Normalize(s)
  {
    assert ([c] + s)[1..] == s;
    assert ReplaceCrLf([c] + s) == [c] + ReplaceCrLf(s);
  }
}
