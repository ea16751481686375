/** The string operations the subtitle code relies on: trimming, line and block
    splitting, joining and newline normalisation. */
module Text {

  /** The Unicode White_Space characters. */
  predicate IsSpace(c: char) {
    || '\U{9}' <= c <= '\U{D}' || c == ' ' || c == '\U{85}' || c == '\U{A0}' || c == '\U{1680}'
    || '\U{2000}' <= c <= '\U{200A}' || c == '\U{2028}' || c == '\U{2029}' || c == '\U{202F}'
    || c == '\U{205F}' || c == '\U{3000}'
  }

  function TrimStart(s: string): string {
    if s != "" && IsSpace(s[0]) then TrimStart(s[1..]) else s
  }

  function TrimEnd(s: string): string {
    if s != "" && IsSpace(s[|s| - 1]) then TrimEnd(s[..|s| - 1]) else s
  }

  function Trim(s: string): string {
    TrimEnd(TrimStart(s))
  }

  predicate Trimmed(s: string) {
    s == "" || (!IsSpace(s[0]) && !IsSpace(s[|s| - 1]))
  }

  /** No two line ends in a row. */
  predicate NoBlank(s: string) {
    forall i :: 0 <= i < |s| - 1 ==> !(s[i] == '\n' && s[i + 1] == '\n')
  }

  predicate Within(part: string, whole: string) {
    exists i, j :: 0 <= i <= j <= |whole| && part == whole[i..j]
  }

  lemma {:induction false} TrimStartWithin(s: string) returns (i: nat)
    ensures i <= |s| && TrimStart(s) == s[i..]
    ensures TrimStart(s) == "" || !IsSpace(TrimStart(s)[0])
  {
    if s != "" && IsSpace(s[0]) {
      i := TrimStartWithin(s[1..]);
      assert s[1..][i..] == s[i + 1..];
      i := i + 1;
    } else {
      i := 0;
    }
  }

  lemma {:induction false} TrimEndWithin(s: string) returns (j: nat)
    ensures j <= |s| && TrimEnd(s) == s[..j]
    ensures TrimEnd(s) == "" || !IsSpace(TrimEnd(s)[|TrimEnd(s)| - 1])
  {
    if s != "" && IsSpace(s[|s| - 1]) {
      j := TrimEndWithin(s[..|s| - 1]);
      assert s[..|s| - 1][..j] == s[..j];
    } else {
      j := |s|;
    }
  }

  /** Trimming yields a trimmed stretch of the string, and only a trimmed string is
      left as it is. */
  lemma TrimMakesTrimmed(s: string)
    ensures Trimmed(Trim(s)) && Within(Trim(s), s)
    ensures Trim(s) == s <==> Trimmed(s)
  {
    var i := TrimStartWithin(s);
    var j := TrimEndWithin(TrimStart(s));
    assert Trim(s) == s[i..][..j] == s[i..i + j];
    if Trimmed(s) && s != "" {
      assert TrimStart(s) == s;
    }
  }

  lemma WithinKeeps(part: string, whole: string)
    requires Within(part, whole)
    ensures NoBlank(whole) ==> NoBlank(part)
    ensures '\r' !in whole ==> '\r' !in part
  {
    var i, j :| 0 <= i <= j <= |whole| && part == whole[i..j];
    forall k | 0 <= k < |part| - 1 && NoBlank(whole)
      ensures !(part[k] == '\n' && part[k + 1] == '\n')
    {
      assert part[k] == whole[i + k] && part[k + 1] == whole[i + k + 1];
    }
  }

  // -------------------------------------------------------------- normalising

  function ReplaceCrLf(s: string): string {
    if s == "" then ""
    else if |s| >= 2 && s[0] == '\r' && s[1] == '\n' then "\n" + ReplaceCrLf(s[2..])
    else [s[0]] + ReplaceCrLf(s[1..])
  }

  function ReplaceCr(s: string): string {
    seq(|s|, i requires 0 <= i < |s| => if s[i] == '\r' then '\n' else s[i])
  }

  function Normalize(s: string): (r: string)
    ensures '\r' !in r
  {
    ReplaceCr(ReplaceCrLf(s))
  }

  lemma {:induction false} ReplaceCrLfIdentity(s: string)
    requires '\r' !in s
    ensures ReplaceCrLf(s) == s
  {
    if s != "" {
      ReplaceCrLfIdentity(s[1..]);
    }
  }

  lemma NormalizeIdentity(s: string)
    requires '\r' !in s
    ensures Normalize(s) == s
  {
    ReplaceCrLfIdentity(s);
  }

  // ------------------------------------------------------------------- blocks

  /** Where the first blank line starts, or the length when there is none. */
  function FirstBlank(s: string): (n: nat)
    ensures n <= |s|
    ensures n < |s| ==> n + 1 < |s| && s[n] == '\n' && s[n + 1] == '\n'
    ensures forall i :: 0 <= i < n && i + 1 < |s| ==> !(s[i] == '\n' && s[i + 1] == '\n')
  {
    if |s| < 2 then |s|
    else if s[0] == '\n' && s[1] == '\n' then 0
    else 1 + FirstBlank(s[1..])
  }

  /** Rust's `split("\n\n")`. */
  function Blocks(s: string): seq<string>
    decreases |s|
  {
    var n := FirstBlank(s);
    if n == |s| then [s] else [s[..n]] + Blocks(s[n + 2..])
  }

  lemma BlocksSplit(head: string, rest: string)
    requires NoBlank(head) && (head == "" || head[|head| - 1] != '\n')
    ensures Blocks(head + "\n\n" + rest) == [head] + Blocks(rest)
  {
    var s := head + "\n\n" + rest;
    assert s[|head|] == '\n' && s[|head| + 1] == '\n';
    var n := FirstBlank(s);
    assert n == |head|;
    assert s[..n] == head && s[n + 2..] == rest;
  }

  lemma {:induction false} BlocksHaveNoBlank(s: string, k: nat)
    requires k < |Blocks(s)|
    ensures NoBlank(Blocks(s)[k])
    ensures '\r' !in s ==> '\r' !in Blocks(s)[k]
    decreases |s|
  {
    var n := FirstBlank(s);
    if n < |s| && k > 0 {
      BlocksHaveNoBlank(s[n + 2..], k - 1);
    }
  }

  // -------------------------------------------------------------------- lines

  function LineEnd(s: string): (n: nat)
    ensures n <= |s| && '\n' !in s[..n] && (n < |s| ==> s[n] == '\n')
  {
    if s == "" || s[0] == '\n' then 0 else
      var n := 1 + LineEnd(s[1..]);
      assert s[..n] == [s[0]] + s[1..][..n - 1];
      n
  }

  /** Rust's `lines` on a string without carriage returns: a final line end does not
      begin another line. */
  function Lines(s: string): seq<string>
    decreases |s|
  {
    if s == "" then [] else
      var n := LineEnd(s);
      if n == |s| then [s] else [s[..n]] + Lines(s[n + 1..])
  }

  function Join(lines: seq<string>): string {
    if lines == [] then ""
    else if |lines| == 1 then lines[0]
    else lines[0] + "\n" + Join(lines[1..])
  }

  lemma LinesSplit(head: string, rest: string)
    requires '\n' !in head
    ensures Lines(head + "\n" + rest) == [head] + Lines(rest)
  {
    var s := head + "\n" + rest;
    var n := LineEnd(s);
    assert s[|head|] == '\n';
    assert n == |head|;
    assert s[..n] == head && s[n + 1..] == rest;
  }

  lemma LinesOne(s: string)
    requires '\n' !in s && s != ""
    ensures Lines(s) == [s]
  {
    assert LineEnd(s) == |s|;
  }

  lemma JoinCons(first: string, lines: seq<string>)
    requires lines != []
    ensures Join([first] + lines) == first + "\n" + Join(lines)
  {
    assert ([first] + lines)[1..] == lines;
  }

  /** A string without its final line end. */
  function Chopped(s: string): (r: string) {
    if s != "" && s[|s| - 1] == '\n' then s[..|s| - 1] else s
  }

  lemma ChoppedCons(first: string, rest: string)
    requires rest != ""
    ensures Chopped(first + "\n" + rest) == first + "\n" + Chopped(rest)
  {
    var s := first + "\n" + rest;
    assert s[|s| - 1] == rest[|rest| - 1];
    assert s[..|s| - 1] == first + "\n" + rest[..|rest| - 1];
  }

  lemma ChoppedEnd(first: string)
    ensures Chopped(first + "\n") == first
  {
  }

  /** Joining the lines of a string gives it back, without a final line end. */
  lemma {:induction false} JoinLines(s: string)
    ensures Join(Lines(s)) == Chopped(s)
    decreases |s|
  {
    var n := LineEnd(s);
    if n < |s| {
      var first, rest := s[..n], s[n + 1..];
      assert s == first + "\n" + rest;
      assert Lines(s) == [first] + Lines(rest);
      if rest == "" {
        ChoppedEnd(first);
        assert s == first + "\n" && Lines(s) == [first];
      } else {
        JoinLines(rest);
        JoinCons(first, Lines(rest));
        ChoppedCons(first, rest);
      }
    } else if s != "" {
      assert s[..n] == s && s[|s| - 1] in s[..n];
    }
  }

  lemma TailOfCons(first: string, lines: seq<string>, k: nat)
    requires 1 <= k <= |lines| + 1
    ensures ([first] + lines)[k..] == lines[k - 1..]
  {
  }

  lemma TailSlice(s: string, n: nat, i: nat, j: nat)
    requires n <= |s| && i <= j <= |s| - n
    ensures s[n..][i..j] == s[n + i..n + j]
  {
  }

  /** The lines from some index on, joined, are a stretch of the string. */
  lemma {:induction false} JoinedTailWithin(s: string, k: nat)
    requires k <= |Lines(s)|
    ensures Within(Join(Lines(s)[k..]), s)
    decreases |s|
  {
    if k == 0 {
      JoinLines(s);
      assert Lines(s)[0..] == Lines(s) && Chopped(s) == s[0..|Chopped(s)|];
    } else {
      var n := LineEnd(s);
      if n == |s| {
        assert Lines(s)[k..] == [] && "" == s[0..0];
      } else {
        var rest := s[n + 1..];
        assert Lines(s) == [s[..n]] + Lines(rest);
        TailOfCons(s[..n], Lines(rest), k);
        JoinedTailWithin(rest, k - 1);
        var i, j :| 0 <= i <= j <= |rest| && Join(Lines(rest)[k - 1..]) == rest[i..j];
        TailSlice(s, n + 1, i, j);
      }
    }
  }
}
