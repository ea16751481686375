/** Reading what is printed: a file's cues, their numbers, times and styled texts. */
module SubtitleTags {
  import opened Common
  import opened Text
  import opened Subtitles
  import opened SubtitleRoundTrip

  // --------------------------------------------------------------------- styling tags

  /** What stands between two tags, if the string begins and ends with them. */
  function Between(s: string, open: string, close: string): Option<string> {
    if |open| + |close| <= |s| && s[..|open|] == open && s[|s| - |close|..] == close
    then Some(s[|open|..|s| - |close|]) else None
  }

  function Peeled(s: Option<string>, wanted: bool, open: string, close: string): Option<string> {
    if s.Some? && wanted then Between(s.value, open, close) else s
  }

  /** Takes a styled text apart from the outside in: colour class, underline, italic, bold. */
  function ReadStyled(s: string, style: CueStyle, name: string): Option<string> {
    var a := Peeled(Some(s), style.color.Some?, "<c." + name + ">", "</c>");
    var b := Peeled(a, style.underline, "<u>", "</u>");
    var c := Peeled(b, style.italic, "<i>", "</i>");
    Peeled(c, style.bold, "<b>", "</b>")
  }

  /** The colour's name without the `n` hashes in front of it. */
  predicate ClassAt(color: string, name: string, n: nat) {
    && n <= |color| && name == color[n..] && (forall i :: 0 <= i < n ==> color[i] == '#')
    && (name == "" || name[0] != '#')
  }

  ghost predicate ClassOf(color: string, name: string) {
    exists n: nat :: ClassAt(color, name, n)
  }

  ghost predicate Styles(s: string, text: string, style: Option<CueStyle>) {
    if style.None? then s == text
    else if style.value.color.None? then ReadStyled(s, style.value, "") == Some(text)
    else exists name :: ClassOf(style.value.color.value, name) && ReadStyled(s, style.value, name) == Some(text)
  }

  lemma BetweenExactly(s: string, open: string, close: string, inner: string)
    ensures Between(s, open, close) == Some(inner) <==> s == open + inner + close
  {
    if Between(s, open, close) == Some(inner) {
      assert s == s[..|open|] + s[|open|..|s| - |close|] + s[|s| - |close|..];
    }
    if s == open + inner + close {
      assert s[..|open|] == open && s[|s| - |close|..] == close && s[|open|..|s| - |close|] == inner;
    }
  }

  lemma {:induction false} ClassIsTrimmed(color: string, name: string, n: nat)
    requires ClassAt(color, name, n)
    ensures name == TrimHashes(color)
    decreases n
  {
    if n > 0 {
      assert color[n..] == color[1..][n - 1..];
      ClassIsTrimmed(color[1..], name, n - 1);
    } else {
      assert color[0..] == color;
    }
  }

  lemma {:induction false} TrimmedIsClass(color: string) returns (n: nat)
    ensures ClassAt(color, TrimHashes(color), n)
  {
    if color != "" && color[0] == '#' {
      n := TrimmedIsClass(color[1..]);
      assert color[1..][n..] == color[n + 1..];
      assert forall i :: 0 < i <= n ==> color[i] == color[1..][i - 1];
      n := n + 1;
    } else {
      n := 0;
    }
  }

  lemma HashesTrimmed(color: string)
    ensures forall name :: ClassOf(color, name) <==> name == TrimHashes(color)
  {
    var n := TrimmedIsClass(color);
    forall name | ClassOf(color, name) ensures name == TrimHashes(color) {
      var m: nat :| ClassAt(color, name, m);
      ClassIsTrimmed(color, name, m);
    }
  }

  lemma ReadsStyled(s: string, text: string, t: CueStyle, name: string)
    requires t.color.Some? ==> name == TrimHashes(t.color.value)
    ensures ReadStyled(s, t, name) == Some(text) <==> s == ApplyVttStyling(text, Some(t))
  {
    var bold := if t.bold then "<b>" + text + "</b>" else text;
    var italic := if t.italic then "<i>" + bold + "</i>" else bold;
    var underline := if t.underline then "<u>" + italic + "</u>" else italic;
    var a := Peeled(Some(s), t.color.Some?, "<c." + name + ">", "</c>");
    var b := Peeled(a, t.underline, "<u>", "</u>");
    var c := Peeled(b, t.italic, "<i>", "</i>");
    PeeledExactly(Some(s), t.color.Some?, "<c." + name + ">", "</c>", underline);
    PeeledExactly(a, t.underline, "<u>", "</u>", italic);
    PeeledExactly(b, t.italic, "<i>", "</i>", bold);
    PeeledExactly(c, t.bold, "<b>", "</b>", text);
  }

  lemma PeeledExactly(s: Option<string>, wanted: bool, open: string, close: string, inner: string)
    ensures Peeled(s, wanted, open, close) == Some(inner) <==>
      s == Some(if wanted then open + inner + close else inner)
  {
    if s.Some? {
      BetweenExactly(s.value, open, close, inner);
    }
  }

  /** The styled text of a cue, and no other string, is taken apart into colour, underline,
      italic, bold and the cue's own text; without a style it is the text itself. */
  lemma StyledExactly(s: string, text: string, style: Option<CueStyle>)
    ensures Styles(s, text, style) <==> s == ApplyVttStyling(text, style)
  {
    if style.Some? {
      if style.value.color.Some? {
        HashesTrimmed(style.value.color.value);
        ReadsStyled(s, text, style.value, TrimHashes(style.value.color.value));
      } else {
        ReadsStyled(s, text, style.value, "");
      }
    }
  }

  // ----------------------------------------------------------------------- whole files

  /** Hours in two digits or more, minutes and seconds in two, milliseconds in three. */
  predicate TimeText(s: string, h: string, m: string, sec: string, u: string, ms: nat) {
    && s == h + ":" + m + ":" + sec + "." + u
    && AllDigits(h) && AllDigits(m) && AllDigits(sec) && AllDigits(u)
    && |h| >= 2 && |m| == 2 && |sec| == 2 && |u| == 3 && NumberOf(m) < 60 && NumberOf(sec) < 60
    && ms == NumberOf(h) * 3600000 + NumberOf(m) * 60000 + NumberOf(sec) * 1000 + NumberOf(u)
  }

  ghost predicate ReadsTime(s: string, ms: nat) {
    exists h, m, sec, u :: TimeText(s, h, m, sec, u, ms)
  }

  /** A block with the cue's number counting from one, its times and its styled text. */
  ghost predicate CueText(block: string, id: string, from: string, to: string, styled: string,
                          number: nat, c: Cue)
  {
    && block == id + "\n" + from + " --> " + to + "\n" + styled + "\n\n"
    && AllDigits(id) && NumberOf(id) == number
    && ReadsTime(from, c.startMs) && ReadsTime(to, c.endMs)
    && Styles(styled, c.text, c.style)
  }

  ghost predicate ReadsCue(block: string, number: nat, c: Cue) {
    exists id, from, to, styled :: CueText(block, id, from, to, styled, number, c)
  }

  ghost predicate ReadsFile(file: string, blocks: seq<string>, cues: seq<Cue>) {
    && file == "WEBVTT\n\n" + Concat(blocks) && |blocks| == |cues|
    && forall i :: 0 <= i < |cues| ==> ReadsCue(blocks[i], i + 1, cues[i])
  }

  lemma TimeReads(ms: nat)
    ensures ReadsTime(FormatVttTime(ms), ms)
  {
    TimeParts(ms);
    PaddedDecimal(ms / 3600000, 2);
    PaddedDecimal(ms % 3600000 / 60000, 2);
    PaddedDecimal(ms % 60000 / 1000, 2);
    PaddedDecimal(ms % 1000, 3);
    HoursWide(ms / 3600000);
    var h, m := Padded(Decimal(ms / 3600000), 2), Padded(Decimal(ms % 3600000 / 60000), 2);
    var sec, u := Padded(Decimal(ms % 60000 / 1000), 2), Padded(Decimal(ms % 1000), 3);
    PartsRead(FormatVttTime(ms), h, m, sec, u, ms);
  }

  lemma HoursWide(n: nat)
    ensures |Padded(Decimal(n), 2)| >= 2
  {
    PaddedDecimal(n, 2);
  }

  lemma PartsRead(s: string, h: string, m: string, sec: string, u: string, ms: nat)
    requires TimeText(s, h, m, sec, u, ms)
    ensures ReadsTime(s, ms)
  {
  }

  lemma CueReads(i: nat, c: Cue)
    ensures ReadsCue(PrintCue(i, c), i + 1, c)
  {
    var id, from, to := Decimal(i + 1), FormatVttTime(c.startMs), FormatVttTime(c.endMs);
    DecimalRoundTrip(i + 1);
    TimeReads(c.startMs);
    TimeReads(c.endMs);
    StyledExactly(Styled(c), c.text, c.style);
    CueJoined(id, from, to, Styled(c));
    assert CueText(PrintCue(i, c), id, from, to, Styled(c), i + 1, c);
  }

  lemma CueJoined(id: string, from: string, to: string, styled: string)
    ensures id + "\n" + (from + " --> " + to) + "\n" + styled + "\n\n" ==
      id + "\n" + from + " --> " + to + "\n" + styled + "\n\n"
  {
    assert id + "\n" + (from + " --> " + to) == id + "\n" + from + " --> " + to;
  }

  function PrintedBlocks(cues: seq<Cue>, n: nat): (blocks: seq<string>)
    requires n <= |cues|
    ensures |blocks| == n
  {
    seq(n, i requires 0 <= i < n => PrintCue(i, cues[i]))
  }

  lemma {:induction false} BlocksPrinted(cues: seq<Cue>, n: nat)
    requires n <= |cues|
    ensures Concat(PrintedBlocks(cues, n)) + PrintFrom(cues, n) == PrintFrom(cues, 0)
  {
    if n == 0 {
      assert PrintedBlocks(cues, 0) == [];
    } else {
      BlocksPrinted(cues, n - 1);
      LastBlock(cues, n);
      Joined(Concat(PrintedBlocks(cues, n - 1)), PrintCue(n - 1, cues[n - 1]), PrintFrom(cues, n));
    }
  }

  lemma LastBlock(cues: seq<Cue>, n: nat)
    requires 0 < n <= |cues|
    ensures Concat(PrintedBlocks(cues, n)) == Concat(PrintedBlocks(cues, n - 1)) + PrintCue(n - 1, cues[n - 1])
    ensures PrintFrom(cues, n - 1) == PrintCue(n - 1, cues[n - 1]) + PrintFrom(cues, n)
  {
    var blocks := PrintedBlocks(cues, n);
    assert blocks[..n - 1] == PrintedBlocks(cues, n - 1) && blocks[n - 1] == PrintCue(n - 1, cues[n - 1]);
  }

  lemma Joined(a: string, b: string, c: string)
    ensures a + b + c == a + (b + c)
  {
  }

  /** The printed file reads as one block for every cue, in order, with its number, both times
      and its text under exactly its styling tags, whatever the times. */
  lemma PrintedReads(cues: seq<Cue>)
    ensures ReadsFile(Printed(cues), PrintedBlocks(cues, |cues|), cues)
  {
    BlocksPrinted(cues, |cues|);
    assert PrintFrom(cues, |cues|) == "";
    forall i | 0 <= i < |cues| ensures ReadsCue(PrintedBlocks(cues, |cues|)[i], i + 1, cues[i]) {
      CueReads(i, cues[i]);
    }
  }
}
