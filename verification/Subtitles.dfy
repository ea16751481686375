/** Printing subtitles as WebVTT and parsing them back. */
module Subtitles {
  import opened Common
  import opened Text

  datatype CueStyle = CueStyle(color: Option<string>, bold: bool, italic: bool, underline: bool)

  datatype Cue = Cue(startMs: nat, endMs: nat, text: string, style: Option<CueStyle>)

  const HUNDRED_HOURS: nat := 360000000

  // ----------------------------------------------------------------- printing

  /** Zero-padding on the left, as `{:02}` and `{:03}` do; longer numbers are kept. */
  function Padded(s: string, width: nat): string
    decreases if |s| < width then width - |s| else 0
  {
    if |s| < width then Padded("0" + s, width) else s
  }

  function FormatVttTime(ms: nat): string {
    Padded(Decimal(ms / 3600000), 2) + ":" + Padded(Decimal(ms % 3600000 / 60000), 2) + ":"
    + Padded(Decimal(ms % 60000 / 1000), 2) + "." + Padded(Decimal(ms % 1000), 3)
  }

  function TrimHashes(s: string): string {
    if s != "" && s[0] == '#' then TrimHashes(s[1..]) else s
  }

  function ApplyVttStyling(text: string, style: Option<CueStyle>): string {
    if style.None? then text else
      var t := style.value;
      var a := if t.bold then "<b>" + text + "</b>" else text;
      var b := if t.italic then "<i>" + a + "</i>" else a;
      var c := if t.underline then "<u>" + b + "</u>" else b;
      if t.color.Some? then "<c." + TrimHashes(t.color.value) + ">" + c + "</c>" else c
  }

  function Styled(c: Cue): string {
    ApplyVttStyling(c.text, c.style)
  }

  function TimingLine(c: Cue): string {
    FormatVttTime(c.startMs) + " --> " + FormatVttTime(c.endMs)
  }

  function CueHead(index: nat, c: Cue): string {
    Decimal(index + 1) + "\n" + TimingLine(c)
  }

  function PrintCue(index: nat, c: Cue): string {
    CueHead(index, c) + "\n" + Styled(c) + "\n\n"
  }

  /** The cues from an index on, as printed. */
  function PrintFrom(cues: seq<Cue>, i: nat): string
    requires i <= |cues|
    decreases |cues| - i
  {
    if i == |cues| then "" else PrintCue(i, cues[i]) + PrintFrom(cues, i + 1)
  }

  function Printed(cues: seq<Cue>): string {
    "WEBVTT\n\n" + PrintFrom(cues, 0)
  }

  lemma PushedCue(before: string, i: nat, c: Cue, rest: string)
    ensures before + (Decimal(i + 1) + "\n")
            + (FormatVttTime(c.startMs) + " --> " + FormatVttTime(c.endMs) + "\n")
            + Styled(c) + "\n\n" + rest == before + (PrintCue(i, c) + rest)
  {
    var id, line, text := Decimal(i + 1), TimingLine(c), Styled(c);
    calc {
      before + (id + "\n") + (line + "\n") + text + "\n\n" + rest;
      before + ((id + "\n") + (line + "\n") + text + "\n\n" + rest);
      { assert (id + "\n") + (line + "\n") == id + "\n" + line + "\n"; }
      before + (PrintCue(i, c) + rest);
    }
  }

  method ToVtt(cues: seq<Cue>) returns (output: string)
    ensures output == Printed(cues)
  {
    output := "WEBVTT\n\n";
    for i := 0 to |cues|
      invariant Printed(cues) == output + PrintFrom(cues, i)
    {
      ghost var before := output;
      output := output + (Decimal(i + 1) + "\n");
      output := output + (FormatVttTime(cues[i].startMs) + " --> " + FormatVttTime(cues[i].endMs) + "\n");
      var styledText := ApplyVttStyling(cues[i].text, cues[i].style);
      output := output + styledText;
      output := output + "\n\n";
      PushedCue(before, i, cues[i], PrintFrom(cues, i + 1));
    }
  }

  // ------------------------------------------------------------------ parsing

  predicate Digits(s: string, i: nat, n: nat) {
    i + n <= |s| && forall j :: i <= j < i + n ==> IsDigit(s[j])
  }

  function ParseTimeComponents(hours: nat, mins: nat, secs: nat, millis: nat): nat {
    hours * 3600000 + mins * 60000 + secs * 1000 + millis
  }

  /** The stamp `dd:dd:dd.ddd` at the start of a string. */
  function MatchStamp(s: string): Option<nat> {
    if |s| >= 12 && Digits(s, 0, 2) && s[2] == ':' && Digits(s, 3, 2) && s[5] == ':'
       && Digits(s, 6, 2) && s[8] == '.' && Digits(s, 9, 3)
    then Some(ParseTimeComponents(NumberOf(s[0..2]), NumberOf(s[3..5]), NumberOf(s[6..8]),
                                  NumberOf(s[9..12])))
    else None
  }

  /** The timing pattern: stamp, arrow, stamp, with white space before and between. */
  function MatchTiming(line: string): Option<(nat, nat)> {
    var a := TrimStart(line);
    if MatchStamp(a).None? then None else
      var b := TrimStart(a[12..]);
      if !("-->" <= b) then None else
        var c := TrimStart(b[3..]);
        if MatchStamp(c).None? then None else Some((MatchStamp(a).value, MatchStamp(c).value))
  }

  predicate ArrowAt(line: string, i: nat) {
    i + 3 <= |line| && line[i] == '-' && line[i + 1] == '-' && line[i + 2] == '>'
  }

  predicate HasArrow(line: string) {
    exists i :: 0 <= i < |line| && ArrowAt(line, i)
  }

  function TimingIndex(lines: seq<string>): (n: nat)
    ensures n <= |lines|
    ensures n < |lines| ==> HasArrow(lines[n])
    ensures forall i :: 0 <= i < n ==> !HasArrow(lines[i])
  {
    if lines == [] || HasArrow(lines[0]) then 0 else 1 + TimingIndex(lines[1..])
  }

  function ParseBlock(block: string): Option<Cue> {
    var lines := Lines(block);
    var n := TimingIndex(lines);
    if n == |lines| || MatchTiming(lines[n]).None? then None else
      var (a, b) := MatchTiming(lines[n]).value;
      Some(Cue(a, b, Trim(Join(lines[n + 1..])), None))
  }

  function ParseBlocks(blocks: seq<string>): seq<Cue> {
    if blocks == [] then []
    else
      var first := ParseBlock(blocks[0]);
      (if first.Some? then [first.value] else []) + ParseBlocks(blocks[1..])
  }

  function Parsed(content: string): seq<Cue> {
    ParseBlocks(Blocks(Normalize(content)))
  }

  lemma ParseBlocksFrom(blocks: seq<string>, i: nat)
    requires i < |blocks|
    ensures ParseBlock(blocks[i]).None? ==> ParseBlocks(blocks[i..]) == ParseBlocks(blocks[i + 1..])
    ensures ParseBlock(blocks[i]).Some? ==>
      ParseBlocks(blocks[i..]) == [ParseBlock(blocks[i]).value] + ParseBlocks(blocks[i + 1..])
  {
    assert blocks[i..][1..] == blocks[i + 1..];
  }

  /** The body of the parse loop for one block. */
  method ReadBlock(block: string) returns (cue: Option<Cue>)
    ensures cue == ParseBlock(block)
  {
    var lines := Lines(block);
    var timestampIdx := TimingIndex(lines);
    if timestampIdx == |lines| {
      return None;
    }
    var timing := MatchTiming(lines[timestampIdx]);
    if timing.None? {
      return None;
    }
    var text := Trim(Join(lines[timestampIdx + 1..]));
    cue := Some(Cue(timing.value.0, timing.value.1, text, None));
  }

  method ParseVtt(content: string) returns (cues: seq<Cue>)
    ensures cues == Parsed(content)
  {
    cues := [];
    var blocks := Blocks(Normalize(content));
    assert blocks[0..] == blocks;
    for i := 0 to |blocks|
      invariant Parsed(content) == cues + ParseBlocks(blocks[i..])
    {
      ParseBlocksFrom(blocks, i);
      var cue := ReadBlock(blocks[i]);
      if cue.Some? {
        assert cues + ([cue.value] + ParseBlocks(blocks[i + 1..]))
            == cues + [cue.value] + ParseBlocks(blocks[i + 1..]);
        cues := cues + [cue.value];
      }
    }
  }
}
