/** Printing subtitles and parsing them back, for every list of cues. */
module SubtitleRoundTrip {
  import opened Common
  import opened Text
  import opened Subtitles

  // --------------------------------------------------------------------- time

  lemma {:induction false} LeadingZero(s: string)
    requires AllDigits(s)
    ensures AllDigits("0" + s) && NumberOf("0" + s) == NumberOf(s)
  {
    var z := "0" + s;
    if s == "" {
      assert z[..0] == "";
    } else {
      assert z[..|z| - 1] == "0" + s[..|s| - 1];
      LeadingZero(s[..|s| - 1]);
    }
  }

  lemma {:induction false} PaddedNumber(s: string, width: nat)
    requires AllDigits(s)
    ensures AllDigits(Padded(s, width)) && NumberOf(Padded(s, width)) == NumberOf(s)
    ensures |Padded(s, width)| == if |s| < width then width else |s|
    decreases if |s| < width then width - |s| else 0
  {
    if |s| < width {
      LeadingZero(s);
      PaddedNumber("0" + s, width);
    }
  }

  lemma DecimalWidth(n: nat)
    ensures n < 100 ==> |Decimal(n)| <= 2
    ensures n < 1000 ==> |Decimal(n)| <= 3
    ensures n >= 100 ==> |Decimal(n)| >= 3
  {
    if n >= 100 {
      var tens := n / 10;
      assert |Decimal(n)| == |Decimal(tens)| + 1;
      assert |Decimal(tens)| == |Decimal(tens / 10)| + 1;
      assert n < 1000 ==> tens / 10 < 10;
    }
  }

  lemma PaddedDecimal(n: nat, width: nat)
    ensures AllDigits(Padded(Decimal(n), width)) && NumberOf(Padded(Decimal(n), width)) == n
    ensures n < 100 && width == 2 ==> |Padded(Decimal(n), width)| == 2
    ensures n < 1000 && width == 3 ==> |Padded(Decimal(n), width)| == 3
    ensures n >= 100 ==> |Padded(Decimal(n), width)| >= 3
  {
    DecimalRoundTrip(n);
    DecimalWidth(n);
    PaddedNumber(Decimal(n), width);
  }

  predicate StampChars(s: string) {
    forall i :: 0 <= i < |s| ==> IsDigit(s[i]) || s[i] == ':' || s[i] == '.'
  }

  lemma TimeParts(ms: nat)
    ensures ms == ParseTimeComponents(ms / 3600000, ms % 3600000 / 60000, ms % 60000 / 1000, ms % 1000)
    ensures ms % 3600000 / 60000 < 60 && ms % 60000 / 1000 < 60 && ms % 1000 < 1000
  {
    var hours, rest := ms / 3600000, ms % 3600000;
    MinutesLeft(hours, rest);
    SecondsLeft(rest / 60000, rest % 60000);
    MinutesMillis(hours, rest);
  }

  lemma MinutesLeft(hours: nat, rest: nat)
    ensures (3600000 * hours + rest) % 60000 == rest % 60000
  {
  }

  lemma MinutesMillis(hours: nat, rest: nat)
    ensures (3600000 * hours + rest) % 1000 == rest % 1000
  {
  }

  lemma SecondsLeft(minutes: nat, rest: nat)
    ensures (60000 * minutes + rest) % 1000 == rest % 1000
  {
  }

  function StampText(h: string, m: string, s: string, u: string, rest: string): string {
    h + ":" + m + ":" + s + "." + u + rest
  }

  lemma StampPieces(h: string, m: string, s: string, u: string, rest: string)
    requires |h| == 2 && |m| == 2 && |s| == 2 && |u| == 3
    ensures var t := StampText(h, m, s, u, rest);
      && |t| >= 12 && t[2] == ':' && t[5] == ':' && t[8] == '.'
      && t[0..2] == h && t[3..5] == m && t[6..8] == s && t[9..12] == u
  {
    var t6 := h + ":" + m;
    assert t6[0..2] == h && t6[3..5] == m && t6[2] == ':';
    var t8 := t6 + ":" + s;
    assert t8[..5] == t6 && t8[6..8] == s && t8[5] == ':';
    var t12 := t8 + "." + u;
    assert t12[..8] == t8 && t12[9..12] == u && t12[8] == '.';
    var t := t12 + rest;
    assert t[..12] == t12;
    assert t[9..12] == t[..12][9..12] && t[6..8] == t[..12][..8][6..8];
    assert t[0..2] == t[..12][..8][..5][0..2] && t[3..5] == t[..12][..8][..5][3..5];
    assert t[2] == t[..12][..8][..5][2] && t[5] == t[..12][..8][5] && t[8] == t[..12][8];
  }

  lemma SliceDigits(t: string, i: nat, n: nat)
    requires i + n <= |t| && AllDigits(t[i..i + n])
    ensures Digits(t, i, n)
  {
    forall j | i <= j < i + n ensures IsDigit(t[j]) {
      assert t[j] == t[i..i + n][j - i];
    }
  }

  lemma StampOfParts(h: string, m: string, s: string, u: string, rest: string)
    requires AllDigits(h) && AllDigits(m) && AllDigits(s) && AllDigits(u)
    requires |h| == 2 && |m| == 2 && |s| == 2 && |u| == 3
    ensures MatchStamp(StampText(h, m, s, u, rest)) ==
      Some(ParseTimeComponents(NumberOf(h), NumberOf(m), NumberOf(s), NumberOf(u)))
  {
    StampPieces(h, m, s, u, rest);
    var t := StampText(h, m, s, u, rest);
    SliceDigits(t, 0, 2);
    SliceDigits(t, 3, 2);
    SliceDigits(t, 6, 2);
    SliceDigits(t, 9, 3);
  }

  lemma StampShort(ms: nat, rest: string)
    requires ms < HUNDRED_HOURS
    ensures |FormatVttTime(ms)| == 12
    ensures MatchStamp(FormatVttTime(ms) + rest) == Some(ms)
  {
    TimeParts(ms);
    PaddedDecimal(ms / 3600000, 2);
    PaddedDecimal(ms % 3600000 / 60000, 2);
    PaddedDecimal(ms % 60000 / 1000, 2);
    PaddedDecimal(ms % 1000, 3);
    StampOfParts(Padded(Decimal(ms / 3600000), 2), Padded(Decimal(ms % 3600000 / 60000), 2),
                 Padded(Decimal(ms % 60000 / 1000), 2), Padded(Decimal(ms % 1000), 3), rest);
  }

  /** With a third hour digit the pattern finds a digit where it wants a colon. */
  lemma StampLong(ms: nat, rest: string)
    requires ms >= HUNDRED_HOURS
    ensures MatchStamp(FormatVttTime(ms) + rest) == None
  {
    PaddedDecimal(ms / 3600000, 2);
    var hs := Padded(Decimal(ms / 3600000), 2);
    assert (FormatVttTime(ms) + rest)[2] == hs[2];
  }

  lemma StampShape(ms: nat)
    ensures StampChars(FormatVttTime(ms)) && FormatVttTime(ms) != "" && IsDigit(FormatVttTime(ms)[0])
  {
    PaddedDecimal(ms / 3600000, 2);
    PaddedDecimal(ms % 3600000 / 60000, 2);
    PaddedDecimal(ms % 60000 / 1000, 2);
    PaddedDecimal(ms % 1000, 3);
    assert FormatVttTime(ms)[0] == Padded(Decimal(ms / 3600000), 2)[0];
  }

  predicate Timely(c: Cue) {
    c.startMs < HUNDRED_HOURS && c.endMs < HUNDRED_HOURS
  }

  lemma TrimStartSkips(s: string)
    ensures TrimStart(" " + s) == TrimStart(s)
  {
    assert (" " + s)[1..] == s;
  }

  lemma TrimStartStops(s: string)
    requires s != "" && !IsSpace(s[0])
    ensures TrimStart(s) == s
  {
  }

  lemma ArrowBetween(b: string)
    requires b != "" && IsDigit(b[0])
    ensures TrimStart(" --> " + b) == "--> " + b
    ensures "-->" <= "--> " + b && TrimStart(("--> " + b)[3..]) == b
  {
    var arrow := "--> " + b;
    assert " --> " + b == " " + arrow;
    TrimStartSkips(arrow);
    TrimStartStops(arrow);
    assert arrow[3..] == " " + b;
    TrimStartSkips(b);
    TrimStartStops(b);
  }

  lemma TimingRoundTrip(c: Cue)
    ensures MatchTiming(TimingLine(c)) == if Timely(c) then Some((c.startMs, c.endMs)) else None
  {
    var a, b := FormatVttTime(c.startMs), FormatVttTime(c.endMs);
    var tail := " --> " + b;
    StampShape(c.startMs);
    StampShape(c.endMs);
    assert TimingLine(c) == a + tail;
    assert (a + tail)[0] == a[0];
    TrimStartStops(a + tail);
    ArrowBetween(b);
    if c.startMs >= HUNDRED_HOURS {
      StampLong(c.startMs, tail);
    } else {
      StampShort(c.startMs, tail);
      assert (a + tail)[12..] == tail;
      assert b + "" == b;
      if c.endMs < HUNDRED_HOURS {
        StampShort(c.endMs, "");
      } else {
        StampLong(c.endMs, "");
      }
    }
  }

  lemma TimingLineShape(c: Cue)
    ensures HasArrow(TimingLine(c)) && '\n' !in TimingLine(c) && '\r' !in TimingLine(c)
    ensures TimingLine(c) != ""
  {
    StampShape(c.startMs);
    StampShape(c.endMs);
    var a := FormatVttTime(c.startMs);
    assert ArrowAt(TimingLine(c), |a| + 1);
  }

  lemma IdLineShape(i: nat)
    ensures !HasArrow(Decimal(i)) && '\n' !in Decimal(i) && '\r' !in Decimal(i)
  {
  }

  // ------------------------------------------------------------------- blocks

  /** A text that survives printing: trimmed, without carriage return or blank line. */
  predicate Clean(t: string) {
    Trimmed(t) && '\r' !in t && NoBlank(t)
  }

  function Reparsed(c: Cue): Cue {
    Cue(c.startMs, c.endMs, Styled(c), None)
  }

  function Lead(lead: bool): string {
    if lead then "\n" else ""
  }

  function Body(t: string): string {
    if t == "" then "" else "\n" + t
  }

  /** A block as the splitter finds it: possibly after the line end that an empty
      text leaves over, and without the line end before an empty text. */
  function CueBlock(lead: bool, index: nat, c: Cue): string {
    Lead(lead) + (CueHead(index, c) + Body(Styled(c)))
  }

  lemma Regroup3(a: string, b: string, c: string)
    ensures a + (b + c) == a + b + c
  {
  }

  lemma LinesOfTail(line: string, t: string)
    requires '\n' !in line && line != ""
    ensures Lines(line + Body(t)) == [line] + Lines(t)
  {
    if t == "" {
      LinesOne(line);
      assert line + Body(t) == line && Lines(t) == [];
      assert [line] + [] == [line];
    } else {
      LinesSplit(line, t);
      Regroup3(line, "\n", t);
    }
  }

  lemma LinesOfLead(lead: bool, body: string)
    ensures Lines(Lead(lead) + body) == (if lead then [""] else []) + Lines(body)
  {
    if lead {
      LinesSplit("", body);
      assert "" + "\n" + body == Lead(lead) + body;
    } else {
      assert Lead(lead) + body == body;
    }
  }

  lemma LinesOfBlock(lead: bool, id: string, line: string, t: string)
    requires '\n' !in id && '\n' !in line && line != ""
    ensures Lines(Lead(lead) + (id + "\n" + line + Body(t))) ==
      (if lead then [""] else []) + ([id] + ([line] + Lines(t)))
  {
    var tail := line + Body(t);
    LinesOfTail(line, t);
    LinesSplit(id, tail);
    assert id + "\n" + tail == id + "\n" + line + Body(t);
    LinesOfLead(lead, id + "\n" + line + Body(t));
  }

  lemma CueBlockLines(lead: bool, index: nat, c: Cue)
    ensures Lines(CueBlock(lead, index, c)) ==
      (if lead then [""] else []) + ([Decimal(index + 1)] + ([TimingLine(c)] + Lines(Styled(c))))
  {
    IdLineShape(index + 1);
    TimingLineShape(c);
    LinesOfBlock(lead, Decimal(index + 1), TimingLine(c), Styled(c));
  }

  lemma CueBlockParses(lead: bool, index: nat, c: Cue)
    requires Clean(Styled(c))
    ensures ParseBlock(CueBlock(lead, index, c)) == if Timely(c) then Some(Reparsed(c)) else None
  {
    CueBlockLines(lead, index, c);
    IdLineShape(index + 1);
    TimingLineShape(c);
    TimingRoundTrip(c);
    var lines := Lines(CueBlock(lead, index, c));
    TimingFound(lead, Decimal(index + 1), TimingLine(c), Lines(Styled(c)), lines);
    JoinLines(Styled(c));
    TrimMakesTrimmed(Styled(c));
  }

  /** Where the timing line is among the lines of a block. */
  lemma TimingFound(lead: bool, id: string, timing: string, text: seq<string>, lines: seq<string>)
    requires lines == (if lead then [""] else []) + ([id] + ([timing] + text))
    requires !HasArrow(id) && HasArrow(timing)
    ensures var n := if lead then 2 else 1;
      TimingIndex(lines) == n < |lines| && lines[n] == timing && lines[n + 1..] == text
  {
    if lead {
      assert lines[0] == "" && lines[1] == id && lines[2] == timing && lines[3..] == text;
      assert !HasArrow(lines[0]) && !HasArrow(lines[1]);
    } else {
      assert lines[0] == id && lines[1] == timing && lines[2..] == text;
    }
    TimingIs(lines, if lead then 2 else 1);
  }

  lemma TimingIs(lines: seq<string>, n: nat)
    requires n < |lines| && HasArrow(lines[n]) && forall i :: 0 <= i < n ==> !HasArrow(lines[i])
    ensures TimingIndex(lines) == n
  {
  }

  lemma CueBlockShape(lead: bool, index: nat, c: Cue)
    requires Clean(Styled(c))
    ensures NoBlank(CueBlock(lead, index, c))
    ensures CueBlock(lead, index, c)[|CueBlock(lead, index, c)| - 1] != '\n'
  {
    IdLineShape(index + 1);
    TimingLineShape(c);
    HeadShape(Decimal(index + 1), TimingLine(c));
    var t := Styled(c);
    assert t != "" ==> t[0] != '\n' && t[|t| - 1] != '\n';
    BlockShape(lead, CueHead(index, c), t);
  }

  lemma BlockShape(lead: bool, head: string, t: string)
    requires NoBlank(head) && head != "" && head[0] != '\n' && head[|head| - 1] != '\n'
    requires NoBlank(t) && (t != "" ==> t[0] != '\n' && t[|t| - 1] != '\n')
    ensures var block := Lead(lead) + (head + Body(t));
      NoBlank(block) && block[|block| - 1] != '\n'
  {
    if t == "" {
      assert head + Body(t) == head;
    } else {
      NoBlankJoin("\n", t);
      NoBlankJoin(head, Body(t));
    }
    NoBlankJoin(Lead(lead), head + Body(t));
  }

  lemma NoBlankJoin(a: string, b: string)
    requires NoBlank(a) && NoBlank(b)
    requires a == "" || b == "" || a[|a| - 1] != '\n' || b[0] != '\n'
    ensures NoBlank(a + b)
  {
  }

  lemma HeadShape(id: string, line: string)
    requires id != "" && '\n' !in id && line != "" && '\n' !in line
    ensures var head := id + "\n" + line;
      NoBlank(head) && head[0] != '\n' && head[|head| - 1] != '\n'
  {
    assert NoBlank(id) && NoBlank(line);
    NoBlankJoin(id, "\n");
    NoBlankJoin(id + "\n", line);
  }

  lemma LeftOverParsesToNothing(lead: bool)
    ensures ParseBlocks(Blocks(Lead(lead))) == []
  {
    var s := Lead(lead);
    assert Blocks(s) == [s];
    if lead {
      LinesSplit("", "");
      assert Lines("\n") == [""];
      assert !HasArrow("");
    }
    assert ParseBlock(s) == None;
  }

  /** The cues the parser gives back: those with both times under a hundred hours. */
  function Kept(cues: seq<Cue>, i: nat): seq<Cue>
    requires i <= |cues|
    decreases |cues| - i
  {
    if i == |cues| then []
    else (if Timely(cues[i]) then [Reparsed(cues[i])] else []) + Kept(cues, i + 1)
  }

  predicate AllClean(cues: seq<Cue>) {
    forall i :: 0 <= i < |cues| ==> Clean(Styled(cues[i]))
  }

  lemma Regroup(pre: string, head: string, t: string, rest: string)
    ensures pre + (head + "\n" + t + "\n\n" + rest) ==
      (pre + (head + Body(t))) + "\n\n" + (Lead(t == "") + rest)
  {
    if t == "" {
      assert head + "\n" + t + "\n\n" + rest == head + ("\n\n" + ("\n" + rest));
      assert head + Body(t) == head;
      assert pre + (head + ("\n\n" + ("\n" + rest))) == pre + head + "\n\n" + ("\n" + rest);
    } else {
      assert head + "\n" + t + "\n\n" + rest == (head + Body(t)) + ("\n\n" + rest);
      assert Lead(t == "") + rest == rest;
    }
  }

  lemma {:induction false} PrintFromParses(cues: seq<Cue>, i: nat, lead: bool)
    requires i <= |cues| && AllClean(cues)
    ensures ParseBlocks(Blocks(Lead(lead) + PrintFrom(cues, i))) == Kept(cues, i)
    decreases |cues| - i
  {
    if i == |cues| {
      LeftOverParsesToNothing(lead);
      assert Lead(lead) + PrintFrom(cues, i) == Lead(lead);
    } else {
      var c := cues[i];
      var next := Styled(c) == "";
      var rest := Lead(next) + PrintFrom(cues, i + 1);
      Regroup(Lead(lead), CueHead(i, c), Styled(c), PrintFrom(cues, i + 1));
      CueBlockShape(lead, i, c);
      BlocksSplit(CueBlock(lead, i, c), rest);
      CueBlockParses(lead, i, c);
      PrintFromParses(cues, i + 1, next);
      var blocks := [CueBlock(lead, i, c)] + Blocks(rest);
      assert blocks[1..] == Blocks(rest);
    }
  }

  lemma {:induction false} PrintFromHasNoCr(cues: seq<Cue>, i: nat)
    requires i <= |cues| && AllClean(cues)
    ensures '\r' !in PrintFrom(cues, i)
    decreases |cues| - i
  {
    if i < |cues| {
      IdLineShape(i + 1);
      TimingLineShape(cues[i]);
      PrintFromHasNoCr(cues, i + 1);
    }
  }

  lemma HeaderSkipped(rest: string)
    ensures ParseBlocks(Blocks("WEBVTT\n\n" + rest)) == ParseBlocks(Blocks(rest))
  {
    var header := "WEBVTT";
    assert "WEBVTT\n\n" + rest == header + "\n\n" + rest;
    BlocksSplit(header, rest);
    LinesOne(header);
    assert TimingIndex(Lines(header)) == 1;
    var blocks := [header] + Blocks(rest);
    assert blocks[1..] == Blocks(rest);
  }

  /** Printing and parsing any list of cues with clean styled texts gives back, in
      order, exactly the cues whose times are both under a hundred hours. */
  lemma PrintedParses(cues: seq<Cue>)
    requires AllClean(cues)
    ensures Parsed(Printed(cues)) == Kept(cues, 0)
  {
    PrintFromHasNoCr(cues, 0);
    NormalizeIdentity(Printed(cues));
    var rest := PrintFrom(cues, 0);
    HeaderSkipped(rest);
    PrintFromParses(cues, 0, false);
    assert Lead(false) + rest == rest;
  }

  // --------------------------------------------------------- the exact condition

  lemma ParseBlockClean(block: string)
    requires NoBlank(block) && '\r' !in block && ParseBlock(block).Some?
    ensures Clean(ParseBlock(block).value.text)
  {
    var lines := Lines(block);
    var n := TimingIndex(lines);
    var body := Join(lines[n + 1..]);
    JoinedTailWithin(block, n + 1);
    WithinKeeps(body, block);
    TrimMakesTrimmed(body);
    WithinKeeps(Trim(body), body);
  }

  lemma {:induction false} ParseBlocksClean(blocks: seq<string>, k: nat)
    requires forall i :: 0 <= i < |blocks| ==> NoBlank(blocks[i]) && '\r' !in blocks[i]
    requires k < |ParseBlocks(blocks)|
    ensures Clean(ParseBlocks(blocks)[k].text)
    decreases |blocks|
  {
    var first, later := ParseBlock(blocks[0]), ParseBlocks(blocks[1..]);
    if first.Some? && k == 0 {
      ParseBlockClean(blocks[0]);
      assert ParseBlocks(blocks)[0] == first.value;
    } else {
      assert ParseBlocks(blocks)[k] == later[if first.Some? then k - 1 else k];
      ParseBlocksClean(blocks[1..], if first.Some? then k - 1 else k);
    }
  }

  /** Whatever the input, every text the parser returns is clean. */
  lemma ParsedTextsClean(content: string, k: nat)
    requires k < |Parsed(content)|
    ensures Clean(Parsed(content)[k].text)
  {
    var s := Normalize(content);
    forall i | 0 <= i < |Blocks(s)|
      ensures NoBlank(Blocks(s)[i]) && '\r' !in Blocks(s)[i]
    {
      BlocksHaveNoBlank(s, i);
    }
    ParseBlocksClean(Blocks(s), k);
  }

  function Expected(cues: seq<Cue>): seq<Cue> {
    seq(|cues|, i requires 0 <= i < |cues| => Reparsed(cues[i]))
  }

  lemma {:induction false} KeptLength(cues: seq<Cue>, i: nat)
    requires i <= |cues|
    ensures |Kept(cues, i)| <= |cues| - i
    ensures |Kept(cues, i)| == |cues| - i <==> forall j :: i <= j < |cues| ==> Timely(cues[j])
    ensures |Kept(cues, i)| == |cues| - i ==> Kept(cues, i) == Expected(cues)[i..]
    decreases |cues| - i
  {
    if i < |cues| {
      KeptLength(cues, i + 1);
      assert Expected(cues)[i..] == [Reparsed(cues[i])] + Expected(cues)[i + 1..];
    }
  }

  /** The round trip is exact if and only if every styled text is clean and every
      time is under a hundred hours. */
  lemma RoundTripExactly(cues: seq<Cue>)
    ensures Parsed(Printed(cues)) == Expected(cues) <==>
      AllClean(cues) && forall i :: 0 <= i < |cues| ==> Timely(cues[i])
  {
    if Parsed(Printed(cues)) == Expected(cues) {
      forall i | 0 <= i < |cues| ensures Clean(Styled(cues[i])) {
        ParsedTextsClean(Printed(cues), i);
      }
    }
    if AllClean(cues) {
      PrintedParses(cues);
      KeptLength(cues, 0);
    }
  }
}
