/** Finding the Cues position in a Matroska SeekHead. */
module SeekHead {
  import opened Common
  import opened Ebml

  const CUES: nat := 0x1C53BB6B
  const SEEK: seq<Byte> := [0x4D, 0xBB]
  const SEEK_ID: seq<Byte> := [0x53, 0xAB]
  const SEEK_POSITION: seq<Byte> := [0x53, 0xAC]

  /** An element's payload size and the size of its header. */
  function ElementHeader(data: seq<Byte>): (r: Option<(nat, nat)>)
    ensures r.Some? ==> 2 <= r.value.1 <= |data|
  {
    var id := Vint(data);
    if id.None? then None else
      var size := Vint(data[id.value.1..]);
      if size.None? then None else Some((size.value.0, id.value.1 + size.value.1))
  }

  /** The header of an element of the given kind at the start of the data. */
  function HeaderOf(kind: seq<Byte>, data: seq<Byte>): (r: Option<(nat, nat)>)
    ensures r.Some? ==> 2 <= r.value.1 <= |data|
  {
    if |data| > 2 && data[..2] == kind then ElementHeader(data) else None
  }

  /** Identifiers are read into 32 bits, positions into 64. */
  function Modulus(wide: bool): nat {
    if wide then 0x1_0000_0000_0000_0000 else 0x1_0000_0000
  }

  function Number(bytes: seq<Byte>, wide: bool): nat {
    BigEndian(bytes) % Modulus(wide)
  }

  /** The payload, or the earlier one when this one is cut off. */
  function Payload(earlier: Option<seq<Byte>>, data: seq<Byte>, size: nat): Option<seq<Byte>> {
    if size <= |data| then Some(data[..size]) else earlier
  }

  /** The position, if the identifier names the Cues element. */
  function Answer(id: Option<seq<Byte>>, position: Option<seq<Byte>>): Option<nat> {
    if id.Some? && position.Some? && Number(id.value, false) == CUES
    then Some(Number(position.value, true)) else None
  }

  // ------------------------------------------------------- what the loops compute

  /** A way of reading the header of an element of a wanted kind, such as `HeaderOf`. */
  type Reader = (seq<Byte>, seq<Byte>) -> Option<(nat, nat)>

  ghost predicate Sound(h: Reader) {
    forall kind, data :: h(kind, data).Some? ==> data[..Min(2, |data|)] == kind && 2 <= h(kind, data).value.1 <= |data|
  }

  ghost function ScanSeek(h: Reader, data: seq<Byte>, pos: nat, id: Option<seq<Byte>>,
                          position: Option<seq<Byte>>): Option<nat>
    requires Sound(h)
    decreases |data| - pos
  {
    if pos + 2 >= |data| then Answer(id, position)
    else
      var here := data[pos..];
      if h(SEEK_ID, here).Some? then
        var (size, header) := h(SEEK_ID, here).value;
        ScanSeek(h, data, pos + header + size, Payload(id, here[header..], size), position)
      else if h(SEEK_POSITION, here).Some? then
        var (size, header) := h(SEEK_POSITION, here).value;
        ScanSeek(h, data, pos + header + size, id, Payload(position, here[header..], size))
      else ScanSeek(h, data, pos + 1, id, position)
  }

  ghost function ScanHead(h: Reader, data: seq<Byte>, pos: nat): Option<nat>
    requires Sound(h)
    decreases |data| - pos
  {
    if pos + 2 >= |data| then None
    else
      var here := data[pos..];
      if h(SEEK, here).Some? then
        var (size, header) := h(SEEK, here).value;
        var payload := here[header..];
        var found := ScanSeek(h, payload[..Min(size, |payload|)], 0, None, None);
        if found.Some? then found else ScanHead(h, data, pos + header + size)
      else ScanHead(h, data, pos + 1)
  }

  // ------------------------------------------------------------------- the loops

  method ParseElementHeader(data: seq<Byte>) returns (r: Option<(nat, nat)>)
    ensures r == ElementHeader(data)
  {
    var id := ParseVint(data);
    if id.None? {
      return None;
    }
    var size := ParseVint(data[id.value.1..]);
    if size.None? {
      return None;
    }
    r := Some((size.value.0, id.value.1 + size.value.1));
  }

  /** The reader is `HeaderOf`. Stated point by point so that proofs about the loops
      need not look inside `HeaderOf`. */
  ghost predicate ReadsHeaders(h: Reader) {
    Sound(h) && forall kind, data {:trigger HeaderOf(kind, data)} :: h(kind, data) == HeaderOf(kind, data)
  }

  /** The header of an element of the wanted kind, looked for at one position. */
  method MatchHeader(ghost h: Reader, kind: seq<Byte>, here: seq<Byte>) returns (r: Option<(nat, nat)>)
    requires |here| > 2 && ReadsHeaders(h)
    ensures r == h(kind, here)
  {
    assert h(kind, here) == HeaderOf(kind, here);
    if here[..2] != kind {
      return None;
    }
    r := ParseElementHeader(here);
  }

  lemma WrapStep(a: nat, b: Byte, wide: bool)
    ensures (a % Modulus(wide) * 256 + b) % Modulus(wide) == (a * 256 + b) % Modulus(wide)
  {
  }

  /** Shifting bytes into a register of limited width keeps the number modulo it. */
  method Accumulate(bytes: seq<Byte>, wide: bool) returns (value: nat)
    ensures value == Number(bytes, wide)
  {
    value := 0;
    for i := 0 to |bytes|
      invariant value == Number(bytes[..i], wide)
    {
      assert bytes[..i + 1][..i] == bytes[..i];
      WrapStep(BigEndian(bytes[..i]), bytes[i], wide);
      value := (value * 256 + bytes[i]) % Modulus(wide);
    }
    assert bytes[..|bytes|] == bytes;
  }

  /** The register holds the number of the last complete payload. */
  ghost predicate Reads(value: Option<nat>, payload: Option<seq<Byte>>, wide: bool) {
    value.Some? == payload.Some? && (value.Some? ==> value.value == Number(payload.value, wide))
  }

  method ReadValue(earlier: Option<nat>, ghost was: Option<seq<Byte>>, data: seq<Byte>, size: nat, wide: bool)
    returns (value: Option<nat>)
    requires Reads(earlier, was, wide)
    ensures Reads(value, Payload(was, data, size), wide)
  {
    value := earlier;
    if size <= |data| {
      var number := Accumulate(data[..size], wide);
      value := Some(number);
    }
  }

  /** What one step of the inner scan does at an identifier, a position and elsewhere. */
  lemma AtId(h: Reader, data: seq<Byte>, pos: nat, size: nat, header: nat,
             id: Option<seq<Byte>>, position: Option<seq<Byte>>)
    requires Sound(h) && pos + 2 < |data| && h(SEEK_ID, data[pos..]) == Some((size, header))
    ensures ScanSeek(h, data, pos, id, position) ==
      ScanSeek(h, data, pos + header + size, Payload(id, data[pos..][header..], size), position)
  {
  }

  lemma AtPosition(h: Reader, data: seq<Byte>, pos: nat, size: nat, header: nat,
                   id: Option<seq<Byte>>, position: Option<seq<Byte>>)
    requires Sound(h) && pos + 2 < |data| && h(SEEK_POSITION, data[pos..]) == Some((size, header))
    ensures ScanSeek(h, data, pos, id, position) ==
      ScanSeek(h, data, pos + header + size, id, Payload(position, data[pos..][header..], size))
  {
    assert SEEK_ID[1] != SEEK_POSITION[1];
  }

  lemma AtOther(h: Reader, data: seq<Byte>, pos: nat, id: Option<seq<Byte>>, position: Option<seq<Byte>>)
    requires Sound(h) && pos + 2 < |data|
    requires h(SEEK_ID, data[pos..]) == None && h(SEEK_POSITION, data[pos..]) == None
    ensures ScanSeek(h, data, pos, id, position) == ScanSeek(h, data, pos + 1, id, position)
  {
  }

  method ParseSeekElement(ghost h: Reader, data: seq<Byte>) returns (r: Option<nat>)
    requires ReadsHeaders(h)
    ensures r == ScanSeek(h, data, 0, None, None)
  {
    var pos: nat := 0;
    var seekId: Option<nat> := None;
    var seekPosition: Option<nat> := None;
    ghost var id: Option<seq<Byte>> := None;
    ghost var position: Option<seq<Byte>> := None;
    while pos + 2 < |data|
      invariant Reads(seekId, id, false) && Reads(seekPosition, position, true)
      invariant ScanSeek(h, data, 0, None, None) == ScanSeek(h, data, pos, id, position)
      decreases |data| - pos
    {
      pos, seekId, seekPosition, id, position := SeekStep(h, data, pos, seekId, seekPosition, id, position);
    }
    r := if seekId == Some(CUES) && seekPosition.Some? then seekPosition else None;
  }

  method SeekStep(ghost h: Reader, data: seq<Byte>, start: nat, oldId: Option<nat>, oldPosition: Option<nat>,
                  ghost wasId: Option<seq<Byte>>, ghost wasPosition: Option<seq<Byte>>)
    returns (pos: nat, seekId: Option<nat>, seekPosition: Option<nat>,
             ghost id: Option<seq<Byte>>, ghost position: Option<seq<Byte>>)
    requires ReadsHeaders(h) && start + 2 < |data|
    requires Reads(oldId, wasId, false) && Reads(oldPosition, wasPosition, true)
    ensures start < pos
    ensures Reads(seekId, id, false) && Reads(seekPosition, position, true)
    ensures ScanSeek(h, data, start, wasId, wasPosition) == ScanSeek(h, data, pos, id, position)
  {
    seekId, seekPosition, id, position := oldId, oldPosition, wasId, wasPosition;
    var here := data[start..];
    var header := MatchHeader(h, SEEK_ID, here);
    if header.Some? {
      var (size, headerSize) := header.value;
      var payload := here[headerSize..];
      seekId := ReadValue(oldId, wasId, payload, size, false);
      id := Payload(wasId, payload, size);
      pos := start + headerSize + size;
      AtId(h, data, start, size, headerSize, wasId, wasPosition);
      return;
    }
    var other := MatchHeader(h, SEEK_POSITION, here);
    if other.Some? {
      var (size, headerSize) := other.value;
      var payload := here[headerSize..];
      seekPosition := ReadValue(oldPosition, wasPosition, payload, size, true);
      position := Payload(wasPosition, payload, size);
      pos := start + headerSize + size;
      AtPosition(h, data, start, size, headerSize, wasId, wasPosition);
      return;
    }
    pos := start + 1;
    AtOther(h, data, start, wasId, wasPosition);
  }

  // -------------------------------------------------------------------- encoding

  /** A Seek entry as a writer lays it out: identifier and position bytes, in either
      order, each size in any width that can hold it, with other elements or padding in
      front of the entry and around the two elements in it. */
  datatype SeekEntry = SeekEntry(
    id: seq<Byte>, position: seq<Byte>, idWidth: nat, positionWidth: nat, width: nat, positionFirst: bool,
    lead: seq<Byte>, before: seq<Byte>, between: seq<Byte>, after: seq<Byte>)

  predicate Fits(size: nat, width: nat) {
    1 <= width <= 8 && size < Pow2(7 * width)
  }

  function Element(kind: seq<Byte>, payload: seq<Byte>, width: nat): seq<Byte> {
    kind + EncodeVint(|payload|, width) + payload
  }

  function EntryBody(e: SeekEntry): seq<Byte> {
    var id := Element(SEEK_ID, e.id, e.idWidth);
    var position := Element(SEEK_POSITION, e.position, e.positionWidth);
    if e.positionFirst then e.before + position + e.between + id + e.after
    else e.before + id + e.between + position + e.after
  }

  /** The mark begins at a position of the data. */
  predicate MarkAt(data: seq<Byte>, i: nat, mark: seq<Byte>)
    requires |mark| == 2
  {
    i + 2 <= |data| && data[i] == mark[0] && data[i + 1] == mark[1]
  }

  /** None of the two marks begins in the bytes. */
  predicate Unmarked(bytes: seq<Byte>, mark: seq<Byte>, other: seq<Byte>)
    requires |mark| == 2 && |other| == 2
  {
    forall i :: 0 <= i < |bytes| ==> !MarkAt(bytes, i, mark) && !MarkAt(bytes, i, other)
  }

  predicate EntryFits(e: SeekEntry) {
    && Fits(|e.id|, e.idWidth) && Fits(|e.position|, e.positionWidth) && Fits(|EntryBody(e)|, e.width)
    && Unmarked(e.lead, SEEK, SEEK) && Unmarked(e.before, SEEK_ID, SEEK_POSITION)
    && Unmarked(e.between, SEEK_ID, SEEK_POSITION) && Unmarked(e.after, SEEK_ID, SEEK_POSITION)
  }

  function EncodeEntry(e: SeekEntry): seq<Byte> {
    e.lead + Element(SEEK, EntryBody(e), e.width)
  }

  function EncodeEntries(es: seq<SeekEntry>): seq<Byte> {
    if es == [] then []
    else EncodeEntry(es[0]) + EncodeEntries(es[1..])
  }

  /** The position of the first entry that names the Cues element. */
  function FirstCues(es: seq<SeekEntry>): Option<nat> {
    if es == [] then None
    else if Number(es[0].id, false) == CUES then Some(Number(es[0].position, true))
    else FirstCues(es[1..])
  }

  /** Identifiers of up to four bytes and positions of up to eight lose nothing. */
  lemma NumberExact(bytes: seq<Byte>, wide: bool)
    requires |bytes| <= if wide then 8 else 4
    ensures Number(bytes, wide) == BigEndian(bytes)
  {
    BigEndianInvert(bytes);
    Pow256Grows(|bytes|, if wide then 8 else 4);
    WordSizes(wide);
    Below(BigEndian(bytes), Modulus(wide));
  }

  lemma Below(n: nat, m: nat)
    requires n < m
    ensures n % m == n
  {
  }

  lemma WordSizes(wide: bool)
    ensures Pow256(if wide then 8 else 4) == Modulus(wide)
  {
    assert Pow256(2) == 0x1_0000;
    assert Pow256(4) == 0x1_0000_0000;
    assert Pow256(6) == 0x1_0000_0000_0000;
    assert Pow256(8) == 0x1_0000_0000_0000_0000;
  }

  lemma {:induction false} Pow256Grows(a: nat, b: nat)
    requires a <= b
    ensures Pow256(a) <= Pow256(b)
    decreases b
  {
    if a < b {
      Pow256Grows(a, b - 1);
    }
  }

  /** The header is read back whatever follows it, also when the payload is cut short. */
  lemma HeaderReadBack(kind: seq<Byte>, size: nat, width: nat, rest: seq<Byte>)
    requires kind == SEEK || kind == SEEK_ID || kind == SEEK_POSITION
    requires Fits(size, width)
    ensures var data := kind + EncodeVint(size, width) + rest;
      && HeaderOf(kind, data) == Some((size, 2 + width))
      && data[..2] == kind && |data| > 2 && data[2 + width..] == rest
  {
    var header := EncodeVint(size, width);
    var data := kind + header + rest;
    assert data == kind + (header + rest);
    assert data[..2] == kind;
    assert data[0] == kind[0];
    SmallPowers();
    MarkGivesWidth(data[0], 2);
    assert Vint(data).Some? && Vint(data).value.1 == 2;
    assert data[2..] == header + rest;
    VintRoundTrip(size, width, rest);
    assert data[2 + width..] == data[2..][width..] == rest;
  }

  lemma ElementHeaderRoundTrip(kind: seq<Byte>, payload: seq<Byte>, width: nat, rest: seq<Byte>)
    requires kind == SEEK || kind == SEEK_ID || kind == SEEK_POSITION
    requires Fits(|payload|, width)
    ensures var data := Element(kind, payload, width) + rest;
      && HeaderOf(kind, data) == Some((|payload|, 2 + width))
      && data[..2] == kind && |data| > 2
      && data[2 + width..] == payload + rest
  {
    HeaderReadBack(kind, |payload|, width, payload + rest);
    assert Element(kind, payload, width) + rest == kind + EncodeVint(|payload|, width) + (payload + rest);
  }

  /** A reader that recognises every encoded element wherever it starts. */
  ghost predicate Recognises(h: Reader) {
    forall kind, payload, width, rest ::
      (kind == SEEK || kind == SEEK_ID || kind == SEEK_POSITION) && Fits(|payload|, width) ==>
      h(kind, Element(kind, payload, width) + rest) == Some((|payload|, 2 + width))
  }

  lemma HeadersRecognised()
    ensures Sound(HeaderOf) && Recognises(HeaderOf)
  {
    forall kind, payload, width, rest |
      (kind == SEEK || kind == SEEK_ID || kind == SEEK_POSITION) && Fits(|payload|, width)
      ensures HeaderOf(kind, Element(kind, payload, width) + rest) == Some((|payload|, 2 + width))
    {
      ElementHeaderRoundTrip(kind, payload, width, rest);
    }
  }

  /** What one step of each scan does when it meets a complete element. */
  lemma ScanIdStep(h: Reader, data: seq<Byte>, pos: nat, header: nat, next: nat,
                   was: Option<seq<Byte>>, position: Option<seq<Byte>>)
    requires Sound(h) && pos + 2 < |data| && pos + header <= next <= |data|
    requires h(SEEK_ID, data[pos..]) == Some((next - pos - header, header))
    ensures ScanSeek(h, data, pos, was, position) ==
      ScanSeek(h, data, next, Some(data[pos + header..next]), position)
  {
    assert data[pos..][header..][..next - pos - header] == data[pos + header..next];
  }

  lemma ScanPositionStep(h: Reader, data: seq<Byte>, pos: nat, header: nat, next: nat,
                         id: Option<seq<Byte>>, was: Option<seq<Byte>>)
    requires Sound(h) && pos + 2 < |data| && pos + header <= next <= |data|
    requires h(SEEK_POSITION, data[pos..]) == Some((next - pos - header, header))
    ensures ScanSeek(h, data, pos, id, was) == ScanSeek(h, data, next, id, Some(data[pos + header..next]))
  {
    assert SEEK_ID[1] != SEEK_POSITION[1];
    assert h(SEEK_ID, data[pos..]) == None;
    assert data[pos..][header..][..next - pos - header] == data[pos + header..next];
  }

  lemma ScanHeadStep(h: Reader, data: seq<Byte>, pos: nat, header: nat, next: nat, found: Option<nat>)
    requires Sound(h) && pos + 2 < |data| && pos + header <= next <= |data|
    requires h(SEEK, data[pos..]) == Some((next - pos - header, header))
    requires found == ScanSeek(h, data[pos + header..next], 0, None, None)
    ensures ScanHead(h, data, pos) == if found.Some? then found else ScanHead(h, data, next)
  {
    assert data[pos..][header..][..next - pos - header] == data[pos + header..next];
  }

  /** Where an element sits inside a larger stretch of bytes. */
  lemma ElementInside(h: Reader, before: seq<Byte>, kind: seq<Byte>, payload: seq<Byte>, width: nat, rest: seq<Byte>)
    requires kind == SEEK || kind == SEEK_ID || kind == SEEK_POSITION
    requires Recognises(h) && Fits(|payload|, width)
    ensures var data := before + Element(kind, payload, width) + rest;
      && |before| + 2 < |data|
      && h(kind, data[|before|..]) == Some((|payload|, 2 + width))
      && |before| + 2 + width + |payload| == |data| - |rest|
      && data[|before| + 2 + width..|data| - |rest|] == payload
  {
    var data := before + Element(kind, payload, width) + rest;
    var tail := data[|before|..];
    assert tail == Element(kind, payload, width) + rest;
  }

  // ------------------------------------------------------------------- bytes in between

  /** None of the two marks begins at a position of the stretch. */
  predicate Quiet(data: seq<Byte>, from: nat, to: nat, mark: seq<Byte>, other: seq<Byte>)
    requires |mark| == 2 && |other| == 2
  {
    forall i :: from <= i < to ==> !MarkAt(data, i, mark) && !MarkAt(data, i, other)
  }

  /** What follows the bytes begins like a mark, or there is nothing. */
  lemma UnmarkedIsQuiet(before: seq<Byte>, bytes: seq<Byte>, rest: seq<Byte>, mark: seq<Byte>, other: seq<Byte>)
    requires |mark| == 2 && |other| == 2 && mark[0] == other[0] && mark[1] != mark[0] && other[1] != mark[0]
    requires Unmarked(bytes, mark, other) && (rest == [] || rest[0] == mark[0])
    ensures Quiet(before + bytes + rest, |before|, |before| + |bytes|, mark, other)
  {
    var data := before + bytes + rest;
    forall i | |before| <= i < |before| + |bytes|
      ensures !MarkAt(data, i, mark) && !MarkAt(data, i, other)
    {
      var k := i - |before|;
      assert !MarkAt(bytes, k, mark) && !MarkAt(bytes, k, other);
      assert data[i] == bytes[k];
      if k == |bytes| - 1 && i + 2 <= |data| {
        assert data[i + 1] == rest[0];
      }
    }
  }

  lemma NoElement(h: Reader, data: seq<Byte>, pos: nat, mark: seq<Byte>)
    requires Sound(h) && |mark| == 2 && pos + 2 < |data| && !MarkAt(data, pos, mark)
    ensures h(mark, data[pos..]) == None
  {
    var here := data[pos..];
    assert here[..2][0] == data[pos] && here[..2][1] == data[pos + 1];
  }

  lemma {:induction false} SkipSeek(h: Reader, data: seq<Byte>, pos: nat, to: nat,
                                    id: Option<seq<Byte>>, position: Option<seq<Byte>>)
    requires Sound(h) && pos <= to <= |data| && Quiet(data, pos, to, SEEK_ID, SEEK_POSITION)
    ensures ScanSeek(h, data, pos, id, position) == ScanSeek(h, data, to, id, position)
    decreases |data| - pos
  {
    if pos < to && pos + 2 < |data| {
      NoElement(h, data, pos, SEEK_ID);
      NoElement(h, data, pos, SEEK_POSITION);
      AtOther(h, data, pos, id, position);
      SkipSeek(h, data, pos + 1, to, id, position);
    }
  }

  lemma {:induction false} SkipHead(h: Reader, data: seq<Byte>, pos: nat, to: nat)
    requires Sound(h) && pos <= to <= |data| && Quiet(data, pos, to, SEEK, SEEK)
    ensures ScanHead(h, data, pos) == ScanHead(h, data, to)
    decreases |data| - pos
  {
    if pos < to && pos + 2 < |data| {
      NoElement(h, data, pos, SEEK);
      SkipHead(h, data, pos + 1, to);
    }
  }

  // -------------------------------------------------------------------- one Seek element

  /** An element inside the data: where it starts and where it ends. */
  ghost predicate ElementAt(h: Reader, data: seq<Byte>, start: nat, kind: seq<Byte>, p: seq<Byte>, v: nat, end: nat) {
    && start + 2 < |data| && start + 2 + v + |p| == end <= |data|
    && h(kind, data[start..]) == Some((|p|, 2 + v)) && data[start + 2 + v..end] == p
  }

  /** The data is two elements with nothing of their kinds around them. */
  ghost predicate PairAt(h: Reader, data: seq<Byte>, start: nat, first: seq<Byte>, p: seq<Byte>, v: nat, mid: nat,
                         next: nat, second: seq<Byte>, q: seq<Byte>, w: nat, end: nat)
  {
    && ElementAt(h, data, start, first, p, v, mid) && mid <= next && ElementAt(h, data, next, second, q, w, end)
    && Quiet(data, 0, start, SEEK_ID, SEEK_POSITION) && Quiet(data, mid, next, SEEK_ID, SEEK_POSITION)
    && Quiet(data, end, |data|, SEEK_ID, SEEK_POSITION)
  }

  lemma ElementSits(h: Reader, before: seq<Byte>, kind: seq<Byte>, p: seq<Byte>, v: nat, rest: seq<Byte>)
    requires kind == SEEK || kind == SEEK_ID || kind == SEEK_POSITION
    requires Recognises(h) && Fits(|p|, v)
    ensures var one := Element(kind, p, v);
      ElementAt(h, before + one + rest, |before|, kind, p, v, |before| + |one|)
  {
    ElementInside(h, before, kind, p, v, rest);
  }

  lemma ElementPair(h: Reader, a: seq<Byte>, first: seq<Byte>, p: seq<Byte>, v: nat, b: seq<Byte>,
                    second: seq<Byte>, q: seq<Byte>, w: nat, c: seq<Byte>)
    requires (first == SEEK_ID && second == SEEK_POSITION) || (first == SEEK_POSITION && second == SEEK_ID)
    requires Recognises(h) && Fits(|p|, v) && Fits(|q|, w)
    requires Unmarked(a, SEEK_ID, SEEK_POSITION) && Unmarked(b, SEEK_ID, SEEK_POSITION)
    requires Unmarked(c, SEEK_ID, SEEK_POSITION)
    ensures var one, two := Element(first, p, v), Element(second, q, w);
      var mid := |a| + |one|;
      var next := mid + |b|;
      PairAt(h, a + one + b + two + c, |a|, first, p, v, mid, next, second, q, w, next + |two|)
  {
    var one, two := Element(first, p, v), Element(second, q, w);
    var data := a + one + b + two + c;
    Around(a, one, b, two, c);
    ElementSits(h, a, first, p, v, b + two + c);
    ElementSits(h, a + one + b, second, q, w, c);
    assert one[0] == 0x53 && two[0] == 0x53;
    UnmarkedIsQuiet([], a, one + b + two + c, SEEK_ID, SEEK_POSITION);
    UnmarkedIsQuiet(a + one, b, two + c, SEEK_ID, SEEK_POSITION);
    UnmarkedIsQuiet(a + one + b + two, c, [], SEEK_ID, SEEK_POSITION);
  }

  lemma Around(a: seq<Byte>, one: seq<Byte>, b: seq<Byte>, two: seq<Byte>, c: seq<Byte>)
    ensures var data := a + one + b + two + c;
      && data == a + one + (b + two + c) && data == (a + one + b) + two + c
      && data == [] + a + (one + b + two + c) && data == (a + one) + b + (two + c)
      && data == (a + one + b + two) + c + []
  {
  }

  lemma ScanId(h: Reader, data: seq<Byte>, start: nat, id: seq<Byte>, v: nat, end: nat,
               was: Option<seq<Byte>>, position: Option<seq<Byte>>)
    requires Sound(h) && ElementAt(h, data, start, SEEK_ID, id, v, end)
    ensures ScanSeek(h, data, start, was, position) == ScanSeek(h, data, end, Some(id), position)
  {
    ScanIdStep(h, data, start, 2 + v, end, was, position);
  }

  lemma ScanPosition(h: Reader, data: seq<Byte>, start: nat, position: seq<Byte>, w: nat, end: nat,
                     id: Option<seq<Byte>>, was: Option<seq<Byte>>)
    requires Sound(h) && ElementAt(h, data, start, SEEK_POSITION, position, w, end)
    ensures ScanSeek(h, data, start, id, was) == ScanSeek(h, data, end, id, Some(position))
  {
    ScanPositionStep(h, data, start, 2 + w, end, id, was);
  }

  lemma ScanEnd(h: Reader, data: seq<Byte>, id: seq<Byte>, position: seq<Byte>)
    requires Sound(h)
    ensures ScanSeek(h, data, |data|, Some(id), Some(position)) == Answer(Some(id), Some(position))
  {
  }

  /** The scan over two elements, in either order. */
  lemma ScanIdThenPosition(h: Reader, data: seq<Byte>, start: nat, id: seq<Byte>, v: nat, mid: nat, next: nat,
                           position: seq<Byte>, w: nat, end: nat)
    requires Sound(h) && PairAt(h, data, start, SEEK_ID, id, v, mid, next, SEEK_POSITION, position, w, end)
    ensures ScanSeek(h, data, 0, None, None) == Answer(Some(id), Some(position))
  {
    SkipSeek(h, data, 0, start, None, None);
    ScanId(h, data, start, id, v, mid, None, None);
    SkipSeek(h, data, mid, next, Some(id), None);
    ScanPosition(h, data, next, position, w, end, Some(id), None);
    SkipSeek(h, data, end, |data|, Some(id), Some(position));
    ScanEnd(h, data, id, position);
  }

  lemma ScanPositionThenId(h: Reader, data: seq<Byte>, start: nat, position: seq<Byte>, w: nat, mid: nat, next: nat,
                           id: seq<Byte>, v: nat, end: nat)
    requires Sound(h) && PairAt(h, data, start, SEEK_POSITION, position, w, mid, next, SEEK_ID, id, v, end)
    ensures ScanSeek(h, data, 0, None, None) == Answer(Some(id), Some(position))
  {
    SkipSeek(h, data, 0, start, None, None);
    ScanPosition(h, data, start, position, w, mid, None, None);
    SkipSeek(h, data, mid, next, None, Some(position));
    ScanId(h, data, next, id, v, end, None, Some(position));
    SkipSeek(h, data, end, |data|, Some(id), Some(position));
    ScanEnd(h, data, id, position);
  }

  lemma ScanEntry(h: Reader, e: SeekEntry, body: seq<Byte>)
    requires Sound(h) && Recognises(h) && EntryFits(e) && body == EntryBody(e)
    ensures ScanSeek(h, body, 0, None, None) == Answer(Some(e.id), Some(e.position))
  {
    if e.positionFirst {
      PositionFirst(h, e, body);
    } else {
      IdFirst(h, e, body);
    }
  }

  lemma IdFirst(h: Reader, e: SeekEntry, body: seq<Byte>)
    requires Sound(h) && Recognises(h) && EntryFits(e) && !e.positionFirst && body == EntryBody(e)
    ensures ScanSeek(h, body, 0, None, None) == Answer(Some(e.id), Some(e.position))
  {
    var one, two := Element(SEEK_ID, e.id, e.idWidth), Element(SEEK_POSITION, e.position, e.positionWidth);
    var mid := |e.before| + |one|;
    var next := mid + |e.between|;
    ElementPair(h, e.before, SEEK_ID, e.id, e.idWidth, e.between, SEEK_POSITION, e.position, e.positionWidth, e.after);
    ScanIdThenPosition(h, body, |e.before|, e.id, e.idWidth, mid, next, e.position, e.positionWidth, next + |two|);
  }

  lemma PositionFirst(h: Reader, e: SeekEntry, body: seq<Byte>)
    requires Sound(h) && Recognises(h) && EntryFits(e) && e.positionFirst && body == EntryBody(e)
    ensures ScanSeek(h, body, 0, None, None) == Answer(Some(e.id), Some(e.position))
  {
    var one, two := Element(SEEK_POSITION, e.position, e.positionWidth), Element(SEEK_ID, e.id, e.idWidth);
    var mid := |e.before| + |one|;
    var next := mid + |e.between|;
    ElementPair(h, e.before, SEEK_POSITION, e.position, e.positionWidth, e.between, SEEK_ID, e.id, e.idWidth, e.after);
    ScanPositionThenId(h, body, |e.before|, e.position, e.positionWidth, mid, next, e.id, e.idWidth, next + |two|);
  }

  // ------------------------------------------------------------------ the whole SeekHead

  /** One encoded entry with anything around it. */
  lemma ScanOneEntry(h: Reader, before: seq<Byte>, body: seq<Byte>, width: nat, rest: seq<Byte>)
    requires Sound(h) && Recognises(h) && Fits(|body|, width)
    ensures var grown := before + Element(SEEK, body, width);
      var found := ScanSeek(h, body, 0, None, None);
      ScanHead(h, grown + rest, |before|) == if found.Some? then found else ScanHead(h, grown + rest, |grown|)
  {
    ElementInside(h, before, SEEK, body, width, rest);
    var grown := before + Element(SEEK, body, width);
    ScanHeadStep(h, grown + rest, |before|, 2 + width, |grown|, ScanSeek(h, body, 0, None, None));
  }

  lemma ScanPastEntry(h: Reader, before: seq<Byte>, e: SeekEntry, rest: seq<Byte>)
    requires Sound(h) && Recognises(h) && EntryFits(e)
    ensures var grown := before + EncodeEntry(e);
      ScanHead(h, grown + rest, |before|) ==
      if Number(e.id, false) == CUES then Some(Number(e.position, true)) else ScanHead(h, grown + rest, |grown|)
  {
    var seek := Element(SEEK, EntryBody(e), e.width);
    Regroup(before, e.lead, seek);
    LeadSkipped(h, before, e.lead, seek, rest);
    ScanOneEntry(h, before + e.lead, EntryBody(e), e.width, rest);
    ScanEntry(h, e, EntryBody(e));
  }

  lemma LeadSkipped(h: Reader, before: seq<Byte>, lead: seq<Byte>, seek: seq<Byte>, rest: seq<Byte>)
    requires Sound(h) && Unmarked(lead, SEEK, SEEK) && seek != [] && seek[0] == 0x4D
    ensures ScanHead(h, before + lead + seek + rest, |before|) ==
      ScanHead(h, before + lead + seek + rest, |before + lead|)
  {
    var data := before + lead + seek + rest;
    assert data == before + lead + (seek + rest);
    UnmarkedIsQuiet(before, lead, seek + rest, SEEK, SEEK);
    SkipHead(h, data, |before|, |before + lead|);
  }

  lemma {:induction false} ScanFindsFirstCues(h: Reader, before: seq<Byte>, es: seq<SeekEntry>, tail: seq<Byte>)
    requires Sound(h) && Recognises(h) && Unmarked(tail, SEEK, SEEK)
    requires forall i :: 0 <= i < |es| ==> EntryFits(es[i])
    ensures ScanHead(h, before + (EncodeEntries(es) + tail), |before|) == FirstCues(es)
    decreases |es|
  {
    if es == [] {
      assert before + (EncodeEntries(es) + tail) == before + tail + [];
      UnmarkedIsQuiet(before, tail, [], SEEK, SEEK);
      SkipHead(h, before + tail + [], |before|, |before + tail|);
    } else {
      var one, rest := EncodeEntry(es[0]), EncodeEntries(es[1..]) + tail;
      ScanPastEntry(h, before, es[0], rest);
      assert before + (EncodeEntries(es) + tail) == before + one + rest by {
        Regroup(one, EncodeEntries(es[1..]), tail);
        Regroup(before, one, rest);
      }
      ScanFindsFirstCues(h, before + one, es[1..], tail);
    }
  }

  lemma Regroup(a: seq<Byte>, b: seq<Byte>, c: seq<Byte>)
    ensures a + (b + c) == a + b + c
  {
  }

  /** A last Seek element whose payload is cut short is read as far as it goes. */
  lemma CutEntryRead(before: seq<Byte>, size: nat, width: nat, body: seq<Byte>)
    requires Fits(size, width) && |body| <= size && Sound(HeaderOf)
    ensures ScanHead(HeaderOf, before + (SEEK + EncodeVint(size, width) + body), |before|) ==
      ScanSeek(HeaderOf, body, 0, None, None)
  {
    var rest := SEEK + EncodeVint(size, width) + body;
    var data := before + rest;
    HeaderReadBack(SEEK, size, width, body);
    assert data[|before|..] == rest;
    assert rest[2 + width..][..Min(size, |body|)] == body;
  }

  /** An identifier or position that is cut short is ignored. */
  lemma CutPayloadIgnored(before: seq<Byte>, wide: bool, size: nat, width: nat, part: seq<Byte>,
                          id: Option<seq<Byte>>, position: Option<seq<Byte>>)
    requires Fits(size, width) && |part| < size && Sound(HeaderOf)
    ensures var kind := if wide then SEEK_POSITION else SEEK_ID;
      ScanSeek(HeaderOf, before + (kind + EncodeVint(size, width) + part), |before|, id, position) ==
      Answer(id, position)
  {
    var kind := if wide then SEEK_POSITION else SEEK_ID;
    var rest := kind + EncodeVint(size, width) + part;
    var data := before + rest;
    HeaderReadBack(kind, size, width, part);
    assert data[|before|..] == rest;
    assert SEEK_ID[1] != SEEK_POSITION[1];
  }

  /** On any encoded list of Seek entries, with any other bytes around them and in them in which
      none of the wanted elements begins, the scan returns the position of the first entry that
      names the Cues element, or none. */
  lemma SeekHeadFindsFirstCues(es: seq<SeekEntry>, tail: seq<Byte>)
    requires (forall i :: 0 <= i < |es| ==> EntryFits(es[i])) && Unmarked(tail, SEEK, SEEK)
    ensures Sound(HeaderOf) && ScanHead(HeaderOf, EncodeEntries(es) + tail, 0) == FirstCues(es)
  {
    HeadersRecognised();
    ScanFindsFirstCues(HeaderOf, [], es, tail);
    assert [] + (EncodeEntries(es) + tail) == EncodeEntries(es) + tail;
  }

  ghost predicate Encodes(es: seq<SeekEntry>, tail: seq<Byte>, data: seq<Byte>) {
    && (forall i :: 0 <= i < |es| ==> EntryFits(es[i])) && Unmarked(tail, SEEK, SEEK)
    && data == EncodeEntries(es) + tail
  }

  method ParseSeekHead(data: seq<Byte>) returns (r: Option<nat>)
    ensures Sound(HeaderOf) && r == ScanHead(HeaderOf, data, 0)
    ensures forall es, tail :: Encodes(es, tail, data) ==> r == FirstCues(es)
  {
    r := ScanEntries(HeaderOf, data);
    forall es, tail | Encodes(es, tail, data) ensures r == FirstCues(es) {
      SeekHeadFindsFirstCues(es, tail);
    }
  }

  method ScanEntries(ghost h: Reader, data: seq<Byte>) returns (r: Option<nat>)
    requires ReadsHeaders(h)
    ensures r == ScanHead(h, data, 0)
  {
    var pos: nat := 0;
    while pos + 2 < |data|
      invariant ScanHead(h, data, 0) == ScanHead(h, data, pos)
      decreases |data| - pos
    {
      var here := data[pos..];
      var header := MatchHeader(h, SEEK, here);
      if header.Some? {
        var (size, headerSize) := header.value;
        var payload := here[headerSize..];
        var found := ParseSeekElement(h, payload[..Min(size, |payload|)]);
        if found.Some? {
          return found;
        }
        pos := pos + headerSize + size;
        continue;
      }
      pos := pos + 1;
    }
    r := None;
  }
}
