/** A file reassembled when one of its pieces was cut short. */
module TornPieces {
  import opened Common
  import opened DiskCache

  /** All the pieces are whole, except that piece number `t` ends after `m` bytes. */
  ghost predicate Torn(f: FilePlace, torrent: Bytes, pieces: seq<Piece>, t: nat, m: nat) {
    && t < |pieces| && m <= |BytesAt(torrent, pieces[t].start, f.pieceLength)|
    && pieces[t].data == BytesAt(torrent, pieces[t].start, f.pieceLength)[..m]
    && (forall i :: 0 <= i < |pieces| && i != t ==>
          pieces[i].data == BytesAt(torrent, pieces[i].start, f.pieceLength))
  }

  function Capped(s: Bytes, size: nat): Bytes {
    s[..Min(|s|, size)]
  }

  /** The data is the first `x` bytes of the file and then the torrent from `end` to `upTo`,
      as far as the size allows. */
  predicate Jumps(f: FilePlace, torrent: Bytes, x: nat, end: nat, data: Bytes, upTo: nat) {
    var reach := Min(upTo, |torrent|);
    && f.offset + x <= |torrent| && end <= reach
    && data == Capped(torrent[f.offset..f.offset + x] + torrent[end..reach], f.size)
  }

  /** A piece behind the start of the file is added whole, as far as there is room. */
  lemma AppendCapped(s: Bytes, piece: Bytes, start: nat, offset: nat, size: nat)
    requires offset <= start
    ensures Append(Capped(s, size), piece, start, offset, size) == Capped(s + piece, size)
  {
  }

  lemma JumpsNext(f: FilePlace, torrent: Bytes, x: nat, end: nat, done: Bytes, piece: Piece)
    requires Jumps(f, torrent, x, end, done, piece.start) && f.offset <= piece.start
    requires piece.data == BytesAt(torrent, piece.start, f.pieceLength)
    ensures Jumps(f, torrent, x, end, Append(done, piece.data, piece.start, f.offset, f.size),
                  piece.start + f.pieceLength)
  {
    var head, from := torrent[f.offset..f.offset + x], Min(piece.start, |torrent|);
    var to := Min(piece.start + f.pieceLength, |torrent|);
    AppendCapped(head + torrent[end..from], piece.data, piece.start, f.offset, f.size);
    assert piece.data == torrent[from..to];
    JoinSlices(torrent, end, from, to);
    assert (head + torrent[end..from]) + piece.data == head + torrent[end..to];
  }

  /** Up to the torn piece the file is right, and the torn piece adds its first bytes. */
  lemma UpToTear(f: FilePlace, torrent: Bytes, pieces: seq<Piece>, t: nat, m: nat)
    requires f.offset + f.size <= |torrent| && f.firstPiece * f.pieceLength <= f.offset
    requires Laid(f, pieces) && Torn(f, torrent, pieces, t, m)
    ensures Gathered(f, pieces, t + 1) == torrent[f.offset..f.offset + Covered(f.offset, f.size, pieces[t].start + m)]
  {
    LaidEndToEnd(f, pieces);
    GatheredTrue(f, torrent, pieces, t);
    LaidEnd(f, pieces, t);
    AppendShort(f, torrent, pieces[t], Gathered(f, pieces, t), m);
  }

  lemma AppendShort(f: FilePlace, torrent: Bytes, piece: Piece, done: Bytes, m: nat)
    requires UpTo(f, torrent, done, piece.start) && m <= |BytesAt(torrent, piece.start, f.pieceLength)|
    requires piece.data == BytesAt(torrent, piece.start, f.pieceLength)[..m]
    ensures Append(done, piece.data, piece.start, f.offset, f.size) ==
      torrent[f.offset..f.offset + Covered(f.offset, f.size, piece.start + m)]
  {
    assert piece.data == BytesAt(torrent, piece.start, m);
    AppendExtends(torrent, piece.start, m, f.offset, f.size, done, piece.data);
  }

  lemma JumpStarts(f: FilePlace, torrent: Bytes, pieces: seq<Piece>, t: nat, m: nat)
    requires f.offset + f.size <= |torrent| && f.firstPiece * f.pieceLength <= f.offset
    requires Laid(f, pieces) && Torn(f, torrent, pieces, t, m)
    ensures Jumps(f, torrent, Covered(f.offset, f.size, pieces[t].start + m),
                  Min(pieces[t].start + f.pieceLength, |torrent|), Gathered(f, pieces, t + 1), EndOf(f, pieces, t + 1))
  {
    UpToTear(f, torrent, pieces, t, m);
    var head := torrent[f.offset..f.offset + Covered(f.offset, f.size, pieces[t].start + m)];
    assert Capped(head + [], f.size) == head;
  }

  lemma JumpGoesOn(f: FilePlace, torrent: Bytes, pieces: seq<Piece>, n: nat, x: nat, end: nat)
    requires 0 < n <= |pieces| && EndOf(f, pieces, n - 1) == pieces[n - 1].start && f.offset <= pieces[n - 1].start
    requires pieces[n - 1].data == BytesAt(torrent, pieces[n - 1].start, f.pieceLength)
    requires Jumps(f, torrent, x, end, Gathered(f, pieces, n - 1), EndOf(f, pieces, n - 1))
    ensures Jumps(f, torrent, x, end, Gathered(f, pieces, n), EndOf(f, pieces, n))
  {
    JumpsNext(f, torrent, x, end, Gathered(f, pieces, n - 1), pieces[n - 1]);
  }

  /** Behind the torn piece the others follow without a gap. */
  lemma {:induction false} BehindTear(f: FilePlace, torrent: Bytes, pieces: seq<Piece>, t: nat, m: nat, n: nat)
    requires f.offset + f.size <= |torrent| && f.firstPiece * f.pieceLength <= f.offset
    requires Laid(f, pieces) && Torn(f, torrent, pieces, t, m) && t < n <= |pieces|
    requires f.offset <= pieces[t].start + f.pieceLength
    ensures Jumps(f, torrent, Covered(f.offset, f.size, pieces[t].start + m),
                  Min(pieces[t].start + f.pieceLength, |torrent|), Gathered(f, pieces, n), EndOf(f, pieces, n))
    decreases n
  {
    if n == t + 1 {
      JumpStarts(f, torrent, pieces, t, m);
    } else {
      BehindTear(f, torrent, pieces, t, m, n - 1);
      LaidEnd(f, pieces, n - 1);
      InOrder(f, pieces, t, n - 1);
      JumpGoesOn(f, torrent, pieces, n, Covered(f.offset, f.size, pieces[t].start + m),
                 Min(pieces[t].start + f.pieceLength, |torrent|));
    }
  }

  lemma InOrder(f: FilePlace, pieces: seq<Piece>, i: nat, j: nat)
    requires Laid(f, pieces) && i < j < |pieces|
    ensures pieces[i].start + f.pieceLength <= pieces[j].start
  {
    Multiply(f.firstPiece + i + 1, f.firstPiece + j, f.pieceLength);
    assert (f.firstPiece + i + 1) * f.pieceLength == (f.firstPiece + i) * f.pieceLength + f.pieceLength;
  }

  /** The bytes of a stretch come again at a distance. */
  predicate Repeats(torrent: Bytes, from: nat, to: nat, distance: nat) {
    to + distance <= |torrent| && forall i :: from <= i < to ==> torrent[i] == torrent[i + distance]
  }

  /** Data that jumps has the file's size exactly when there is enough of it behind the jump, and
      then it is the file exactly when the bytes from the jump on come again there. */
  lemma JumpExactly(f: FilePlace, torrent: Bytes, x: nat, end: nat, data: Bytes, upTo: nat)
    requires f.offset + f.size <= |torrent| && x <= f.size && f.offset + x <= end
    requires Jumps(f, torrent, x, end, data, upTo)
    ensures var gap := end - (f.offset + x);
      && (|data| == f.size <==> f.offset + f.size + gap <= Min(upTo, |torrent|))
      && (|data| == f.size ==>
           (data == torrent[f.offset..f.offset + f.size] <==> Repeats(torrent, f.offset + x, f.offset + f.size, gap)))
  {
    var gap, file := end - (f.offset + x), torrent[f.offset..f.offset + f.size];
    if |data| == f.size {
      JumpAt(f, torrent, x, end, data, upTo);
      if data == file {
        forall i | f.offset + x <= i < f.offset + f.size ensures torrent[i] == torrent[i + gap] {
          assert data[i - f.offset] == file[i - f.offset];
        }
      }
      if Repeats(torrent, f.offset + x, f.offset + f.size, gap) {
        assert forall i :: 0 <= i < f.size ==> data[i] == file[i];
        assert data == file;
      }
    }
  }

  lemma JumpAt(f: FilePlace, torrent: Bytes, x: nat, end: nat, data: Bytes, upTo: nat)
    requires x <= f.size == |data| && f.offset + x <= end && Jumps(f, torrent, x, end, data, upTo)
    ensures end + f.size - x <= |torrent|
    ensures forall i :: 0 <= i < f.size ==> data[i] == torrent[if i < x then f.offset + i else end + i - x]
  {
    var head, tail := torrent[f.offset..f.offset + x], torrent[end..Min(upTo, |torrent|)];
    forall i | 0 <= i < f.size ensures data[i] == torrent[if i < x then f.offset + i else end + i - x] {
      assert data[i] == (head + tail)[i];
    }
  }

  /** How much of the file is right, when piece `t` ends after `m` bytes. */
  function Intact(f: FilePlace, pieces: seq<Piece>, t: nat, m: nat): nat
    requires t < |pieces|
  {
    Covered(f.offset, f.size, pieces[t].start + m)
  }

  /** How many bytes of the torrent the reassembly jumps over there. */
  function Gap(f: FilePlace, torrent: Bytes, pieces: seq<Piece>, t: nat, m: nat): int
    requires t < |pieces|
  {
    Min(pieces[t].start + f.pieceLength, |torrent|) - f.offset - Intact(f, pieces, t, m)
  }

  lemma TearJumps(f: FilePlace, torrent: Bytes, pieces: seq<Piece>, t: nat, m: nat)
    requires Placed(f, torrent) && Laid(f, pieces) && |pieces| == PieceCount(f) && Torn(f, torrent, pieces, t, m)
    ensures Jumps(f, torrent, Intact(f, pieces, t, m), Min(pieces[t].start + f.pieceLength, |torrent|),
                  Gathered(f, pieces, |pieces|), (f.lastPiece + 1) * f.pieceLength)
    ensures Gap(f, torrent, pieces, t, m) >= 0
  {
    PiecesCover(f, torrent);
    FirstHoldsOffset(f, torrent, pieces, t);
    BehindTear(f, torrent, pieces, t, m, |pieces|);
    LaidEnd(f, pieces, |pieces|);
    assert f.firstPiece + |pieces| == f.lastPiece + 1;
  }

  /** One piece of any file is cut short. The tear passes the length check exactly when the
      pieces reach at least the gap beyond the file; and the reassembly aborts or gives the
      file exactly when the piece still covers its share of the file, or the check fails, or
      the bytes of the file behind the tear come again at the distance of the gap. */
  lemma TearExactly(f: FilePlace, torrent: Bytes, pieces: seq<Piece>, t: nat, m: nat)
    requires Placed(f, torrent) && Laid(f, pieces) && |pieces| == PieceCount(f) && Torn(f, torrent, pieces, t, m)
    ensures var data, gap := Gathered(f, pieces, |pieces|), Gap(f, torrent, pieces, t, m);
      var reach := Min((f.lastPiece + 1) * f.pieceLength, |torrent|);
      && gap >= 0
      && (|data| == f.size <==> f.offset + f.size + gap <= reach)
      && (|data| != f.size || data == torrent[f.offset..f.offset + f.size] <==>
          || Intact(f, pieces, t, m) == Covered(f.offset, f.size, pieces[t].start + f.pieceLength)
          || f.offset + f.size + gap > reach
          || Repeats(torrent, f.offset + Intact(f, pieces, t, m), f.offset + f.size, gap))
  {
    var x, end := Intact(f, pieces, t, m), Min(pieces[t].start + f.pieceLength, |torrent|);
    TearJumps(f, torrent, pieces, t, m);
    JumpExactly(f, torrent, x, end, Gathered(f, pieces, |pieces|), (f.lastPiece + 1) * f.pieceLength);
    if x == Covered(f.offset, f.size, pieces[t].start + f.pieceLength) {
      ShareRepeats(f, torrent, x, end, pieces[t].start + f.pieceLength);
    }
  }

  /** From a piece that covers its share nothing of the file is jumped over. */
  lemma ShareRepeats(f: FilePlace, torrent: Bytes, x: nat, end: nat, upTo: nat)
    requires f.offset + f.size <= |torrent| && f.offset + x <= end == Min(upTo, |torrent|)
    requires x == Covered(f.offset, f.size, upTo)
    ensures Repeats(torrent, f.offset + x, f.offset + f.size, end - f.offset - x)
  {
  }

  lemma FirstHoldsOffset(f: FilePlace, torrent: Bytes, pieces: seq<Piece>, t: nat)
    requires Placed(f, torrent) && Laid(f, pieces) && t < |pieces|
    ensures f.offset < pieces[t].start + f.pieceLength
  {
    PiecesCover(f, torrent);
    if t > 0 {
      InOrder(f, pieces, 0, t);
    }
  }

  /** A file of three bytes whose first piece was read while its background write was under
      way: the last piece makes up the length, and the bytes are wrong unless they repeat. */
  lemma TornPieceUnnoticed(a: int, b: int, c: int, d: int)
    ensures var torrent, f := [a, b, c, d], FilePlace(0, 3, 2, 0, 1);
      var pieces := [Piece(0, [a]), Piece(2, [c, d])];
      && Placed(f, torrent) && Laid(f, pieces) && |pieces| == PieceCount(f) && Torn(f, torrent, pieces, 0, 1)
      && |Gathered(f, pieces, 2)| == f.size
      && (Gathered(f, pieces, 2) == torrent[f.offset..f.offset + f.size] <==> b == c && c == d)
  {
    var torrent: Bytes, f := [a, b, c, d], FilePlace(0, 3, 2, 0, 1);
    var pieces := [Piece(0, [a]), Piece(2, [c, d])];
    assert BytesAt(torrent, 0, 2)[..1] == [a] && BytesAt(torrent, 2, 2) == [c, d];
    TearExactly(f, torrent, pieces, 0, 1);
    assert Repeats(torrent, 1, 3, 1) <==> torrent[1] == torrent[2] && torrent[2] == torrent[3];
  }
}
