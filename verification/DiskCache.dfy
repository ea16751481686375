/** Putting a finished file together from its pieces, within a size budget. */
module DiskCache {
  import opened Common
  import opened PieceCache

  // ---------------------------------------------------------------- torrents and pieces

  /** The bytes of piece `k`: the last piece may be shorter. */
  function PieceOf(torrent: Bytes, pieceLength: nat, k: nat): (piece: Bytes)
    requires pieceLength > 0
  {
    BytesAt(torrent, k * pieceLength, pieceLength)
  }

  /** Integer division as C++ does it, towards zero. */
  function TruncatedDiv(a: int, b: int): int
    requires b > 0
  {
    if a >= 0 then a / b else -(-a / b)
  }

  function FirstPiece(offset: nat, pieceLength: nat): nat
    requires pieceLength > 0
  {
    offset / pieceLength
  }

  function LastPiece(offset: nat, size: nat, pieceLength: nat): int
    requires pieceLength > 0
  {
    TruncatedDiv(offset + size - 1, pieceLength)
  }

  // -------------------------------------------------------------------- reassembly

  /** A file as the torrent's metadata places it. */
  datatype FilePlace = FilePlace(offset: nat, size: nat, pieceLength: nat, firstPiece: nat, lastPiece: int)

  /** What one piece adds to the file under assembly. */
  function Append(done: Bytes, piece: Bytes, pieceStart: nat, offset: nat, size: nat): (r: Bytes)
    requires |done| <= size
    ensures |r| <= size
  {
    var skip := if pieceStart < offset then offset - pieceStart else 0;
    var usable := Min(if skip < |piece| then |piece| - skip else 0, size - |done|);
    if usable > 0 then done + piece[skip..skip + usable] else done
  }

  /** The bytes a read of one piece gave, and where the piece starts in the torrent. */
  datatype Piece = Piece(start: nat, data: Bytes)

  /** The file put together from the first `n` of some pieces, of any length and content. */
  function Gathered(f: FilePlace, pieces: seq<Piece>, n: nat): (r: Bytes)
    requires n <= |pieces|
    ensures |r| <= f.size
  {
    if n == 0 then []
    else Append(Gathered(f, pieces, n - 1), pieces[n - 1].data, pieces[n - 1].start, f.offset, f.size)
  }

  /** How many bytes of those pieces lie behind the start of the file. */
  function Available(f: FilePlace, pieces: seq<Piece>, n: nat): nat
    requires n <= |pieces|
  {
    if n == 0 then 0
    else
      var piece := pieces[n - 1];
      var skip := if piece.start < f.offset then f.offset - piece.start else 0;
      Available(f, pieces, n - 1) + if skip < |piece.data| then |piece.data| - skip else 0
  }

  /** Whatever the pieces are, the result has the right size exactly when enough bytes are
      available; so the size says nothing about which bytes they are. */
  lemma {:induction false} GatheredLength(f: FilePlace, pieces: seq<Piece>, n: nat)
    requires n <= |pieces|
    ensures |Gathered(f, pieces, n)| == Min(f.size, Available(f, pieces, n))
  {
    if n > 0 {
      GatheredLength(f, pieces, n - 1);
    }
  }

  lemma {:induction false} GatheredFrame(f: FilePlace, pieces: seq<Piece>, more: seq<Piece>, n: nat)
    requires n <= |pieces| && n <= |more| && forall i :: 0 <= i < n ==> pieces[i] == more[i]
    ensures Gathered(f, pieces, n) == Gathered(f, more, n)
  {
    if n > 0 {
      GatheredFrame(f, pieces, more, n - 1);
    }
  }

  lemma GatheredNext(f: FilePlace, pieces: seq<Piece>, piece: Piece)
    ensures Gathered(f, pieces + [piece], |pieces| + 1) ==
      Append(Gathered(f, pieces, |pieces|), piece.data, piece.start, f.offset, f.size)
  {
    GatheredFrame(f, pieces, pieces + [piece], |pieces|);
  }

  /** How much of the file lies before a byte of the torrent. */
  function Covered(offset: nat, size: nat, upTo: nat): nat {
    if upTo <= offset then 0 else Min(upTo - offset, size)
  }

  /** A whole piece extends the file by exactly the bytes that lie in that piece. */
  lemma AppendExtends(torrent: Bytes, start: nat, length: nat, offset: nat, size: nat, before: Bytes, piece: Bytes)
    requires offset + size <= |torrent| && piece == BytesAt(torrent, start, length)
    requires before == torrent[offset..offset + Covered(offset, size, start)]
    ensures Append(before, piece, start, offset, size) ==
      torrent[offset..offset + Covered(offset, size, start + length)]
  {
    var done := |before|;
    var skip := if start < offset then offset - start else 0;
    var usable := Min(if skip < |piece| then |piece| - skip else 0, size - done);
    CoveredGrows(|torrent|, start, length, |piece|, offset, size);
    if usable > 0 {
      PieceSlice(torrent, start, length, piece, skip, skip + usable);
    }
    AppendSlice(torrent, before, piece, start, offset, size, skip, usable);
  }

  lemma AppendSlice(torrent: Bytes, before: Bytes, piece: Bytes, start: nat, offset: nat, size: nat,
                    skip: nat, usable: nat)
    requires |before| <= size && skip == (if start < offset then offset - start else 0)
    requires usable == Min(if skip < |piece| then |piece| - skip else 0, size - |before|)
    requires offset + |before| + usable <= |torrent| && before == torrent[offset..offset + |before|]
    requires usable > 0 ==>
      piece[skip..skip + usable] == torrent[offset + |before|..offset + |before| + usable]
    ensures Append(before, piece, start, offset, size) == torrent[offset..offset + |before| + usable]
  {
    AppendIs(before, piece, start, offset, size, skip, usable);
    JoinSlices(torrent, offset, offset + |before|, offset + |before| + usable);
  }

  lemma PieceSlice(torrent: Bytes, start: nat, length: nat, piece: Bytes, c: nat, d: nat)
    requires piece == BytesAt(torrent, start, length) && c < d <= |piece|
    ensures start + d <= |torrent| && piece[c..d] == torrent[start + c..start + d]
  {
    SliceOfSlice(torrent, start, start + |piece|, c, d);
  }

  lemma CoveredGrows(total: nat, start: nat, length: nat, held: nat, offset: nat, size: nat)
    requires offset + size <= total
    requires held == if start <= total then Min(start + length, total) - start else 0
    ensures var done := Covered(offset, size, start);
      var skip := if start < offset then offset - start else 0;
      var usable := Min(if skip < held then held - skip else 0, size - done);
      && done + usable == Covered(offset, size, start + length)
      && (usable > 0 ==> start + skip == offset + done)
  {
  }

  lemma AppendIs(done: Bytes, piece: Bytes, start: nat, offset: nat, size: nat, skip: nat, usable: nat)
    requires |done| <= size && skip == (if start < offset then offset - start else 0)
    requires usable == Min(if skip < |piece| then |piece| - skip else 0, size - |done|)
    ensures Append(done, piece, start, offset, size) ==
      if usable > 0 then done + piece[skip..skip + usable] else done
  {
  }

  predicate Placed(f: FilePlace, torrent: Bytes) {
    && f.pieceLength > 0 && f.offset + f.size <= |torrent|
    && f.firstPiece == FirstPiece(f.offset, f.pieceLength)
    && f.lastPiece == LastPiece(f.offset, f.size, f.pieceLength)
  }

  /** The pieces from the first to the last reach over the whole file. */
  lemma PiecesCover(f: FilePlace, torrent: Bytes)
    requires Placed(f, torrent)
    ensures f.firstPiece * f.pieceLength <= f.offset < (f.firstPiece + 1) * f.pieceLength
    ensures f.firstPiece <= f.lastPiece + 1
    ensures f.size == 0 ||
      f.lastPiece * f.pieceLength < f.offset + f.size <= (f.lastPiece + 1) * f.pieceLength
  {
    var q, length := f.offset + f.size - 1, f.pieceLength;
    Quotient(f.offset, length);
    if q >= 0 {
      Quotient(q, length);
      AtMost(f.offset, length, q / length + 1);
    }
  }

  lemma Quotient(a: nat, b: nat)
    requires b > 0
    ensures a / b * b <= a < (a / b + 1) * b
  {
    assert a == b * (a / b) + a % b;
  }

  lemma Multiply(a: nat, b: nat, c: nat)
    requires a <= b
    ensures a * c <= b * c
  {
  }

  lemma AtMost(a: nat, b: nat, k: nat)
    requires b > 0 && a <= k * b
    ensures a / b <= k
  {
    Quotient(a, b);
    if k < a / b {
      Multiply(k + 1, a / b, b);
    }
  }

  // ---------------------------------------------------------------------- the size budget

  /** A file in the cache directory. */
  datatype CachedFile = CachedFile(hash: string, name: string, data: Bytes)

  function Usage(files: seq<CachedFile>): nat {
    if files == [] then 0 else Usage(files[..|files| - 1]) + |files[|files| - 1].data|
  }

  /** Writing a file replaces the one of that name, or adds one. */
  function Stored(files: seq<CachedFile>, file: CachedFile): seq<CachedFile> {
    if files == [] then [file]
    else
      var last := files[|files| - 1];
      if last.hash == file.hash && last.name == file.name then files[..|files| - 1] + [file]
      else Stored(files[..|files| - 1], file) + [last]
  }

  /** The size of the file that writing this one replaces, if there is one. */
  function Replaced(files: seq<CachedFile>, file: CachedFile): nat {
    if files == [] then 0
    else
      var last := files[|files| - 1];
      if last.hash == file.hash && last.name == file.name then |last.data| else Replaced(files[..|files| - 1], file)
  }

  /** Writing adds the size of the file and takes that of the one it replaces. */
  lemma {:induction false} StoredUsage(files: seq<CachedFile>, file: CachedFile)
    ensures Usage(Stored(files, file)) + Replaced(files, file) == Usage(files) + |file.data|
  {
    if files != [] {
      var front, last := files[..|files| - 1], files[|files| - 1];
      StoredUsage(front, file);
      var kept := if last.hash == file.hash && last.name == file.name then front else Stored(front, file);
      var end := if last.hash == file.hash && last.name == file.name then file else last;
      assert (kept + [end])[..|kept|] == kept;
    } else {
      assert [file][..0] == [];
    }
  }

  /** The usage is that of the files one after the other, from nothing. */
  lemma UsageCounts(files: seq<CachedFile>, file: CachedFile)
    ensures Usage([]) == 0 && Usage(files + [file]) == Usage(files) + |file.data|
  {
    assert (files + [file])[..|files|] == files;
  }

  predicate SameName(a: CachedFile, b: CachedFile) {
    a.hash == b.hash && a.name == b.name
  }

  /** No two files of the cache have the same name. */
  predicate Unambiguous(files: seq<CachedFile>) {
    forall i, j :: 0 <= i < j < |files| ==> !SameName(files[i], files[j])
  }

  lemma OneMoreFile(files: seq<CachedFile>, file: CachedFile)
    ensures forall f :: f in files + [file] <==> f in files || f == file
    ensures Unambiguous(files + [file]) <==> Unambiguous(files) && forall f :: f in files ==> !SameName(f, file)
  {
    var more := files + [file];
    assert forall i :: 0 <= i < |files| ==> more[i] == files[i];
    if Unambiguous(more) {
      forall f | f in files ensures !SameName(f, file) {
        var i :| 0 <= i < |files| && files[i] == f;
        assert !SameName(more[i], more[|files|]);
      }
    }
  }

  /** After a write the cache holds the new file, no other of its name, and all the others. */
  lemma {:induction false} StoredHolds(files: seq<CachedFile>, file: CachedFile)
    requires Unambiguous(files)
    ensures Unambiguous(Stored(files, file))
    ensures forall f :: f in Stored(files, file) <==> f == file || (f in files && !SameName(f, file))
  {
    if files != [] {
      var front, last := files[..|files| - 1], files[|files| - 1];
      assert files == front + [last];
      OneMoreFile(front, last);
      StoredHolds(front, file);
      OneMoreFile(front, file);
      OneMoreFile(Stored(front, file), last);
    }
  }

  // ------------------------------------------------------------------------- the methods

  class DiskCacheManager {
    var files: seq<CachedFile>
    const maxCacheBytes: nat

    constructor (maxCacheBytes: nat)
      ensures files == [] && this.maxCacheBytes == maxCacheBytes
    {
      this.files, this.maxCacheBytes := [], maxCacheBytes;
    }

    method CalculateUsage() returns (total: nat)
      ensures total == Usage(files)
    {
      total := 0;
      for i := 0 to |files|
        invariant total == Usage(files[..i])
      {
        assert files[..i + 1][..i] == files[..i];
        total := total + |files[i].data|;
      }
      assert files[..|files|] == files;
    }

    /** Collects the pieces while the memory cache drops whatever it likes in between. */
    method GatherPieces(f: FilePlace, hash: string, cache: PieceCacheManager, evictions: nat -> set<Key>)
      returns (data: Option<Bytes>, ghost got: seq<Piece>)
      modifies cache`memory
      ensures old(cache.Faithful()) ==> cache.Faithful() && AreTrue(cache.truth, hash, f.firstPiece, got)
      ensures data.Some? ==> Collected(f, got, data.value) && |got| == PieceCount(f)
      ensures data.None? ==> MissesPiece(f, hash, cache)
    {
      var fileData: Bytes := [];
      var index := f.firstPiece;
      got := [];
      while index <= f.lastPiece
        invariant index == f.firstPiece + |got| && (got != [] ==> index <= f.lastPiece + 1)
        invariant Collected(f, got, fileData)
        invariant old(cache.Faithful()) ==> cache.Faithful() && AreTrue(cache.truth, hash, f.firstPiece, got)
        decreases f.lastPiece + 1 - index
      {
        var piece := FetchPiece(hash, index, cache, evictions(index));
        if piece.None? {
          return None, got;
        }
        var pieceStart := index * f.pieceLength;
        ghost var before := fileData;
        fileData := AddPiece(fileData, piece.value, pieceStart, f);
        got := CollectedNext(f, got, before, Piece(pieceStart, piece.value), fileData);
        index := index + 1;
      }
      data := Some(fileData);
    }

    /** From true pieces the result is exactly the file's bytes, and it is missing only when a
        piece is; from any others it is what they add up to, unless too few bytes are there. */
    method Reassemble(f: FilePlace, hash: string, cache: PieceCacheManager, evictions: nat -> set<Key>,
                      ghost torrent: Bytes)
      returns (data: Option<Bytes>, ghost got: seq<Piece>)
      requires f.pieceLength > 0
      modifies cache`memory
      ensures old(cache.Faithful()) ==> cache.Faithful()
      ensures data.Some? || !MissesPiece(f, hash, cache) ==> Laid(f, got) && |got| == PieceCount(f)
      ensures data.Some? ==> |data.value| == f.size && data.value == Gathered(f, got, |got|)
      ensures data.None? ==> MissesPiece(f, hash, cache) || Available(f, got, |got|) < f.size
      ensures old(cache.Faithful()) && Placed(f, torrent) && Cached(cache.truth, hash, f.pieceLength, torrent) ==>
        (data.Some? && data.value == torrent[f.offset..f.offset + f.size]) ||
        (data.None? && MissesPiece(f, hash, cache))
    {
      data, got := GatherPieces(f, hash, cache, evictions);
      if data.Some? && old(cache.Faithful()) && Placed(f, torrent) &&
         Cached(cache.truth, hash, f.pieceLength, torrent) {
        TrueIsWhole(f, torrent, cache.truth, hash, got);
        WholeFile(f, torrent, got);
      }
      GatheredLength(f, got, |got|);
      if data.Some? && |data.value| != f.size {
        data := None;
      }
    }

    /** Skips what is too large for the budget, and otherwise stores the reassembled file. */
    method MaybePersistFile(f: FilePlace, hash: string, name: string, cache: PieceCacheManager,
                            evictions: nat -> set<Key>, dirMade: bool, end: WriteEnd, ghost torrent: Bytes)
      returns (persisted: bool)
      requires f.pieceLength > 0
      modifies this, cache`memory
      ensures old(cache.Faithful()) ==> cache.Faithful()
      ensures persisted ==> exists data :: |data| == f.size && files == Stored(old(files), CachedFile(hash, name, data))
      ensures persisted ==> 0 < maxCacheBytes && Usage(old(files)) + f.size <= maxCacheBytes
      ensures Usage(old(files)) <= maxCacheBytes ==> Usage(files) <= maxCacheBytes
      ensures old(cache.Faithful()) && Placed(f, torrent) && Cached(cache.truth, hash, f.pieceLength, torrent) ==>
        (persisted ==> files == Stored(old(files), CachedFile(hash, name, torrent[f.offset..f.offset + f.size])))
      ensures old(cache.Faithful()) && Placed(f, torrent) && Cached(cache.truth, hash, f.pieceLength, torrent) ==>
        (!persisted && 0 < maxCacheBytes && Usage(old(files)) + f.size <= maxCacheBytes ==>
          !dirMade || !end.Complete? || MissesPiece(f, hash, cache))
    {
      if maxCacheBytes == 0 || f.size > maxCacheBytes {
        return false;
      }
      var usage := CalculateUsage();
      if usage + f.size > maxCacheBytes || !dirMade {
        return false;
      }
      var data, _ := Reassemble(f, hash, cache, evictions, torrent);
      if data.None? {
        return false;
      }
      persisted := end.Complete?;
      var written := Leftover(data.value, end);
      if written.Some? {
        StoredUsage(files, CachedFile(hash, name, written.value));
        files := Stored(files, CachedFile(hash, name, written.value));
      }
    }

    /** The piece from memory or disk after an eviction, if it is in either. */
    method FetchPiece(hash: string, index: nat, cache: PieceCacheManager, evicted: set<Key>)
      returns (piece: Option<Bytes>)
      modifies cache`memory
      ensures old(cache.Faithful()) ==>
        cache.Faithful() && (piece.Some? ==> piece.value == cache.truth((hash, index)))
      ensures piece.None? ==> Misses(hash, index, cache)
    {
      cache.Evict(evicted);
      piece := cache.GetPiece((hash, index));
    }

    /** Adds the part of one piece that lies in the file and is still missing. */
    method AddPiece(done: Bytes, piece: Bytes, pieceStart: nat, f: FilePlace) returns (r: Bytes)
      requires |done| <= f.size
      ensures r == Append(done, piece, pieceStart, f.offset, f.size)
    {
      var skip := if pieceStart < f.offset then f.offset - pieceStart else 0;
      var remaining := f.size - |done|;
      var usable := Min(if skip < |piece| then |piece| - skip else 0, remaining);
      r := done;
      if usable > 0 {
        r := r + piece[skip..skip + usable];
      }
    }
  }

  /** How many pieces the loop from the first to the last asks for. */
  function PieceCount(f: FilePlace): nat {
    if f.firstPiece <= f.lastPiece then f.lastPiece + 1 - f.firstPiece else 0
  }

  /** Each piece has the start that its index gives it. */
  ghost predicate Laid(f: FilePlace, pieces: seq<Piece>) {
    forall i :: 0 <= i < |pieces| ==> pieces[i].start == (f.firstPiece + i) * f.pieceLength
  }

  ghost predicate Collected(f: FilePlace, pieces: seq<Piece>, data: Bytes) {
    Laid(f, pieces) && data == Gathered(f, pieces, |pieces|)
  }

  lemma CollectedNext(f: FilePlace, pieces: seq<Piece>, data: Bytes, piece: Piece, next: Bytes)
    returns (more: seq<Piece>)
    requires Collected(f, pieces, data) && piece.start == (f.firstPiece + |pieces|) * f.pieceLength
    requires next == Append(data, piece.data, piece.start, f.offset, f.size)
    ensures more == pieces + [piece] && Collected(f, more, next)
  {
    more := pieces + [piece];
    GatheredNext(f, pieces, piece);
  }

  /** The pieces are the true ones from the first on. */
  ghost predicate AreTrue(truth: Key -> Bytes, hash: string, first: nat, pieces: seq<Piece>) {
    forall i :: 0 <= i < |pieces| ==> pieces[i].data == truth((hash, first + i))
  }

  /** The first `n` pieces hold the torrent's bytes. */
  ghost predicate Whole(f: FilePlace, torrent: Bytes, pieces: seq<Piece>, n: nat)
    requires n <= |pieces|
  {
    forall i :: 0 <= i < n ==> pieces[i].data == BytesAt(torrent, pieces[i].start, f.pieceLength)
  }

  /** Where the first `n` pieces end. */
  function EndOf(f: FilePlace, pieces: seq<Piece>, n: nat): nat
    requires n <= |pieces|
  {
    if n == 0 then f.firstPiece * f.pieceLength else pieces[n - 1].start + f.pieceLength
  }

  lemma LaidEnd(f: FilePlace, pieces: seq<Piece>, n: nat)
    requires Laid(f, pieces) && n <= |pieces|
    ensures EndOf(f, pieces, n) == (f.firstPiece + n) * f.pieceLength
    ensures n < |pieces| ==> EndOf(f, pieces, n) == pieces[n].start
  {
    if n > 0 {
      assert pieces[n - 1].start == (f.firstPiece + (n - 1)) * f.pieceLength;
    }
  }

  /** Each piece starts where the one before it ends. */
  ghost predicate EndToEnd(f: FilePlace, pieces: seq<Piece>) {
    forall i {:trigger EndOf(f, pieces, i)} :: 0 <= i < |pieces| ==> EndOf(f, pieces, i) == pieces[i].start
  }

  lemma LaidEndToEnd(f: FilePlace, pieces: seq<Piece>)
    requires Laid(f, pieces)
    ensures EndToEnd(f, pieces)
  {
    forall i | 0 <= i < |pieces| ensures EndOf(f, pieces, i) == pieces[i].start {
      LaidEnd(f, pieces, i);
    }
  }

  /** Whole pieces add up to the file as far as they reach. */
  lemma {:induction false} GatheredTrue(f: FilePlace, torrent: Bytes, pieces: seq<Piece>, n: nat)
    requires f.offset + f.size <= |torrent| && n <= |pieces| && EndOf(f, pieces, 0) <= f.offset
    requires EndToEnd(f, pieces) && Whole(f, torrent, pieces, n)
    ensures UpTo(f, torrent, Gathered(f, pieces, n), EndOf(f, pieces, n))
  {
    if n == 0 {
      assert Covered(f.offset, f.size, EndOf(f, pieces, 0)) == 0;
    } else {
      GatheredTrue(f, torrent, pieces, n - 1);
      TrueNext(f, torrent, pieces, n);
    }
  }

  lemma TrueNext(f: FilePlace, torrent: Bytes, pieces: seq<Piece>, n: nat)
    requires 0 < n <= |pieces| && EndOf(f, pieces, n - 1) == pieces[n - 1].start
    requires UpTo(f, torrent, Gathered(f, pieces, n - 1), EndOf(f, pieces, n - 1))
    requires pieces[n - 1].data == BytesAt(torrent, pieces[n - 1].start, f.pieceLength)
    ensures UpTo(f, torrent, Gathered(f, pieces, n), EndOf(f, pieces, n))
  {
    UpToNext(f, torrent, Gathered(f, pieces, n - 1), pieces[n - 1]);
  }

  lemma UpToNext(f: FilePlace, torrent: Bytes, done: Bytes, piece: Piece)
    requires UpTo(f, torrent, done, piece.start) && piece.data == BytesAt(torrent, piece.start, f.pieceLength)
    ensures UpTo(f, torrent, Append(done, piece.data, piece.start, f.offset, f.size), piece.start + f.pieceLength)
  {
    AppendExtends(torrent, piece.start, f.pieceLength, f.offset, f.size, done, piece.data);
  }

  /** Whole pieces from the first to the last add up to the file. */
  lemma WholeFile(f: FilePlace, torrent: Bytes, pieces: seq<Piece>)
    requires Placed(f, torrent) && Laid(f, pieces) && |pieces| == PieceCount(f)
    requires Whole(f, torrent, pieces, |pieces|)
    ensures Gathered(f, pieces, |pieces|) == torrent[f.offset..f.offset + f.size]
  {
    PiecesCover(f, torrent);
    LaidEndToEnd(f, pieces);
    GatheredTrue(f, torrent, pieces, |pieces|);
    LaidEnd(f, pieces, |pieces|);
  }

  /** True pieces of a torrent are whole. */
  lemma TrueIsWhole(f: FilePlace, torrent: Bytes, truth: Key -> Bytes, hash: string, pieces: seq<Piece>)
    requires f.pieceLength > 0 && Cached(truth, hash, f.pieceLength, torrent)
    requires Laid(f, pieces) && AreTrue(truth, hash, f.firstPiece, pieces)
    ensures Whole(f, torrent, pieces, |pieces|)
  {
    forall i | 0 <= i < |pieces|
      ensures pieces[i].data == BytesAt(torrent, pieces[i].start, f.pieceLength)
    {
      assert pieces[i].data == PieceOf(torrent, f.pieceLength, f.firstPiece + i);
    }
  }

  /** The data is the file as far as it lies before a byte of the torrent. */
  predicate UpTo(f: FilePlace, torrent: Bytes, data: Bytes, end: nat) {
    && f.offset + f.size <= |torrent|
    && data == torrent[f.offset..f.offset + Covered(f.offset, f.size, end)]
  }

  ghost predicate Misses(hash: string, index: nat, cache: PieceCacheManager)
    reads cache
  {
    && (hash, index) !in cache.memory
    && !(cache.config.diskCacheEnabled && cache.config.hasDiskPath && (hash, index) in cache.disk)
  }

  /** Some piece of the file is in neither layer. */
  ghost predicate MissesPiece(f: FilePlace, hash: string, cache: PieceCacheManager)
    reads cache
  {
    exists k: nat :: f.firstPiece <= k <= f.lastPiece && Misses(hash, k, cache)
  }

  /** The true pieces of a torrent are its stretches of the piece length. */
  ghost predicate Cached(truth: Key -> Bytes, hash: string, length: nat, torrent: Bytes)
    requires length > 0
  {
    forall k: nat :: truth((hash, k)) == PieceOf(torrent, length, k)
  }
}
