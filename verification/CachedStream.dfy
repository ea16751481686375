/** A stream that reads a file in chunks through a shared cache. */
module CachedStream {
  import opened Common

  const CHUNK_SIZE: nat := 512 * 1024
  const TWO_64: nat := 0x1_0000_0000_0000_0000

  datatype SeekFrom = Start(pos: nat) | Current(diff: int) | End(diff: int)

  /** What one poll of a pending fetch finds. */
  datatype Answer = NotYet | Failed | Done

  datatype Outcome = EndOfFile | Pending | Error | Read(bytes: Bytes) | StillLooping

  function Chunk(file: Bytes, index: nat): Bytes {
    BytesAt(file, index * CHUNK_SIZE, CHUNK_SIZE)
  }

  /** Seeking adds in 64-bit two's complement and reads the result as unsigned. */
  function Target(from: SeekFrom, position: nat, length: nat): (target: nat)
    ensures from.Start? || target < TWO_64
  {
    match from
    case Start(pos) => pos
    case Current(diff) => (position + diff) % TWO_64
    case End(diff) => (length + diff) % TWO_64
  }

  /** A seek that stays within the file's range of positions lands where it says, and one to
      before the start lands beyond the end of any file shorter than 2^63 bytes. */
  lemma SeekLands(from: SeekFrom, position: nat, length: nat)
    requires position < TWO_64 / 2 && length < TWO_64 / 2
    requires !from.Start? ==> 0 <= from.diff + TWO_64 / 2 < TWO_64
    ensures var wanted := match from case Start(pos) => pos case Current(d) => position + d case End(d) => length + d;
      if wanted >= 0 then Target(from, position, length) == wanted else Target(from, position, length) >= length
  {
  }

  /** The stretch of the file that one read may return. */
  function Served(file: Bytes, position: nat, room: nat): Bytes {
    var chunk := Chunk(file, position / CHUNK_SIZE);
    var offset := position % CHUNK_SIZE;
    if offset >= |chunk| then [] else chunk[offset..offset + Min(|chunk| - offset, room)]
  }

  /** Reading through chunks gives the file's own bytes at that position: as many as fit, up
      to the end of the chunk or of the file. */
  lemma ServedIsFile(file: Bytes, position: nat, room: nat)
    ensures Served(file, position, room) == BytesAt(file, position, Min(room, CHUNK_SIZE - position % CHUNK_SIZE))
    ensures position % CHUNK_SIZE >= |Chunk(file, position / CHUNK_SIZE)| <==> position >= |file|
  {
    var offset := position % CHUNK_SIZE;
    OffsetInChunk(position);
    PartOfStretch(file, position - offset, CHUNK_SIZE, offset, room);
  }

  lemma OffsetInChunk(position: nat)
    ensures position - position % CHUNK_SIZE == position / CHUNK_SIZE * CHUNK_SIZE
  {
  }

  lemma PartOfStretch(file: Bytes, start: nat, length: nat, offset: nat, room: nat)
    requires offset < length
    ensures var stretch := BytesAt(file, start, length);
      && (offset >= |stretch| <==> start + offset >= |file|)
      && BytesAt(file, start + offset, Min(room, length - offset)) ==
        if offset >= |stretch| then [] else stretch[offset..offset + Min(|stretch| - offset, room)]
  {
    if start + offset < |file| {
      var stop := Min(start + length, |file|);
      SliceOfSlice(file, start, stop, offset, offset + Min(stop - start - offset, room));
    }
  }

  class Stream {
    const inner: Bytes
    const fileIndex: nat
    const fileLength: nat
    /** Shared with other streams: keyed by file and chunk. */
    var cache: map<(nat, nat), Bytes>
    var position: nat
    /** The chunk that the current fetch is for. */
    var currentFuture: Option<nat>
    /** Chunks that spawned prefetches are still to load. */
    var prefetches: seq<nat>

    /** Where the last seek went, and what has been read since. */
    ghost var origin: nat
    ghost var output: Bytes

    constructor (inner: Bytes, fileIndex: nat, fileLength: nat, cache: map<(nat, nat), Bytes>)
      requires forall k :: k in cache && k.0 == fileIndex ==> cache[k] == Chunk(inner, k.1)
      ensures Valid() && this.inner == inner && this.fileIndex == fileIndex && this.fileLength == fileLength
      ensures this.cache == cache && position == 0 && currentFuture == None && output == []
    {
      this.inner, this.fileIndex, this.fileLength, this.cache := inner, fileIndex, fileLength, cache;
      position, currentFuture, prefetches := 0, None, [];
      origin, output := 0, [];
    }

    /** The cache agrees with the file; a pending fetch is for the current chunk; and what was
        read since the last seek is what the file holds from there on. */
    ghost predicate Valid()
      reads this
    {
      && (forall k :: k in cache && k.0 == fileIndex ==> cache[k] == Chunk(inner, k.1))
      && (currentFuture.Some? ==> currentFuture.value == position / CHUNK_SIZE)
      && position == origin + |output|
      && (output == [] || (position <= |inner| && output == inner[origin..position]))
    }

    method StartSeek(from: SeekFrom)
      requires Valid()
      modifies this
      ensures Valid() && position == Target(from, old(position), fileLength)
      ensures origin == position && output == [] && cache == old(cache) && prefetches == old(prefetches)
      ensures currentFuture == None
    {
      position := Target(from, position, fileLength);
      currentFuture := None;
      origin, output := position, [];
    }

    method Prefetch(chunk: nat)
      requires Valid()
      modifies this`prefetches
      ensures Valid()
      ensures old(prefetches) <= prefetches
      ensures forall c :: c in prefetches[|old(prefetches)|..] <==>
        c in {chunk + 1, chunk + 2} && c * CHUNK_SIZE < fileLength && (fileIndex, c) !in cache
      ensures Ahead(fileIndex, chunk, fileLength, cache, prefetches)
    {
      ghost var added: seq<nat> := [];
      for i := 1 to 3
        invariant prefetches == old(prefetches) + added
        invariant forall c :: c in added <==>
          chunk + 1 <= c < chunk + i && c * CHUNK_SIZE < fileLength && (fileIndex, c) !in cache
      {
        var next := chunk + i;
        if next * CHUNK_SIZE >= fileLength {
          break;
        }
        if (fileIndex, next) in cache {
          continue;
        }
        prefetches := prefetches + [next];
        added := added + [next];
      }
      assert forall c :: c in added ==> c in prefetches;
    }

    /** Loads a chunk unless the cache has it already. */
    method Fetch(chunk: nat) returns (data: Bytes)
      requires Valid()
      modifies this`cache
      ensures Valid() && data == Chunk(inner, chunk)
      ensures cache == if (fileIndex, chunk) in old(cache) then old(cache) else old(cache)[(fileIndex, chunk) := data]
    {
      if (fileIndex, chunk) in cache {
        return cache[(fileIndex, chunk)];
      }
      data := Chunk(inner, chunk);
      cache := cache[(fileIndex, chunk) := data];
    }

    /** A spawned prefetch runs, or fails and leaves the cache alone. */
    method RunPrefetch(i: nat, ok: bool)
      requires Valid() && i < |prefetches|
      modifies this`cache, this`prefetches
      ensures Valid() && prefetches == old(prefetches)[..i] + old(prefetches)[i + 1..]
      ensures ok ==> (fileIndex, old(prefetches)[i]) in cache
      ensures cache.Keys == old(cache).Keys + if ok then {(fileIndex, old(prefetches)[i])} else {}
      ensures forall k :: k in old(cache) ==> cache[k] == old(cache)[k]
    {
      var chunk := prefetches[i];
      prefetches := prefetches[..i] + prefetches[i + 1..];
      if ok {
        var data := Fetch(chunk);
      }
    }

    method Evict(keys: set<(nat, nat)>)
      requires Valid()
      modifies this`cache
      ensures Valid() && cache == old(cache) - keys
    {
      cache := cache - keys;
    }

    /** Hands out what a finished fetch brought: `None` when the chunk ends before the position. */
    method Serve(room: nat) returns (bytes: Option<Bytes>)
      requires Valid() && currentFuture.Some?
      modifies this`cache, this`currentFuture, this`position, this`output
      ensures Valid() && currentFuture == None
      ensures bytes.None? <==> old(position) >= |inner|
      ensures bytes.None? ==> position == old(position) && output == old(output)
      ensures bytes.Some? ==>
        && bytes.value == Served(inner, old(position), room)
        && position == old(position) + |bytes.value| && output == old(output) + bytes.value
    {
      var data := Fetch(currentFuture.value);
      currentFuture := None;
      bytes := CopyOut(data, position, room, inner);
      if bytes.Some? {
        Deliver(inner, origin, position, output, bytes.value, room);
        output := output + bytes.value;
        position := position + |bytes.value|;
      }
    }

    /** One turn of the read loop: `None` means that the loop goes round again. */
    method Turn(room: nat, answer: Answer) returns (outcome: Option<Outcome>)
      requires Valid()
      modifies this
      ensures Valid() && origin == old(origin)
      ensures outcome.Some? && outcome.value.Read? ==>
        && outcome.value.bytes == Served(inner, old(position), room)
        && position == old(position) + |outcome.value.bytes| && output == old(output) + outcome.value.bytes
      ensures !(outcome.Some? && outcome.value.Read?) ==> position == old(position) && output == old(output)
      ensures outcome == NextOutcome(old(position), old(currentFuture), fileLength, inner, room, answer)
      ensures currentFuture == NextFuture(old(position), old(currentFuture), fileLength, answer)
      ensures old(prefetches) <= prefetches
      ensures old(position) < fileLength && (old(position) % CHUNK_SIZE == 0 || old(currentFuture).None?) ==>
        Ahead(fileIndex, old(position) / CHUNK_SIZE, fileLength, old(cache), prefetches)
    {
      if position >= fileLength {
        return Some(EndOfFile);
      }
      if position % CHUNK_SIZE == 0 {
        Prefetch(position / CHUNK_SIZE);
      }
      if currentFuture.Some? {
        match answer {
          case NotYet => return Some(Pending);
          case Failed =>
            currentFuture := None;
            return Some(Error);
          case Done =>
            var bytes := Serve(room);
            return if bytes.None? then None else Some(Read(bytes.value));
        }
      }
      Prefetch(position / CHUNK_SIZE);
      currentFuture := Some(position / CHUNK_SIZE);
      outcome := None;
    }

    /** Polls for data, going round at most `turns` times: the source goes round for ever. The
        answers say what each poll of a fetch finds. */
    method PollRead(room: nat, answers: nat -> Answer, turns: nat) returns (outcome: Outcome)
      requires Valid()
      modifies this
      ensures Valid() && origin == old(origin)
      ensures outcome.Read? ==>
        && outcome.bytes == BytesAt(inner, old(position), Min(room, CHUNK_SIZE - old(position) % CHUNK_SIZE))
        && position == old(position) + |outcome.bytes| && output == old(output) + outcome.bytes
      ensures !outcome.Read? ==> position == old(position) && output == old(output)
      ensures outcome.EndOfFile? <==> old(position) >= fileLength && turns > 0
      ensures turns >= 2 && (old(position) < |inner| || old(position) >= fileLength) ==> !outcome.StillLooping?
      ensures |inner| <= old(position) < fileLength && (forall n :: answers(n).Done?) ==> outcome.StillLooping?
      ensures |inner| <= old(position) < fileLength ==> !outcome.Read?
      ensures (outcome, currentFuture) ==
        Polled(old(position), old(currentFuture), fileLength, inner, room, answers, 0, turns)
      ensures turns > 0 && old(position) < fileLength &&
              (old(position) % CHUNK_SIZE == 0 || old(currentFuture).None?) ==>
        Ahead(fileIndex, old(position) / CHUNK_SIZE, fileLength, old(cache), prefetches)
    {
      var polls: nat := 0;
      ghost var whole := Polled(position, currentFuture, fileLength, inner, room, answers, 0, turns);
      PollExactly(position, currentFuture, fileLength, inner, room, answers, turns);
      if |inner| <= position < fileLength {
        EndlessBeyond(position, currentFuture, fileLength, inner, room, answers, 0, turns);
      }
      for t := 0 to turns
        invariant Valid() && origin == old(origin) && position == old(position) && output == old(output)
        invariant whole == Polled(position, currentFuture, fileLength, inner, room, answers, polls, turns - t)
        invariant t == 0 ==> currentFuture == old(currentFuture) && cache == old(cache)
        invariant t > 0 && (position % CHUNK_SIZE == 0 || old(currentFuture).None?) ==>
          Ahead(fileIndex, position / CHUNK_SIZE, fileLength, old(cache), prefetches)
      {
        var polled := currentFuture.Some?;
        ServedIsFile(inner, position, room);
        var turn := Turn(room, answers(polls));
        if turn.Some? {
          return turn.value;
        }
        if polled {
          polls := polls + 1;
        }
      }
      outcome := StillLooping;
    }
  }

  /** What going round so many times comes to, and the fetch it leaves. */
  function Polled(position: nat, future: Option<nat>, length: nat, file: Bytes, room: nat,
                  answers: nat -> Answer, polls: nat, turns: nat): (Outcome, Option<nat>)
    decreases turns
  {
    if turns == 0 then (StillLooping, future) else
      var outcome := NextOutcome(position, future, length, file, room, answers(polls));
      var next := NextFuture(position, future, length, answers(polls));
      if outcome.Some? then (outcome.value, next)
      else Polled(position, next, length, file, room, answers, if future.Some? then polls + 1 else polls, turns - 1)
  }

  /** A read ends at the declared end, and otherwise with what its fetch finds: it waits for a
      fetch that is not done and keeps it, hands on the error of one that failed, and gives the
      bytes of one that is done. Only beyond the end of the inner file does it go round again. */
  lemma PollExactly(position: nat, future: Option<nat>, length: nat, file: Bytes, room: nat,
                    answers: nat -> Answer, turns: nat)
    requires future.Some? ==> future.value == position / CHUNK_SIZE
    ensures var (outcome, next) := Polled(position, future, length, file, room, answers, 0, turns);
      && (outcome.EndOfFile? <==> position >= length && turns > 0)
      && (position < length && turns >= (if future.None? then 2 else 1) ==>
           match answers(0)
           case NotYet => outcome.Pending? && next == Some(position / CHUNK_SIZE)
           case Failed => outcome.Error? && next == None
           case Done => position < |file| ==>
             outcome == Read(BytesAt(file, position, Min(room, CHUNK_SIZE - position % CHUNK_SIZE))) && next == None)
  {
    ServedIsFile(file, position, room);
    if turns >= 2 && position < length && future.None? {
      assert Polled(position, future, length, file, room, answers, 0, turns) ==
        Polled(position, Some(position / CHUNK_SIZE), length, file, room, answers, 0, turns - 1);
    }
    if position < length {
      NotAtEnd(position, future, length, file, room, answers, 0, turns);
    }
  }

  lemma {:induction false} NotAtEnd(position: nat, future: Option<nat>, length: nat, file: Bytes, room: nat,
                                    answers: nat -> Answer, polls: nat, turns: nat)
    requires position < length
    ensures !Polled(position, future, length, file, room, answers, polls, turns).0.EndOfFile?
    decreases turns
  {
    if turns > 0 {
      var next := NextFuture(position, future, length, answers(polls));
      NotAtEnd(position, next, length, file, room, answers, if future.Some? then polls + 1 else polls, turns - 1);
    }
  }

  /** Beyond the end of the inner file and before the declared end nothing is read, and as long as
      every fetch is done the loop goes round without end. */
  lemma {:induction false} EndlessBeyond(position: nat, future: Option<nat>, length: nat, file: Bytes, room: nat,
                                         answers: nat -> Answer, polls: nat, turns: nat)
    requires |file| <= position < length
    ensures var (outcome, _) := Polled(position, future, length, file, room, answers, polls, turns);
      !outcome.Read? && ((forall n :: answers(n).Done?) ==> outcome.StillLooping?)
    decreases turns
  {
    if turns > 0 {
      var next := NextFuture(position, future, length, answers(polls));
      EndlessBeyond(position, next, length, file, room, answers, if future.Some? then polls + 1 else polls, turns - 1);
    }
  }

  /** The next two chunks are in the cache, behind the end, or asked for. */
  predicate Ahead(fileIndex: nat, chunk: nat, length: nat, cache: map<(nat, nat), Bytes>, prefetches: seq<nat>) {
    forall c :: chunk < c <= chunk + 2 && c * CHUNK_SIZE < length && (fileIndex, c) !in cache ==> c in prefetches
  }

  /** The part of a chunk from the position on, as far as there is room. */
  method CopyOut(data: Bytes, position: nat, room: nat, ghost file: Bytes) returns (bytes: Option<Bytes>)
    requires data == Chunk(file, position / CHUNK_SIZE)
    ensures bytes == if position >= |file| then None else Some(Served(file, position, room))
  {
    ServedIsFile(file, position, room);
    OffsetInChunk(position);
    var chunkStart := position / CHUNK_SIZE * CHUNK_SIZE;
    var chunkOffset := position - chunkStart;
    if chunkOffset >= |data| {
      return None;
    }
    var toRead := Min(|data| - chunkOffset, room);
    bytes := Some(data[chunkOffset..chunkOffset + toRead]);
  }

  /** How one turn of the loop ends. */
  function NextOutcome(position: nat, future: Option<nat>, length: nat, file: Bytes, room: nat, answer: Answer):
    Option<Outcome>
  {
    if position >= length then Some(EndOfFile)
    else if future.None? then None
    else match answer
      case NotYet => Some(Pending)
      case Failed => Some(Error)
      case Done => if position >= |file| then None else Some(Read(Served(file, position, room)))
  }

  function NextFuture(position: nat, future: Option<nat>, length: nat, answer: Answer): Option<nat> {
    if position >= length then future
    else if future.None? then Some(position / CHUNK_SIZE)
    else if answer.NotYet? then future else None
  }

  lemma Deliver(file: Bytes, origin: nat, position: nat, output: Bytes, bytes: Bytes, room: nat)
    requires position == origin + |output| && position < |file|
    requires output == [] || output == file[origin..position]
    requires bytes == Served(file, position, room)
    ensures position + |bytes| <= |file| && output + bytes == file[origin..position + |bytes|]
  {
    ServedIsFile(file, position, room);
    JoinSlices(file, origin, position, position + |bytes|);
    if output == [] {
      assert file[origin..position] == [];
    }
  }
}
