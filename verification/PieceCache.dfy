/** Pieces kept in memory first and on disk behind it. */
module PieceCache {
  import opened Common

  /** An info hash, already in lower case, and a piece index. */
  type Key = (string, int)

  datatype Config = Config(maxMemoryBytes: nat, diskCacheEnabled: bool, hasDiskPath: bool)

  /** How writing a file ends: completely, with an error after some bytes, or with an error
      before there is a file. */
  datatype WriteEnd = Complete | Broken(bytes: nat) | NotCreated

  /** What a file holds after such a write, if the write came to the file at all. */
  function Leftover(data: Bytes, end: WriteEnd): Option<Bytes> {
    match end
    case Complete => Some(data)
    case Broken(bytes) => Some(data[..Min(bytes, |data|)])
    case NotCreated => None
  }

  class PieceCacheManager {
    var memory: map<Key, Bytes>
    var disk: map<Key, Bytes>
    var diskWritten: set<Key>
    var pending: set<Key>
    /** Spawned work that has not run yet. */
    var writes: seq<(Key, Bytes)>
    var removals: seq<string>
    const config: Config
    /** The bytes every piece really has. */
    ghost const truth: Key -> Bytes

    constructor (config: Config, ghost truth: Key -> Bytes)
      ensures Faithful() && this.config == config && this.truth == truth
    {
      memory, disk, diskWritten, pending, writes, removals := map[], map[], {}, {}, [], [];
      this.config, this.truth := config, truth;
    }

    /** No layer holds anything but true pieces, and no spawned write will change that. */
    ghost predicate Faithful()
      reads this
    {
      && (forall k :: k in memory ==> memory[k] == truth(k))
      && (forall k :: k in disk ==> disk[k] == truth(k))
      && (forall i :: 0 <= i < |writes| ==> writes[i].1 == truth(writes[i].0))
    }

    method PutPiece(key: Key, data: Bytes)
      modifies this
      ensures memory == old(memory)[key := data] && disk == old(disk) && diskWritten == old(diskWritten)
      ensures pending == old(pending) - {key} && removals == old(removals)
      ensures writes == old(writes) +
        if config.diskCacheEnabled && config.maxMemoryBytes > 0 && config.hasDiskPath then [(key, data)] else []
      ensures old(Faithful()) && data == truth(key) ==> Faithful()
    {
      memory := memory[key := data];
      pending := pending - {key};
      if config.diskCacheEnabled && config.maxMemoryBytes > 0 && config.hasDiskPath {
        writes := writes + [(key, data)];
      }
    }

    /** Memory first, then disk, which refills memory. */
    method GetPiece(key: Key) returns (data: Option<Bytes>)
      modifies this`memory
      ensures data.Some? <==>
        key in old(memory) || (config.diskCacheEnabled && config.hasDiskPath && key in disk)
      ensures data.Some? ==> data.value == if key in old(memory) then old(memory)[key] else disk[key]
      ensures memory == if data.Some? then old(memory)[key := data.value] else old(memory)
      ensures old(Faithful()) ==> Faithful() && (data.Some? ==> data.value == truth(key))
    {
      if key in memory {
        assert memory == memory[key := memory[key]];
        return Some(memory[key]);
      }
      if config.diskCacheEnabled && config.hasDiskPath && key in disk {
        memory := memory[key := disk[key]];
        return Some(disk[key]);
      }
      data := None;
    }

    /** The memory cache drops entries whenever it likes. */
    method Evict(keys: set<Key>)
      modifies this`memory
      ensures memory == old(memory) - keys
      ensures old(Faithful()) ==> Faithful()
    {
      memory := memory - keys;
    }

    /** A spawned write runs, and succeeds, stops part-way or never creates its file. */
    method RunWrite(i: nat, end: WriteEnd)
      requires i < |writes|
      modifies this`disk, this`writes, this`diskWritten
      ensures writes == old(writes)[..i] + old(writes)[i + 1..]
      ensures var (key, data) := old(writes)[i];
        && disk == (if end.NotCreated? then old(disk) else old(disk)[key := Leftover(data, end).value])
        && diskWritten == old(diskWritten) + if end.Complete? then {key} else {}
      ensures old(Faithful()) && !end.Broken? ==> Faithful()
    {
      var (key, data) := writes[i];
      var left := Leftover(data, end);
      if left.Some? {
        disk := disk[key := left.value];
      }
      if end.Complete? {
        diskWritten := diskWritten + {key};
      }
      writes := writes[..i] + writes[i + 1..];
    }

    method ClearTorrent(hash: string)
      modifies this
      ensures memory == map k | k in old(memory) && k.0 != hash :: old(memory)[k]
      ensures diskWritten == (set k | k in old(diskWritten) && k.0 != hash)
      ensures pending == (set k | k in old(pending) && k.0 != hash)
      ensures disk == old(disk) && writes == old(writes)
      ensures removals == old(removals) + if config.diskCacheEnabled && config.hasDiskPath then [hash] else []
      ensures old(Faithful()) ==> Faithful()
    {
      memory := map k | k in memory && k.0 != hash :: memory[k];
      diskWritten := set k | k in diskWritten && k.0 != hash;
      pending := set k | k in pending && k.0 != hash;
      if config.diskCacheEnabled && config.hasDiskPath {
        removals := removals + [hash];
      }
    }

    /** A spawned removal of a torrent's directory runs. */
    method RunRemoval(i: nat)
      requires i < |removals|
      modifies this`disk, this`removals
      ensures removals == old(removals)[..i] + old(removals)[i + 1..]
      ensures disk == map k | k in old(disk) && k.0 != old(removals)[i] :: old(disk)[k]
      ensures old(Faithful()) ==> Faithful()
    {
      var hash := removals[i];
      disk := map k | k in disk && k.0 != hash :: disk[k];
      removals := removals[..i] + removals[i + 1..];
    }
  }
}
