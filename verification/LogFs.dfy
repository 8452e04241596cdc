/**
 The log file system (src/fs/logfs.c): a byte cache in front of one file per
 timestamp, an index of those files, and eviction when the limits are reached.
 Storage does not fail; it may take an append in several parts.
 */
module LogFs {
  import opened Common
  import opened LogIndex

  const EFBIG := 27
  const ENOENT := 2

  /** The configuration; `capacity` is that of the cache's ring buffer. */
  datatype Config = Config(limits: Limits, capacity: nat)

  datatype Log = Log(cache: Bytes, cacheTs: int, index: seq<LogFile>, disk: map<int, Bytes>)

  function Sizes(disk: map<int, Bytes>): map<int, nat> {
    map ts | ts in disk :: |disk[ts]|
  }

  function FileAt(disk: map<int, Bytes>, ts: int): Bytes {
    if ts in disk then disk[ts] else []
  }

  /** The index lists the files on disk, sorted, with their sizes. */
  ghost predicate Mirrors(index: seq<LogFile>, disk: map<int, Bytes>) {
    Sorted(index) && AsMap(index) == Sizes(disk)
  }

  ghost predicate Valid(cfg: Config, s: Log) {
    && |s.cache| <= cfg.capacity
    && (s.index == [] || Mirrors(s.index, s.disk))
  }

  // ---------- specification ----------

  lemma HasElement(keys: set<int>)
    ensures keys == {} || exists ts :: ts in keys
  {
    if forall ts :: ts !in keys {
      assert keys == {};
    }
  }

  /** A directory scan, in whatever order it lists the files, has a sorted index to build. */
  lemma {:induction false} ScanExists(disk: map<int, Bytes>) returns (index: seq<LogFile>)
    ensures Mirrors(index, disk)
    decreases |disk|
  {
    HasElement(disk.Keys);
    if disk.Keys == {} {
      index := [];
    } else {
      var ts :| ts in disk.Keys;
      index := ScanExists(disk - {ts});
      InsertUpdates(index, LogFile(ts, |disk[ts]|));
      assert Sizes(disk) == Sizes(disk - {ts})[ts := |disk[ts]|];
      index := InsertSorted(index, LogFile(ts, |disk[ts]|));
    }
  }

  /** The index that a directory scan builds. */
  ghost function Scan(disk: map<int, Bytes>): (index: seq<LogFile>)
    ensures Mirrors(index, disk)
  {
    assert exists index :: Mirrors(index, disk) by { var index := ScanExists(disk); }
    var index :| Mirrors(index, disk);
    index
  }

  ghost function Scanned(s: Log): seq<LogFile> {
    if s.index == [] then Scan(s.disk) else s.index
  }

  /** `delete_log` of the first entry. */
  function WithoutOldest(s: Log): Log
    requires s.index != []
  {
    s.(index := s.index[1..], disk := s.disk - {s.index[0].ts})
  }

  /** The oldest files go, one by one, until there is room for `bytes`. */
  function Emptied(lim: Limits, s: Log, bytes: nat): (r: Log)
    ensures r.index == Evicted(lim, s.index, bytes)
    ensures r.cache == s.cache && r.cacheTs == s.cacheTs
    decreases |s.index|
  {
    if s.index == [] || Fits(lim, s.index, bytes) then s else Emptied(lim, WithoutOldest(s), bytes)
  }

  /** `reclaim` */
  ghost function Reclaimed(cfg: Config, s: Log, bytes: nat): Log {
    Emptied(cfg.limits, s.(index := Scanned(s)), bytes)
  }

  /** The whole cache goes to the end of file `ts`. */
  function Appended(s: Log, ts: int): Log {
    if s.cache == [] then s
    else s.(cache := [], disk := s.disk[ts := FileAt(s.disk, ts) + s.cache])
  }

  /** The entry of file `ts` is brought up to date. */
  function Indexed(s: Log, ts: int): Log {
    if FileAt(s.disk, ts) == [] then s
    else s.(index := InsertSorted(s.index, LogFile(ts, |s.disk[ts]|)))
  }

  /** `flush_logcache` */
  ghost function Flushed(cfg: Config, s: Log, ts: int, bytes: nat): Log {
    Indexed(Appended(Reclaimed(cfg, s, bytes), ts), ts)
  }

  /** `ringbuf_write`: the cache takes what fits of `data`. */
  function Cached(cfg: Config, s: Log, data: Bytes): Log
    requires |s.cache| <= cfg.capacity
  {
    s.(cache := s.cache + data[..Min(cfg.capacity - |s.cache|, |data|)])
  }

  /** A flush of the cache under timestamp `ts`, as the write loop calls it. */
  ghost function FlushUnder(cfg: Config, ts: int): (Log, nat) -> Log {
    (s: Log, bytes: nat) => Flushed(cfg, s, ts, bytes)
  }

  /**
   The loop of `logfs_write`. The next part is read at offset `written`, the length of
   the last part, and not at `total`, the length of all parts.
   */
  ghost function WriteRest(
      flush: (Log, nat) -> Log, capacity: nat, s: Log, data: Bytes, written: nat, total: nat): (r: (Log, nat))
    requires capacity > 0 && written <= total <= |data|
    ensures r.1 <= |data|
    decreases |data| - total
  {
    if written == 0 || total == |data| then (s, total) else
    var part := Min(capacity, |data| - total);
    var next := flush(s, capacity + |data| - total).(cache := data[written..written + part]);
    WriteRest(flush, capacity, next, data, part, total + part)
  }

  ghost function WriteTo(cfg: Config, s: Log, ts: int, data: Bytes): (Log, nat)
    requires cfg.capacity > 0 && |s.cache| <= cfg.capacity
  {
    var first := Min(cfg.capacity - |s.cache|, |data|);
    WriteRest(FlushUnder(cfg, ts), cfg.capacity, Cached(cfg, s, data), data, first, first)
  }

  /** On another timestamp the cache is flushed under the old one first. */
  ghost function Switched(cfg: Config, s: Log, ts: int, size: nat): Log {
    if ts == s.cacheTs then s else Flushed(cfg, s, s.cacheTs, |s.cache| + size).(cacheTs := ts)
  }

  /** `logfs_write`: the new state and the returned count or negative error. */
  ghost function Written(cfg: Config, s: Log, ts: int, data: Bytes): (Log, int)
    requires cfg.capacity > 0 && |s.cache| <= cfg.capacity
  {
    if |data| > cfg.limits.maxSize then (s, -EFBIG)
    else
      FlushEmptiesCache(cfg, s, s.cacheTs, |s.cache| + |data|);
      WriteTo(cfg, Switched(cfg, s, ts, |data|), ts, data)
  }

  lemma FlushEmptiesCache(cfg: Config, s: Log, ts: int, bytes: nat)
    ensures Flushed(cfg, s, ts, bytes).cache == [] && Flushed(cfg, s, ts, bytes).cacheTs == s.cacheTs
  {
  }

  /** `logfs_delete` */
  function Deleted(s: Log, ts: int): (Log, int) {
    if ts !in s.disk then (s, -ENOENT)
    else (s.(disk := s.disk - {ts}, index := Remove(s.index, ts)), if ts in AsMap(s.index) then 0 else -ENOENT)
  }

  /** `logfs_clear` deletes the files of the index. */
  function Cleared(s: Log): Log {
    s.(index := [], disk := s.disk - AsMap(s.index).Keys)
  }
}
