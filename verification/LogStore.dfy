/** The log file system as the object it is (src/fs/logfs.c), proved against LogFs. */
module LogStore {
  import opened Common
  import opened LogIndex
  import opened LogFs
  import opened LogFsSafety

  /** Storage may take an append in several parts. */
  lemma AppendInParts(s: Log, ts: int, n: nat)
    requires 0 < n <= |s.cache|
    ensures Appended(s.(cache := s.cache[n..], disk := s.disk[ts := FileAt(s.disk, ts) + s.cache[..n]]), ts)
            == Appended(s, ts)
  {
    var file := FileAt(s.disk, ts);
    assert s.cache == s.cache[..n] + s.cache[n..];
    assert file + s.cache == file + s.cache[..n] + s.cache[n..];
    assert s.disk[ts := file + s.cache[..n]][ts := file + s.cache] == s.disk[ts := file + s.cache];
    var part := s.(cache := s.cache[n..], disk := s.disk[ts := file + s.cache[..n]]);
    if n == |s.cache| {
      assert s.cache[..n] == s.cache;
    } else {
      assert FileAt(part.disk, ts) + part.cache == file + s.cache;
    }
  }

  class LogFileSystem {
    const cfg: Config
    var cache: Bytes
    var cacheTs: int
    var index: seq<LogFile>
    var disk: map<int, Bytes>

    constructor (cfg: Config, disk: map<int, Bytes>)
      requires cfg.capacity > 0
      ensures this.cfg == cfg && View() == Boot(disk) && Ok()
    {
      this.cfg, this.disk := cfg, disk;
      cache, cacheTs, index := [], 0, [];
    }

    function View(): Log
      reads this
    {
      Log(cache, cacheTs, index, disk)
    }

    ghost predicate Ok()
      reads this
    {
      cfg.capacity > 0 && Valid(cfg, View())
    }

    method AddListSorted(file: LogFile)
      modifies this`index
      ensures index == InsertSorted(old(index), file)
    {
      var i := 0;
      while i < |index| && index[i].ts < file.ts
        invariant 0 <= i <= |index|
        invariant forall j :: 0 <= j < i ==> index[j].ts < file.ts
      {
        i := i + 1;
      }
      InsertAt(index, file, i);
      if i < |index| && index[i].ts == file.ts {
        index := index[..i] + [file] + index[i + 1..];
      } else {
        index := index[..i] + [file] + index[i..];
      }
    }

    method DeleteList(ts: int) returns (found: bool)
      modifies this`index
      ensures index == Remove(old(index), ts)
      ensures found <==> ts in AsMap(old(index))
    {
      var i := 0;
      while i < |index| && index[i].ts != ts
        invariant 0 <= i <= |index|
        invariant forall j :: 0 <= j < i ==> index[j].ts != ts
      {
        i := i + 1;
      }
      RemoveAt(index, ts, i);
      found := i < |index|;
      if found {
        index := index[..i] + index[i + 1..];
      }
    }

    /** `delete_log`, and so `logfs_delete`. */
    method DeleteLog(ts: int) returns (err: int)
      modifies this`index, this`disk
      ensures (View(), err) == Deleted(old(View()), ts)
    {
      if ts !in disk {
        return -ENOENT;
      }
      disk := disk - {ts};
      var found := DeleteList(ts);
      err := if found then 0 else -ENOENT;
    }

    method ComputeTotalSize() returns (total: nat)
      ensures total == Total(index)
    {
      total := 0;
      for i := 0 to |index|
        invariant total + Total(index[i..]) == Total(index)
      {
        assert index[i..][1..] == index[i + 1..];
        total := total + index[i].size;
      }
      assert index[|index|..] == [];
    }

    /** `fs_dir` with `on_dir_scan`: the files come in any order. */
    method ScanDir()
      requires index == []
      modifies this`index
      ensures index == Scan(disk)
    {
      var todo := disk.Keys;
      while todo != {}
        invariant todo <= disk.Keys
        invariant Sorted(index)
        invariant AsMap(index) == Sizes(disk) - todo
        decreases |todo|
      {
        hide AsMap, Sizes, Sorted, InsertSorted;
        HasElement(todo);
        var ts :| ts in todo;
        ScanStep(index, disk, todo, ts);
        AddListSorted(LogFile(ts, |disk[ts]|));
        todo := todo - {ts};
      }
      SortedUnique(index, Scan(disk));
    }

    /** Deleting the first entry of a mirrored index succeeds. */
    method DeleteOldest()
      requires index != [] && Mirrors(index, disk)
      modifies this`index, this`disk
      ensures View() == WithoutOldest(old(View())) && Mirrors(index, disk)
    {
      SortedTail(index);
      assert index[0].ts in Sizes(disk);
      assert Sizes(disk - {index[0].ts}) == Sizes(disk) - {index[0].ts};
      var _ := DeleteLog(index[0].ts);
    }

    method ReclaimByCount(bytes: nat)
      requires Mirrors(index, disk)
      modifies this`index, this`disk
      ensures Mirrors(index, disk) && CountFits(cfg.limits, index, bytes)
      ensures Emptied(cfg.limits, View(), bytes) == Emptied(cfg.limits, old(View()), bytes)
    {
      var count, n := |index|, if bytes > 0 then 1 else 0;
      if cfg.limits.maxLogs == 0 || count + n <= cfg.limits.maxLogs {
        return;
      }
      for i := 0 to count + n - cfg.limits.maxLogs
        invariant |index| == count - i && Mirrors(index, disk)
        invariant Emptied(cfg.limits, View(), bytes) == Emptied(cfg.limits, old(View()), bytes)
      {
        DeleteOldest();
      }
    }

    method ReclaimBySize(bytes: nat)
      requires Mirrors(index, disk) && CountFits(cfg.limits, index, bytes)
      modifies this`index, this`disk
      ensures Mirrors(index, disk)
      ensures View() == Emptied(cfg.limits, old(View()), bytes)
    {
      var total := ComputeTotalSize();
      while index != [] && cfg.limits.maxSize != 0 && total + bytes > cfg.limits.maxSize
        invariant Mirrors(index, disk) && CountFits(cfg.limits, index, bytes)
        invariant total == Total(index)
        invariant Emptied(cfg.limits, View(), bytes) == Emptied(cfg.limits, old(View()), bytes)
        decreases |index|
      {
        DeleteOldest();
        total := ComputeTotalSize();
      }
    }

    method Reclaim(bytes: nat)
      requires Ok()
      modifies this`index, this`disk
      ensures View() == Reclaimed(cfg, old(View()), bytes)
    {
      if index == [] {
        ScanDir();
      }
      ReclaimByCount(bytes);
      ReclaimBySize(bytes);
    }

    /** Appends the cache to file `ts`, each time as much as the buffer shows and storage takes. */
    method AppendCache(ts: int)
      modifies this`cache, this`disk
      ensures View() == Appended(old(View()), ts)
    {
      while |cache| > 0
        invariant Appended(View(), ts) == Appended(old(View()), ts)
        decreases |cache|
      {
        var peeked: nat :| 0 < peeked <= |cache|;
        var taken: nat :| 0 < taken <= peeked;
        AppendInParts(View(), ts, taken);
        disk := disk[ts := FileAt(disk, ts) + cache[..taken]];
        cache := cache[taken..];
      }
    }

    /** `flush_logcache` */
    method FlushLogcache(ts: int, bytes: nat)
      requires Ok()
      modifies this`cache, this`index, this`disk
      ensures View() == Flushed(cfg, old(View()), ts, bytes)
    {
      Reclaim(bytes);
      AppendCache(ts);
      if ts in disk && |disk[ts]| > 0 {
        AddListSorted(LogFile(ts, |disk[ts]|));
      }
    }

    /** `logfs_flush` */
    method Flush()
      requires Ok()
      modifies this`cache, this`index, this`disk
      ensures Ok() && View() == Flushed(cfg, old(View()), cacheTs, |old(cache)|)
    {
      FlushedMirrors(cfg, View(), cacheTs, |cache|);
      FlushLogcache(cacheTs, |cache|);
    }

    /** `ringbuf_write` into the cache. */
    method CacheWrite(data: Bytes) returns (written: nat)
      requires Ok()
      modifies this`cache
      ensures Ok() && View() == Cached(cfg, old(View()), data)
      ensures written == Min(cfg.capacity - |old(cache)|, |data|)
    {
      written := Min(cfg.capacity - |cache|, |data|);
      cache := cache + data[..written];
    }

    /** `logfs_write` */
    method Write(ts: int, data: Bytes) returns (ret: int)
      requires Ok()
      modifies this
      ensures Ok()
      ensures (View(), ret) == Written(cfg, old(View()), ts, data)
    {
      if |data| > cfg.limits.maxSize {
        return -EFBIG;
      }
      SwitchTo(ts, |data|);
      ret := WriteParts(data);
    }

    /** Flushes the cache under the old timestamp if the new one differs. */
    method SwitchTo(ts: int, size: nat)
      requires Ok()
      modifies this
      ensures Ok() && cacheTs == ts && View() == Switched(cfg, old(View()), ts, size)
    {
      hide Flushed;
      SwitchKeeps(cfg, View(), ts, size);
      if ts != cacheTs {
        FlushLogcache(cacheTs, |cache| + size);
        cacheTs := ts;
      }
    }

    /** One turn of the write loop: flush, then cache the next part. */
    method WriteTurn(data: Bytes, offset: nat, remain: nat, ghost flush: (Log, nat) -> Log) returns (written: nat)
      requires Ok() && offset + remain <= |data| && flush == FlushUnder(cfg, cacheTs)
      modifies this`cache, this`index, this`disk
      ensures Ok() && written == Min(cfg.capacity, remain)
      ensures View() == flush(old(View()), cfg.capacity + remain).(cache := data[offset..offset + written])
    {
      hide Flushed;
      FlushedMirrors(cfg, View(), cacheTs, cfg.capacity + remain);
      FlushLogcache(cacheTs, cfg.capacity + remain);
      written := CacheWrite(data[offset..offset + remain]);
      assert [] + data[offset..offset + remain][..written] == data[offset..offset + written];
    }

    method WriteParts(data: Bytes) returns (total: nat)
      requires Ok()
      modifies this`cache, this`index, this`disk
      ensures Ok()
      ensures (View(), total) == WriteTo(cfg, old(View()), cacheTs, data)
    {
      total := CacheWrite(data);
      ghost var flush := FlushUnder(cfg, cacheTs);
      total := WriteMore(data, total, flush);
    }

    /** The loop: the offset of the next part is the length of the last one. */
    method WriteMore(data: Bytes, first: nat, ghost flush: (Log, nat) -> Log) returns (total: nat)
      requires Ok() && first <= |data| && flush == FlushUnder(cfg, cacheTs)
      modifies this`cache, this`index, this`disk
      ensures Ok()
      ensures (View(), total) == WriteRest(flush, cfg.capacity, old(View()), data, first, first)
    {
      hide Flushed;
      ghost var result := WriteRest(flush, cfg.capacity, View(), data, first, first);
      var written := first;
      total := first;
      while written > 0 && total < |data|
        invariant 0 <= written <= total <= |data| && Ok()
        invariant WriteRest(flush, cfg.capacity, View(), data, written, total) == result
        decreases |data| - total
      {
        written := WriteTurn(data, written, |data| - total, flush);
        total := total + written;
      }
    }

    /** `logfs_clear` */
    method Clear()
      modifies this`index, this`disk
      ensures View() == Cleared(old(View()))
    {
      while index != []
        invariant Cleared(View()) == Cleared(old(View()))
        decreases |index|
      {
        disk := disk - {index[0].ts};
        index := index[1..];
      }
    }
  }
}
