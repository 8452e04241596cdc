/** Which files a write evicts, told from the files on disk and the lengths alone. */
module LogWrites {
  import opened Common
  import opened Arith
  import opened LogIndex
  import opened LogFs
  import opened LogFsSafety

  // ---------- room on disk ----------

  /** The bytes in all files. */
  ghost function DiskSize(disk: map<int, Bytes>): nat {
    Total(Scan(disk))
  }

  /** Room for `bytes` more, in one more file if there are any; a limit of 0 is none. */
  ghost predicate HasRoom(lim: Limits, disk: map<int, Bytes>, bytes: nat) {
    && (lim.maxLogs > 0 ==> |disk| + (if bytes > 0 then 1 else 0) <= lim.maxLogs)
    && (lim.maxSize > 0 ==> DiskSize(disk) + bytes <= lim.maxSize)
  }

  lemma {:induction false} SortedCount(index: seq<LogFile>)
    requires Sorted(index)
    ensures |AsMap(index)| == |index|
  {
    if index == [] {
    } else {
      SortedTail(index);
      SortedCount(index[1..]);
      assert AsMap(index).Keys == AsMap(index[1..]).Keys + {index[0].ts};
    }
  }

  lemma IndexCounts(index: seq<LogFile>, disk: map<int, Bytes>)
    requires Mirrors(index, disk)
    ensures |index| == |disk| && Total(index) == DiskSize(disk) && index == Scan(disk)
  {
    SortedUnique(index, Scan(disk));
    SortedCount(index);
    assert Sizes(disk).Keys == disk.Keys;
    assert |AsMap(index).Keys| == |disk.Keys|;
  }

  lemma RoomIsFit(lim: Limits, index: seq<LogFile>, disk: map<int, Bytes>, bytes: nat)
    requires Mirrors(index, disk)
    ensures Fits(lim, index, bytes) <==> HasRoom(lim, disk, bytes)
  {
    IndexCounts(index, disk);
  }

  /** Appending to a file adds its bytes, and the file if it was not there. */
  lemma AppendCounts(disk: map<int, Bytes>, ts: int, more: Bytes)
    ensures var next := disk[ts := FileAt(disk, ts) + more];
            DiskSize(next) == DiskSize(disk) + |more| && |next| == |disk.Keys + {ts}|
  {
    var next, file := disk[ts := FileAt(disk, ts) + more], LogFile(ts, |FileAt(disk, ts)| + |more|);
    assert next.Keys == disk.Keys + {ts};
    AppendedIndex(disk, ts, more);
    hide InsertSorted, Total, Sizes;
    InsertTotal(Scan(disk), file);
    IndexCounts(InsertSorted(Scan(disk), file), next);
  }

  lemma AppendedIndex(disk: map<int, Bytes>, ts: int, more: Bytes)
    ensures var next, file := disk[ts := FileAt(disk, ts) + more], LogFile(ts, |FileAt(disk, ts)| + |more|);
            Mirrors(InsertSorted(Scan(disk), file), next)
    ensures AsMap(Scan(disk)) == Sizes(disk)
    ensures |FileAt(disk, ts)| == if ts in AsMap(Scan(disk)) then AsMap(Scan(disk))[ts] else 0
  {
    hide InsertSorted;
    var next, file := disk[ts := FileAt(disk, ts) + more], LogFile(ts, |FileAt(disk, ts)| + |more|);
    InsertUpdates(Scan(disk), file);
    assert Sizes(next) == Sizes(disk)[ts := file.size];
  }

  // ---------- what a flush does to the disk ----------

  /** `kept` are files of the disk, and with each all newer ones. */
  ghost predicate IsTail(kept: map<int, Bytes>, disk: map<int, Bytes>) {
    && kept.Keys <= disk.Keys && (forall t :: t in kept ==> kept[t] == disk[t])
    && (forall t, newer :: t in kept && newer in disk && t < newer ==> newer in kept)
  }

  /** The most of the newest files that leave room for `bytes`. */
  ghost predicate EvictsTo(lim: Limits, disk: map<int, Bytes>, bytes: nat, kept: map<int, Bytes>) {
    && IsTail(kept, disk) && (kept == map[] || HasRoom(lim, kept, bytes))
    && forall more :: IsTail(more, disk) && |kept| < |more| ==> !HasRoom(lim, more, bytes)
  }

  /** A flush of `cache` to file `ts` that asks for room for `bytes`. */
  datatype Flushing = Flushing(ts: int, cache: Bytes, bytes: nat)

  /** The oldest files go until there is room, and then the cache is appended. */
  ghost predicate FlushesTo(lim: Limits, disk: map<int, Bytes>, f: Flushing, after: map<int, Bytes>) {
    exists kept ::
      && EvictsTo(lim, disk, f.bytes, kept)
      && after == if f.cache == [] then kept else kept[f.ts := FileAt(kept, f.ts) + f.cache]
  }

  lemma {:induction false} EmptiedEvicts(lim: Limits, s: Log, bytes: nat)
    requires Mirrors(s.index, s.disk)
    ensures EvictsTo(lim, s.disk, bytes, Emptied(lim, s, bytes).disk)
    decreases |s.index|
  {
    RoomIsFit(lim, s.index, s.disk, bytes);
    IndexCounts(s.index, s.disk);
    if s.index == [] || Fits(lim, s.index, bytes) {
      forall more | IsTail(more, s.disk) && |s.disk| < |more|
        ensures false
      {
        SubsetSmaller(more.Keys, s.disk.Keys);
      }
    } else {
      var oldest := s.index[0].ts;
      SortedTail(s.index);
      assert Sizes(s.disk - {oldest}) == Sizes(s.disk) - {oldest};
      EmptiedEvicts(lim, WithoutOldest(s), bytes);
      OneMoreEvicted(lim, s, bytes, Emptied(lim, s, bytes).disk);
    }
  }

  lemma SubsetSmaller(a: set<int>, b: set<int>)
    requires a <= b
    ensures |a| <= |b|
  {
    assert b == a + (b - a);
  }

  lemma TailWithOldest(more: map<int, Bytes>, disk: map<int, Bytes>, oldest: int)
    requires IsTail(more, disk) && oldest in more && forall t :: t in disk ==> oldest <= t
    ensures more == disk
  {
    forall t | t in disk.Keys
      ensures t in more.Keys
    {
      assert t == oldest || oldest < t;
    }
    assert more.Keys == disk.Keys;
    forall t | t in disk
      ensures more[t] == disk[t]
    {
    }
    assert more == disk;
  }

  lemma OldestIsFirst(index: seq<LogFile>, disk: map<int, Bytes>)
    requires index != [] && Mirrors(index, disk)
    ensures index[0].ts in disk && forall t :: t in disk ==> index[0].ts <= t
  {
    SortedTail(index);
    assert index[0].ts in AsMap(index);
    forall t | t in disk
      ensures index[0].ts <= t
    {
      assert t in AsMap(index);
      assert t != index[0].ts ==> t in AsMap(index[1..]);
    }
  }

  lemma OneMoreEvicted(lim: Limits, s: Log, bytes: nat, kept: map<int, Bytes>)
    requires s.index != [] && Mirrors(s.index, s.disk) && !HasRoom(lim, s.disk, bytes)
    requires EvictsTo(lim, WithoutOldest(s).disk, bytes, kept)
    ensures EvictsTo(lim, s.disk, bytes, kept)
  {
    hide HasRoom, Mirrors;
    var oldest := s.index[0].ts;
    OldestIsFirst(s.index, s.disk);
    forall more | IsTail(more, s.disk) && |kept| < |more|
      ensures !HasRoom(lim, more, bytes)
    {
      if oldest in more {
        TailWithOldest(more, s.disk, oldest);
      } else {
        assert more.Keys <= (s.disk - {oldest}).Keys;
        assert IsTail(more, s.disk - {oldest});
      }
    }
  }

  lemma FlushEvicts(cfg: Config, s: Log, ts: int, bytes: nat)
    requires Valid(cfg, s)
    ensures FlushesTo(cfg.limits, s.disk, Flushing(ts, s.cache, bytes), Flushed(cfg, s, ts, bytes).disk)
  {
    var listed := s.(index := Scanned(s));
    EmptiedEvicts(cfg.limits, listed, bytes);
    var kept := Emptied(cfg.limits, listed, bytes).disk;
    assert Flushed(cfg, s, ts, bytes).disk == if s.cache == [] then kept else kept[ts := FileAt(kept, ts) + s.cache];
  }

  /** `logfs_flush` asks for room for what is cached, and for no more. */
  lemma FlushExactly(cfg: Config, s: Log)
    requires cfg.capacity > 0 && Valid(cfg, s)
    ensures var f := Apply(cfg, s, Flush);
            && FlushesTo(cfg.limits, s.disk, Flushing(s.cacheTs, s.cache, |s.cache|), f.disk)
            && f.cache == [] && f.cacheTs == s.cacheTs
  {
    hide Flushed, FlushesTo;
    FlushEvicts(cfg, s, s.cacheTs, |s.cache|);
    FlushedMirrors(cfg, s, s.cacheTs, |s.cache|);
  }

  // ---------- the flushes of a write ----------

  /** The bytes taken when the cache has been filled for the `k`-th time after the first. */
  function Upto(capacity: nat, first: nat, n: nat, k: nat): (r: nat)
    requires first <= n
    ensures first <= r <= n
  {
    Min(n, first + k * capacity)
  }

  lemma UptoNext(capacity: nat, first: nat, n: nat, k: nat)
    requires first <= n
    ensures var now, next := Upto(capacity, first, n, k), Upto(capacity, first, n, k + 1);
            next == now + Min(capacity, n - now)
  {
    Successor(k, capacity);
  }

  /** The length of the `k`-th part. */
  function PartLen(capacity: nat, first: nat, n: nat, k: nat): (r: nat)
    requires first <= n
    ensures r <= Upto(capacity, first, n, k)
  {
    if k == 0 then first
    else
      UptoNext(capacity, first, n, k - 1);
      Upto(capacity, first, n, k) - Upto(capacity, first, n, k - 1)
  }

  /** The `k`-th part, which is read at the length of the part before it. */
  function Part(capacity: nat, first: nat, data: Bytes, k: nat): Bytes
    requires first <= |data| && k > 0
  {
    var at := PartLen(capacity, first, |data|, k - 1);
    UptoNext(capacity, first, |data|, k - 1);
    data[at..at + PartLen(capacity, first, |data|, k)]
  }

  /** The loop flushes the cache while bytes are left, for a whole cache and all that is left. */
  function LoopFlushes(capacity: nat, ts: int, data: Bytes, first: nat, k: nat, cache: Bytes): seq<Flushing>
    requires capacity > 0 && first <= |data|
    decreases |data| - Upto(capacity, first, |data|, k)
  {
    var taken := Upto(capacity, first, |data|, k);
    if first == 0 || taken == |data| then []
    else
      UptoNext(capacity, first, |data|, k);
      [Flushing(ts, cache, capacity + |data| - taken)]
      + LoopFlushes(capacity, ts, data, first, k + 1, Part(capacity, first, data, k + 1))
  }

  /** What is in the cache in the end. */
  function LastCache(capacity: nat, data: Bytes, first: nat, k: nat, cache: Bytes): Bytes
    requires capacity > 0 && first <= |data|
    decreases |data| - Upto(capacity, first, |data|, k)
  {
    if first == 0 || Upto(capacity, first, |data|, k) == |data| then cache
    else
      UptoNext(capacity, first, |data|, k);
      LastCache(capacity, data, first, k + 1, Part(capacity, first, data, k + 1))
  }

  /** The first part that the cache takes. */
  function FirstLen(cfg: Config, s: Log, ts: int, data: Bytes): nat
    requires |s.cache| <= cfg.capacity
  {
    Min(Room(cfg, s, ts), |data|)
  }

  /** The cache with the first part. */
  function FirstCache(cfg: Config, s: Log, ts: int, data: Bytes): Bytes
    requires |s.cache| <= cfg.capacity
  {
    (if ts == s.cacheTs then s.cache else []) + data[..FirstLen(cfg, s, ts, data)]
  }

  /** All flushes of a write: of the old timestamp if there is a new one, for the cache and the log, and of the loop. */
  function WriteFlushes(cfg: Config, s: Log, ts: int, data: Bytes): seq<Flushing>
    requires cfg.capacity > 0 && |s.cache| <= cfg.capacity
  {
    var loop := LoopFlushes(cfg.capacity, ts, data, FirstLen(cfg, s, ts, data), 0, FirstCache(cfg, s, ts, data));
    if ts == s.cacheTs then loop else [Flushing(s.cacheTs, s.cache, |s.cache| + |data|)] + loop
  }

  /** The disk after some flushes. */
  ghost predicate AllFlushTo(lim: Limits, disk: map<int, Bytes>, fs: seq<Flushing>, after: map<int, Bytes>)
    decreases |fs|
  {
    if fs == [] then after == disk
    else exists mid :: FlushesTo(lim, disk, fs[0], mid) && AllFlushTo(lim, mid, fs[1..], after)
  }

  lemma AllFlushCons(lim: Limits, disk: map<int, Bytes>, f: Flushing, mid: map<int, Bytes>, fs: seq<Flushing>,
                     after: map<int, Bytes>)
    requires FlushesTo(lim, disk, f, mid) && AllFlushTo(lim, mid, fs, after)
    ensures AllFlushTo(lim, disk, [f] + fs, after)
  {
    hide FlushesTo;
    assert ([f] + fs)[1..] == fs;
  }

  /** One turn of the loop, for the timestamp of the cache. */
  lemma OneTurn(cfg: Config, s: Log, data: Bytes, first: nat, k: nat)
    requires cfg.capacity > 0 && 0 < first <= |data| && Upto(cfg.capacity, first, |data|, k) < |data|
    ensures var n, flush := |data|, FlushUnder(cfg, s.cacheTs);
            var taken, part := Upto(cfg.capacity, first, n, k), PartLen(cfg.capacity, first, n, k);
            var next := Flushed(cfg, s, s.cacheTs, cfg.capacity + n - taken)
                          .(cache := Part(cfg.capacity, first, data, k + 1));
            WriteRest(flush, cfg.capacity, s, data, part, taken) ==
            WriteRest(flush, cfg.capacity, next, data, PartLen(cfg.capacity, first, n, k + 1),
                      Upto(cfg.capacity, first, n, k + 1))
  {
    hide Flushed, Part, PartLen, Upto;
    UptoNext(cfg.capacity, first, |data|, k);
    PartPositive(cfg.capacity, first, |data|, k);
    PartIs(cfg.capacity, first, data, k);
  }

  lemma ListStep(capacity: nat, ts: int, data: Bytes, first: nat, k: nat, cache: Bytes)
    requires capacity > 0 && 0 < first <= |data| && Upto(capacity, first, |data|, k) < |data|
    ensures var part, taken := Part(capacity, first, data, k + 1), Upto(capacity, first, |data|, k);
            && LoopFlushes(capacity, ts, data, first, k, cache) ==
               [Flushing(ts, cache, capacity + |data| - taken)] + LoopFlushes(capacity, ts, data, first, k + 1, part)
            && LastCache(capacity, data, first, k, cache) == LastCache(capacity, data, first, k + 1, part)
  {
    hide Part, Upto;
  }

  /** The loop of the write, turn by turn. */
  lemma {:induction false} LoopExactly(cfg: Config, s: Log, data: Bytes, first: nat, k: nat)
    requires cfg.capacity > 0 && Valid(cfg, s) && first <= |data| && (first > 0 || k == 0)
    ensures var n := |data|;
            var taken, part := Upto(cfg.capacity, first, n, k), PartLen(cfg.capacity, first, n, k);
            var w := WriteRest(FlushUnder(cfg, s.cacheTs), cfg.capacity, s, data, part, taken).0;
            && AllFlushTo(cfg.limits, s.disk, LoopFlushes(cfg.capacity, s.cacheTs, data, first, k, s.cache), w.disk)
            && w.cache == LastCache(cfg.capacity, data, first, k, s.cache) && w.cacheTs == s.cacheTs
    decreases |data| - Upto(cfg.capacity, first, |data|, k)
  {
    hide *;
    var n, taken := |data|, Upto(cfg.capacity, first, |data|, k);
    if first == 0 || taken == n {
      LoopEnds(cfg, s, data, first, k);
    } else {
      var bytes, part := cfg.capacity + n - taken, Part(cfg.capacity, first, data, k + 1);
      var f := Flushed(cfg, s, s.cacheTs, bytes);
      var next := f.(cache := part);
      UptoNext(cfg.capacity, first, n, k);
      PartIs(cfg.capacity, first, data, k);
      MinPositive(cfg.capacity, n - taken);
      TurnKeeps(cfg, s, bytes, part);
      FlushEvicts(cfg, s, s.cacheTs, bytes);
      OneTurn(cfg, s, data, first, k);
      ListStep(cfg.capacity, s.cacheTs, data, first, k, s.cache);
      LoopExactly(cfg, next, data, first, k + 1);
      AllFlushCons(cfg.limits, s.disk, Flushing(s.cacheTs, s.cache, bytes), f.disk,
                   LoopFlushes(cfg.capacity, s.cacheTs, data, first, k + 1, part),
                   WriteRest(FlushUnder(cfg, s.cacheTs), cfg.capacity, next, data,
                             PartLen(cfg.capacity, first, n, k + 1), Upto(cfg.capacity, first, n, k + 1)).0.disk);
    }
  }

  lemma MinPositive(a: nat, b: nat)
    requires a > 0 && b > 0
    ensures 0 < Min(a, b) <= a && Min(a, b) <= b
  {
  }

  lemma LoopEnds(cfg: Config, s: Log, data: Bytes, first: nat, k: nat)
    requires cfg.capacity > 0 && first <= |data| && (first > 0 || k == 0)
    requires first == 0 || Upto(cfg.capacity, first, |data|, k) == |data|
    ensures var n := |data|;
            var taken, part := Upto(cfg.capacity, first, n, k), PartLen(cfg.capacity, first, n, k);
            var w := WriteRest(FlushUnder(cfg, s.cacheTs), cfg.capacity, s, data, part, taken).0;
            && AllFlushTo(cfg.limits, s.disk, LoopFlushes(cfg.capacity, s.cacheTs, data, first, k, s.cache), w.disk)
            && w.cache == LastCache(cfg.capacity, data, first, k, s.cache) && w.cacheTs == s.cacheTs
  {
    hide Flushed, FlushesTo, Upto;
    PartPositive(cfg.capacity, first, |data|, k);
  }

  lemma PartPositive(capacity: nat, first: nat, n: nat, k: nat)
    requires capacity > 0 && first <= n
    ensures first == 0 && k == 0 ==> PartLen(capacity, first, n, k) == 0
    ensures first > 0 && Upto(capacity, first, n, k) < n ==> PartLen(capacity, first, n, k) > 0
  {
    if k > 0 {
      UptoNext(capacity, first, n, k - 1);
    }
  }

  lemma PartIs(capacity: nat, first: nat, data: Bytes, k: nat)
    requires first <= |data|
    ensures var at := PartLen(capacity, first, |data|, k);
            var len := Min(capacity, |data| - Upto(capacity, first, |data|, k));
            at + len <= |data| && Part(capacity, first, data, k + 1) == data[at..at + len]
            && PartLen(capacity, first, |data|, k + 1) == len
  {
    UptoNext(capacity, first, |data|, k);
  }

  lemma TurnKeeps(cfg: Config, s: Log, bytes: nat, part: Bytes)
    requires Valid(cfg, s) && |part| <= cfg.capacity
    ensures var f := Flushed(cfg, s, s.cacheTs, bytes);
            Valid(cfg, f.(cache := part)) && f.cacheTs == s.cacheTs
  {
    hide Flushed;
    FlushedMirrors(cfg, s, s.cacheTs, bytes);
  }

  /**
   The whole effect of a write that is not too long. Its flushes are `WriteFlushes`, and each of them
   evicts the fewest of the oldest files that make room for the bytes it asks for.
   */
  lemma WriteExactly(cfg: Config, s: Log, ts: int, data: Bytes)
    requires cfg.capacity > 0 && Valid(cfg, s) && |data| <= cfg.limits.maxSize
    ensures var (w, ret) := Written(cfg, s, ts, data);
            && AllFlushTo(cfg.limits, s.disk, WriteFlushes(cfg, s, ts, data), w.disk)
            && w.cache == LastCache(cfg.capacity, data, FirstLen(cfg, s, ts, data), 0, FirstCache(cfg, s, ts, data))
            && w.cacheTs == ts && ret == if Room(cfg, s, ts) == 0 then 0 else |data|
  {
    hide *;
    var sw := Switched(cfg, s, ts, |data|);
    Unfolds(cfg, s, ts, data);
    SwitchKeeps(cfg, s, ts, |data|);
    SwitchEvicts(cfg, s, ts, |data|);
    FilledExactly(cfg, sw, data);
    FirstOf(cfg, s, sw, ts, data);
    if ts != s.cacheTs {
      AllFlushCons(cfg.limits, s.disk, Flushing(s.cacheTs, s.cache, |s.cache| + |data|), sw.disk,
                   LoopFlushes(cfg.capacity, ts, data, FirstLen(cfg, s, ts, data), 0, FirstCache(cfg, s, ts, data)),
                   WriteTo(cfg, sw, ts, data).0.disk);
    }
    WriteReturns(cfg, s, ts, data);
  }

  lemma Unfolds(cfg: Config, s: Log, ts: int, data: Bytes)
    requires cfg.capacity > 0 && Valid(cfg, s) && |data| <= cfg.limits.maxSize
    ensures var sw := Switched(cfg, s, ts, |data|);
            && |s.cache| <= cfg.capacity && |sw.cache| <= cfg.capacity
            && Written(cfg, s, ts, data) == WriteTo(cfg, sw, ts, data)
    ensures var first := FirstLen(cfg, s, ts, data);
            var loop := LoopFlushes(cfg.capacity, ts, data, first, 0, FirstCache(cfg, s, ts, data));
            WriteFlushes(cfg, s, ts, data) ==
            if ts == s.cacheTs then loop else [Flushing(s.cacheTs, s.cache, |s.cache| + |data|)] + loop
  {
    hide Flushed, WriteTo, LoopFlushes, Mirrors;
    SwitchKeeps(cfg, s, ts, |data|);
  }

  lemma FirstOf(cfg: Config, s: Log, sw: Log, ts: int, data: Bytes)
    requires |s.cache| <= cfg.capacity && sw.cache == if ts == s.cacheTs then s.cache else []
    ensures |sw.cache| <= cfg.capacity && FirstLen(cfg, s, ts, data) == Min(cfg.capacity - |sw.cache|, |data|) <= |data|
    ensures FirstCache(cfg, s, ts, data) == sw.cache + data[..Min(cfg.capacity - |sw.cache|, |data|)]
  {
  }

  lemma WriteReturns(cfg: Config, s: Log, ts: int, data: Bytes)
    requires cfg.capacity > 0 && Valid(cfg, s) && |data| <= cfg.limits.maxSize
    ensures Written(cfg, s, ts, data).1 == if Room(cfg, s, ts) == 0 then 0 else |data|
  {
    hide Written, Taken, InLimits, Stream, IsSuffix, Mirrors;
    WriteAppends(cfg, s, ts, data, ts);
    TakenLength(cfg.capacity, Room(cfg, s, ts), data);
  }

  lemma SwitchEvicts(cfg: Config, s: Log, ts: int, size: nat)
    requires Valid(cfg, s)
    ensures var sw := Switched(cfg, s, ts, size);
            if ts == s.cacheTs then sw == s
            else FlushesTo(cfg.limits, s.disk, Flushing(s.cacheTs, s.cache, |s.cache| + size), sw.disk)
  {
    hide Flushed, FlushesTo;
    FlushEvicts(cfg, s, s.cacheTs, |s.cache| + size);
  }

  /** A write for the timestamp of the cache. */
  lemma FilledExactly(cfg: Config, s: Log, data: Bytes)
    requires cfg.capacity > 0 && Valid(cfg, s)
    ensures var w := WriteTo(cfg, s, s.cacheTs, data).0;
            var first := Min(cfg.capacity - |s.cache|, |data|);
            var cache := s.cache + data[..first];
            && AllFlushTo(cfg.limits, s.disk, LoopFlushes(cfg.capacity, s.cacheTs, data, first, 0, cache), w.disk)
            && w.cache == LastCache(cfg.capacity, data, first, 0, cache) && w.cacheTs == s.cacheTs
  {
    hide WriteRest, LoopFlushes, LastCache, AllFlushTo, FlushUnder, Mirrors;
    var first := Min(cfg.capacity - |s.cache|, |data|);
    assert Upto(cfg.capacity, first, |data|, 0) == first == PartLen(cfg.capacity, first, |data|, 0);
    LoopExactly(cfg, Cached(cfg, s, data), data, first, 0);
  }

  // ---------- eviction is determined ----------

  /** There is only one such choice of files. */
  lemma EvictsToUnique(lim: Limits, disk: map<int, Bytes>, bytes: nat, a: map<int, Bytes>, b: map<int, Bytes>)
    requires EvictsTo(lim, disk, bytes, a) && EvictsTo(lim, disk, bytes, b)
    ensures a == b
  {
    hide HasRoom;
    assert |a| == |b|;
    TailsNest(a, b, disk);
  }

  lemma TailsNest(a: map<int, Bytes>, b: map<int, Bytes>, disk: map<int, Bytes>)
    requires IsTail(a, disk) && IsTail(b, disk) && |a| == |b|
    ensures a == b
  {
    HasElement(a.Keys - b.Keys);
    if a.Keys - b.Keys == {} {
      assert b.Keys == a.Keys + (b.Keys - a.Keys);
      assert b.Keys - a.Keys == {};
      SameTail(a, b, disk);
    } else {
      var x :| x in a.Keys - b.Keys;
      forall t | t in b.Keys
        ensures t in a.Keys - {x}
      {
        assert t in disk && x < t;
      }
      SubsetSmaller(b.Keys, a.Keys - {x});
    }
  }

  lemma SameTail(a: map<int, Bytes>, b: map<int, Bytes>, disk: map<int, Bytes>)
    requires IsTail(a, disk) && IsTail(b, disk) && a.Keys == b.Keys
    ensures a == b
  {
    forall t | t in a
      ensures a[t] == b[t]
    {
      assert t in b.Keys;
    }
  }

  // ---------- a write that fits ----------

  /** A flush that finds room only moves the cache to its file. */
  lemma FlushWithRoom(cfg: Config, s: Log, bytes: nat, t: int)
    requires Valid(cfg, s) && HasRoom(cfg.limits, s.disk, bytes)
    ensures var f := Flushed(cfg, s, s.cacheTs, bytes);
            && f.disk == (if s.cache == [] then s.disk
                          else s.disk[s.cacheTs := FileAt(s.disk, s.cacheTs) + s.cache])
            && Valid(cfg, f) && f.cache == [] && f.cacheTs == s.cacheTs && Stream(f, t) == Stream(s, t)
  {
    hide Stream, HasRoom, Mirrors;
    RoomIsFit(cfg.limits, Scanned(s), s.disk, bytes);
    FlushedMirrors(cfg, s, s.cacheTs, bytes);
    StreamMoves(s, Flushed(cfg, s, s.cacheTs, bytes), t);
  }

  lemma StreamMoves(s: Log, f: Log, t: int)
    requires f.disk == if s.cache == [] then s.disk else s.disk[s.cacheTs := FileAt(s.disk, s.cacheTs) + s.cache]
    requires f.cache == []
    ensures Stream(f, t) == Stream(s, t)
  {
    assert FileAt(f.disk, t) + [] == FileAt(f.disk, t);
  }

  /** Room for all turns of the loop that are left: they need the same bytes, and may add the file of the cache. */
  ghost predicate LoopFits(cfg: Config, s: Log, n: nat, taken: nat) {
    taken < n ==>
      && |s.cache| == cfg.capacity
      && (cfg.limits.maxSize > 0 ==> DiskSize(s.disk) + cfg.capacity + n - taken <= cfg.limits.maxSize)
      && (cfg.limits.maxLogs > 0 ==> |s.disk| + 1 <= cfg.limits.maxLogs)
      && (cfg.limits.maxLogs > 0 && taken + cfg.capacity < n ==> |s.disk.Keys + {s.cacheTs}| + 1 <= cfg.limits.maxLogs)
  }

  lemma LoopFitsNext(cfg: Config, s: Log, f: Log, part: Bytes, n: nat, taken: nat)
    requires cfg.capacity > 0 && taken < n && LoopFits(cfg, s, n, taken)
    requires f.disk == s.disk[s.cacheTs := FileAt(s.disk, s.cacheTs) + s.cache] && f.cacheTs == s.cacheTs
    requires |part| == Min(cfg.capacity, n - taken)
    ensures HasRoom(cfg.limits, s.disk, cfg.capacity + n - taken)
    ensures LoopFits(cfg, f.(cache := part), n, taken + |part|)
  {
    hide DiskSize;
    AppendCounts(s.disk, s.cacheTs, s.cache);
    assert f.disk.Keys == s.disk.Keys + {s.cacheTs};
    assert f.disk.Keys + {s.cacheTs} == f.disk.Keys;
  }

  lemma {:induction false} LoopLosesNothing(cfg: Config, s: Log, data: Bytes, first: nat, k: nat, t: int)
    requires cfg.capacity > 0 && Valid(cfg, s) && first <= |data| && (first > 0 || k == 0)
    requires first > 0 ==> LoopFits(cfg, s, |data|, Upto(cfg.capacity, first, |data|, k))
    ensures var taken, part := Upto(cfg.capacity, first, |data|, k), PartLen(cfg.capacity, first, |data|, k);
            var w := WriteRest(FlushUnder(cfg, s.cacheTs), cfg.capacity, s, data, part, taken).0;
            Stream(w, t) == Stream(s, t) + For(t, s.cacheTs, RestTaken(cfg.capacity, data, part, taken))
    decreases |data| - Upto(cfg.capacity, first, |data|, k)
  {
    hide *;
    var n, taken := |data|, Upto(cfg.capacity, first, |data|, k);
    PartPositive(cfg.capacity, first, n, k);
    if first == 0 || taken == n {
      LoopOver(cfg, s, data, first, k, t);
    } else {
      var bytes, part := cfg.capacity + n - taken, Part(cfg.capacity, first, data, k + 1);
      var f := Flushed(cfg, s, s.cacheTs, bytes);
      var next := f.(cache := part);
      UptoNext(cfg.capacity, first, n, k);
      PartIs(cfg.capacity, first, data, k);
      MinPositive(cfg.capacity, n - taken);
      TurnFits(cfg, s, n, taken, part, t);
      OneTurn(cfg, s, data, first, k);
      LoopLosesNothing(cfg, next, data, first, k + 1, t);
      RestStep(cfg.capacity, data, first, k);
      var len, upto := PartLen(cfg.capacity, first, n, k + 1), Upto(cfg.capacity, first, n, k + 1);
      ForConcat(t, s.cacheTs, Stream(s, t), part, RestTaken(cfg.capacity, data, len, upto));
    }
  }

  lemma LoopOver(cfg: Config, s: Log, data: Bytes, first: nat, k: nat, t: int)
    requires cfg.capacity > 0 && first <= |data| && (first > 0 || k == 0)
    requires first == 0 || Upto(cfg.capacity, first, |data|, k) == |data|
    ensures var taken, part := Upto(cfg.capacity, first, |data|, k), PartLen(cfg.capacity, first, |data|, k);
            var w := WriteRest(FlushUnder(cfg, s.cacheTs), cfg.capacity, s, data, part, taken).0;
            Stream(w, t) == Stream(s, t) + For(t, s.cacheTs, RestTaken(cfg.capacity, data, part, taken))
  {
    hide Stream, Upto;
    PartPositive(cfg.capacity, first, |data|, k);
    assert Stream(s, t) + [] == Stream(s, t);
  }

  lemma RestStep(capacity: nat, data: Bytes, first: nat, k: nat)
    requires capacity > 0 && 0 < first <= |data| && Upto(capacity, first, |data|, k) < |data|
    ensures RestTaken(capacity, data, PartLen(capacity, first, |data|, k), Upto(capacity, first, |data|, k)) ==
            Part(capacity, first, data, k + 1) +
            RestTaken(capacity, data, PartLen(capacity, first, |data|, k + 1), Upto(capacity, first, |data|, k + 1))
  {
    hide Part, PartLen, Upto;
    UptoNext(capacity, first, |data|, k);
    PartPositive(capacity, first, |data|, k);
    PartIs(capacity, first, data, k);
  }

  lemma TurnFits(cfg: Config, s: Log, n: nat, taken: nat, part: Bytes, t: int)
    requires cfg.capacity > 0 && Valid(cfg, s) && taken < n && LoopFits(cfg, s, n, taken)
    requires |part| == Min(cfg.capacity, n - taken)
    ensures var next := Flushed(cfg, s, s.cacheTs, cfg.capacity + n - taken).(cache := part);
            && Valid(cfg, next) && next.cacheTs == s.cacheTs && LoopFits(cfg, next, n, taken + |part|)
            && Stream(next, t) == Stream(s, t) + For(t, s.cacheTs, part)
  {
    hide Flushed, Stream, Mirrors, DiskSize;
    var f := Flushed(cfg, s, s.cacheTs, cfg.capacity + n - taken);
    assert HasRoom(cfg.limits, s.disk, cfg.capacity + n - taken);
    FlushWithRoom(cfg, s, cfg.capacity + n - taken, t);
    LoopFitsNext(cfg, s, f, part, n, taken);
    CachedStream(f, part, t);
    assert [] + part == part;
  }

  /** The files that are there when the last flush of a write is made. */
  function FilesBefore(cfg: Config, s: Log, ts: int, data: Bytes): set<int>
    requires |s.cache| <= cfg.capacity
  {
    var first := FirstLen(cfg, s, ts, data);
    s.disk.Keys
    + (if ts != s.cacheTs && s.cache != [] && 0 < first < |data| then {s.cacheTs} else {})
    + (if 0 < first && first + cfg.capacity < |data| then {ts} else {})
  }

  /** No flush is needed, or the disk has room for what is cached and for the log, in one more file. */
  ghost predicate WriteFits(cfg: Config, s: Log, ts: int, data: Bytes)
    requires |s.cache| <= cfg.capacity
  {
    var first := FirstLen(cfg, s, ts, data);
    || (ts == s.cacheTs && !(0 < first < |data|))
    || (&& (cfg.limits.maxSize > 0 ==> DiskSize(s.disk) + |s.cache| + |data| <= cfg.limits.maxSize)
        && (cfg.limits.maxLogs > 0 ==>
              |FilesBefore(cfg, s, ts, data)| + (if |s.cache| + |data| > 0 then 1 else 0) <= cfg.limits.maxLogs))
  }

  /** A write that fits loses nothing: every stream is the old one followed by the bytes taken for it. */
  lemma FittingWriteLosesNothing(cfg: Config, s: Log, ts: int, data: Bytes, t: int)
    requires cfg.capacity > 0 && Valid(cfg, s) && |data| <= cfg.limits.maxSize && WriteFits(cfg, s, ts, data)
    ensures Stream(Written(cfg, s, ts, data).0, t) ==
            Stream(s, t) + For(t, ts, Taken(cfg.capacity, Room(cfg, s, ts), data))
  {
    hide *;
    var sw := Switched(cfg, s, ts, |data|);
    Unfolds(cfg, s, ts, data);
    SwitchFits(cfg, s, ts, data, t);
    FilledLosesNothing(cfg, sw, data, t);
  }

  /** A new timestamp finds room for its flush, and leaves room for the loop. */
  lemma SwitchFits(cfg: Config, s: Log, ts: int, data: Bytes, t: int)
    requires cfg.capacity > 0 && Valid(cfg, s) && WriteFits(cfg, s, ts, data)
    ensures var sw := Switched(cfg, s, ts, |data|);
            && Valid(cfg, sw) && sw.cacheTs == ts && Stream(sw, t) == Stream(s, t)
            && cfg.capacity - |sw.cache| == Room(cfg, s, ts)
            && var first := Min(cfg.capacity - |sw.cache|, |data|);
               first > 0 ==> LoopFits(cfg, Cached(cfg, sw, data), |data|, first)
  {
    if ts == s.cacheTs {
      hide Stream, Mirrors, DiskSize;
      assert s.disk.Keys + {} + {} == s.disk.Keys;
    } else {
      NewTimestampFits(cfg, s, ts, data, t);
    }
  }

  lemma NewTimestampFits(cfg: Config, s: Log, ts: int, data: Bytes, t: int)
    requires cfg.capacity > 0 && Valid(cfg, s) && WriteFits(cfg, s, ts, data) && ts != s.cacheTs
    ensures var sw := Switched(cfg, s, ts, |data|);
            && Valid(cfg, sw) && sw.cacheTs == ts && Stream(sw, t) == Stream(s, t) && sw.cache == []
            && var first := Min(cfg.capacity, |data|);
               first > 0 ==> LoopFits(cfg, Cached(cfg, sw, data), |data|, first)
  {
    hide Flushed, Stream, Mirrors, DiskSize, FilesBefore, LoopFits;
    var f := Flushed(cfg, s, s.cacheTs, |s.cache| + |data|);
    FilesGrow(cfg, s, ts, data);
    FlushWithRoom(cfg, s, |s.cache| + |data|, t);
    RetimedStream(f, ts, t);
    LoopFitsAfter(cfg, s, f.(cacheTs := ts), ts, data);
  }

  /** Files are only added until the last flush. */
  lemma FilesGrow(cfg: Config, s: Log, ts: int, data: Bytes)
    requires |s.cache| <= cfg.capacity
    ensures |s.disk| <= |FilesBefore(cfg, s, ts, data)|
  {
    SubsetSmaller(s.disk.Keys, FilesBefore(cfg, s, ts, data));
  }

  lemma LoopFitsAfter(cfg: Config, s: Log, sw: Log, ts: int, data: Bytes)
    requires cfg.capacity > 0 && |s.cache| <= cfg.capacity && WriteFits(cfg, s, ts, data) && ts != s.cacheTs
    requires sw.disk == if s.cache == [] then s.disk else s.disk[s.cacheTs := FileAt(s.disk, s.cacheTs) + s.cache]
    requires sw.cache == [] && sw.cacheTs == ts
    ensures LoopFits(cfg, Cached(cfg, sw, data), |data|, Min(cfg.capacity, |data|))
  {
    hide DiskSize, FilesBefore, FileAt;
    if cfg.capacity < |data| {
      SwitchedCounts(cfg, s, sw.disk, ts, data);
    }
  }

  lemma SwitchedCounts(cfg: Config, s: Log, disk: map<int, Bytes>, ts: int, data: Bytes)
    requires 0 < cfg.capacity < |data| && |s.cache| <= cfg.capacity && ts != s.cacheTs
    requires disk == if s.cache == [] then s.disk else s.disk[s.cacheTs := FileAt(s.disk, s.cacheTs) + s.cache]
    ensures DiskSize(disk) == DiskSize(s.disk) + |s.cache| && |disk| <= |FilesBefore(cfg, s, ts, data)|
    ensures cfg.capacity + cfg.capacity < |data| ==> disk.Keys + {ts} == FilesBefore(cfg, s, ts, data)
  {
    hide DiskSize, FileAt;
    AppendCounts(s.disk, s.cacheTs, s.cache);
    assert disk.Keys == s.disk.Keys + if s.cache == [] then {} else {s.cacheTs};
    SubsetSmaller(disk.Keys, FilesBefore(cfg, s, ts, data));
  }

  lemma FilledLosesNothing(cfg: Config, s: Log, data: Bytes, t: int)
    requires cfg.capacity > 0 && Valid(cfg, s)
    requires var first := Min(cfg.capacity - |s.cache|, |data|);
             first > 0 ==> LoopFits(cfg, Cached(cfg, s, data), |data|, first)
    ensures Stream(WriteTo(cfg, s, s.cacheTs, data).0, t) ==
            Stream(s, t) + For(t, s.cacheTs, Taken(cfg.capacity, cfg.capacity - |s.cache|, data))
  {
    hide WriteRest, RestTaken, FlushUnder, Mirrors, LoopFits, Stream, For;
    var first := Min(cfg.capacity - |s.cache|, |data|);
    assert Upto(cfg.capacity, first, |data|, 0) == first == PartLen(cfg.capacity, first, |data|, 0);
    LoopLosesNothing(cfg, Cached(cfg, s, data), data, first, 0, t);
    CachedStream(s, data[..first], t);
    ForConcat(t, s.cacheTs, Stream(s, t), data[..first], RestTaken(cfg.capacity, data, first, first));
  }
}
