/** What holds of the log file system in every run. */
module LogFsSafety {
  import opened Common
  import opened LogIndex
  import opened LogFs

  // ---------- the index mirrors the disk ----------

  /** One listed file more in the index is one less to do. */
  lemma ScanStep(index: seq<LogFile>, disk: map<int, Bytes>, todo: set<int>, ts: int)
    requires Sorted(index) && AsMap(index) == Sizes(disk) - todo && ts in todo && todo <= disk.Keys
    ensures var next := InsertSorted(index, LogFile(ts, |disk[ts]|));
            Sorted(next) && AsMap(next) == Sizes(disk) - (todo - {ts})
  {
    InsertUpdates(index, LogFile(ts, |disk[ts]|));
    assert Sizes(disk) - (todo - {ts}) == (Sizes(disk) - todo)[ts := |disk[ts]|];
  }

  lemma {:induction false} EmptiedMirrors(lim: Limits, s: Log, bytes: nat)
    requires Mirrors(s.index, s.disk)
    ensures var r := Emptied(lim, s, bytes);
            Mirrors(r.index, r.disk) && (r.index == [] || Fits(lim, r.index, bytes))
    decreases |s.index|
  {
    if s.index != [] && !Fits(lim, s.index, bytes) {
      SortedTail(s.index);
      assert Sizes(s.disk - {s.index[0].ts}) == Sizes(s.disk) - {s.index[0].ts};
      EmptiedMirrors(lim, WithoutOldest(s), bytes);
    }
  }

  /** A file is kept whole or goes whole. */
  lemma {:induction false} EmptiedFiles(lim: Limits, s: Log, bytes: nat, t: int)
    requires Mirrors(s.index, s.disk)
    ensures FileAt(Emptied(lim, s, bytes).disk, t) ==
            if t in AsMap(Evicted(lim, s.index, bytes)) then FileAt(s.disk, t) else []
    decreases |s.index|
  {
    if s.index == [] || Fits(lim, s.index, bytes) {
      assert t in s.disk <==> t in Sizes(s.disk);
    } else {
      SortedTail(s.index);
      EvictedDropsOldest(lim, s.index[1..], bytes);
      assert Sizes(s.disk - {s.index[0].ts}) == Sizes(s.disk) - {s.index[0].ts};
      EmptiedFiles(lim, WithoutOldest(s), bytes, t);
    }
  }

  lemma ReclaimedMirrors(cfg: Config, s: Log, bytes: nat)
    requires Valid(cfg, s)
    ensures var r := Reclaimed(cfg, s, bytes);
            && Mirrors(r.index, r.disk)
            && (r.index == [] || Fits(cfg.limits, r.index, bytes))
            && r.cache == s.cache && r.cacheTs == s.cacheTs
  {
    EmptiedMirrors(cfg.limits, s.(index := Scanned(s)), bytes);
  }

  lemma FlushedMirrors(cfg: Config, s: Log, ts: int, bytes: nat)
    requires Valid(cfg, s)
    ensures var f := Flushed(cfg, s, ts, bytes);
            Mirrors(f.index, f.disk) && f.cache == [] && f.cacheTs == s.cacheTs
  {
    ReclaimedMirrors(cfg, s, bytes);
    AppendedMirrors(Reclaimed(cfg, s, bytes), ts);
  }

  lemma AppendedMirrors(r: Log, ts: int)
    requires Mirrors(r.index, r.disk)
    ensures var f := Indexed(Appended(r, ts), ts);
            Mirrors(f.index, f.disk) && f.cache == [] && f.cacheTs == r.cacheTs
  {
    var a := Appended(r, ts);
    if FileAt(a.disk, ts) != [] {
      InsertUpdates(a.index, LogFile(ts, |a.disk[ts]|));
      assert Sizes(a.disk) == Sizes(r.disk)[ts := |a.disk[ts]|];
    }
  }

  // ---------- limits ----------

  function Max(a: nat, b: nat): nat {
    if a >= b then a else b
  }

  /** At most `maxLogs` files, and at most `maxSize` bytes or one cache of them. */
  predicate WithinLimits(cfg: Config, index: seq<LogFile>) {
    && (cfg.limits.maxLogs > 0 ==> |index| <= cfg.limits.maxLogs)
    && (cfg.limits.maxSize > 0 ==> Total(index) <= Max(cfg.limits.maxSize, cfg.capacity))
  }

  /** Every flush ends within the limits, whatever was on the disk before. */
  lemma FlushedWithinLimits(cfg: Config, s: Log, ts: int, bytes: nat)
    requires Valid(cfg, s) && bytes >= |s.cache|
    ensures WithinLimits(cfg, Flushed(cfg, s, ts, bytes).index)
  {
    ReclaimedMirrors(cfg, s, bytes);
    var r := Reclaimed(cfg, s, bytes);
    var a := Appended(r, ts);
    if FileAt(a.disk, ts) != [] {
      InsertTotal(a.index, LogFile(ts, |a.disk[ts]|));
      if s.cache == [] {
        assert ts in Sizes(r.disk);
      }
    }
  }

  // ---------- where the bytes are ----------

  function Pending(s: Log, ts: int): Bytes {
    if ts == s.cacheTs then s.cache else []
  }

  /** What is stored for a timestamp: its file, then what the cache holds for it. */
  function Stream(s: Log, ts: int): Bytes {
    FileAt(s.disk, ts) + Pending(s, ts)
  }

  predicate IsSuffix(a: Bytes, b: Bytes) {
    |a| <= |b| && a == b[|b| - |a|..]
  }

  lemma SuffixConcat(a: Bytes, b: Bytes, tail: Bytes)
    requires IsSuffix(a, b)
    ensures IsSuffix(a + tail, b + tail)
  {
  }

  lemma SuffixTrans(a: Bytes, b: Bytes, c: Bytes)
    requires IsSuffix(a, b) && IsSuffix(b, c)
    ensures IsSuffix(a, c)
  {
  }

  /** A flush moves the cache to the end of its file and loses nothing but the evicted files. */
  lemma FlushMovesCache(cfg: Config, s: Log, bytes: nat, t: int)
    requires Valid(cfg, s)
    ensures var f := Flushed(cfg, s, s.cacheTs, bytes);
            var kept := t in AsMap(Evicted(cfg.limits, Scanned(s), bytes));
            Stream(f, t) == (if kept then Stream(s, t) else Pending(s, t))
  {
    var r := Reclaimed(cfg, s, bytes);
    EmptiedFiles(cfg.limits, s.(index := Scanned(s)), bytes, t);
    AppendMovesCache(r, t);
    StreamOfKept(s, r, t);
  }

  lemma StreamOfKept(s: Log, r: Log, t: int)
    requires r.cache == s.cache && r.cacheTs == s.cacheTs
    ensures FileAt(r.disk, t) == FileAt(s.disk, t) ==> Stream(r, t) == Stream(s, t)
    ensures FileAt(r.disk, t) == [] ==> Stream(r, t) == Pending(s, t)
  {
    assert [] + Pending(s, t) == Pending(s, t);
  }

  lemma FlushSuffix(cfg: Config, s: Log, bytes: nat, t: int)
    requires Valid(cfg, s)
    ensures IsSuffix(Stream(Flushed(cfg, s, s.cacheTs, bytes), t), Stream(s, t))
  {
    FlushMovesCache(cfg, s, bytes, t);
    PendingIsSuffix(s, t);
  }

  lemma PendingIsSuffix(s: Log, t: int)
    ensures IsSuffix(Pending(s, t), Stream(s, t)) && IsSuffix(Stream(s, t), Stream(s, t))
  {
  }

  lemma AppendMovesCache(s: Log, t: int)
    ensures Stream(Indexed(Appended(s, s.cacheTs), s.cacheTs), t) == Stream(Appended(s, s.cacheTs), t) == Stream(s, t)
  {
    var a := Appended(s, s.cacheTs);
    assert FileAt(a.disk, t) == FileAt(s.disk, t) + Pending(s, t);
    assert Stream(a, t) == FileAt(a.disk, t) + [];
  }

  // ---------- the bytes a write takes ----------

  /** The bytes that the loop of `logfs_write` takes after its first part. */
  function RestTaken(capacity: nat, data: Bytes, written: nat, total: nat): Bytes
    requires capacity > 0 && written <= total <= |data|
    decreases |data| - total
  {
    if written == 0 || total == |data| then [] else
    var part := Min(capacity, |data| - total);
    data[written..written + part] + RestTaken(capacity, data, part, total + part)
  }

  /** The bytes that `logfs_write` takes when `free` bytes of the cache are free. */
  function Taken(capacity: nat, free: nat, data: Bytes): Bytes
    requires capacity > 0
  {
    var first := Min(free, |data|);
    data[..first] + RestTaken(capacity, data, first, first)
  }

  lemma {:induction false} RestTakenLength(capacity: nat, data: Bytes, written: nat, total: nat)
    requires capacity > 0 && written <= total <= |data|
    ensures |RestTaken(capacity, data, written, total)| == if written == 0 then 0 else |data| - total
    decreases |data| - total
  {
    if written > 0 && total < |data| {
      var part := Min(capacity, |data| - total);
      RestTakenLength(capacity, data, part, total + part);
    }
  }

  /** The part of what a write takes that goes to timestamp `t`. */
  function For(t: int, ts: int, bytes: Bytes): Bytes {
    if t == ts then bytes else []
  }

  /** The disk is within the limits, whether or not its files have been listed yet. */
  ghost predicate InLimits(cfg: Config, s: Log) {
    WithinLimits(cfg, Scanned(s))
  }

  /** A flush leaves the cache empty and the disk within limits. */
  ghost predicate FlushedWell(cfg: Config, s: Log, f: Log) {
    Valid(cfg, f) && f.cache == [] && f.cacheTs == s.cacheTs && InLimits(cfg, f)
  }

  lemma FlushIsFlushedWell(cfg: Config, s: Log, bytes: nat)
    requires Valid(cfg, s) && bytes >= |s.cache|
    ensures FlushedWell(cfg, s, Flushed(cfg, s, s.cacheTs, bytes))
  {
    FlushedMirrors(cfg, s, s.cacheTs, bytes);
    FlushedWithinLimits(cfg, s, s.cacheTs, bytes);
    var f := Flushed(cfg, s, s.cacheTs, bytes);
    SortedUnique(f.index, Scan(f.disk));
  }

  ghost predicate FlushesWell(flush: (Log, nat) -> Log, cfg: Config, ts: int) {
    forall s, bytes ::
      Valid(cfg, s) && s.cacheTs == ts && bytes >= cfg.capacity ==> FlushedWell(cfg, s, flush(s, bytes))
  }

  /** ... and for timestamp `t` a suffix of what was there. */
  ghost predicate FlushesSuffix(flush: (Log, nat) -> Log, cfg: Config, ts: int, t: int) {
    forall s, bytes ::
      Valid(cfg, s) && s.cacheTs == ts && bytes >= cfg.capacity ==> IsSuffix(Stream(flush(s, bytes), t), Stream(s, t))
  }

  /** The loop, on any flush that conserves: it keeps the state in order and takes all that is left. */
  lemma {:induction false} WriteRestKeeps(
      flush: (Log, nat) -> Log, cfg: Config, s: Log, data: Bytes, written: nat, total: nat)
    requires cfg.capacity > 0 && written <= total <= |data|
    requires FlushesWell(flush, cfg, s.cacheTs) && Valid(cfg, s)
    ensures var (w, count) := WriteRest(flush, cfg.capacity, s, data, written, total);
            && Valid(cfg, w) && w.cacheTs == s.cacheTs
            && (InLimits(cfg, s) ==> InLimits(cfg, w))
            && count == if written == 0 then total else |data|
    decreases |data| - total
  {
    if written > 0 && total < |data| {
      var part := Min(cfg.capacity, |data| - total);
      var f := flush(s, cfg.capacity + |data| - total);
      WriteRestKeeps(flush, cfg, f.(cache := data[written..written + part]), data, part, total + part);
    }
  }

  /** The loop, on any flush that conserves: it appends what it takes to the stream of its timestamp. */
  lemma {:induction false} WriteRestAppends(
      flush: (Log, nat) -> Log, cfg: Config, s: Log, data: Bytes, written: nat, total: nat, t: int, was: Bytes)
    requires cfg.capacity > 0 && written <= total <= |data|
    requires FlushesWell(flush, cfg, s.cacheTs) && FlushesSuffix(flush, cfg, s.cacheTs, t)
    requires Valid(cfg, s) && IsSuffix(Stream(s, t), was)
    ensures IsSuffix(Stream(WriteRest(flush, cfg.capacity, s, data, written, total).0, t),
                     was + For(t, s.cacheTs, RestTaken(cfg.capacity, data, written, total)))
    decreases |data| - total
  {
    hide Stream, IsSuffix, FlushesWell, FlushesSuffix, Valid;
    if written > 0 && total < |data| {
      var part := Min(cfg.capacity, |data| - total);
      var taken := data[written..written + part];
      var next := AfterTurn(flush, cfg, s, taken, cfg.capacity + |data| - total, t, was);
      WriteRestAppends(flush, cfg, next, data, part, total + part, t, was + For(t, s.cacheTs, taken));
      ForConcat(t, s.cacheTs, was, taken, RestTaken(cfg.capacity, data, part, total + part));
    } else {
      assert was + [] == was;
    }
  }

  /** One turn of the loop: flush, then put the next part into the empty cache. */
  lemma AfterTurn(flush: (Log, nat) -> Log, cfg: Config, s: Log, part: Bytes, bytes: nat, t: int, was: Bytes)
      returns (next: Log)
    requires FlushesWell(flush, cfg, s.cacheTs) && FlushesSuffix(flush, cfg, s.cacheTs, t)
    requires Valid(cfg, s) && IsSuffix(Stream(s, t), was) && |part| <= cfg.capacity <= bytes
    ensures next == flush(s, bytes).(cache := part)
    ensures Valid(cfg, next) && next.cacheTs == s.cacheTs
    ensures IsSuffix(Stream(next, t), was + For(t, s.cacheTs, part))
  {
    var f := flush(s, bytes);
    next := f.(cache := part);
    assert FlushedWell(cfg, s, f);
    SuffixTrans(Stream(f, t), Stream(s, t), was);
    assert f.cache + part == part;
    CachedAppends(f, part, t, was);
  }

  lemma ForConcat(t: int, ts: int, was: Bytes, a: Bytes, b: Bytes)
    ensures was + For(t, ts, a) + For(t, ts, b) == was + For(t, ts, a + b)
  {
  }

  lemma CachedAppends(s: Log, part: Bytes, t: int, was: Bytes)
    requires IsSuffix(Stream(s, t), was)
    ensures IsSuffix(Stream(s.(cache := s.cache + part), t), was + For(t, s.cacheTs, part))
  {
    hide IsSuffix, Stream, For;
    CachedStream(s, part, t);
    SuffixConcat(Stream(s, t), was, For(t, s.cacheTs, part));
  }

  lemma CachedStream(s: Log, part: Bytes, t: int)
    ensures Stream(s.(cache := s.cache + part), t) == Stream(s, t) + For(t, s.cacheTs, part)
  {
  }

  // ---------- the calls ----------

  lemma FlushUnderWell(cfg: Config, ts: int, t: int)
    ensures FlushesWell(FlushUnder(cfg, ts), cfg, ts)
    ensures FlushesSuffix(FlushUnder(cfg, ts), cfg, ts, t)
  {
    forall s, bytes | Valid(cfg, s) && s.cacheTs == ts && bytes >= cfg.capacity
      ensures FlushedWell(cfg, s, FlushUnder(cfg, ts)(s, bytes))
      ensures IsSuffix(Stream(FlushUnder(cfg, ts)(s, bytes), t), Stream(s, t))
    {
      FlushIsFlushedWell(cfg, s, bytes);
      FlushSuffix(cfg, s, bytes, t);
    }
  }

  lemma SwitchKeeps(cfg: Config, s: Log, ts: int, size: nat)
    requires Valid(cfg, s)
    ensures var sw := Switched(cfg, s, ts, size);
            && Valid(cfg, sw) && sw.cacheTs == ts
            && sw.cache == (if ts == s.cacheTs then s.cache else [])
            && (InLimits(cfg, s) ==> InLimits(cfg, sw))
  {
    hide Flushed, Mirrors;
    if ts != s.cacheTs {
      FlushIsFlushedWell(cfg, s, |s.cache| + size);
    }
  }

  lemma SwitchSuffix(cfg: Config, s: Log, ts: int, size: nat, t: int)
    requires Valid(cfg, s)
    ensures IsSuffix(Stream(Switched(cfg, s, ts, size), t), Stream(s, t))
  {
    hide Flushed;
    if ts != s.cacheTs {
      FlushEmptiesCache(cfg, s, s.cacheTs, |s.cache| + size);
      FlushSuffix(cfg, s, |s.cache| + size, t);
      RetimedStream(Flushed(cfg, s, s.cacheTs, |s.cache| + size), ts, t);
    }
  }

  lemma RetimedStream(f: Log, ts: int, t: int)
    requires f.cache == []
    ensures Stream(f.(cacheTs := ts), t) == Stream(f, t)
  {
  }

  /** The room a write for `ts` finds in the cache. */
  function Room(cfg: Config, s: Log, ts: int): nat
    requires |s.cache| <= cfg.capacity
  {
    if ts == s.cacheTs then cfg.capacity - |s.cache| else cfg.capacity
  }

  /**
   `logfs_write` returns how many bytes it took, and for every timestamp what is then
   stored is a contiguous suffix of what was stored followed by the bytes taken for it.
   */
  lemma WriteAppends(cfg: Config, s: Log, ts: int, data: Bytes, t: int)
    requires cfg.capacity > 0 && Valid(cfg, s)
    ensures var (w, ret) := Written(cfg, s, ts, data);
            && Valid(cfg, w) && (InLimits(cfg, s) ==> InLimits(cfg, w))
            && if |data| > cfg.limits.maxSize then w == s && ret == -EFBIG
               else var taken := Taken(cfg.capacity, Room(cfg, s, ts), data);
                    && ret == |taken|
                    && IsSuffix(Stream(w, t), Stream(s, t) + For(t, ts, taken))
  {
    hide Flushed, Switched, WriteTo, Taken, Mirrors, InLimits, Stream, IsSuffix, For;
    if |data| <= cfg.limits.maxSize {
      var sw := Switched(cfg, s, ts, |data|);
      SwitchKeeps(cfg, s, ts, |data|);
      SwitchSuffix(cfg, s, ts, |data|, t);
      WriteToKeeps(cfg, sw, data);
      WriteToAppends(cfg, sw, data, t, Stream(s, t));
    }
  }

  lemma WriteToKeeps(cfg: Config, s: Log, data: Bytes)
    requires cfg.capacity > 0 && Valid(cfg, s)
    ensures var (w, count) := WriteTo(cfg, s, s.cacheTs, data);
            && Valid(cfg, w) && (InLimits(cfg, s) ==> InLimits(cfg, w))
            && count == |Taken(cfg.capacity, cfg.capacity - |s.cache|, data)|
  {
    hide FlushUnder;
    var first := Min(cfg.capacity - |s.cache|, |data|);
    FlushUnderWell(cfg, s.cacheTs, 0);
    WriteRestKeeps(FlushUnder(cfg, s.cacheTs), cfg, Cached(cfg, s, data), data, first, first);
    RestTakenLength(cfg.capacity, data, first, first);
  }

  lemma WriteToAppends(cfg: Config, s: Log, data: Bytes, t: int, was: Bytes)
    requires cfg.capacity > 0 && Valid(cfg, s) && IsSuffix(Stream(s, t), was)
    ensures IsSuffix(Stream(WriteTo(cfg, s, s.cacheTs, data).0, t),
                     was + For(t, s.cacheTs, Taken(cfg.capacity, cfg.capacity - |s.cache|, data)))
  {
    hide FlushUnder;
    var ts, first := s.cacheTs, Min(cfg.capacity - |s.cache|, |data|);
    FlushUnderWell(cfg, ts, t);
    CachedAppends(s, data[..first], t, was);
    WriteRestAppends(FlushUnder(cfg, ts), cfg, Cached(cfg, s, data), data, first, first, t,
                     was + For(t, ts, data[..first]));
    ForConcat(t, ts, was, data[..first], RestTaken(cfg.capacity, data, first, first));
  }

  /** A write that meets a full cache takes nothing; any other takes all of an admissible log. */
  lemma TakenLength(capacity: nat, free: nat, data: Bytes)
    requires capacity > 0
    ensures |Taken(capacity, free, data)| == if free == 0 then 0 else |data|
  {
    var first := Min(free, |data|);
    RestTakenLength(capacity, data, first, first);
  }

  /** The bytes taken are the first bytes of the log for every log of length `n`. */
  ghost predicate TakesPrefix(capacity: nat, free: nat, n: nat)
    requires capacity > 0
  {
    forall data: Bytes :: |data| == n ==> Taken(capacity, free, data) <= data
  }

  /** That is so exactly for a full cache, or a log no longer than the free room and one whole cache. */
  lemma TakesPrefixIff(capacity: nat, free: nat, n: nat)
    requires capacity > 0
    ensures TakesPrefix(capacity, free, n) <==> free == 0 || n <= free + capacity
  {
    if free == 0 || n <= free + capacity {
      forall data: Bytes | |data| == n
        ensures Taken(capacity, free, data) <= data
      {
        TakesOneTurn(capacity, free, data);
      }
    } else {
      var data: Bytes := seq(n, i => if i == free + capacity then 1 else 0);
      ReadsWrongPart(capacity, free, data);
    }
  }

  lemma TakesOneTurn(capacity: nat, free: nat, data: Bytes)
    requires capacity > 0 && (free == 0 || |data| <= free + capacity)
    ensures Taken(capacity, free, data) <= data
  {
    var first := Min(free, |data|);
    if 0 < first < |data| {
      var part := |data| - first;
      assert RestTaken(capacity, data, part, |data|) == [];
      assert RestTaken(capacity, data, first, first) == data[first..];
    }
  }

  /** The second turn of the loop starts at offset `capacity` of the log instead of `free + capacity`. */
  lemma ReadsWrongPart(capacity: nat, free: nat, data: Bytes)
    requires capacity > 0 && free > 0 && |data| > free + capacity
    ensures |Taken(capacity, free, data)| == |data|
    ensures Taken(capacity, free, data)[free + capacity] == data[capacity]
  {
    TakenLength(capacity, free, data);
    var total := free + capacity;
    var part := Min(capacity, |data| - total);
    var later := RestTaken(capacity, data, part, total + part);
    assert RestTaken(capacity, data, capacity, total) == data[capacity..capacity + part] + later;
    assert RestTaken(capacity, data, free, free) == data[free..total] + (data[capacity..capacity + part] + later);
  }

  // ---------- runs ----------

  datatype Op = Write(ts: int, data: Bytes) | Flush | Delete(ts: int) | Clear

  ghost function Apply(cfg: Config, s: Log, op: Op): Log
    requires cfg.capacity > 0 && |s.cache| <= cfg.capacity
  {
    match op
    case Write(ts, data) => Written(cfg, s, ts, data).0
    case Flush => Flushed(cfg, s, s.cacheTs, |s.cache|)
    case Delete(ts) => Deleted(s, ts).0
    case Clear => Cleared(s)
  }

  /** The bytes an operation accepts for timestamp `t`. */
  function AcceptedBy(cfg: Config, s: Log, op: Op, t: int): Bytes
    requires cfg.capacity > 0 && |s.cache| <= cfg.capacity
  {
    if op.Write? && op.ts == t && |op.data| <= cfg.limits.maxSize
    then Taken(cfg.capacity, Room(cfg, s, t), op.data)
    else []
  }

  lemma ApplyConserves(cfg: Config, s: Log, op: Op, t: int)
    requires cfg.capacity > 0 && Valid(cfg, s)
    ensures var n := Apply(cfg, s, op);
            && Valid(cfg, n) && (InLimits(cfg, s) ==> InLimits(cfg, n))
            && IsSuffix(Stream(n, t), Stream(s, t) + AcceptedBy(cfg, s, op, t))
  {
    hide Written, Flushed, Deleted, Cleared, Stream, IsSuffix, Taken, Mirrors;
    assert Stream(s, t) + [] == Stream(s, t);
    match op
    case Write(ts, data) =>
      PendingIsSuffix(s, t);
      WriteAppends(cfg, s, ts, data, t);
    case Flush =>
      FlushIsFlushedWell(cfg, s, |s.cache|);
      FlushSuffix(cfg, s, |s.cache|, t);
    case Delete(ts) => DeleteConserves(cfg, s, ts, t);
    case Clear => ClearConserves(cfg, s, t);
  }

  lemma DeleteConserves(cfg: Config, s: Log, ts: int, t: int)
    requires Valid(cfg, s)
    ensures var n := Deleted(s, ts).0;
            && Valid(cfg, n) && (InLimits(cfg, s) ==> InLimits(cfg, n))
            && Stream(n, t) == (if t == ts then Pending(s, t) else Stream(s, t))
            && IsSuffix(Stream(n, t), Stream(s, t))
    ensures ts !in Deleted(s, ts).0.disk
    ensures Deleted(s, ts).1 == if ts in s.disk && s.index != [] then 0 else -2
  {
    var n := Deleted(s, ts).0;
    assert ts in s.disk ==> ts in Sizes(s.disk);
    var listed := Scanned(s);
    RemoveDeletes(listed, ts);
    RemoveShrinks(listed, ts);
    assert Sizes(s.disk - {ts}) == Sizes(s.disk) - {ts};
    assert s.index == [] ==> n.index == [];
    if ts in s.disk {
      SortedUnique(Scanned(n), Remove(listed, ts));
    }
  }

  lemma ClearConserves(cfg: Config, s: Log, t: int)
    requires Valid(cfg, s)
    ensures var n := Cleared(s);
            && Valid(cfg, n) && (InLimits(cfg, s) ==> InLimits(cfg, n))
            && IsSuffix(Stream(n, t), Stream(s, t))
            && (n.disk == map[] <==> s.index != [] || s.disk == map[])
  {
    var n := Cleared(s);
    EmptyMap(s.index);
    if s.index != [] {
      assert n.disk == map[];
      EmptyMap(Scan(n.disk));
    } else {
      assert n.disk == s.disk;
    }
  }

  ghost function Run(cfg: Config, s: Log, ops: seq<Op>): (n: Log)
    requires cfg.capacity > 0 && Valid(cfg, s)
    ensures Valid(cfg, n)
    decreases |ops|
  {
    if ops == [] then s else
    ApplyConserves(cfg, s, ops[0], 0);
    Run(cfg, Apply(cfg, s, ops[0]), ops[1..])
  }

  /** All bytes a run accepts for timestamp `t`, in order. */
  ghost function Accepted(cfg: Config, s: Log, ops: seq<Op>, t: int): Bytes
    requires cfg.capacity > 0 && Valid(cfg, s)
    decreases |ops|
  {
    if ops == [] then [] else
    ApplyConserves(cfg, s, ops[0], 0);
    AcceptedBy(cfg, s, ops[0], t) + Accepted(cfg, Apply(cfg, s, ops[0]), ops[1..], t)
  }

  lemma {:induction false} RunConserves(cfg: Config, s: Log, ops: seq<Op>, t: int, was: Bytes)
    requires cfg.capacity > 0 && Valid(cfg, s) && IsSuffix(Stream(s, t), was)
    ensures IsSuffix(Stream(Run(cfg, s, ops), t), was + Accepted(cfg, s, ops, t))
    ensures InLimits(cfg, s) ==> InLimits(cfg, Run(cfg, s, ops))
    decreases |ops|
  {
    if ops == [] {
      assert was + [] == was;
    } else {
      var taken, next := AcceptedBy(cfg, s, ops[0], t), Apply(cfg, s, ops[0]);
      ApplyConserves(cfg, s, ops[0], t);
      SuffixConcat(Stream(s, t), was, taken);
      SuffixTrans(Stream(next, t), Stream(s, t) + taken, was + taken);
      RunConserves(cfg, next, ops[1..], t, was + taken);
      ForConcat(t, t, was, taken, Accepted(cfg, next, ops[1..], t));
    }
  }

  /** The state after boot: an empty cache and an unlisted disk. */
  function Boot(disk: map<int, Bytes>): Log {
    Log([], 0, [], disk)
  }

  /**
   In every run from boot, for every timestamp, the file followed by what the cache holds
   for it is a contiguous suffix of the file at boot followed by the bytes accepted since;
   the index is empty or mirrors the disk; and a disk once within the limits stays there.
   */
  lemma NothingReordered(cfg: Config, disk: map<int, Bytes>, ops: seq<Op>, t: int)
    requires cfg.capacity > 0
    ensures var s := Run(cfg, Boot(disk), ops);
            && IsSuffix(FileAt(s.disk, t) + Pending(s, t), FileAt(disk, t) + Accepted(cfg, Boot(disk), ops, t))
            && (s.index == [] || Mirrors(s.index, s.disk))
            && (WithinLimits(cfg, Scan(disk)) ==> InLimits(cfg, s))
  {
    assert Stream(Boot(disk), t) == FileAt(disk, t);
    RunConserves(cfg, Boot(disk), ops, t, FileAt(disk, t));
  }

  /** A log no longer than the cache is accepted from its start, whole unless the cache is full. */
  lemma ShortWriteIsFaithful(cfg: Config, s: Log, ts: int, data: Bytes)
    requires cfg.capacity > 0 && Valid(cfg, s)
    requires |data| <= cfg.capacity && |data| <= cfg.limits.maxSize
    ensures var ret := Written(cfg, s, ts, data).1;
            && ret == (if Room(cfg, s, ts) == 0 then 0 else |data|)
            && AcceptedBy(cfg, s, Write(ts, data), ts) == data[..ret]
  {
    WriteAppends(cfg, s, ts, data, ts);
    TakenLength(cfg.capacity, Room(cfg, s, ts), data);
    TakesOneTurn(cfg.capacity, Room(cfg, s, ts), data);
  }

  /** A size limit of 0, which the limits read as none, makes every write of a nonempty log fail. */
  lemma ZeroSizeLimitRefusesAll(cfg: Config, s: Log, ts: int, data: Bytes)
    requires cfg.capacity > 0 && Valid(cfg, s) && cfg.limits.maxSize == 0
    ensures Written(cfg, s, ts, data).1 < 0 <==> data != []
    ensures SizeFits(cfg.limits, s.index, |data|)
  {
    WriteAppends(cfg, s, ts, data, ts);
  }
}
