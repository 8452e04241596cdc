/**
 The UID store (src/uid.c): a direct-mapped cache of entries over record files,
 one file per pair of leading id bytes, with zeroed records as tombstones.
 Storage does not fail.
 */
module UidStore {
  import opened CInt
  import opened Common

  const ID_LEN := 21
  const ENOENT := 2

  type Id = s: seq<u8> | |s| == ID_LEN witness seq(ID_LEN, _ => 0)

  const ZERO_ID: Id := [0, 0, 0, 0, 0, 0, 0, 0, 0, 0, 0, 0, 0, 0, 0, 0, 0, 0, 0, 0, 0]

  datatype Status = Unknown | Accepted | Blocked | Expired | Invalid | NoEntry

  datatype Record = Record(id: Id, pid: Id, expiry: int, status: Status)

  /** What `memset` with zeros makes of a record. */
  const TOMBSTONE := Record(ZERO_ID, ZERO_ID, 0, Unknown)

  /** A cache slot: no entry, an entry, or a pointer to an entry that has been freed. */
  datatype Slot = Empty | Entry(record: Record) | Freed

  type Shard = (u8, u8)

  function ShardOf(id: Id): Shard {
    (id[0], id[1])
  }

  datatype Store = Store(cache: seq<Slot>, files: map<Shard, seq<Record>>)

  // ---------- hashing ----------

  /** One turn of 32-bit FNV-1a; the exclusive or reaches the low byte only. */
  function FnvStep(h: u32, b: u8): u32 {
    Wrap32((h - h % 256 + (((h % 256) as bv8) ^ (b as bv8)) as int) * 16777619)
  }

  function Fnv(bytes: seq<u8>): u32 {
    if bytes == [] then 2166136261 else FnvStep(Fnv(bytes[..|bytes| - 1]), bytes[|bytes| - 1])
  }

  /** The hashes that are published for the empty string and for "a" and "b". */
  lemma FnvVectors()
    ensures Fnv([]) == 0x811C9DC5 && Fnv([0x61]) == 0xE40C292C && Fnv([0x62]) == 0xE70C2DE5
  {
    hide FnvStep;
    FnvOne(0x61);
    FnvOne(0x62);
    StepVectors();
  }

  lemma FnvOne(b: u8)
    ensures Fnv([b]) == FnvStep(0x811C9DC5, b)
  {
    hide FnvStep;
    var bytes: seq<u8> := [b];
    assert bytes[..0] == [];
  }

  lemma StepVectors()
    ensures FnvStep(0x811C9DC5, 0x61) == 0xE40C292C && FnvStep(0x811C9DC5, 0x62) == 0xE70C2DE5
  {
    assert (0xC5 as bv8) ^ (0x61 as bv8) == 0xA4;
    assert (0xC5 as bv8) ^ (0x62 as bv8) == 0xA7;
  }

  function Hash(id: Id, capacity: nat): (h: nat)
    requires capacity > 0
    ensures h < capacity
  {
    Fnv(id) % capacity
  }

  // ---------- record files ----------

  function FileOf(s: Store, id: Id): seq<Record> {
    if ShardOf(id) in s.files then s.files[ShardOf(id)] else []
  }

  /** The first record of `id`, or the end of the file. */
  function Find(file: seq<Record>, id: Id, from: nat): (k: nat)
    requires from <= |file|
    ensures from <= k <= |file|
    ensures k < |file| ==> file[k].id == id
    ensures forall j :: from <= j < k ==> file[j].id != id
    decreases |file| - from
  {
    if from == |file| || file[from].id == id then from else Find(file, id, from + 1)
  }

  function Lookup(s: Store, id: Id): Option<Record> {
    if Find(FileOf(s, id), id, 0) < |FileOf(s, id)| then Some(FileOf(s, id)[Find(FileOf(s, id), id, 0)]) else None
  }

  /** `save_entry_into_file`: over the record of the same id, or at the end. */
  function Saved(file: seq<Record>, r: Record): seq<Record> {
    var k := Find(file, r.id, 0);
    if k < |file| then file[k := r] else file + [r]
  }

  /** `remove_entry_from_file` */
  function Erased(file: seq<Record>, id: Id): seq<Record> {
    var k := Find(file, id, 0);
    if k < |file| then file[k := TOMBSTONE] else file
  }

  // ---------- operations ----------

  datatype Op =
    | Update(id: Id, pid: Option<Id>, status: Status, expiry: int)
    | Delete(id: Id)
    | Query(id: Id)
    | Clear

  datatype Reply = Done(err: int) | Found(status: Status, expiry: int, pid: Id) | NotFound

  function ReplyOf(r: Record): Reply {
    Found(r.status, r.expiry, r.pid)
  }

  function SlotOf(s: Store, id: Id): Slot
    requires |s.cache| > 0
  {
    s.cache[Hash(id, |s.cache|)]
  }

  function WithSlot(s: Store, id: Id, slot: Slot): Store
    requires |s.cache| > 0
  {
    s.(cache := s.cache[Hash(id, |s.cache|) := slot])
  }

  predicate Holds(slot: Slot, id: Id) {
    slot.Entry? && slot.record.id == id
  }

  /** `uid_status`: on a miss the file is read into the slot's entry, which is freed if nothing is found. */
  function Queried(s: Store, id: Id): (Store, Reply)
    requires |s.cache| > 0 && !SlotOf(s, id).Freed?
  {
    var slot := SlotOf(s, id);
    if Holds(slot, id) then (s, ReplyOf(slot.record))
    else match Lookup(s, id)
         case Some(r) => (WithSlot(s, id, Entry(r)), ReplyOf(r))
         case None => (if slot.Empty? then s else WithSlot(s, id, Freed), NotFound)
  }

  /** The parent id an update without one leaves in the entry. */
  function LeftoverPid(slot: Slot): Id {
    if slot.Entry? then slot.record.pid else ZERO_ID
  }

  /** `uid_update` */
  function Updated(s: Store, id: Id, pid: Option<Id>, status: Status, expiry: int): Store
    requires |s.cache| > 0 && !SlotOf(s, id).Freed?
  {
    var r := Record(id, if pid.Some? then pid.value else LeftoverPid(SlotOf(s, id)), expiry, status);
    WithSlot(s, id, Entry(r)).(files := s.files[ShardOf(id) := Saved(FileOf(s, id), r)])
  }

  /** `uid_delete` */
  function Deleted(s: Store, id: Id): (Store, int)
    requires |s.cache| > 0 && !SlotOf(s, id).Freed?
  {
    var slot := if Holds(SlotOf(s, id), id) then Empty else SlotOf(s, id);
    match Lookup(s, id)
    case Some(_) =>
      (WithSlot(s, id, slot).(files := s.files[ShardOf(id) := Erased(FileOf(s, id), id)]), 0)
    case None => (WithSlot(s, id, slot), -ENOENT)
  }

  /** `uid_clear` */
  function Cleared(s: Store): Store {
    Store(seq(|s.cache|, _ => Empty), map[])
  }

  /** A store opened over the record files that are there. */
  function Opened(capacity: nat, files: map<Shard, seq<Record>>): Store {
    Store(seq(capacity, _ => Empty), files)
  }

  /** No slot points to a freed entry. */
  predicate NoneFreed(s: Store) {
    |s.cache| > 0 && forall h :: 0 <= h < |s.cache| ==> !s.cache[h].Freed?
  }

  function Apply(s: Store, op: Op): (Store, Reply)
    requires NoneFreed(s)
  {
    match op
    case Update(id, pid, status, expiry) => (Updated(s, id, pid, status, expiry), Done(0))
    case Delete(id) => var (next, err) := Deleted(s, id); (next, Done(err))
    case Query(id) => Queried(s, id)
    case Clear => (Cleared(s), Done(0))
  }

  // ---------- the object ----------

  class UidCache {
    const cache: array<Slot>
    var files: map<Shard, seq<Record>>

    constructor (capacity: nat, files: map<Shard, seq<Record>>)
      requires capacity > 0
      ensures View() == Opened(capacity, files)
      ensures fresh(cache)
    {
      cache := new Slot[capacity](_ => Empty);
      this.files := files;
    }

    function View(): Store
      reads this, cache
    {
      Store(cache[..], files)
    }

    method HashUid(id: Id) returns (h: nat)
      requires cache.Length > 0
      ensures h == Hash(id, cache.Length)
    {
      var acc: u32 := 2166136261;
      for i := 0 to |id|
        invariant acc == Fnv(id[..i])
      {
        assert id[..i + 1][..i] == id[..i];
        acc := FnvStep(acc, id[i]);
      }
      assert id[..|id|] == id;
      h := acc % cache.Length;
    }

    /** The record scan of `read_entry_from_file`. */
    method ReadEntry(id: Id) returns (found: bool, k: nat, record: Record)
      ensures k == Find(FileOf(View(), id), id, 0)
      ensures found <==> k < |FileOf(View(), id)|
      ensures found ==> record == FileOf(View(), id)[k]
    {
      found, k, record := false, 0, TOMBSTONE;
      var file := FileOf(View(), id);
      while k < |file|
        invariant k <= |file|
        invariant Find(file, id, 0) == Find(file, id, k)
      {
        record := file[k];
        if record.id == id {
          found := true;
          return;
        }
        k := k + 1;
      }
    }

    method GetStatus(id: Id) returns (reply: Reply)
      requires NoneFreed(View())
      modifies this, cache
      ensures (View(), reply) == Queried(old(View()), id)
    {
      var h := HashUid(id);
      var slot := cache[h];
      if Holds(slot, id) {
        return ReplyOf(slot.record);
      }
      var found, _, record := ReadEntry(id);
      if found {
        cache[h] := Entry(record);
        return ReplyOf(record);
      }
      if !slot.Empty? {
        cache[h] := Freed;
      }
      reply := NotFound;
    }

    method SetStatus(id: Id, pid: Option<Id>, status: Status, expiry: int)
      requires NoneFreed(View())
      modifies this, cache
      ensures View() == Updated(old(View()), id, pid, status, expiry)
    {
      var h := HashUid(id);
      var r := Record(id, if pid.Some? then pid.value else LeftoverPid(cache[h]), expiry, status);
      cache[h] := Entry(r);
      var found, k, _ := ReadEntry(id);
      var file := FileOf(View(), id);
      files := files[ShardOf(id) := if found then file[k := r] else file + [r]];
    }

    method Remove(id: Id) returns (err: int)
      requires NoneFreed(View())
      modifies this, cache
      ensures (View(), err) == Deleted(old(View()), id)
    {
      var h := HashUid(id);
      ghost var slot := if Holds(cache[h], id) then Empty else cache[h];
      if Holds(cache[h], id) {
        cache[h] := Empty;
      }
      assert View() == WithSlot(old(View()), id, slot);
      var found, k, _ := ReadEntry(id);
      err := -ENOENT;
      if found {
        files := files[ShardOf(id) := FileOf(View(), id)[k := TOMBSTONE]];
        err := 0;
      }
    }

    /**
     The cache, and then the walk over the directories and the files in each, in whatever order
     they are listed; `listed` is the result of listing the top directory.
     */
    method ClearAll(dirs: seq<u8>, filesIn: u8 -> seq<u8>, listed: int) returns (err: int)
      requires forall hi: u8, lo: u8 :: (hi, lo) in files <==> hi in dirs && lo in filesIn(hi)
      modifies this, cache
      ensures View() == Cleared(old(View())) && err == listed
    {
      for i := 0 to cache.Length
        invariant forall j :: 0 <= j < i ==> cache[j] == Empty
        invariant files == old(files)
      {
        cache[i] := Empty;
      }
      for i := 0 to |dirs|
        invariant forall j :: 0 <= j < cache.Length ==> cache[j] == Empty
        invariant files.Keys <= old(files).Keys && forall shard :: shard in files ==> shard.0 !in dirs[..i]
      {
        ClearDir(dirs[i], filesIn(dirs[i]));
      }
      assert dirs[..|dirs|] == dirs;
      assert forall shard :: shard !in files;
      assert files == map[];
      err := listed;
    }

    /** The files of one directory. */
    method ClearDir(dir: u8, names: seq<u8>)
      requires forall lo: u8 :: (dir, lo) in files ==> lo in names
      modifies this`files
      ensures files.Keys == set shard | shard in old(files) && shard.0 != dir
    {
      for i := 0 to |names|
        invariant files.Keys <= old(files).Keys
        invariant forall shard :: shard in old(files) && shard.0 != dir ==> shard in files
        invariant forall shard :: shard in files && shard.0 == dir ==> shard.1 !in names[..i]
      {
        files := files - {(dir, names[i])};
      }
      assert names[..|names|] == names;
    }
  }
}
