/** The UID store behaves like a plain map. */
module UidStoreSafety {
  import opened Common
  import opened UidStore

  // ---------- files ----------

  /** Records lie in the file of their id, and no id but the tombstone's occurs twice. */
  ghost predicate FileOk(shard: Shard, file: seq<Record>) {
    && (forall i :: 0 <= i < |file| ==> file[i].id == ZERO_ID || ShardOf(file[i].id) == shard)
    && (forall i, j :: 0 <= i < j < |file| ==> file[i].id != file[j].id || file[i].id == ZERO_ID)
  }

  ghost predicate FilesOk(s: Store) {
    forall shard :: shard in s.files ==> FileOk(shard, s.files[shard])
  }

  lemma SavedOk(shard: Shard, file: seq<Record>, r: Record)
    requires FileOk(shard, file) && ShardOf(r.id) == shard
    ensures FileOk(shard, Saved(file, r))
  {
  }

  lemma ErasedOk(shard: Shard, file: seq<Record>, id: Id)
    requires FileOk(shard, file)
    ensures FileOk(shard, Erased(file, id))
  {
  }

  /** Saving a record makes it the one found for its id and leaves the others. */
  lemma SavedFinds(file: seq<Record>, r: Record, id: Id)
    ensures var saved := Saved(file, r);
            var k, was := Find(saved, id, 0), Find(file, id, 0);
            if id == r.id then k < |saved| && saved[k] == r
            else (k < |saved| <==> was < |file|) && (was < |file| ==> saved[k] == file[was])
  {
    var saved, p := Saved(file, r), Find(file, r.id, 0);
    assert saved[p] == r;
    assert forall i :: 0 <= i < |file| && i != p ==> saved[i] == file[i];
    var was := Find(file, id, 0);
    assert was < |file| && id != r.id ==> saved[was] == file[was];
  }

  /** Erasing an id makes it absent and leaves the others. */
  lemma ErasedFinds(shard: Shard, file: seq<Record>, gone: Id, id: Id)
    requires FileOk(shard, file) && gone != ZERO_ID && id != ZERO_ID
    ensures var erased := Erased(file, gone);
            var k, was := Find(erased, id, 0), Find(file, id, 0);
            if id == gone then k == |erased|
            else (k < |erased| <==> was < |file|) && (was < |file| ==> erased[k] == file[was])
  {
    var erased := Erased(file, gone);
    ErasedAt(shard, file, gone);
    hide Erased, FileOk, Find;
    var was := Find(file, id, 0);
    assert was < |file| && id != gone ==> erased[was] == file[was];
  }

  /** Only the record of the erased id changes. */
  lemma ErasedAt(shard: Shard, file: seq<Record>, gone: Id)
    requires FileOk(shard, file) && gone != ZERO_ID
    ensures var erased := Erased(file, gone);
            && |erased| == |file|
            && forall i :: 0 <= i < |file| ==> erased[i] == if file[i].id == gone then TOMBSTONE else file[i]
  {
    var p := Find(file, gone, 0);
    assert forall i :: 0 <= i < |file| && i != p ==> file[i].id != gone;
  }

  /** The record that is found for an id lies in the file of its first two bytes. */
  lemma RecordLiesIn(s: Store, id: Id)
    ensures Lookup(s, id).Some? ==>
              && (id[0], id[1]) in s.files
              && Lookup(s, id).value in s.files[(id[0], id[1])]
              && Lookup(s, id).value.id == id
  {
  }

  // ---------- the invariant ----------

  /** Every cached entry is the on-file record of its id, in the slot of its id. */
  ghost predicate Valid(s: Store) {
    && NoneFreed(s) && FilesOk(s)
    && forall h :: 0 <= h < |s.cache| && s.cache[h].Entry? ==> RecordOk(s, h, s.cache[h].record)
  }

  ghost predicate RecordOk(s: Store, h: nat, r: Record)
    requires |s.cache| > 0
  {
    r.id != ZERO_ID && Hash(r.id, |s.cache|) == h && Lookup(s, r.id) == Some(r)
  }

  // ---------- the plain map ----------

  /** What the map keeps for an id; the parent id is open when the last update gave none. */
  datatype Value = Value(status: Status, expiry: int, pid: Option<Id>)

  type Model = map<Id, Value>

  ghost predicate Agrees(r: Record, v: Value) {
    r.status == v.status && r.expiry == v.expiry && (v.pid.Some? ==> r.pid == v.pid.value)
  }

  ghost predicate Represents(s: Store, m: Model) {
    forall id: Id :: id != ZERO_ID ==>
      && (Lookup(s, id).Some? <==> id in m)
      && (id in m ==> Agrees(Lookup(s, id).value, m[id]))
  }

  ghost function MapApply(m: Model, op: Op): Model {
    match op
    case Update(id, pid, status, expiry) => m[id := Value(status, expiry, pid)]
    case Delete(id) => m - {id}
    case Query(_) => m
    case Clear => map[]
  }

  /** The reply is the one a plain map gives. */
  ghost predicate ReplyFits(m: Model, op: Op, reply: Reply) {
    match op
    case Query(id) =>
      if id in m
      then && reply.Found? && reply.status == m[id].status && reply.expiry == m[id].expiry
           && (m[id].pid.Some? ==> reply.pid == m[id].pid.value)
      else reply == NotFound
    case Delete(id) => reply == Done(if id in m then 0 else -ENOENT)
    case _ => reply == Done(0)
  }

  /** An absent id must not be looked up while its slot holds another one. */
  predicate SafeToQuery(s: Store, id: Id)
    requires |s.cache| > 0
  {
    Lookup(s, id).Some? || SlotOf(s, id).Empty?
  }

  predicate Admissible(s: Store, op: Op)
    requires |s.cache| > 0
  {
    match op
    case Update(id, _, _, _) => id != ZERO_ID
    case Delete(id) => id != ZERO_ID
    case Query(id) => id != ZERO_ID && SafeToQuery(s, id)
    case Clear => true
  }

  // ---------- one operation ----------

  /** `n` is `s` with another slot for `id` and, in the files, another record for `id` at most. */
  ghost predicate DiffersAt(s: Store, n: Store, id: Id, slot: Slot)
    requires |s.cache| > 0
  {
    && n.cache == s.cache[Hash(id, |s.cache|) := slot]
    && forall other: Id :: other != id && other != ZERO_ID ==> Lookup(n, other) == Lookup(s, other)
  }

  lemma ChangeKeepsValid(s: Store, n: Store, id: Id, slot: Slot)
    requires Valid(s) && DiffersAt(s, n, id, slot) && FilesOk(n)
    requires !slot.Freed? && (slot.Entry? ==> slot.record.id != ZERO_ID)
    requires Holds(slot, id) ==> Lookup(n, id) == Some(slot.record)
    requires slot.Entry? && slot.record.id != id ==> slot == SlotOf(s, id)
    ensures Valid(n)
  {
    var hash := Hash(id, |s.cache|);
    forall h | 0 <= h < |n.cache| && n.cache[h].Entry?
      ensures RecordOk(n, h, n.cache[h].record)
    {
      var r := n.cache[h].record;
      if h != hash || r.id != id {
        assert n.cache[h] == s.cache[h];
        assert RecordOk(s, h, r);
        assert Lookup(n, r.id) == Lookup(s, r.id);
      }
    }
  }

  lemma ChangeRepresents(s: Store, n: Store, id: Id, slot: Slot, m: Model, v: Option<Value>)
    requires |s.cache| > 0 && DiffersAt(s, n, id, slot) && Represents(s, m)
    requires Lookup(n, id).Some? <==> v.Some?
    requires v.Some? ==> Agrees(Lookup(n, id).value, v.value)
    ensures Represents(n, if v.Some? then m[id := v.value] else m - {id})
  {
    var m' := if v.Some? then m[id := v.value] else m - {id};
    forall other: Id | other != ZERO_ID
      ensures (Lookup(n, other).Some? <==> other in m')
      ensures other in m' ==> Agrees(Lookup(n, other).value, m'[other])
    {
      if other != id {
        assert Lookup(n, other) == Lookup(s, other);
      }
    }
  }

  lemma UpdateRefines(s: Store, m: Model, id: Id, pid: Option<Id>, status: Status, expiry: int)
    requires Valid(s) && Represents(s, m) && id != ZERO_ID
    ensures var n := Updated(s, id, pid, status, expiry);
            Valid(n) && Represents(n, m[id := Value(status, expiry, pid)])
  {
    var n := Updated(s, id, pid, status, expiry);
    var r := SlotOf(n, id).record;
    UpdateLookups(s, n, id, r);
    ChangeKeepsValid(s, n, id, Entry(r));
    ChangeRepresents(s, n, id, Entry(r), m, Some(Value(status, expiry, pid)));
  }

  lemma UpdateLookups(s: Store, n: Store, id: Id, r: Record)
    requires |s.cache| > 0 && FilesOk(s) && r.id == id
    requires n == WithSlot(s, id, Entry(r)).(files := s.files[ShardOf(id) := Saved(FileOf(s, id), r)])
    ensures DiffersAt(s, n, id, Entry(r)) && FilesOk(n) && Lookup(n, id) == Some(r)
  {
    SavedOk(ShardOf(id), FileOf(s, id), r);
    SavedFinds(FileOf(s, id), r, id);
    forall other: Id | other != id && other != ZERO_ID
      ensures Lookup(n, other) == Lookup(s, other)
    {
      SavedFinds(FileOf(s, id), r, other);
    }
  }

  lemma DeleteRefines(s: Store, m: Model, id: Id)
    requires Valid(s) && Represents(s, m) && id != ZERO_ID
    ensures var (n, err) := Deleted(s, id);
            Valid(n) && Represents(n, m - {id}) && err == if id in m then 0 else -ENOENT
  {
    var n := Deleted(s, id).0;
    var slot := if Holds(SlotOf(s, id), id) then Empty else SlotOf(s, id);
    assert SlotOf(s, id).Entry? ==> RecordOk(s, Hash(id, |s.cache|), SlotOf(s, id).record);
    DeleteLookups(s, n, id, slot);
    ChangeKeepsValid(s, n, id, slot);
    ChangeRepresents(s, n, id, slot, m, None);
  }

  lemma DeleteLookups(s: Store, n: Store, id: Id, slot: Slot)
    requires |s.cache| > 0 && FilesOk(s) && id != ZERO_ID
    requires if Lookup(s, id).Some?
             then n == WithSlot(s, id, slot).(files := s.files[ShardOf(id) := Erased(FileOf(s, id), id)])
             else n == WithSlot(s, id, slot)
    ensures DiffersAt(s, n, id, slot) && FilesOk(n) && Lookup(n, id) == None
  {
    ErasedOk(ShardOf(id), FileOf(s, id), id);
    assert FileOf(n, id) == Erased(FileOf(s, id), id);
    forall other: Id | other != ZERO_ID
      ensures Lookup(n, other) == if other == id then None else Lookup(s, other)
    {
      DeleteLookup(s, n, id, other);
    }
  }

  lemma DeleteLookup(s: Store, n: Store, id: Id, other: Id)
    requires FilesOk(s) && id != ZERO_ID && other != ZERO_ID
    requires FileOf(n, id) == Erased(FileOf(s, id), id)
    requires ShardOf(other) != ShardOf(id) ==> FileOf(n, other) == FileOf(s, other)
    ensures Lookup(n, other) == if other == id then None else Lookup(s, other)
  {
    hide Erased, Find;
    if ShardOf(other) == ShardOf(id) {
      ErasedFinds(ShardOf(id), FileOf(s, id), id, other);
    }
  }

  /** A query answers from the map; it keeps the store valid exactly when it was safe. */
  lemma QueryRefines(s: Store, m: Model, id: Id)
    requires Valid(s) && Represents(s, m) && id != ZERO_ID
    ensures var (n, reply) := Queried(s, id);
            && ReplyFits(m, Query(id), reply)
            && (Valid(n) <==> SafeToQuery(s, id))
            && Represents(n, m)
  {
    var n := Queried(s, id).0;
    var slot, h := SlotOf(s, id), Hash(id, |s.cache|);
    assert slot.Entry? ==> RecordOk(s, h, slot.record);
    SameFiles(s, n);
    if !Holds(slot, id) {
      if Lookup(s, id).Some? {
        ChangeKeepsValid(s, n, id, Entry(Lookup(s, id).value));
      } else if slot.Entry? {
        assert n.cache[h].Freed?;
      }
    }
  }

  lemma SameFiles(s: Store, n: Store)
    requires s.files == n.files
    ensures forall id: Id :: Lookup(n, id) == Lookup(s, id)
    ensures FilesOk(s) <==> FilesOk(n)
  {
  }

  lemma ApplyRefines(s: Store, m: Model, op: Op)
    requires Valid(s) && Represents(s, m) && Admissible(s, op)
    ensures var (n, reply) := Apply(s, op);
            Valid(n) && Represents(n, MapApply(m, op)) && ReplyFits(m, op, reply)
  {
    match op
    case Update(id, pid, status, expiry) => UpdateRefines(s, m, id, pid, status, expiry);
    case Delete(id) => DeleteRefines(s, m, id);
    case Query(id) => QueryRefines(s, m, id);
    case Clear =>
  }

  // ---------- runs ----------

  predicate AdmissibleRun(s: Store, ops: seq<Op>)
    decreases |ops|
  {
    && NoneFreed(s)
    && (ops != [] ==> Admissible(s, ops[0]) && AdmissibleRun(Apply(s, ops[0]).0, ops[1..]))
  }

  function Run(s: Store, ops: seq<Op>): (Store, seq<Reply>)
    requires AdmissibleRun(s, ops)
    decreases |ops|
  {
    if ops == [] then (s, []) else
    var (next, reply) := Apply(s, ops[0]);
    var (last, replies) := Run(next, ops[1..]);
    (last, [reply] + replies)
  }

  ghost function MapRun(m: Model, ops: seq<Op>): Model
    decreases |ops|
  {
    if ops == [] then m else MapRun(MapApply(m, ops[0]), ops[1..])
  }

  /** Every reply is the one the map gives at that point of the run. */
  ghost predicate RepliesFit(m: Model, ops: seq<Op>, replies: seq<Reply>)
    decreases |ops|
  {
    && |replies| == |ops|
    && (ops != [] ==> ReplyFits(m, ops[0], replies[0]) && RepliesFit(MapApply(m, ops[0]), ops[1..], replies[1..]))
  }

  lemma {:induction false} RunRefines(s: Store, m: Model, ops: seq<Op>)
    requires Valid(s) && Represents(s, m) && AdmissibleRun(s, ops)
    ensures var (last, replies) := Run(s, ops);
            Valid(last) && Represents(last, MapRun(m, ops)) && RepliesFit(m, ops, replies)
    decreases |ops|
  {
    if ops == [] {
    } else {
      var (next, reply) := Apply(s, ops[0]);
      ApplyRefines(s, m, ops[0]);
      RunRefines(next, MapApply(m, ops[0]), ops[1..]);
      var replies := Run(next, ops[1..]).1;
      assert ([reply] + replies)[1..] == replies;
    }
  }

  // ---------- from boot on ----------

  /** The map that the record files hold. */
  ghost function Contents(files: map<Shard, seq<Record>>): Model {
    var s := Store([], files);
    map id | id in Ids(files) && id != ZERO_ID && Lookup(s, id).Some? ::
      var r := Lookup(s, id).value; Value(r.status, r.expiry, Some(r.pid))
  }

  ghost function Ids(files: map<Shard, seq<Record>>): set<Id> {
    set shard, i | shard in files && 0 <= i < |files[shard]| :: files[shard][i].id
  }

  lemma OpenedRepresents(capacity: nat, files: map<Shard, seq<Record>>)
    ensures Represents(Opened(capacity, files), Contents(files))
  {
    var s, m := Opened(capacity, files), Contents(files);
    forall id: Id | id != ZERO_ID
      ensures Lookup(s, id).Some? <==> id in m
      ensures id in m ==> Agrees(Lookup(s, id).value, m[id])
    {
      assert Lookup(s, id) == Lookup(Store([], files), id);
      if Lookup(s, id).Some? {
        assert files[ShardOf(id)][Find(FileOf(s, id), id, 0)].id == id;
        assert id in Ids(files);
      }
    }
  }

  /**
   From a store of any capacity opened over any sound record files, every admissible run of
   updates, deletes, queries and clears replies as the map in the files does, and ends with every
   cached entry equal to its record on file.
   */
  lemma StoreIsMap(capacity: nat, files: map<Shard, seq<Record>>, ops: seq<Op>)
    requires capacity > 0 && FilesOk(Opened(capacity, files)) && AdmissibleRun(Opened(capacity, files), ops)
    ensures var (last, replies) := Run(Opened(capacity, files), ops);
            var m := Contents(files);
            Valid(last) && Represents(last, MapRun(m, ops)) && RepliesFit(m, ops, replies)
  {
    OpenedRepresents(capacity, files);
    RunRefines(Opened(capacity, files), Contents(files), ops);
  }

  // ---------- the all-zero id ----------

  /** Deleting leaves a tombstone, which a lookup of the all-zero id takes for a record. */
  lemma DeleteBuries(s: Store, id: Id)
    requires Valid(s) && id != ZERO_ID
    ensures Lookup(Deleted(s, id).0, ZERO_ID).Some? <==>
            Lookup(s, ZERO_ID).Some? || (id[0] == 0 == id[1] && Lookup(s, id).Some?)
    ensures var was, now := Lookup(s, ZERO_ID), Lookup(Deleted(s, id).0, ZERO_ID);
            was.None? && now.Some? ==> now.value == Record(ZERO_ID, ZERO_ID, 0, Unknown)
  {
    var n := Deleted(s, id).0;
    var was, now := FileOf(s, ZERO_ID), FileOf(n, ZERO_ID);
    var k, z := Find(FileOf(s, id), id, 0), Find(was, ZERO_ID, 0);
    assert ShardOf(id) == ShardOf(ZERO_ID) && Lookup(s, id).Some? ==> now[k] == TOMBSTONE;
    assert z < |was| ==> now[z].id == ZERO_ID;
  }

  /** Whether a tombstone lies in the file of the all-zero id, told from the map alone. */
  ghost function BuriedAfter(buried: bool, m: Model, op: Op): bool {
    match op
    case Delete(id) => buried || (ShardOf(id) == ShardOf(ZERO_ID) && id in m)
    case Clear => false
    case _ => buried
  }

  ghost function Buried(buried: bool, m: Model, ops: seq<Op>): bool
    decreases |ops|
  {
    if ops == [] then buried else Buried(BuriedAfter(buried, m, ops[0]), MapApply(m, ops[0]), ops[1..])
  }

  lemma UpdateBuries(s: Store, id: Id, pid: Option<Id>, status: Status, expiry: int)
    requires Valid(s) && id != ZERO_ID
    ensures Lookup(Updated(s, id, pid, status, expiry), ZERO_ID).Some? <==> Lookup(s, ZERO_ID).Some?
  {
    SavedFinds(FileOf(s, id), SlotOf(Updated(s, id, pid, status, expiry), id).record, ZERO_ID);
  }

  lemma ApplyBuries(s: Store, m: Model, op: Op)
    requires Valid(s) && Represents(s, m) && Admissible(s, op)
    ensures Lookup(Apply(s, op).0, ZERO_ID).Some? <==> BuriedAfter(Lookup(s, ZERO_ID).Some?, m, op)
  {
    hide Updated, Deleted, Queried, Lookup, Agrees;
    match op
    case Update(id, pid, status, expiry) => UpdateBuries(s, id, pid, status, expiry);
    case Delete(id) => DeleteBuries(s, id);
    case Query(id) => QueryKeepsFiles(s, id);
    case Clear => ClearFindsNone(s, ZERO_ID);
  }

  lemma QueryKeepsFiles(s: Store, id: Id)
    requires |s.cache| > 0 && !SlotOf(s, id).Freed?
    ensures forall other: Id :: Lookup(Queried(s, id).0, other) == Lookup(s, other)
  {
    SameFiles(s, Queried(s, id).0);
  }

  lemma ClearFindsNone(s: Store, id: Id)
    ensures Lookup(Cleared(s), id) == None
  {
  }

  /**
   In every admissible run the all-zero id is found exactly when it was found before, or an id of
   its file that was present has been deleted, and nothing has been cleared since.
   */
  lemma {:induction false} ZeroIdFoundIff(s: Store, m: Model, ops: seq<Op>)
    requires Valid(s) && Represents(s, m) && AdmissibleRun(s, ops)
    ensures Lookup(Run(s, ops).0, ZERO_ID).Some? <==> Buried(Lookup(s, ZERO_ID).Some?, m, ops)
    decreases |ops|
  {
    if ops == [] {
    } else {
      ApplyRefines(s, m, ops[0]);
      ApplyBuries(s, m, ops[0]);
      ZeroIdFoundIff(Apply(s, ops[0]).0, MapApply(m, ops[0]), ops[1..]);
    }
  }

  // ---------- parents ----------

  /** The parent on file, or the zero id when there is none. */
  function OwnParent(s: Store, id: Id): Id {
    if Lookup(s, id).Some? then Lookup(s, id).value.pid else ZERO_ID
  }

  /** The slot holds the id, or is empty and there is no parent to lose, or holds another id with the same parent. */
  predicate ParentSafe(s: Store, id: Id)
    requires |s.cache| > 0
  {
    match SlotOf(s, id)
    case Entry(r) => r.id == id || r.pid == OwnParent(s, id)
    case _ => OwnParent(s, id) == ZERO_ID
  }

  /** An update without a parent keeps the id's own parent exactly in those cases; else it stores another's or none. */
  lemma ParentKeptIff(s: Store, id: Id, status: Status, expiry: int)
    requires Valid(s) && id != ZERO_ID
    ensures var n := Updated(s, id, None, status, expiry);
            && Lookup(n, id) == Some(Record(id, LeftoverPid(SlotOf(s, id)), expiry, status))
            && (OwnParent(n, id) == OwnParent(s, id) <==> ParentSafe(s, id))
  {
    var n := Updated(s, id, None, status, expiry);
    UpdateLookups(s, n, id, SlotOf(n, id).record);
    var slot := SlotOf(s, id);
    assert slot.Entry? ==> RecordOk(s, Hash(id, |s.cache|), slot.record);
  }

  /** Both failing cases are reached: the slot taken over by another id, and then emptied by deleting that one. */
  lemma ParentUnsafeReached(a: Id, b: Id, p: Id, q: Id, status: Status, expiry: int)
      returns (taken: seq<Op>, emptied: seq<Op>)
    requires a != ZERO_ID && b != ZERO_ID && p != ZERO_ID && a != b && p != q
    ensures var s := Opened(1, map[]);
            && AdmissibleRun(s, taken) && AdmissibleRun(s, emptied)
            && var one, two := Run(s, taken).0, Run(s, emptied).0;
               && Valid(one) && SlotOf(one, a).Entry? && !ParentSafe(one, a)
               && Valid(two) && SlotOf(two, a).Empty? && !ParentSafe(two, a)
  {
    var s := Opened(1, map[]);
    var op1, op2, op3 := Update(a, Some(p), status, expiry), Update(b, Some(q), status, expiry), Delete(b);
    taken, emptied := [op1, op2], [op1, op2, op3];
    var s1 := Apply(s, op1).0;
    var s2 := Apply(s1, op2).0;
    var s3 := Apply(s2, op3).0;
    OneSlotTaken(s, a, b, p, q, status, expiry);
    RunThree(s, op1, op2, op3);
  }

  lemma OneSlotTaken(s: Store, a: Id, b: Id, p: Id, q: Id, status: Status, expiry: int)
    requires s == Opened(1, map[]) && a != ZERO_ID && b != ZERO_ID && a != b
    ensures var s1 := Updated(s, a, Some(p), status, expiry);
            && Valid(s1)
            && var s2 := Updated(s1, b, Some(q), status, expiry);
               && Valid(s2) && SlotOf(s2, a) == Entry(Record(b, q, expiry, status)) && OwnParent(s2, a) == p
               && var s3 := Deleted(s2, b).0;
                  Valid(s3) && SlotOf(s3, a) == Empty && OwnParent(s3, a) == p
  {
    var s1 := Updated(s, a, Some(p), status, expiry);
    var s2 := Updated(s1, b, Some(q), status, expiry);
    var s3 := Deleted(s2, b).0;
    OpenedRepresents(1, map[]);
    UpdateRefines(s, Contents(map[]), a, Some(p), status, expiry);
    var m1 := Contents(map[])[a := Value(status, expiry, Some(p))];
    UpdateRefines(s1, m1, b, Some(q), status, expiry);
    var m2 := m1[b := Value(status, expiry, Some(q))];
    DeleteRefines(s2, m2, b);
    assert Hash(a, 1) == 0 == Hash(b, 1);
    assert Agrees(Lookup(s2, a).value, m2[a]) && Agrees(Lookup(s3, a).value, (m2 - {b})[a]);
  }

  /** An unsafe lookup is reached too: any absent id, in a store of one slot that another id has filled. */
  lemma UnsafeQueryReached(a: Id, b: Id, pid: Option<Id>, status: Status, expiry: int) returns (ops: seq<Op>)
    requires a != ZERO_ID && b != ZERO_ID && a != b
    ensures AdmissibleRun(Opened(1, map[]), ops)
    ensures var s := Run(Opened(1, map[]), ops).0;
            && Valid(s) && !SafeToQuery(s, b)
            && Queried(s, b).1 == NotFound && SlotOf(Queried(s, b).0, a).Freed?
  {
    var s, op := Opened(1, map[]), Update(a, pid, status, expiry);
    ops := [op];
    OpenedRepresents(1, map[]);
    UpdateRefines(s, Contents(map[]), a, pid, status, expiry);
    RunCons(s, op, []);
    assert [op] == [op] + [];
    var n := Updated(s, a, pid, status, expiry);
    UpdateLookups(s, n, a, SlotOf(n, a).record);
    assert Lookup(n, b) == Lookup(s, b) == None && Hash(a, 1) == 0 == Hash(b, 1);
  }

  lemma RunThree(s: Store, op1: Op, op2: Op, op3: Op)
    requires NoneFreed(s) && Admissible(s, op1) && NoneFreed(Apply(s, op1).0)
    requires Admissible(Apply(s, op1).0, op2) && NoneFreed(Apply(Apply(s, op1).0, op2).0)
    requires Admissible(Apply(Apply(s, op1).0, op2).0, op3) && NoneFreed(Apply(Apply(Apply(s, op1).0, op2).0, op3).0)
    ensures AdmissibleRun(s, [op1, op2]) && Run(s, [op1, op2]).0 == Apply(Apply(s, op1).0, op2).0
    ensures AdmissibleRun(s, [op1, op2, op3])
    ensures Run(s, [op1, op2, op3]).0 == Apply(Apply(Apply(s, op1).0, op2).0, op3).0
  {
    hide Apply, Admissible;
    var s1, s2 := Apply(s, op1).0, Apply(Apply(s, op1).0, op2).0;
    RunCons(s2, op3, []);
    RunCons(s1, op2, []);
    RunCons(s1, op2, [op3]);
    RunCons(s, op1, [op2]);
    RunCons(s, op1, [op2, op3]);
    assert [op2] == [op2] + [] && [op3] == [op3] + [] && [op2, op3] == [op2] + [op3];
    assert [op1, op2] == [op1] + [op2] && [op1, op2, op3] == [op1] + [op2, op3];
  }

  lemma RunCons(s: Store, op: Op, ops: seq<Op>)
    requires NoneFreed(s) && Admissible(s, op) && AdmissibleRun(Apply(s, op).0, ops)
    ensures AdmissibleRun(s, [op] + ops) && Run(s, [op] + ops).0 == Run(Apply(s, op).0, ops).0
  {
    hide Apply, Admissible;
    assert ([op] + ops)[1..] == ops;
  }
}
