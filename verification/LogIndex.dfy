/** The sorted index of log files kept in memory, and oldest-first eviction (src/fs/logfs.c). */
module LogIndex {

  datatype LogFile = LogFile(ts: int, size: nat)

  /** Limits on the number of files and on their total size; 0 means no limit. */
  datatype Limits = Limits(maxSize: nat, maxLogs: nat)

  predicate Sorted(index: seq<LogFile>) {
    forall i, j :: 0 <= i < j < |index| ==> index[i].ts < index[j].ts
  }

  /** The index as a finite map from timestamps to sizes. */
  function AsMap(index: seq<LogFile>): map<int, nat> {
    if index == [] then map[] else AsMap(index[1..])[index[0].ts := index[0].size]
  }

  function Total(index: seq<LogFile>): nat {
    if index == [] then 0 else index[0].size + Total(index[1..])
  }

  /** `add_list_sorted`: replaces an entry with the same timestamp, or inserts before the first later one. */
  function InsertSorted(index: seq<LogFile>, file: LogFile): seq<LogFile> {
    if index == [] then [file]
    else if file.ts == index[0].ts then [file] + index[1..]
    else if file.ts < index[0].ts then [file] + index
    else [index[0]] + InsertSorted(index[1..], file)
  }

  /** `delete_list` */
  function Remove(index: seq<LogFile>, ts: int): seq<LogFile> {
    if index == [] then []
    else if index[0].ts == ts then index[1..]
    else [index[0]] + Remove(index[1..], ts)
  }

  // ---------- the index is a sorted map ----------

  lemma {:induction false} KeysAreEntries(index: seq<LogFile>, ts: int)
    ensures ts in AsMap(index) <==> exists i :: 0 <= i < |index| && index[i].ts == ts
  {
    if index == [] {
    } else {
      KeysAreEntries(index[1..], ts);
      if ts in AsMap(index[1..]) {
        var i :| 0 <= i < |index[1..]| && index[1..][i].ts == ts;
        assert index[i + 1].ts == ts;
      }
      if i :| 0 <= i < |index| && index[i].ts == ts && i > 0 {
        assert index[1..][i - 1].ts == ts;
      }
    }
  }

  lemma SortedTail(index: seq<LogFile>)
    requires Sorted(index) && index != []
    ensures Sorted(index[1..])
    ensures forall ts :: ts in AsMap(index[1..]) ==> index[0].ts < ts
    ensures AsMap(index[1..]) == AsMap(index) - {index[0].ts}
  {
    forall ts | ts in AsMap(index[1..])
      ensures index[0].ts < ts
    {
      KeysAreEntries(index[1..], ts);
    }
  }

  lemma SortedCons(file: LogFile, index: seq<LogFile>)
    requires Sorted(index)
    requires forall ts :: ts in AsMap(index) ==> file.ts < ts
    ensures Sorted([file] + index)
    ensures AsMap([file] + index) == AsMap(index)[file.ts := file.size]
  {
    assert ([file] + index)[1..] == index;
    forall i | 0 <= i < |index|
      ensures file.ts < index[i].ts
    {
      KeysAreEntries(index, index[i].ts);
    }
  }

  /** Inserting is updating the map, and keeps the order. */
  lemma {:induction false} InsertUpdates(index: seq<LogFile>, file: LogFile)
    requires Sorted(index)
    ensures Sorted(InsertSorted(index, file))
    ensures AsMap(InsertSorted(index, file)) == AsMap(index)[file.ts := file.size]
  {
    if index == [] {
      SortedCons(file, []);
    } else {
      SortedTail(index);
      if file.ts == index[0].ts {
        SortedCons(file, index[1..]);
      } else if file.ts < index[0].ts {
        SortedCons(file, index);
      } else {
        InsertUpdates(index[1..], file);
        SortedCons(index[0], InsertSorted(index[1..], file));
      }
    }
  }

  /** Where the list walk of `add_list_sorted` stops is where the entry belongs. */
  lemma {:induction false} InsertAt(index: seq<LogFile>, file: LogFile, i: nat)
    requires i <= |index|
    requires forall j :: 0 <= j < i ==> index[j].ts < file.ts
    requires i < |index| ==> file.ts <= index[i].ts
    ensures InsertSorted(index, file) ==
            index[..i] + [file] + index[if i < |index| && index[i].ts == file.ts then i + 1 else i..]
  {
    if i == 0 {
    } else {
      InsertAt(index[1..], file, i - 1);
      var rest := if i < |index| && index[i].ts == file.ts then i + 1 else i;
      assert index[..i] == [index[0]] + index[1..][..i - 1];
      assert index[1..][rest - 1..] == index[rest..];
    }
  }

  /** The walk of `delete_list` stops at the first entry with the timestamp, if there is one. */
  lemma {:induction false} RemoveAt(index: seq<LogFile>, ts: int, i: nat)
    requires i <= |index|
    requires forall j :: 0 <= j < i ==> index[j].ts != ts
    requires i < |index| ==> index[i].ts == ts
    ensures Remove(index, ts) == index[..i] + index[if i < |index| then i + 1 else i..]
    ensures ts in AsMap(index) <==> i < |index|
  {
    if i == 0 {
    } else {
      RemoveAt(index[1..], ts, i - 1);
      var rest := if i < |index| then i + 1 else i;
      assert index[..i] == [index[0]] + index[1..][..i - 1];
      assert index[1..][rest - 1..] == index[rest..];
    }
  }

  /** Removing is taking the key out of the map, and keeps the order. */
  lemma {:induction false} RemoveDeletes(index: seq<LogFile>, ts: int)
    requires Sorted(index)
    ensures Sorted(Remove(index, ts))
    ensures AsMap(Remove(index, ts)) == AsMap(index) - {ts}
  {
    if index == [] {
    } else {
      SortedTail(index);
      if index[0].ts != ts {
        RemoveDeletes(index[1..], ts);
        SortedCons(index[0], Remove(index[1..], ts));
      }
    }
  }

  lemma EmptyMap(index: seq<LogFile>)
    ensures AsMap(index) == map[] <==> index == []
  {
    if index != [] {
      assert index[0].ts in AsMap(index);
    }
  }

  /** A sorted index is determined by its map. */
  lemma {:induction false} SortedUnique(a: seq<LogFile>, b: seq<LogFile>)
    requires Sorted(a) && Sorted(b) && AsMap(a) == AsMap(b)
    ensures a == b
    decreases |a|
  {
    EmptyMap(a);
    EmptyMap(b);
    if a == [] {
    } else {
      assert a[0].ts in AsMap(b);
      SortedTail(a);
      SortedTail(b);
      assert b[0].ts in AsMap(a);
      SortedUnique(a[1..], b[1..]);
    }
  }

  /** The total after an insertion, when the file grew by `added` bytes. */
  lemma {:induction false} InsertTotal(index: seq<LogFile>, file: LogFile)
    requires Sorted(index)
    ensures Total(InsertSorted(index, file)) ==
            Total(index) + file.size - (if file.ts in AsMap(index) then AsMap(index)[file.ts] else 0)
    ensures |InsertSorted(index, file)| == |index| + if file.ts in AsMap(index) then 0 else 1
  {
    if index != [] {
      SortedTail(index);
      if file.ts == index[0].ts {
        assert ([file] + index[1..])[1..] == index[1..];
      } else if file.ts < index[0].ts {
        assert ([file] + index)[1..] == index;
      } else {
        InsertTotal(index[1..], file);
        var rest := InsertSorted(index[1..], file);
        assert ([index[0]] + rest)[1..] == rest;
      }
    } else {
      assert [file][1..] == [];
    }
  }

  lemma {:induction false} RemoveShrinks(index: seq<LogFile>, ts: int)
    ensures |Remove(index, ts)| <= |index| && Total(Remove(index, ts)) <= Total(index)
  {
    if index != [] && index[0].ts != ts {
      RemoveShrinks(index[1..], ts);
      assert ([index[0]] + Remove(index[1..], ts))[1..] == Remove(index[1..], ts);
    }
  }

  // ---------- eviction ----------

  /** Room for `bytes` more, in one more file when there are any. */
  predicate Fits(lim: Limits, index: seq<LogFile>, bytes: nat) {
    && CountFits(lim, index, bytes)
    && SizeFits(lim, index, bytes)
  }

  predicate CountFits(lim: Limits, index: seq<LogFile>, bytes: nat) {
    lim.maxLogs == 0 || |index| + (if bytes > 0 then 1 else 0) <= lim.maxLogs
  }

  predicate SizeFits(lim: Limits, index: seq<LogFile>, bytes: nat) {
    lim.maxSize == 0 || Total(index) + bytes <= lim.maxSize
  }

  /** The oldest files go until both limits leave room, or nothing is left. */
  function Evicted(lim: Limits, index: seq<LogFile>, bytes: nat): seq<LogFile> {
    if index == [] || Fits(lim, index, bytes) then index else Evicted(lim, index[1..], bytes)
  }

  /** What goes is the shortest prefix whose removal makes room. */
  lemma {:induction false} EvictsShortestPrefix(lim: Limits, index: seq<LogFile>, bytes: nat) returns (k: nat)
    ensures k <= |index| && Evicted(lim, index, bytes) == index[k..]
    ensures k == |index| || Fits(lim, index[k..], bytes)
    ensures forall j :: 0 <= j < k ==> !Fits(lim, index[j..], bytes)
  {
    k := 0;
    if index != [] && !Fits(lim, index, bytes) {
      k := EvictsShortestPrefix(lim, index[1..], bytes);
      forall j | 0 <= j < k + 1
        ensures !Fits(lim, index[j..], bytes)
      {
        assert j == 0 ==> index[j..] == index;
        assert j > 0 ==> index[j..] == index[1..][j - 1..];
      }
      assert index[1..][k..] == index[k + 1..];
      k := k + 1;
    }
  }

  /** Eviction keeps the order, and keeps or drops each entry whole; what it drops is older than what it keeps. */
  lemma {:induction false} EvictedDropsOldest(lim: Limits, index: seq<LogFile>, bytes: nat)
    requires Sorted(index)
    ensures var kept := Evicted(lim, index, bytes);
            && Sorted(kept) && |kept| <= |index|
            && (forall ts :: ts in AsMap(kept) ==> ts in AsMap(index) && AsMap(kept)[ts] == AsMap(index)[ts])
            && (forall gone, stays ::
                  gone in AsMap(index) && gone !in AsMap(kept) && stays in AsMap(kept) ==> gone < stays)
            && (kept == [] || Fits(lim, kept, bytes))
  {
    if index != [] && !Fits(lim, index, bytes) {
      SortedTail(index);
      EvictedDropsOldest(lim, index[1..], bytes);
    }
  }
}
