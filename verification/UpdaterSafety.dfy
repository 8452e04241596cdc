/** What holds in every run of the firmware updater. */
module UpdaterSafety {
  import opened Common
  import opened Updater

  ghost predicate Inv(u: Updater) {
    && (u.dfu.Some? ==> u.date.Some? && u.written == |u.flash| && u.dfu.value < u.handles)
    && (u.dfu.None? ==> u.ring == [])
    && (IsPending(u) ==> u.written == 0 && u.error == 0)
  }

  // ---------- chunks ----------

  lemma ReceivedKeeps(headerSize: nat, u: Updater, c: Chunk)
    ensures var r := Received(headerSize, u, c);
            && r.date == u.date && r.dfu == u.dfu && r.handles == u.handles && r.started == u.started
            && (u.written == |u.flash| ==> r.written == |r.flash|)
            && (u.error != 0 ==> r.error == u.error && r.flash == u.flash)
  {
  }

  /** Chunks leave the session alone, and after an error nothing more is written. */
  lemma {:induction false} DeliveredKeeps(headerSize: nat, u: Updater, chunks: seq<Chunk>)
    ensures var d := Delivered(headerSize, u, chunks);
            && d.date == u.date && d.dfu == u.dfu && d.handles == u.handles && d.started == u.started
            && (u.written == |u.flash| ==> d.written == |d.flash|)
            && (u.error != 0 ==> d.error == u.error && d.flash == u.flash)
    decreases |chunks|
  {
    if chunks == [] {
    } else {
      ReceivedKeeps(headerSize, u, chunks[0]);
      DeliveredKeeps(headerSize, Received(headerSize, u, chunks[0]), chunks[1..]);
    }
  }

  /** The ring buffer never holds more than its 4096 bytes, failing writes or not. */
  lemma {:induction false} RingIsBounded(headerSize: nat, u: Updater, chunks: seq<Chunk>)
    requires |u.ring| <= 4096
    ensures |Delivered(headerSize, u, chunks).ring| <= 4096
    decreases |chunks|
  {
    if chunks == [] {
    } else {
      RingIsBounded(headerSize, Received(headerSize, u, chunks[0]), chunks[1..]);
    }
  }

  // ---------- notifications come in sessions ----------

  datatype Session = NotPrepared | Failed | TimedOut | NotInstalled | Completed

  function NotesOf(s: Session): seq<Event> {
    match s
    case NotPrepared => [ErrorPreparing]
    case Failed => [StartDownloading, ErrorDownloading]
    case TimedOut => [StartDownloading, ErrorTimeout]
    case NotInstalled => [StartDownloading, Downloaded, StartInstalling, ErrorInstalling]
    case Completed => [StartDownloading, Downloaded, StartInstalling, Installed, RebootRequired]
  }

  function Transcript(sessions: seq<Session>): seq<Event> {
    if sessions == [] then [] else NotesOf(sessions[0]) + Transcript(sessions[1..])
  }

  /** The part of the current session that has been notified. */
  function OpenNotes(u: Updater): seq<Event> {
    if IsUpdating(u) then [StartDownloading] else []
  }

  function SessionOf(e: Event): Session {
    match e
    case Installed => Completed
    case ErrorInstalling => NotInstalled
    case ErrorTimeout => TimedOut
    case _ => Failed
  }

  lemma FinishNotes(d: Updater, err: int, env: Env)
    ensures var e := FinishEvent(d, err, env);
            [StartDownloading] + Dispatched(e) == NotesOf(SessionOf(e))
  {
  }

  /** One operation completes at most one session, and opens at most one. */
  lemma ProcessSession(headerSize: nat, u: Updater, env: Env) returns (ended: seq<Session>)
    requires Inv(u)
    ensures var o := Processed(headerSize, u, env);
            && Inv(o.updater) && |ended| <= 1
            && OpenNotes(u) + o.notes == (if ended == [] then [] else NotesOf(ended[0])) + OpenNotes(o.updater)
  {
    ended := [];
    var o := Processed(headerSize, u, env);
    if IsUpdating(u) {
      DeliveredKeeps(headerSize, u, env.chunks);
      if !IsUpdating(o.updater) {
        var d := Delivered(headerSize, u, env.chunks);
        var err := if env.now - u.started >= TIMEOUT_SEC then -ETIMEDOUT else env.result;
        FinishNotes(d, err, env);
        ended := [SessionOf(FinishEvent(d, err, env))];
      }
    } else if IsPending(u) && u.date.value <= env.now && !IsUpdating(o.updater) {
      ended := [NotPrepared];
    }
  }

  lemma ApplySession(headerSize: nat, u: Updater, op: Op) returns (ended: seq<Session>)
    requires Inv(u)
    ensures var o := Apply(headerSize, u, op);
            && Inv(o.updater) && |ended| <= 1
            && OpenNotes(u) + o.notes == (if ended == [] then [] else NotesOf(ended[0])) + OpenNotes(o.updater)
  {
    match op
    case Process(env) => ended := ProcessSession(headerSize, u, env);
    case Request(_) => ended := [];
  }

  lemma {:induction false} RunSessions(headerSize: nat, u: Updater, ops: seq<Op>) returns (ended: seq<Session>)
    requires Inv(u)
    ensures var o := Run(headerSize, u, ops);
            && Inv(o.updater)
            && OpenNotes(u) + o.notes == Transcript(ended) + OpenNotes(o.updater)
    decreases |ops|
  {
    if ops == [] {
      ended := [];
    } else {
      var first := ApplySession(headerSize, u, ops[0]);
      var one := Apply(headerSize, u, ops[0]);
      var later := RunSessions(headerSize, one.updater, ops[1..]);
      ended := first + later;
      TranscriptPrepend(first, later);
      var rest := Run(headerSize, one.updater, ops[1..]);
      Reassociate(OpenNotes(u), one.notes, rest.notes, if first == [] then [] else NotesOf(first[0]),
                  OpenNotes(one.updater), Transcript(later), OpenNotes(rest.updater));
    }
  }

  lemma TranscriptPrepend(first: seq<Session>, later: seq<Session>)
    requires |first| <= 1
    ensures Transcript(first + later) == (if first == [] then [] else NotesOf(first[0])) + Transcript(later)
  {
    assert first != [] ==> (first + later)[1..] == later;
    assert first == [] ==> first + later == later;
  }

  lemma Reassociate<T>(a: seq<T>, b: seq<T>, c: seq<T>, x: seq<T>, y: seq<T>, z: seq<T>, w: seq<T>)
    requires a + b == x + y && y + c == z + w
    ensures a + (b + c) == x + z + w
  {
    assert a + (b + c) == (a + b) + c == x + (y + c) == x + z + w;
  }

  /** Every run notifies whole sessions, then at most the start of one that is under way. */
  lemma NotifiesSessions(headerSize: nat, ops: seq<Op>) returns (sessions: seq<Session>)
    ensures var o := Run(headerSize, INITIAL_UPDATER, ops);
            o.notes == Transcript(sessions) + if IsUpdating(o.updater) then [StartDownloading] else []
  {
    sessions := RunSessions(headerSize, INITIAL_UPDATER, ops);
    assert [] + Run(headerSize, INITIAL_UPDATER, ops).notes == Run(headerSize, INITIAL_UPDATER, ops).notes;
  }

  // ---------- DFU handles ----------

  /** The handle that is open and the number of the next one, or a call out of place. */
  datatype Handles = Misused | Handles(open: Option<nat>, next: nat)

  function HandlesAfter(hs: Handles, call: Call): Handles {
    if hs.Misused? then Misused else
    match call
    case New(h) => if hs.open == None && h == hs.next then Handles(Some(h), h + 1) else Misused
    case Delete(h) => if hs.open == Some(h) then Handles(None, hs.next) else Misused
    case _ => if hs.open == Some(call.h) then hs else Misused
  }

  function Tracked(hs: Handles, calls: seq<Call>): Handles
    decreases |calls|
  {
    if calls == [] then hs else Tracked(HandlesAfter(hs, calls[0]), calls[1..])
  }

  lemma {:induction false} TrackedConcat(hs: Handles, a: seq<Call>, b: seq<Call>)
    ensures Tracked(hs, a + b) == Tracked(Tracked(hs, a), b)
    decreases |a|
  {
    if a == [] {
      assert a + b == b;
    } else {
      assert (a + b)[1..] == a[1..] + b;
      TrackedConcat(HandlesAfter(hs, a[0]), a[1..], b);
    }
  }

  lemma FinishTracked(h: nat, next: nat, e: Event)
    ensures Tracked(Handles(Some(h), next), FinishCalls(h, e)) == Handles(None, next)
  {
    var hs := Handles(Some(h), next);
    var commit := if e == Installed || e == ErrorInstalling then [Commit(h)] else [];
    var abort := if e == Installed then [] else [Abort(h)];
    TrackedConcat(hs, [Finish(h)] + commit + abort, [Delete(h)]);
    TrackedConcat(hs, [Finish(h)] + commit, abort);
    TrackedConcat(hs, [Finish(h)], commit);
  }

  lemma ApplyTracked(headerSize: nat, u: Updater, op: Op)
    requires Inv(u)
    ensures var o := Apply(headerSize, u, op);
            Tracked(Handles(u.dfu, u.handles), o.calls) == Handles(o.updater.dfu, o.updater.handles)
  {
    if op.Process? {
      DeliveredKeeps(headerSize, u, op.env.chunks);
      if IsUpdating(u) {
        var d := Delivered(headerSize, u, op.env.chunks);
        var timedOut := op.env.now - u.started >= TIMEOUT_SEC;
        FinishTracked(u.dfu.value, u.handles,
                      FinishEvent(d, if timedOut then -ETIMEDOUT else op.env.result, op.env));
      } else {
        TrackedConcat(Handles(u.dfu, u.handles), [New(u.handles)], [Delete(u.handles)]);
        assert [New(u.handles)] + [Delete(u.handles)] == [New(u.handles), Delete(u.handles)];
      }
    }
  }

  lemma {:induction false} RunTracked(headerSize: nat, u: Updater, ops: seq<Op>)
    requires Inv(u)
    ensures var o := Run(headerSize, u, ops);
            Tracked(Handles(u.dfu, u.handles), o.calls) == Handles(o.updater.dfu, o.updater.handles)
    decreases |ops|
  {
    if ops == [] {
    } else {
      var one := Apply(headerSize, u, ops[0]);
      var _ := ApplySession(headerSize, u, ops[0]);
      ApplyTracked(headerSize, u, ops[0]);
      RunTracked(headerSize, one.updater, ops[1..]);
      TrackedConcat(Handles(u.dfu, u.handles), one.calls, Run(headerSize, one.updater, ops[1..]).calls);
    }
  }

  /** In calls in place, each handle is made once, and deleted once if it is not the open one. */
  lemma {:induction false} DeletedOnce(calls: seq<Call>, h: nat)
    ensures var hs := Tracked(Handles(None, 0), calls);
            hs.Handles? ==>
              && (hs.open.Some? ==> hs.open.value < hs.next)
              && multiset(calls)[New(h)] == (if h < hs.next then 1 else 0)
              && multiset(calls)[Delete(h)] == (if h < hs.next && hs.open != Some(h) then 1 else 0)
    decreases |calls|
  {
    if calls == [] {
    } else {
      var init, last := calls[..|calls| - 1], calls[|calls| - 1];
      assert calls == init + [last];
      TrackedConcat(Handles(None, 0), init, [last]);
      DeletedOnce(init, h);
    }
  }

  /** In every run each DFU handle is deleted exactly once, but for the one of the session under way. */
  lemma HandlesAreReleased(headerSize: nat, ops: seq<Op>, h: nat)
    ensures var o := Run(headerSize, INITIAL_UPDATER, ops);
            && Tracked(Handles(None, 0), o.calls) == Handles(o.updater.dfu, o.updater.handles)
            && multiset(o.calls)[Delete(h)] == if h < o.updater.handles && o.updater.dfu != Some(h) then 1 else 0
  {
    RunTracked(headerSize, INITIAL_UPDATER, ops);
    DeletedOnce(Run(headerSize, INITIAL_UPDATER, ops).calls, h);
  }

  // ---------- refused requests ----------

  /** A request is refused without its arguments, or while an update is under way. */
  predicate Refused(u: Updater, op: Op) {
    op.Request? && (op.date.None? || IsUpdating(u))
  }

  /** The run without the requests that it refuses. */
  function WithoutRefused(headerSize: nat, u: Updater, ops: seq<Op>): seq<Op>
    decreases |ops|
  {
    if ops == [] then []
    else
      var rest := WithoutRefused(headerSize, Apply(headerSize, u, ops[0]).updater, ops[1..]);
      if Refused(u, ops[0]) then rest else [ops[0]] + rest
  }

  /** Refused requests leave no trace: the run without them has the same state, calls and notifications. */
  lemma {:induction false} RefusedLeaveNoTrace(headerSize: nat, u: Updater, ops: seq<Op>)
    ensures var o, p := Run(headerSize, u, ops), Run(headerSize, u, WithoutRefused(headerSize, u, ops));
            o.updater == p.updater && o.calls == p.calls && o.notes == p.notes
    decreases |ops|
  {
    hide Processed;
    if ops == [] {
    } else {
      var next := Apply(headerSize, u, ops[0]).updater;
      var rest := WithoutRefused(headerSize, next, ops[1..]);
      RefusedLeaveNoTrace(headerSize, next, ops[1..]);
      if !Refused(u, ops[0]) {
        assert ([ops[0]] + rest)[1..] == rest;
      }
    }
  }

  // ---------- the image ----------

  /** What the ring buffer takes of a chunk that finds it empty. */
  function Fit(c: Bytes): Bytes {
    c[..Min(BUFFER_SIZE, |c|)]
  }

  function Flatten(chunks: seq<Bytes>): Bytes {
    if chunks == [] then [] else chunks[0] + Flatten(chunks[1..])
  }

  function FlattenFit(chunks: seq<Bytes>): Bytes {
    if chunks == [] then [] else Fit(chunks[0]) + FlattenFit(chunks[1..])
  }

  /** The data of a first block: a header that is not all there is not taken off. */
  function Body(headerSize: nat, c: Bytes): Bytes {
    if |c| >= headerSize then c[headerSize..] else c
  }

  /** What ends up in flash when every DFU call succeeds: a block is first until something has been written. */
  function Kept(headerSize: nat, chunks: seq<Bytes>): Bytes {
    if chunks == [] then []
    else if Fit(chunks[0]) == [] || Body(headerSize, Fit(chunks[0])) == [] then Kept(headerSize, chunks[1..])
    else Body(headerSize, Fit(chunks[0])) + FlattenFit(chunks[1..])
  }

  function Data(chunks: seq<Chunk>): seq<Bytes> {
    if chunks == [] then [] else [chunks[0].data] + Data(chunks[1..])
  }

  /** A chunk that leaves no error leaves the ring buffer empty and its data in flash. */
  lemma ReceivedWrites(headerSize: nat, u: Updater, c: Chunk)
    requires u.ring == [] && u.error == 0 && u.written == |u.flash|
    ensures var r := Received(headerSize, u, c);
            r.error == 0 ==>
              && r.ring == [] && r.written == |r.flash|
              && r.flash == u.flash + if u.flash == [] then Body(headerSize, Fit(c.data)) else Fit(c.data)
  {
    assert [] + Fit(c.data) == Fit(c.data);
    if Fit(c.data) != [] && (u.written > 0 || c.headerOk) {
      var r := Unheaded(headerSize, u.(ring := Fit(c.data)));
      var n := Drained(r.ring, c.answers);
      assert n == |r.ring| ==> r.ring[..n] == r.ring;
    }
  }

  lemma {:induction false} DeliveredWrites(headerSize: nat, u: Updater, chunks: seq<Chunk>)
    requires u.ring == [] && u.error == 0 && u.written == |u.flash|
    ensures var d := Delivered(headerSize, u, chunks);
            d.error == 0 ==>
              && d.ring == []
              && d.flash == FlashedAfter(headerSize, u.flash, Data(chunks))
    decreases |chunks|
  {
    if chunks != [] {
      var r := Received(headerSize, u, chunks[0]);
      ReceivedWrites(headerSize, u, chunks[0]);
      if r.error != 0 {
        DeliveredKeeps(headerSize, r, chunks[1..]);
      } else {
        DeliveredWrites(headerSize, r, chunks[1..]);
        FlashesOn(headerSize, u.flash, Data(chunks));
        assert Data(chunks)[1..] == Data(chunks[1..]);
      }
    } else {
      assert u.flash + [] == u.flash;
    }
  }

  /** A nonempty chunk is refused as a header exactly while nothing has been written, header or not before it. */
  lemma HeaderRefusedIff(headerSize: nat, u: Updater, c: Chunk)
    requires u.ring == [] && u.error == 0
    ensures Received(headerSize, u, c).error == -EPROTO <==> u.written == 0 && c.data != [] && !c.headerOk
  {
    assert [] + Fit(c.data) == Fit(c.data);
    assert Fit(c.data) == [] <==> c.data == [];
  }

  // ---------- chunks that meet no failure ----------

  /** The header check and every DFU call on the chunk succeed. */
  ghost predicate Good(c: Chunk) {
    c.headerOk && forall i :: 0 <= i < |c.answers| ==> c.answers[i].ok
  }

  ghost predicate AllGood(chunks: seq<Chunk>) {
    forall i :: 0 <= i < |chunks| ==> Good(chunks[i])
  }

  lemma {:induction false} DrainedWhole(ring: Bytes, answers: seq<Answer>)
    requires forall i :: 0 <= i < |answers| ==> answers[i].ok
    ensures Drained(ring, answers) == |ring|
    decreases |ring|
  {
    if ring == [] {
    } else {
      DrainedWhole(ring[BlockLen(ring, Head(answers))..], Tail(answers));
    }
  }

  lemma ReceivedGood(headerSize: nat, u: Updater, c: Chunk)
    requires u.error == 0 && Good(c)
    ensures Received(headerSize, u, c).error == 0
  {
    DrainedWhole(Unheaded(headerSize, Buffered(u, c)).ring, c.answers);
  }

  /** Good chunks leave no error. */
  lemma {:induction false} DeliveredGood(headerSize: nat, u: Updater, chunks: seq<Chunk>)
    requires u.error == 0 && AllGood(chunks)
    ensures Delivered(headerSize, u, chunks).error == 0
    decreases |chunks|
  {
    if chunks == [] {
    } else {
      ReceivedGood(headerSize, u, chunks[0]);
      DeliveredGood(headerSize, Received(headerSize, u, chunks[0]), chunks[1..]);
    }
  }

  /** What is written once `flash` is there: all that fits, or what is kept if it is still empty. */
  function FlashedAfter(headerSize: nat, flash: Bytes, chunks: seq<Bytes>): Bytes {
    flash + if flash == [] then Kept(headerSize, chunks) else FlattenFit(chunks)
  }

  lemma FlashesOn(headerSize: nat, flash: Bytes, chunks: seq<Bytes>)
    requires chunks != []
    ensures var next := flash + if flash == [] then Body(headerSize, Fit(chunks[0])) else Fit(chunks[0]);
            FlashedAfter(headerSize, flash, chunks) == FlashedAfter(headerSize, next, chunks[1..])
  {
    assert Fit(chunks[0]) == [] ==> Body(headerSize, Fit(chunks[0])) == [];
    if flash != [] {
      assert flash + (Fit(chunks[0]) + FlattenFit(chunks[1..])) == flash + Fit(chunks[0]) + FlattenFit(chunks[1..]);
    }
  }

  /** How many times a header is taken off, counted on the chunk lengths alone. */
  function HeadersTaken(headerSize: nat, chunks: seq<Bytes>): nat {
    if chunks == [] then 0
    else if |chunks[0]| == 0 then HeadersTaken(headerSize, chunks[1..])
    else if |chunks[0]| == headerSize then 1 + HeadersTaken(headerSize, chunks[1..])
    else if |chunks[0]| > headerSize then 1 else 0
  }

  ghost predicate Fitting(chunks: seq<Bytes>) {
    forall i :: 0 <= i < |chunks| ==> |chunks[i]| <= BUFFER_SIZE
  }

  lemma {:induction false} FlattenFitting(chunks: seq<Bytes>)
    requires Fitting(chunks)
    ensures FlattenFit(chunks) == Flatten(chunks)
  {
    if chunks == [] {
    } else {
      FlattenFitting(chunks[1..]);
      assert Fit(chunks[0]) == chunks[0];
    }
  }

  lemma {:induction false} KeptLength(headerSize: nat, chunks: seq<Bytes>)
    requires headerSize > 0 && Fitting(chunks)
    ensures |Kept(headerSize, chunks)| == |Flatten(chunks)| - headerSize * HeadersTaken(headerSize, chunks)
  {
    if chunks == [] {
    } else {
      assert Fit(chunks[0]) == chunks[0];
      if |chunks[0]| == 0 || |chunks[0]| == headerSize {
        KeptLength(headerSize, chunks[1..]);
        OneMore(headerSize, HeadersTaken(headerSize, chunks[1..]));
      } else {
        FlattenFitting(chunks[1..]);
      }
    }
  }

  lemma OneMore(a: nat, n: nat)
    ensures a * (1 + n) == a + a * n
  {
  }

  lemma {:induction false} KeptAll(headerSize: nat, chunks: seq<Bytes>)
    requires headerSize > 0 && Fitting(chunks) && HeadersTaken(headerSize, chunks) == 0
    ensures Kept(headerSize, chunks) == Flatten(chunks)
  {
    if chunks == [] {
    } else {
      assert Fit(chunks[0]) == chunks[0];
      if |chunks[0]| == 0 {
        KeptAll(headerSize, chunks[1..]);
        assert [] + Flatten(chunks[1..]) == Flatten(chunks[1..]);
      } else {
        FlattenFitting(chunks[1..]);
      }
    }
  }

  /**
   For chunks that fit the buffer, what is kept is the stream minus its header exactly when a
   header is taken off once: when the first nonempty chunk is longer than the header, or is the
   header and the next one is shorter.
   */
  lemma {:induction false} KeptIsStreamIff(headerSize: nat, chunks: seq<Bytes>)
    requires headerSize > 0 && Fitting(chunks)
    ensures HeadersTaken(headerSize, chunks) == 1 <==>
            headerSize <= |Flatten(chunks)| && Kept(headerSize, chunks) == Flatten(chunks)[headerSize..]
  {
    KeptLength(headerSize, chunks);
    if HeadersTaken(headerSize, chunks) == 1 {
      KeptOnce(headerSize, chunks);
    } else {
      Product(headerSize, HeadersTaken(headerSize, chunks));
    }
  }

  lemma Product(a: nat, n: nat)
    requires a > 0 && n != 1
    ensures a * n != a
  {
    if n > 1 {
      assert a * n == a + a * (n - 1);
    }
  }

  lemma {:induction false} KeptOnce(headerSize: nat, chunks: seq<Bytes>)
    requires headerSize > 0 && Fitting(chunks) && HeadersTaken(headerSize, chunks) == 1
    ensures headerSize <= |Flatten(chunks)| && Kept(headerSize, chunks) == Flatten(chunks)[headerSize..]
  {
    assert Fit(chunks[0]) == chunks[0];
    if |chunks[0]| == 0 {
      KeptOnce(headerSize, chunks[1..]);
      assert Flatten(chunks) == Flatten(chunks[1..]);
    } else {
      FlattenFitting(chunks[1..]);
      if |chunks[0]| == headerSize {
        KeptAll(headerSize, chunks[1..]);
      }
      assert (chunks[0] + Flatten(chunks[1..]))[headerSize..] == chunks[0][headerSize..] + Flatten(chunks[1..]);
    }
  }

  // ---------- what is committed ----------

  lemma {:induction false} DataConcat(a: seq<Bytes>, b: seq<Bytes>, headerSize: nat)
    ensures FlattenFit(a + b) == FlattenFit(a) + FlattenFit(b)
    ensures Kept(headerSize, a + b) ==
            Kept(headerSize, a) + if Kept(headerSize, a) == [] then Kept(headerSize, b) else FlattenFit(b)
    decreases |a|
  {
    if a == [] {
      assert a + b == b;
    } else {
      assert (a + b)[1..] == a[1..] + b;
      DataConcat(a[1..], b, headerSize);
    }
  }

  lemma {:induction false} DataOfConcat(a: seq<Chunk>, b: seq<Chunk>)
    ensures Data(a + b) == Data(a) + Data(b)
    decreases |a|
  {
    if a == [] {
      assert a + b == b;
    } else {
      assert (a + b)[1..] == a[1..] + b;
      DataOfConcat(a[1..], b);
    }
  }

  /** The chunks received since the open handle was made. */
  function Heard(headerSize: nat, u: Updater, heard: seq<Chunk>, op: Op): seq<Chunk> {
    if op.Process? && IsUpdating(u) then heard + op.env.chunks
    else if op.Process? && IsUpdating(Apply(headerSize, u, op).updater) then []
    else heard
  }

  /**
   Without an error, flash holds what is kept of the chunks heard, and the ring buffer is empty;
   and there is no error while all chunks heard are good.
   */
  ghost predicate FlashInv(headerSize: nat, u: Updater, heard: seq<Chunk>) {
    IsUpdating(u) ==>
      && (u.error == 0 ==> u.ring == [] && u.flash == Kept(headerSize, Data(heard)))
      && (AllGood(heard) ==> u.error == 0)
  }

  lemma DeliveredFlash(headerSize: nat, u: Updater, heard: seq<Chunk>, chunks: seq<Chunk>)
    requires Inv(u) && IsUpdating(u) && FlashInv(headerSize, u, heard)
    ensures FlashInv(headerSize, Delivered(headerSize, u, chunks), heard + chunks)
  {
    DeliveredKeeps(headerSize, u, chunks);
    if u.error == 0 {
      DeliveredWrites(headerSize, u, chunks);
      DataOfConcat(heard, chunks);
      DataConcat(Data(heard), Data(chunks), headerSize);
    }
    if AllGood(heard + chunks) {
      GoodParts(heard, chunks);
      DeliveredGood(headerSize, u, chunks);
    }
  }

  lemma GoodParts(a: seq<Chunk>, b: seq<Chunk>)
    requires AllGood(a + b)
    ensures AllGood(a) && AllGood(b)
  {
    assert forall i :: 0 <= i < |a| ==> a[i] == (a + b)[i];
    assert forall i :: 0 <= i < |b| ==> b[i] == (a + b)[|a| + i];
  }

  lemma ApplyFlash(headerSize: nat, u: Updater, heard: seq<Chunk>, op: Op)
    requires Inv(u) && FlashInv(headerSize, u, heard)
    ensures FlashInv(headerSize, Apply(headerSize, u, op).updater, Heard(headerSize, u, heard, op))
  {
    if op.Process? && IsUpdating(u) {
      DeliveredFlash(headerSize, u, heard, op.env.chunks);
    }
  }

  function RunHeard(headerSize: nat, u: Updater, heard: seq<Chunk>, ops: seq<Op>): seq<Chunk>
    decreases |ops|
  {
    if ops == [] then heard
    else RunHeard(headerSize, Apply(headerSize, u, ops[0]).updater, Heard(headerSize, u, heard, ops[0]), ops[1..])
  }

  lemma {:induction false} RunFlash(headerSize: nat, u: Updater, heard: seq<Chunk>, ops: seq<Op>)
    requires Inv(u) && FlashInv(headerSize, u, heard)
    ensures FlashInv(headerSize, Run(headerSize, u, ops).updater, RunHeard(headerSize, u, heard, ops))
    decreases |ops|
  {
    if ops == [] {
    } else {
      var _ := ApplySession(headerSize, u, ops[0]);
      ApplyFlash(headerSize, u, heard, ops[0]);
      RunFlash(headerSize, Apply(headerSize, u, ops[0]).updater, Heard(headerSize, u, heard, ops[0]), ops[1..]);
    }
  }

  /**
   Chunking independence. However a stream of good chunks of at most 4096 bytes is split, over the
   chunks and over the calls of a run, there is no error, the ring buffer is empty between the
   calls, and flash holds the stream minus its header exactly when a header is taken off once.
   */
  lemma StreamReachesFlash(headerSize: nat, ops: seq<Op>)
    requires headerSize > 0 && IsUpdating(Run(headerSize, INITIAL_UPDATER, ops).updater)
    requires var heard := RunHeard(headerSize, INITIAL_UPDATER, [], ops); AllGood(heard) && Fitting(Data(heard))
    ensures var u := Run(headerSize, INITIAL_UPDATER, ops).updater;
            var chunks := Data(RunHeard(headerSize, INITIAL_UPDATER, [], ops));
            && u.error == 0 && u.ring == []
            && (HeadersTaken(headerSize, chunks) == 1 <==>
                headerSize <= |Flatten(chunks)| && u.flash == Flatten(chunks)[headerSize..])
  {
    RunFlash(headerSize, INITIAL_UPDATER, [], ops);
    KeptIsStreamIff(headerSize, Data(RunHeard(headerSize, INITIAL_UPDATER, [], ops)));
  }

  /**
   And the call that ends such a download in time, with nothing failing, commits that image on the
   open handle and notifies the installation.
   */
  lemma ImageIsInstalled(headerSize: nat, ops: seq<Op>, env: Env)
    requires headerSize > 0 && IsUpdating(Run(headerSize, INITIAL_UPDATER, ops).updater)
    requires var chunks := RunHeard(headerSize, INITIAL_UPDATER, [], ops) + env.chunks;
             AllGood(chunks) && Fitting(Data(chunks)) && HeadersTaken(headerSize, Data(chunks)) == 1
    requires env.result == 0 && env.finishOk && env.commitOk
    requires env.now - Run(headerSize, INITIAL_UPDATER, ops).updater.started < TIMEOUT_SEC
    ensures var u := Run(headerSize, INITIAL_UPDATER, ops).updater;
            var o := Processed(headerSize, u, env);
            var stream := Flatten(Data(RunHeard(headerSize, INITIAL_UPDATER, [], ops) + env.chunks));
            && o.calls == [Finish(u.dfu.value), Commit(u.dfu.value), Delete(u.dfu.value)]
            && o.notes == [Downloaded, StartInstalling, Installed, RebootRequired]
            && headerSize <= |stream| && o.updater.flash == stream[headerSize..]
  {
    hide Run, RunHeard, Delivered, Kept, Flatten, Data, HeadersTaken;
    var u, heard := Run(headerSize, INITIAL_UPDATER, ops).updater, RunHeard(headerSize, INITIAL_UPDATER, [], ops);
    var _ := RunSessions(headerSize, INITIAL_UPDATER, ops);
    RunFlash(headerSize, INITIAL_UPDATER, [], ops);
    DeliveredKeeps(headerSize, u, env.chunks);
    DeliveredFlash(headerSize, u, heard, env.chunks);
    KeptIsStreamIff(headerSize, Data(heard + env.chunks));
  }

  lemma CommitMeans(headerSize: nat, u: Updater, env: Env, h: nat)
    requires Commit(h) in Processed(headerSize, u, env).calls
    ensures IsUpdating(u) && u.dfu == Some(h) && env.result == 0 && env.finishOk
    ensures Delivered(headerSize, u, env.chunks).error == 0
  {
  }

  /**
   However the chunks were split over the calls of a run, a commit is made only without any
   error, and what is committed is what is kept of all chunks received for that handle.
   */
  lemma CommitsWhatWasHeard(headerSize: nat, ops: seq<Op>, env: Env, h: nat)
    requires Commit(h) in Processed(headerSize, Run(headerSize, INITIAL_UPDATER, ops).updater, env).calls
    ensures var u := Run(headerSize, INITIAL_UPDATER, ops).updater;
            var d := Delivered(headerSize, u, env.chunks);
            var heard := RunHeard(headerSize, INITIAL_UPDATER, [], ops) + env.chunks;
            && u.dfu == Some(h) && d.error == 0 && env.result == 0 && env.finishOk
            && d.ring == [] && d.flash == Kept(headerSize, Data(heard))
  {
    var u := Run(headerSize, INITIAL_UPDATER, ops).updater;
    var _ := RunSessions(headerSize, INITIAL_UPDATER, ops);
    RunFlash(headerSize, INITIAL_UPDATER, [], ops);
    CommitMeans(headerSize, u, env, h);
    DeliveredKeeps(headerSize, u, env.chunks);
    DeliveredFlash(headerSize, u, RunHeard(headerSize, INITIAL_UPDATER, [], ops), env.chunks);
  }

  /** A write error ends the session in the call that sees it: nothing more is written, nothing is committed. */
  lemma ErrorEndsSession(headerSize: nat, u: Updater, env: Env, i: nat)
    requires Inv(u) && IsUpdating(u) && i <= |env.chunks|
    requires Delivered(headerSize, u, env.chunks[..i]).error != 0
    ensures var o := Processed(headerSize, u, env);
            && !IsUpdating(o.updater)
            && o.updater.flash == Delivered(headerSize, u, env.chunks[..i]).flash
            && Commit(u.dfu.value) !in o.calls
            && (o.notes == [ErrorDownloading] || o.notes == [ErrorTimeout])
  {
    DeliveredSplit(headerSize, u, env.chunks, i);
    DeliveredKeeps(headerSize, Delivered(headerSize, u, env.chunks[..i]), env.chunks[i..]);
  }

  lemma {:induction false} DeliveredSplit(headerSize: nat, u: Updater, chunks: seq<Chunk>, i: nat)
    requires i <= |chunks|
    ensures Delivered(headerSize, u, chunks) ==
            Delivered(headerSize, Delivered(headerSize, u, chunks[..i]), chunks[i..])
    decreases |chunks|
  {
    if i == 0 {
    } else {
      assert chunks[..i][0] == chunks[0] && chunks[..i][1..] == chunks[1..][..i - 1];
      assert chunks[1..][i - 1..] == chunks[i..];
      DeliveredSplit(headerSize, Received(headerSize, u, chunks[0]), chunks[1..], i - 1);
    }
  }
}
