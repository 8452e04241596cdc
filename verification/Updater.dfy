/**
 The firmware updater (src/updater.c): a request is downloaded in chunks, each chunk
 goes through a ring buffer to the firmware writer (DFU), and the image is committed.
 */
module Updater {
  import opened Common

  const BUFFER_SIZE := 4096
  const TIMEOUT_SEC := 300

  const EIO := 5
  const EAGAIN := 11
  const EBUSY := 16
  const EINVAL := 22
  const EPROTO := 71
  const ETIMEDOUT := 110
  const EINPROGRESS := 115

  datatype Event =
    | NoEvent | ErrorPreparing | StartDownloading | Downloading | ErrorDownloading | ErrorWriting
    | ErrorTimeout | Downloaded | StartInstalling | ErrorInstalling | RebootRequired | Installed

  /** The position in `updater_event_t`, which `dispatch_event` compares. */
  function Rank(e: Event): nat {
    match e
    case NoEvent => 0
    case ErrorPreparing => 1
    case StartDownloading => 2
    case Downloading => 3
    case ErrorDownloading => 4
    case ErrorWriting => 5
    case ErrorTimeout => 6
    case Downloaded => 7
    case StartInstalling => 8
    case ErrorInstalling => 9
    case RebootRequired => 10
    case Installed => 11
  }

  /** The DFU calls that bracket a session, each on a numbered handle. */
  datatype Call = New(h: nat) | Finish(h: nat) | Commit(h: nat) | Abort(h: nat) | Delete(h: nat)

  /**
   `date` is the retrieve date of the accepted request, `dfu` the open handle, `flash` what has
   been written through it; `handles` counts the handles made so far.
   */
  datatype Updater = Updater(
    date: Option<int>, dfu: Option<nat>, ring: Bytes, error: int, written: nat, started: int,
    flash: Bytes, handles: nat)

  const INITIAL_UPDATER := Updater(None, None, [], 0, 0, 0, [], 0)

  predicate IsUpdating(u: Updater) {
    u.date.Some? && u.dfu.Some?
  }

  predicate IsPending(u: Updater) {
    u.date.Some? && u.dfu.None?
  }

  // ---------- a chunk arrives ----------

  /** What the environment answers to one turn of the write loop: a contiguous length and the DFU's result. */
  datatype Answer = Answer(len: nat, ok: bool)

  datatype Chunk = Chunk(data: Bytes, headerOk: bool, answers: seq<Answer>)

  /** The block of one turn: a nonempty contiguous prefix of the ring buffer, at most the DFU's buffer. */
  function BlockLen(ring: Bytes, a: Answer): (n: nat)
    requires ring != []
    ensures 0 < n <= |ring| && n <= 4096
  {
    Min(Min(if a.len == 0 then 1 else a.len, |ring|), BUFFER_SIZE)
  }

  function Head(answers: seq<Answer>): Answer {
    if answers == [] then Answer(BUFFER_SIZE, true) else answers[0]
  }

  function Tail(answers: seq<Answer>): seq<Answer> {
    if answers == [] then [] else answers[1..]
  }

  /** How many bytes of the ring buffer the DFU takes before it fails, if it does. */
  function Drained(ring: Bytes, answers: seq<Answer>): (n: nat)
    ensures n <= |ring|
    decreases |ring|
  {
    if ring == [] || !Head(answers).ok then 0
    else var n := BlockLen(ring, Head(answers)); n + Drained(ring[n..], Tail(answers))
  }

  /** `prepare_write`: the first block starts with the header, which is taken off if it is all there. */
  function Unheaded(headerSize: nat, u: Updater): Updater {
    if u.written == 0 && |u.ring| >= headerSize then u.(ring := u.ring[headerSize..]) else u
  }

  /** The loop of `write_to_flash`. */
  function Flashed(u: Updater, answers: seq<Answer>): Updater {
    var n := Drained(u.ring, answers);
    u.(ring := u.ring[n..], flash := u.flash + u.ring[..n], written := u.written + n,
       error := if n < |u.ring| then -EIO else 0)
  }

  /** One turn of the loop, `write_data_block`. */
  function Block(u: Updater, n: nat): Updater
    requires n <= |u.ring|
  {
    u.(ring := u.ring[n..], flash := u.flash + u.ring[..n], written := u.written + n)
  }

  lemma FlashBlock(u: Updater, answers: seq<Answer>)
    requires u.ring != [] && Head(answers).ok
    ensures Flashed(Block(u, BlockLen(u.ring, Head(answers))), Tail(answers)) == Flashed(u, answers)
  {
    var n := BlockLen(u.ring, Head(answers));
    var m := Drained(u.ring[n..], Tail(answers));
    assert u.ring[n..][..m] == u.ring[n..n + m] && u.ring[..n] + u.ring[n..n + m] == u.ring[..n + m];
    assert u.ring[n..][m..] == u.ring[n + m..];
    assert u.flash + u.ring[..n] + u.ring[n..n + m] == u.flash + u.ring[..n + m];
  }

  /** The ring buffer takes what fits. */
  function Buffered(u: Updater, c: Chunk): Updater {
    var room := if |u.ring| <= BUFFER_SIZE then BUFFER_SIZE - |u.ring| else 0;
    u.(ring := u.ring + c.data[..Min(room, |c.data|)])
  }

  /** `on_data_reception`: the ring buffer takes what fits, and then all of it goes to flash. */
  function Received(headerSize: nat, u: Updater, c: Chunk): Updater {
    var r := Buffered(u, c);
    if r.error != 0 || r.ring == [] then r
    else if r.written == 0 && !c.headerOk then r.(error := -EPROTO)
    else Flashed(Unheaded(headerSize, r), c.answers)
  }

  function Delivered(headerSize: nat, u: Updater, chunks: seq<Chunk>): Updater
    decreases |chunks|
  {
    if chunks == [] then u else Delivered(headerSize, Received(headerSize, u, chunks[0]), chunks[1..])
  }

  // ---------- requests and processing ----------

  /** What one call of `updater_process` finds outside. */
  datatype Env = Env(
    now: int, newOk: bool, prepareOk: bool, chunks: seq<Chunk>, result: int, finishOk: bool, commitOk: bool)

  datatype Outcome = Outcome(updater: Updater, calls: seq<Call>, notes: seq<Event>, ret: int)

  /** `clear_request` */
  function Idle(u: Updater): Updater {
    u.(date := None, dfu := None, ring := [])
  }

  /** What `dispatch_event` hands to the callback. */
  function Dispatched(e: Event): seq<Event> {
    if e == NoEvent || e == Downloading then [] else
    (if Rank(e) > Rank(Downloaded) then [Downloaded] else [])
    + (if Rank(e) > Rank(StartInstalling) then [StartInstalling] else [])
    + [e]
    + (if e == Installed then [RebootRequired] else [])
  }

  function Returned(e: Event): int {
    if e == StartDownloading || e == Downloading || e == Downloaded || e == StartInstalling then -EAGAIN else Rank(e)
  }

  /** `start_download` */
  function Started(u: Updater, env: Env): (Updater, seq<Call>, Event) {
    if !env.newOk then (Idle(u), [], ErrorPreparing)
    else
      var h := u.handles;
      var open := u.(dfu := Some(h), handles := h + 1, flash := []);
      if !env.prepareOk then (Idle(open), [New(h), Delete(h)], ErrorPreparing)
      else (open.(started := env.now), [New(h)], StartDownloading)
  }

  /** The event of `finish_download`. */
  function FinishEvent(u: Updater, err: int, env: Env): Event {
    if env.finishOk && err == 0 && u.error == 0 then (if env.commitOk then Installed else ErrorInstalling)
    else if err == -ETIMEDOUT then ErrorTimeout
    else ErrorDownloading
  }

  function FinishCalls(h: nat, e: Event): seq<Call> {
    [Finish(h)]
    + (if e == Installed || e == ErrorInstalling then [Commit(h)] else [])
    + (if e == Installed then [] else [Abort(h)])
    + [Delete(h)]
  }

  /** `updater_process` */
  function Processed(headerSize: nat, u: Updater, env: Env): Outcome {
    if IsUpdating(u) then
      var d := Delivered(headerSize, u, env.chunks);
      var timedOut := env.now - u.started >= TIMEOUT_SEC;
      if env.result == -EINPROGRESS && d.error == 0 && !timedOut then Outcome(d, [], [], -EAGAIN)
      else
        var e := FinishEvent(d, if timedOut then -ETIMEDOUT else env.result, env);
        Outcome(Idle(d), FinishCalls(u.dfu.value, e), Dispatched(e), Returned(e))
    else if IsPending(u) then
      if u.date.value > env.now then Outcome(u, [], [], -EAGAIN)
      else var (n, calls, e) := Started(u, env); Outcome(n, calls, Dispatched(e), Returned(e))
    else Outcome(u, [], [], 0)
  }

  /** `updater_request`, without an argument when one of its pointers is null. */
  function Requested(u: Updater, date: Option<int>): Outcome {
    if date.None? then Outcome(u, [], [], -EINVAL)
    else if IsUpdating(u) then Outcome(u, [], [], -EBUSY)
    else Outcome(u.(date := date, error := 0, written := 0), [], [], 0)
  }

  datatype Op = Request(date: Option<int>) | Process(env: Env)

  function Apply(headerSize: nat, u: Updater, op: Op): Outcome {
    match op
    case Request(date) => Requested(u, date)
    case Process(env) => Processed(headerSize, u, env)
  }

  function Run(headerSize: nat, u: Updater, ops: seq<Op>): Outcome
    decreases |ops|
  {
    if ops == [] then Outcome(u, [], [], 0) else
    var one := Apply(headerSize, u, ops[0]);
    var rest := Run(headerSize, one.updater, ops[1..]);
    Outcome(rest.updater, one.calls + rest.calls, one.notes + rest.notes, rest.ret)
  }

  // ---------- the object ----------

  class FirmwareUpdater {
    const headerSize: nat
    var date: Option<int>
    var dfu: Option<nat>
    var ring: Bytes
    var error: int
    var written: nat
    var started: int
    var flash: Bytes
    var handles: nat

    constructor (headerSize: nat)
      ensures this.headerSize == headerSize && View() == INITIAL_UPDATER
    {
      this.headerSize := headerSize;
      date, dfu, ring, error, written, started, flash, handles := None, None, [], 0, 0, 0, [], 0;
    }

    function View(): Updater
      reads this
    {
      Updater(date, dfu, ring, error, written, started, flash, handles)
    }

    /** The loop of `write_to_flash` over `write_data_block`. */
    method WriteBlocks(answers: seq<Answer>) returns (err: int)
      modifies this`ring, this`flash, this`written
      ensures View().(error := err) == Flashed(old(View()), answers)
    {
      var left := answers;
      while ring != []
        invariant Flashed(View(), left) == Flashed(old(View()), answers)
        decreases |ring|
      {
        if !Head(left).ok {
          return -EIO;
        }
        FlashBlock(View(), left);
        var n := BlockLen(ring, Head(left));
        flash := flash + ring[..n];
        ring := ring[n..];
        written := written + n;
        left := Tail(left);
      }
      err := 0;
    }

    method OnDataReception(c: Chunk)
      modifies this`ring, this`flash, this`written, this`error
      ensures View() == Received(headerSize, old(View()), c)
    {
      var room := if |ring| <= BUFFER_SIZE then BUFFER_SIZE - |ring| else 0;
      ring := ring + c.data[..Min(room, |c.data|)];
      if error != 0 || ring == [] {
        return;
      }
      if written == 0 {
        if !c.headerOk {
          error := -EPROTO;
          return;
        }
        if |ring| >= headerSize {
          ring := ring[headerSize..];
        }
      }
      error := WriteBlocks(c.answers);
    }

    method ClearRequest()
      modifies this`date, this`dfu, this`ring
      ensures View() == Idle(old(View()))
    {
      date, dfu, ring := None, None, [];
    }

    method FinishDownload(err: int, env: Env) returns (calls: seq<Call>, event: Event)
      requires dfu.Some?
      modifies this`date, this`dfu, this`ring
      ensures event == FinishEvent(old(View()), err, env)
      ensures calls == FinishCalls(old(dfu).value, event)
      ensures View() == Idle(old(View()))
    {
      var h := dfu.value;
      event := if err == -ETIMEDOUT then ErrorTimeout else ErrorDownloading;
      calls := [Finish(h)];
      if env.finishOk && err == 0 && error == 0 {
        event := ErrorInstalling;
        calls := calls + [Commit(h)];
        if env.commitOk {
          event := Installed;
        }
      }
      if event != Installed {
        calls := calls + [Abort(h)];
      }
      calls := calls + [Delete(h)];
      ClearRequest();
    }

    method StartDownload(env: Env) returns (calls: seq<Call>, event: Event)
      modifies this
      ensures (View(), calls, event) == Started(old(View()), env)
    {
      calls, event := [], ErrorPreparing;
      if env.newOk {
        var h := handles;
        dfu, handles, flash := Some(h), h + 1, [];
        calls := [New(h)];
        if env.prepareOk {
          event := StartDownloading;
          started := env.now;
        } else {
          calls := [New(h), Delete(h)];
        }
      }
      if event != StartDownloading {
        ClearRequest();
      }
    }

    method DispatchEvent(event: Event) returns (notes: seq<Event>)
      ensures notes == Dispatched(event)
    {
      notes := [];
      if event == NoEvent || event == Downloading {
        return;
      }
      if Rank(event) > Rank(Downloaded) {
        notes := notes + [Downloaded];
      }
      if Rank(event) > Rank(StartInstalling) {
        notes := notes + [StartInstalling];
      }
      notes := notes + [event];
      if event == Installed {
        notes := notes + [RebootRequired];
      }
    }

    /** The chunks that the downloader hands over within one `downloader_process`. */
    method Deliver(chunks: seq<Chunk>)
      modifies this`ring, this`flash, this`written, this`error
      ensures View() == Delivered(headerSize, old(View()), chunks)
    {
      for i := 0 to |chunks|
        invariant Delivered(headerSize, View(), chunks[i..]) == Delivered(headerSize, old(View()), chunks)
      {
        assert chunks[i..][1..] == chunks[i + 1..];
        OnDataReception(chunks[i]);
      }
      assert chunks[|chunks|..] == [];
    }

    method ProcessOnce(env: Env) returns (calls: seq<Call>, notes: seq<Event>, ret: int)
      modifies this
      ensures Outcome(View(), calls, notes, ret) == Processed(headerSize, old(View()), env)
    {
      calls := [];
      var event := NoEvent;
      if IsUpdating(View()) {
        Deliver(env.chunks);
        var timedOut := env.now - started >= TIMEOUT_SEC;
        if env.result == -EINPROGRESS && error == 0 && !timedOut {
          event := Downloading;
        } else {
          calls, event := FinishDownload(if timedOut then -ETIMEDOUT else env.result, env);
        }
      } else if IsPending(View()) {
        if date.value > env.now {
          return [], [], -EAGAIN;
        }
        calls, event := StartDownload(env);
      }
      notes := DispatchEvent(event);
      ret := Returned(event);
    }

    method RequestUpdate(newDate: Option<int>) returns (ret: int)
      modifies this`date, this`error, this`written
      ensures Outcome(View(), [], [], ret) == Requested(old(View()), newDate)
    {
      if newDate.None? {
        return -EINVAL;
      } else if IsUpdating(View()) {
        return -EBUSY;
      }
      date, error, written := newDate, 0, 0;
      ret := 0;
    }
  }
}
