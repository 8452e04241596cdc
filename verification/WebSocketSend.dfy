/**
 The WebSocket send loop (ports/esp-idf/websocket/esp_websocket_client.c): a payload
 goes out in frames no longer than the transmit buffer, as section 5.4 of RFC 6455 has it.
 */
module WebSocketSend {
  import opened CInt
  import opened Common

  const FIN := 0x80

  /** A frame on the wire: its opcode without the FIN bit, the FIN bit, and its payload. */
  datatype Frame = Frame(opcode: nat, fin: bool, payload: Bytes)

  function FrameOf(opcode: u8, payload: Bytes): Frame {
    Frame(opcode % FIN, opcode >= FIN, payload)
  }

  /** The frames of a message, or of a fragment when `fin` is false, the first with the opcode. */
  function Pieces(opcode: nat, fin: bool, data: Bytes, size: nat): seq<Frame>
    requires size > 0
    decreases |data|
  {
    if |data| <= size then [Frame(opcode, fin, data)]
    else [Frame(opcode, false, data[..size])] + Pieces(0, fin, data[size..], size)
  }

  /** All that a call sends: nothing for a bare continuation without payload. */
  function Fragments(opcode: u8, data: Bytes, size: nat): seq<Frame>
    requires size > 0
  {
    if data == [] && opcode == 0 then [] else Pieces(opcode % FIN, opcode >= FIN, data, size)
  }

  // ---------- the transport ----------

  /** One transport write: the frame it was given and how many bytes of its payload it took. */
  datatype Write = Write(frame: Frame, taken: nat)

  /** What a call does: its writes up to the first that fails, and the answer of that one. */
  datatype Sending = Sending(writes: seq<Write>, failed: Option<int>)

  /** The bytes that a write of `n` takes: all when the answers are used up, and never more than it is given. */
  function Answer(answers: seq<int>, n: nat): int {
    if answers == [] || answers[0] > n then n else answers[0]
  }

  function Later(answers: seq<int>): seq<int> {
    if answers == [] then [] else answers[1..]
  }

  /** The frame of one turn: without FIN while more follow, with it on the last of a final call. */
  function NextFrame(op: u8, containedFin: bool, rest: Bytes, size: nat): Frame {
    Frame(op % FIN, containedFin && |rest| <= size, rest[..Min(size, |rest|)])
  }

  /** The loop: what a write leaves of the payload goes into a further frame. */
  function Sent(op: u8, containedFin: bool, rest: Bytes, size: nat, answers: seq<int>): Sending
    requires size > 0
    decreases |rest|, op
  {
    if rest == [] && op == 0 then Sending([], None)
    else
      var frame := NextFrame(op, containedFin, rest, size);
      var wlen := Answer(answers, |frame.payload|);
      if wlen < 0 || (wlen == 0 && frame.payload != []) then Sending([], Some(wlen))
      else
        var more := Sent(0, containedFin, rest[wlen..], size, Later(answers));
        Sending([Write(frame, wlen)] + more.writes, more.failed)
  }

  /** What is looked at before the loop. A null payload is allowed with the length 0 only. */
  datatype Client = Client(given: bool, connected: bool, hasTransport: bool, lockTaken: bool, bufferMade: bool)

  /** `esp_websocket_client_send_with_exact_opcode`: the checks, the lock and the buffer, and then the loop. */
  method SendExact(c: Client, opcode: u8, data: Option<Bytes>, len: int, size: nat, answers: seq<int>)
      returns (writes: seq<Write>, ret: int)
    requires size > 0 && (data.Some? ==> len <= |data.value|)
    ensures var ready := && c.given && len >= 0 && (data.Some? || len == 0)
                         && c.connected && c.hasTransport && c.lockTaken && c.bufferMade;
            if !ready then writes == [] && ret == -1
            else
              var payload := if data.Some? then data.value[..len] else [];
              var all := Sent(opcode, opcode >= FIN, payload, size, answers);
              writes == all.writes && ret == if all.failed.Some? then all.failed.value else len
  {
    if !c.given || len < 0 || (data.None? && len > 0) {
      return [], -1;
    }
    if !c.connected || !c.hasTransport || !c.lockTaken || !c.bufferMade {
      return [], -1;
    }
    writes, ret := Send(opcode, if data.Some? then data.value[..len] else [], size, answers);
  }

  /** The loop, with a transport that answers each write with `answers`, and takes everything after them. */
  method Send(opcode: u8, data: Bytes, size: nat, answers: seq<int>) returns (writes: seq<Write>, ret: int)
    requires size > 0
    ensures var all := Sent(opcode, opcode >= FIN, data, size, answers);
            writes == all.writes && ret == if all.failed.Some? then all.failed.value else |data|
  {
    var op: u8, left := opcode, answers;
    var widx, need := 0, |data|;
    var containedFin := opcode >= FIN;
    writes := [];
    ghost var all := Sent(opcode, containedFin, data, size, answers);
    assert data[0..] == data && Continues(all, [], op, containedFin, data[0..], size, left);
    hide Sent, Continues, NextFrame, Later;
    while widx < |data| || op != 0
      invariant 0 <= widx <= |data| && need == |data| - widx && (op >= FIN ==> containedFin)
      invariant Continues(all, writes, op, containedFin, data[widx..], size, left)
      decreases need, op
    {
      var frame, wlen;
      frame, wlen := WriteNext(all, writes, op, containedFin, data, widx, size, left);
      if wlen < 0 || (wlen == 0 && frame.payload != []) {
        return writes, wlen;
      }
      writes := writes + [Write(frame, wlen)];
      op, left := 0, Later(left);
      widx := widx + wlen;
      need := |data| - widx;
    }
    Over(all, writes, containedFin, data[widx..], size, left);
    ret := widx;
  }

  /** One turn: build the frame and write it. */
  method WriteNext(
      ghost all: Sending, ghost writes: seq<Write>, op: u8, containedFin: bool, data: Bytes, widx: nat, size: nat,
      left: seq<int>) returns (frame: Frame, wlen: int)
    requires size > 0 && widx <= |data| && (widx < |data| || op != 0) && (op >= FIN ==> containedFin)
    requires Continues(all, writes, op, containedFin, data[widx..], size, left)
    ensures wlen <= |data| - widx && (frame.payload == [] ==> widx == |data|)
    ensures if wlen < 0 || (wlen == 0 && frame.payload != []) then all == Sending(writes, Some(wlen))
            else Continues(all, writes + [Write(frame, wlen)], 0, containedFin, data[widx + wlen..], size, Later(left))
  {
    hide Sent, Continues, NextFrame, Later;
    var rest := data[widx..];
    Turn(all, writes, op, containedFin, rest, size, left);
    var need;
    frame, need := BuildFrame(op, containedFin, rest, size);
    wlen := Answer(left, need);
    if wlen >= 0 {
      assert rest[wlen..] == data[widx + wlen..];
    }
  }

  /** The opcode's FIN bit is taken off or set, and the next bytes go into the buffer. */
  method BuildFrame(opcode: u8, containedFin: bool, rest: Bytes, size: nat) returns (frame: Frame, need: nat)
    requires opcode >= FIN ==> containedFin
    ensures frame == NextFrame(opcode, containedFin, rest, size) && need == |frame.payload| <= |rest|
    ensures size > 0 && need == 0 ==> rest == []
  {
    var op := opcode;
    need := |rest|;
    if need > size {
      need := size;
      op := op % FIN;
    } else if containedFin {
      op := op % FIN + FIN;
    }
    frame := FrameOf(op, rest[..need]);
  }

  /** What has been written, followed by what is still to be, is all of the call. */
  ghost predicate Continues(
      all: Sending, writes: seq<Write>, op: u8, containedFin: bool, rest: Bytes, size: nat, answers: seq<int>)
    requires size > 0
  {
    var left := Sent(op, containedFin, rest, size, answers);
    all.writes == writes + left.writes && all.failed == left.failed
  }

  lemma Turn(
      all: Sending, writes: seq<Write>, op: u8, containedFin: bool, rest: Bytes, size: nat, answers: seq<int>)
    requires size > 0 && (rest != [] || op != 0)
    requires Continues(all, writes, op, containedFin, rest, size, answers)
    ensures var frame := NextFrame(op, containedFin, rest, size);
            var wlen := Answer(answers, |frame.payload|);
            if wlen < 0 || (wlen == 0 && frame.payload != []) then all == Sending(writes, Some(wlen))
            else Continues(all, writes + [Write(frame, wlen)], 0, containedFin, rest[wlen..], size, Later(answers))
  {
    hide NextFrame;
    assert writes + [] == writes;
  }

  lemma Over(all: Sending, writes: seq<Write>, containedFin: bool, rest: Bytes, size: nat, answers: seq<int>)
    requires size > 0 && rest == [] && Continues(all, writes, 0, containedFin, rest, size, answers)
    ensures all == Sending(writes, None)
  {
  }

  // ---------- conservation ----------

  /** The bytes that the transport took, in order. */
  function Taken(writes: seq<Write>): Bytes {
    if writes == [] then []
    else
      var w := writes[0];
      w.frame.payload[..Min(w.taken, |w.frame.payload|)] + Taken(writes[1..])
  }

  function Frames(writes: seq<Write>): seq<Frame> {
    if writes == [] then [] else [writes[0].frame] + Frames(writes[1..])
  }

  /** Every write took the whole frame. */
  predicate Complete(writes: seq<Write>) {
    forall i :: 0 <= i < |writes| ==> writes[i].taken == |writes[i].frame.payload|
  }

  /** A call that does not fail has handed over its payload, whole and in order; one that fails, a prefix of it. */
  lemma {:induction false} NothingLost(op: u8, containedFin: bool, rest: Bytes, size: nat, answers: seq<int>)
    requires size > 0
    ensures var all := Sent(op, containedFin, rest, size, answers);
            Taken(all.writes) <= rest && (all.failed.None? ==> Taken(all.writes) == rest)
    decreases |rest|, op
  {
    if rest == [] && op == 0 {
    } else {
      var frame := NextFrame(op, containedFin, rest, size);
      var wlen := Answer(answers, |frame.payload|);
      if wlen > 0 || (wlen == 0 && frame.payload == []) {
        NothingLost(0, containedFin, rest[wlen..], size, Later(answers));
        var more := Sent(0, containedFin, rest[wlen..], size, Later(answers)).writes;
        assert ([Write(frame, wlen)] + more)[1..] == more;
        assert frame.payload[..wlen] == rest[..wlen] && rest == rest[..wlen] + rest[wlen..];
      }
    }
  }

  lemma FirstPiece(opcode: nat, fin: bool, data: Bytes, size: nat)
    requires size > 0
    ensures var pieces, n := Pieces(opcode, fin, data, size), if |data| <= size then |data| else size;
            && |pieces| > 0
            && pieces == [pieces[0]] + pieces[1..]
            && pieces[0] == Frame(opcode, fin && |data| <= size, data[..n])
            && pieces[1..] == if |data| <= size then [] else Pieces(0, fin, data[size..], size)
  {
    assert data[..|data|] == data;
  }

  // ---------- reassembly ----------

  datatype Message = Message(opcode: nat, payload: Bytes)

  /** A receiver of section 5.4: a data frame, then continuation frames, of which only the last has FIN. */
  function Reassemble(frames: seq<Frame>): Option<Message> {
    if frames == [] || frames[0].opcode == 0 then None
    else match Continue(frames[0].fin, frames[0].payload, frames[1..])
         case Some(payload) => Some(Message(frames[0].opcode, payload))
         case None => None
  }

  /** The rest of a message that is complete already or still open. */
  function Continue(complete: bool, payload: Bytes, frames: seq<Frame>): Option<Bytes>
    decreases |frames|
  {
    if frames == [] then (if complete then Some(payload) else None)
    else if complete || frames[0].opcode != 0 then None
    else Continue(frames[0].fin, payload + frames[0].payload, frames[1..])
  }

  lemma {:induction false} PiecesContinue(fin: bool, data: Bytes, size: nat, before: Bytes)
    requires size > 0
    ensures Continue(false, before, Pieces(0, fin, data, size)) == if fin then Some(before + data) else None
    decreases |data|
  {
    if |data| > size {
      var rest := Pieces(0, fin, data[size..], size);
      assert ([Frame(0, false, data[..size])] + rest)[1..] == rest;
      PiecesContinue(fin, data[size..], size, before + data[..size]);
      assert before + data[..size] + data[size..] == before + data;
    } else {
      assert [Frame(0, fin, data)][1..] == [];
    }
  }

  /**
   For every opcode, payload and buffer size, the frames reassemble to the payload under the
   opcode exactly when the call carries FIN and is not itself a continuation.
   */
  lemma ReassemblesIff(opcode: u8, data: Bytes, size: nat)
    requires size > 0
    ensures Reassemble(Fragments(opcode, data, size)) ==
            if opcode > FIN then Some(Message(opcode - FIN, data)) else None
  {
    var code, fin := opcode % FIN, opcode >= FIN;
    if data != [] || opcode != 0 {
      var frames := Pieces(code, fin, data, size);
      if |data| > size {
        var rest := Pieces(0, fin, data[size..], size);
        assert frames[1..] == rest;
        PiecesContinue(fin, data[size..], size, data[..size]);
        assert data[..size] + data[size..] == data;
      } else {
        assert frames[1..] == [];
      }
    }
  }

  function Payload(frames: seq<Frame>): Bytes {
    if frames == [] then [] else frames[0].payload + Payload(frames[1..])
  }

  /** Frame by frame: the opcode on the first only, FIN on the last only, none longer than the buffer, nothing lost. */
  lemma {:induction false} PiecesShape(opcode: nat, fin: bool, data: Bytes, size: nat, i: nat)
    requires size > 0 && i < |Pieces(opcode, fin, data, size)|
    ensures var frames := Pieces(opcode, fin, data, size);
            && frames[i].opcode == (if i == 0 then opcode else 0)
            && (frames[i].fin <==> fin && i == |frames| - 1)
            && |frames[i].payload| <= size
            && (i < |frames| - 1 ==> |frames[i].payload| == size)
            && Payload(frames) == data
    decreases |data|
  {
    if |data| > size {
      var rest := Pieces(0, fin, data[size..], size);
      assert Pieces(opcode, fin, data, size)[1..] == rest;
      PiecesShape(0, fin, data[size..], size, if i == 0 then 0 else i - 1);
      assert data[..size] + data[size..] == data;
    } else {
      assert Pieces(opcode, fin, data, size)[1..] == [];
    }
  }

  // ---------- which calls can be reassembled ----------

  /** With complete writes the frames are the fragments. */
  lemma {:induction false} CompleteSendsPieces(op: u8, containedFin: bool, rest: Bytes, size: nat, answers: seq<int>)
    requires size > 0
    ensures var all := Sent(op, containedFin, rest, size, answers);
            all.failed.None? && Complete(all.writes) ==>
              Frames(all.writes) == if rest == [] && op == 0 then [] else Pieces(op % FIN, containedFin, rest, size)
    decreases |rest|, op
  {
    var all := Sent(op, containedFin, rest, size, answers);
    if (rest != [] || op != 0) && all.failed.None? && Complete(all.writes) {
      var frame := NextFrame(op, containedFin, rest, size);
      var more := Sent(0, containedFin, rest[|frame.payload|..], size, Later(answers));
      assert all.writes[0].taken == |frame.payload|;
      assert all.writes[1..] == more.writes;
      assert Complete(more.writes);
      CompleteSendsPieces(0, containedFin, rest[|frame.payload|..], size, Later(answers));
      FirstPiece(op % FIN, containedFin, rest, size);
    }
  }

  /** The payloads of the frames are longer than what was taken, by what incomplete writes left. */
  lemma {:induction false} PayloadOfFrames(writes: seq<Write>)
    requires forall i :: 0 <= i < |writes| ==> writes[i].taken <= |writes[i].frame.payload|
    ensures |Payload(Frames(writes))| >= |Taken(writes)|
    ensures |Payload(Frames(writes))| == |Taken(writes)| <==> Complete(writes)
  {
    if writes == [] {
    } else {
      PayloadOfFrames(writes[1..]);
      var more := Frames(writes[1..]);
      assert ([writes[0].frame] + more)[1..] == more;
    }
  }

  /** Each write takes what the transport answered, or the whole frame where it answered more or nothing. */
  lemma {:induction false} TakenIsAnswered(
      op: u8, containedFin: bool, rest: Bytes, size: nat, answers: seq<int>, i: nat)
    requires size > 0 && i < |Sent(op, containedFin, rest, size, answers).writes|
    ensures var w := Sent(op, containedFin, rest, size, answers).writes[i];
            var len := |w.frame.payload|;
            w.taken == (if i < |answers| && answers[i] < len then answers[i] else len) && (w.taken > 0 || len == 0)
    decreases |rest|, op
  {
    if i > 0 {
      var wlen := Answer(answers, |NextFrame(op, containedFin, rest, size).payload|);
      TakenIsAnswered(0, containedFin, rest[wlen..], size, Later(answers), i - 1);
    }
  }

  /** A call fails with the first answer that is negative, or 0 for a frame with data, and with that answer. */
  lemma {:induction false} FailureIsAnswered(op: u8, containedFin: bool, rest: Bytes, size: nat, answers: seq<int>)
    requires size > 0
    ensures var all := Sent(op, containedFin, rest, size, answers);
            all.failed.Some? ==>
              |all.writes| < |answers| && all.failed.value == answers[|all.writes|] <= 0
    decreases |rest|, op
  {
    if rest == [] && op == 0 {
    } else {
      var wlen := Answer(answers, |NextFrame(op, containedFin, rest, size).payload|);
      if wlen > 0 || (wlen == 0 && NextFrame(op, containedFin, rest, size).payload == []) {
        FailureIsAnswered(0, containedFin, rest[wlen..], size, Later(answers));
      }
    }
  }

  lemma {:induction false} ContinuedPayload(complete: bool, payload: Bytes, frames: seq<Frame>)
    ensures var whole := Continue(complete, payload, frames);
            whole.Some? ==> whole.value == payload + Payload(frames)
    decreases |frames|
  {
    if frames == [] {
      assert payload + [] == payload;
    } else {
      ContinuedPayload(frames[0].fin, payload + frames[0].payload, frames[1..]);
      assert payload + frames[0].payload + Payload(frames[1..]) == payload + Payload(frames);
    }
  }

  lemma ReassembledPayload(frames: seq<Frame>)
    ensures Reassemble(frames).Some? ==> Reassemble(frames).value.payload == Payload(frames)
  {
    if frames != [] {
      ContinuedPayload(frames[0].fin, frames[0].payload, frames[1..]);
    }
  }

  /**
   A call that does not fail has sent frames that reassemble to its payload, under its opcode,
   exactly when it carries FIN, is not a continuation, and every transport write was complete.
   */
  lemma SentReassemblesIff(opcode: u8, data: Bytes, size: nat, answers: seq<int>)
    requires size > 0 && Sent(opcode, opcode >= FIN, data, size, answers).failed.None?
    ensures var writes := Sent(opcode, opcode >= FIN, data, size, answers).writes;
            Reassemble(Frames(writes)) == Some(Message(opcode % FIN, data)) <==> opcode > FIN && Complete(writes)
  {
    hide Sent, Reassemble, Fragments, Pieces, Frames, Taken, Payload;
    var writes := Sent(opcode, opcode >= FIN, data, size, answers).writes;
    NothingLost(opcode, opcode >= FIN, data, size, answers);
    forall i | 0 <= i < |writes|
      ensures writes[i].taken <= |writes[i].frame.payload|
    {
      TakenIsAnswered(opcode, opcode >= FIN, data, size, answers, i);
    }
    PayloadOfFrames(writes);
    ReassembledPayload(Frames(writes));
    if Complete(writes) {
      CompleteSendsPieces(opcode, opcode >= FIN, data, size, answers);
      FragmentsAre(opcode, data, size);
      ReassemblesIff(opcode, data, size);
    }
  }

  lemma FragmentsAre(opcode: u8, data: Bytes, size: nat)
    requires size > 0
    ensures Fragments(opcode, data, size) ==
            if data == [] && opcode == 0 then [] else Pieces(opcode % FIN, opcode >= FIN, data, size)
  {
  }
}
