/** The agent side of the root shell stream (portal/agent_handlers/shell.py).

    `Session` is the value of a `RootShellSession` object's stream fields, and the functions on it
    say what each critical section does; class `RootShellSession` runs the same sections in place
    and is proved against them. `ShellSystem` interleaves the sections with transports and browsers. */
module ShellSession {
  import opened Bytes

  const STREAM_BUFFER_BYTES: nat := 256 * 1024
  const STREAM_CHUNK_BYTES: nat := 16 * 1024
  const ROOT_SHELL_MAX_WRITE_BYTES: nat := 4096
  const MAX_INPUT_SEQ: nat := 0x1F_FFFF_FFFF_FFFF

  /** A stream lease. Fresh random identifiers are modelled by numbers that are never reused. */
  type Lease = nat

  /** SHA-256 of an input chunk, taken as injective. */
  datatype Digest = NoDigest | Sha256(data: Blob)

  datatype StreamError = StreamReplaced | CursorInvalid | SequenceInvalid | InvalidParams | RequestTooLarge

  datatype Session = Session(
    lease: Lease,
    output: Blob,
    outputStart: nat,
    outputAck: nat,
    closed: bool,
    stop: bool,
    inputSeq: nat,
    inputDigest: Digest,
    inputWritten: nat,
    pendingSeq: nat,
    pendingInput: Blob,
    pendingOffset: nat)

  /** The answer of `read_stream`. */
  datatype Frame = Frame(cursor: nat, data: Blob, alive: bool, inputSeq: nat)

  datatype ReadResult = Delivered(frame: Frame) | ReadRefused(error: StreamError)

  /** The answer of `ordered_write`. */
  datatype WriteReply =
    | Written(seq_: nat, complete: bool, written: nat, alive: bool)
    | WriteRefused(error: StreamError)

  function End(s: Session): nat {
    s.outputStart + |s.output|
  }

  const OPENED := Session(0, [], 0, 0, false, false, 0, NoDigest, 0, 0, [], 0)

  // ---- the critical sections -------------------------------------------------------------

  function Attach(s: Session, id: Lease): Session {
    s.(lease := id)
  }

  /** The pump may read this much next, or must wait for a reader to make room. */
  function PumpCapacity(s: Session): nat {
    if |s.output| >= STREAM_BUFFER_BYTES then 0
    else Min(STREAM_CHUNK_BYTES, STREAM_BUFFER_BYTES - |s.output|)
  }

  function PumpAppend(s: Session, chunk: Blob): Session {
    s.(output := s.output + chunk)
  }

  function PumpFinish(s: Session): Session {
    s.(closed := true)
  }

  /** The first half of `read_stream`, up to its wait: whatever lies before `cursor` is
      acknowledged and dropped, unless the caller lost the lease or asks outside the buffer. */
  function BeginRead(s: Session, id: Lease, cursor: nat): (Session, Option<StreamError>) {
    if id != s.lease then (s, Some(StreamReplaced))
    else if cursor < s.outputStart || cursor > End(s) then (s, Some(CursorInvalid))
    else if cursor == s.outputStart then (s, None)
    else (s.(output := s.output[cursor - s.outputStart..], outputStart := cursor, outputAck := cursor), None)
  }

  /** The second half of `read_stream`, after its wait. It does not look at `outputStart` again. */
  function Deliver(s: Session, id: Lease, cursor: nat): ReadResult {
    if id != s.lease then ReadRefused(StreamReplaced)
    else
      var chunk := Take(s.output, STREAM_CHUNK_BYTES);
      Delivered(Frame(cursor + |chunk|, chunk, !s.closed, s.inputSeq))
  }

  /** The chunk was completed before: answer again without touching the terminal. */
  predicate IsRepeat(s: Session, id: Lease, seq_: nat, data: Blob) {
    id == s.lease && 0 < seq_ == s.inputSeq && Sha256(data) == s.inputDigest
  }

  /** The chunk is the next one, or the rest of the one being written. */
  predicate IsNext(s: Session, id: Lease, seq_: nat, data: Blob) {
    && id == s.lease
    && seq_ == s.inputSeq + 1
    && (s.pendingSeq != 0 ==> s.pendingSeq == seq_ && s.pendingInput == data)
  }

  /** How much of the chunk earlier calls have already given to the terminal. */
  function Resume(s: Session): nat {
    if s.pendingSeq != 0 then s.pendingOffset else 0
  }

  /** A byte string without its first `n` bytes; empty when it is shorter. */
  function Rest(data: Blob, n: nat): Blob {
    if n <= |data| then data[n..] else []
  }

  /** The session after `count` more bytes of chunk `seq_` went to the terminal. */
  function Advance(s: Session, seq_: nat, data: Blob, count: nat, gone: bool): Session {
    var offset := Resume(s) + count;
    var t := s.(closed := s.closed || gone);
    if offset == |data| then
      t.(inputSeq := seq_, inputDigest := Sha256(data), inputWritten := offset,
         pendingSeq := 0, pendingInput := [], pendingOffset := 0)
    else
      t.(pendingSeq := seq_, pendingInput := data, pendingOffset := offset)
  }

  /** `ordered_write` when the terminal takes `count` bytes of what is left of the chunk. */
  function OrderedWrite(s: Session, id: Lease, seq_: nat, data: Blob, count: nat, gone: bool): (Session, WriteReply) {
    if IsNext(s, id, seq_, data) then
      var t := Advance(s, seq_, data, count, gone);
      (t, Written(seq_, Resume(s) + count == |data|, Resume(s) + count, !t.closed))
    else if IsRepeat(s, id, seq_, data) then
      (s, Written(seq_, true, s.inputWritten, !s.closed))
    else
      (s, WriteRefused(if id != s.lease then StreamReplaced else SequenceInvalid))
  }

  /** What an ordered write answers and leaves. Refused are another lease, an altered repeat, a gap, and
      another chunk while one is under way; a repeat is answered as before; the next chunk goes on
      where it was left and is complete with its last byte. */
  lemma OrderedWriteExactly(s: Session, id: Lease, seq_: nat, data: Blob, count: nat, gone: bool)
    ensures var (t, reply) := OrderedWrite(s, id, seq_, data, count, gone);
            var other := s.pendingSeq != 0 && !(s.pendingSeq == seq_ && s.pendingInput == data);
            var from := if s.pendingSeq != 0 then s.pendingOffset else 0;
            if id != s.lease then reply == WriteRefused(StreamReplaced) && t == s
            else if 0 < seq_ == s.inputSeq then
              t == s && reply == if Sha256(data) == s.inputDigest then Written(seq_, true, s.inputWritten, !s.closed)
                                 else WriteRefused(SequenceInvalid)
            else if seq_ != s.inputSeq + 1 || other then reply == WriteRefused(SequenceInvalid) && t == s
            else
              && reply == Written(seq_, from + count == |data|, from + count, !(s.closed || gone))
              && t == s.(closed := s.closed || gone, inputSeq := t.inputSeq, inputDigest := t.inputDigest,
                         inputWritten := t.inputWritten, pendingSeq := t.pendingSeq,
                         pendingInput := t.pendingInput, pendingOffset := t.pendingOffset)
              && if from + count == |data| then
                   t.inputSeq == seq_ && t.inputDigest == Sha256(data) && t.inputWritten == |data| && t.pendingSeq == 0
                 else
                   && t.inputSeq == s.inputSeq && t.inputDigest == s.inputDigest && t.inputWritten == s.inputWritten
                   && t.pendingSeq == seq_ && t.pendingInput == data && t.pendingOffset == from + count
  {
  }

  /** The chunk passes the entry checks of `_shell_write` and is due at the terminal. */
  predicate Reaches(s: Session, id: Lease, seq_: nat, data: Blob) {
    |data| <= ROOT_SHELL_MAX_WRITE_BYTES && 1 <= seq_ <= MAX_INPUT_SEQ && IsNext(s, id, seq_, data)
  }

  /** `_shell_write` for a streamed chunk (portal/agent_handlers/dispatcher.py). */
  function ShellWrite(s: Session, id: Lease, seq_: nat, data: Blob, count: nat, gone: bool): (Session, WriteReply) {
    if |data| > ROOT_SHELL_MAX_WRITE_BYTES then (s, WriteRefused(RequestTooLarge))
    else if !(1 <= seq_ <= MAX_INPUT_SEQ) then (s, WriteRefused(InvalidParams))
    else OrderedWrite(s, id, seq_, data, count, gone)
  }

  /** What the terminal can take of the rest of the chunk: a closed session writes nothing. */
  predicate WriteOutcomePossible(s: Session, data: Blob, count: nat, gone: bool) {
    && count <= |Rest(data, Resume(s))|
    && (s.closed ==> count == 0 && !gone)
    && (gone ==> count < |Rest(data, Resume(s))|)
  }

  /** `close` begins: writers and the pump are told to stop. */
  function BeginClose(s: Session): Session {
    s.(stop := true, closed := true)
  }

  /** `close` ends: what nobody read is dropped, but `outputStart` does not move. */
  function FinishClose(s: Session): Session {
    s.(pendingInput := [], output := [])
  }

  // ---- the object ------------------------------------------------------------------------

  /** What one pass of the loop in `write_bytes` meets. */
  datatype WriteEvent =
    | Accepts(count: nat)
    | Busy
    | Gone
    | Fails
    | DeadlinePassed

  /** The terminal: `accepted` is everything it has taken, `events` what it will answer. */
  class Pty {
    ghost var accepted: Blob
    var events: seq<WriteEvent>

    constructor (events: seq<WriteEvent>)
      ensures accepted == [] && this.events == events
    {
      accepted, this.events := [], events;
    }

    /** `os.write`: takes some prefix of `data`, or answers that it cannot. */
    method Write(data: Blob) returns (e: WriteEvent)
      requires data != []
      modifies this
      ensures e.Accepts? ==> e.count <= |data| && accepted == old(accepted) + data[..e.count]
      ensures !e.Accepts? ==> accepted == old(accepted)
      ensures old(events) == [] ==> e.DeadlinePassed? && events == []
      ensures old(events) != [] ==>
                && events == old(events)[1..]
                && e == if old(events)[0].Accepts? then Accepts(Min(old(events)[0].count, |data|)) else old(events)[0]
    {
      if events == [] {
        return DeadlinePassed;
      }
      e := events[0];
      events := events[1..];
      if e.Accepts? {
        e := Accepts(Min(e.count, |data|));
        accepted := accepted + data[..e.count];
      }
    }
  }

  /** `after` is what is left of `before`. */
  predicate Consumed(before: seq<WriteEvent>, after: seq<WriteEvent>) {
    |after| <= |before| && after == before[|before| - |after|..]
  }

  /** The last event met ends the loop; no events at all is the deadline. */
  predicate Stopped(before: seq<WriteEvent>, after: seq<WriteEvent>, gone: bool) {
    && Consumed(before, after)
    && if |after| == |before| then before == [] && !gone
       else
         var last := before[|before| - |after| - 1];
         if gone then last.Gone? else last.Fails? || last.DeadlinePassed? || after == []
  }

  class RootShellSession {
    var streamId: Lease
    var output: Blob
    var outputStart: nat
    var outputAck: nat
    var closed: bool
    var stop: bool
    var inputSeq: nat
    var inputDigest: Digest
    var inputWritten: nat
    var pendingSeq: nat
    var pendingInput: Blob
    var pendingOffset: nat
    const pty: Pty

    ghost function View(): Session
      reads this
    {
      Session(streamId, output, outputStart, outputAck, closed, stop,
              inputSeq, inputDigest, inputWritten, pendingSeq, pendingInput, pendingOffset)
    }

    constructor (pty: Pty)
      ensures View() == OPENED && this.pty == pty
    {
      this.pty := pty;
      streamId, output, outputStart, outputAck, closed, stop := 0, [], 0, 0, false, false;
      inputSeq, inputDigest, inputWritten := 0, NoDigest, 0;
      pendingSeq, pendingInput, pendingOffset := 0, [], 0;
    }

    method StartStream(id: Lease)
      modifies this
      ensures View() == Attach(old(View()), id)
      ensures View() == old(View()).(lease := id)
    {
      streamId := id;
    }

    /** Gives `data` to the terminal piece by piece; the terminal receives exactly the returned
        prefix, each byte once, however the calls are cut short. It stops early only when the session
        is closed, the terminal is gone or fails, or the deadline passes. */
    method WriteBytes(data: Blob) returns (offset: nat, ghost gone: bool)
      modifies this`closed, pty
      ensures offset <= |data|
      ensures pty.accepted == old(pty.accepted) + data[..offset]
      ensures closed == (old(closed) || gone)
      ensures old(closed) ==> offset == 0 && !gone
      ensures gone ==> offset < |data|
      ensures offset < |data| ==> old(closed) || Stopped(old(pty.events), pty.events, gone)
    {
      offset, gone := 0, false;
      while offset < |data| && !closed
        invariant offset <= |data|
        invariant pty.accepted == old(pty.accepted) + data[..offset]
        invariant closed == old(closed)
        invariant old(closed) ==> offset == 0
        invariant !gone && Consumed(old(pty.events), pty.events)
        decreases |pty.events|
      {
        var e := pty.Write(data[offset..]);
        match e
        case Accepts(count) =>
          assert data[..offset] + data[offset..][..count] == data[..offset + count];
          offset := offset + count;
        case Busy =>
        case Gone =>
          closed, gone := true, true;
          break;
        case Fails =>
          break;
        case DeadlinePassed =>
          break;
      }
    }

    /** First critical section of one turn of the pump: how much it may read, 0 for "wait". */
    method PumpReserve() returns (capacity: nat)
      ensures capacity == PumpCapacity(View())
      ensures 0 < capacity ==> |output| + capacity <= STREAM_BUFFER_BYTES && capacity <= STREAM_CHUNK_BYTES
      ensures |output| < STREAM_BUFFER_BYTES ==>
                capacity == STREAM_CHUNK_BYTES || |output| + capacity == STREAM_BUFFER_BYTES
      ensures STREAM_BUFFER_BYTES <= |output| ==> capacity == 0
    {
      if |output| >= STREAM_BUFFER_BYTES {
        return 0;
      }
      capacity := Min(STREAM_CHUNK_BYTES, STREAM_BUFFER_BYTES - |output|);
    }

    /** Second critical section of one turn of the pump. */
    method PumpStore(chunk: Blob)
      modifies this`output
      ensures View() == PumpAppend(old(View()), chunk)
      ensures output == old(output) + chunk
    {
      output := output + chunk;
    }

    /** The `finally` section of the pump. */
    method PumpEnd()
      modifies this`closed
      ensures View() == PumpFinish(old(View()))
      ensures closed
    {
      closed := true;
    }

    /** `read_stream` up to its wait. */
    method ReadBegin(id: Lease, cursor: nat) returns (refused: Option<StreamError>)
      modifies this`output, this`outputStart, this`outputAck
      ensures (View(), refused) == BeginRead(old(View()), id, cursor)
      ensures refused == Some(StreamReplaced) <==> id != streamId
      ensures refused == Some(CursorInvalid) <==>
                id == streamId && !(old(outputStart) <= cursor <= old(outputStart) + |old(output)|)
      ensures refused.Some? ==> View() == old(View())
      ensures refused.None? ==>
                && outputStart == cursor && output == old(output)[cursor - old(outputStart)..]
                && outputAck == if cursor == old(outputStart) then old(outputAck) else cursor
    {
      if id != streamId {
        return Some(StreamReplaced);
      }
      var end := outputStart + |output|;
      if cursor < outputStart || cursor > end {
        return Some(CursorInvalid);
      }
      var discard := cursor - outputStart;
      if discard != 0 {
        output := output[discard..];
        outputStart := cursor;
        outputAck := cursor;
      }
      return None;
    }

    /** `read_stream` after its wait. */
    method ReadEnd(id: Lease, cursor: nat) returns (r: ReadResult)
      ensures r == Deliver(View(), id, cursor)
      ensures r.Delivered? ==> r.frame.data <= output && |r.frame.data| <= STREAM_CHUNK_BYTES
      ensures r.Delivered? <==> id == streamId
      ensures !r.Delivered? ==> r.error == StreamReplaced
      ensures r.Delivered? ==>
                && (r.frame.data == output || |r.frame.data| == STREAM_CHUNK_BYTES)
                && r.frame.cursor == cursor + |r.frame.data| && r.frame.alive == !closed
                && r.frame.inputSeq == inputSeq
    {
      if id != streamId {
        return ReadRefused(StreamReplaced);
      }
      var chunk := Take(output, STREAM_CHUNK_BYTES);
      return Delivered(Frame(cursor + |chunk|, chunk, !closed, inputSeq));
    }

    /** Writes chunk `seq_` or the rest of it. `count` bytes reach the terminal: exactly the ones
        after those that earlier calls delivered, and none at all for a repeat or a refusal. */
    method Write(id: Lease, seq_: nat, data: Blob) returns (reply: WriteReply, ghost count: nat, ghost gone: bool)
      modifies this, pty
      ensures IsNext(old(View()), id, seq_, data) ==> WriteOutcomePossible(old(View()), data, count, gone)
      ensures !IsNext(old(View()), id, seq_, data) ==> count == 0 && !gone
      ensures (View(), reply) == OrderedWrite(old(View()), id, seq_, data, count, gone)
      ensures pty.accepted == old(pty.accepted) +
              if IsNext(old(View()), id, seq_, data) then Rest(data, old(Resume(View())))[..count] else []
    {
      count, gone := 0, false;
      if id != streamId {
        return WriteRefused(StreamReplaced), count, gone;
      }
      var digest := Sha256(data);
      if seq_ == inputSeq && seq_ > 0 {
        if digest != inputDigest {
          return WriteRefused(SequenceInvalid), count, gone;
        }
        return Written(seq_, true, inputWritten, !closed), count, gone;
      }
      if seq_ != inputSeq + 1 {
        return WriteRefused(SequenceInvalid), count, gone;
      }
      if pendingSeq != 0 && (pendingSeq != seq_ || pendingInput != data) {
        return WriteRefused(SequenceInvalid), count, gone;
      }
      reply, count, gone := WriteOn(seq_, data);
    }

    /** The rest of `ordered_write`, once the chunk is known to be the next. */
    method WriteOn(seq_: nat, data: Blob) returns (reply: WriteReply, ghost count: nat, ghost gone: bool)
      requires pendingSeq != 0 ==> pendingSeq == seq_ && pendingInput == data
      modifies this, pty
      ensures WriteOutcomePossible(old(View()), data, count, gone)
      ensures View() == Advance(old(View()), seq_, data, count, gone)
      ensures reply == Written(seq_, old(Resume(View())) + count == |data|, old(Resume(View())) + count, !closed)
      ensures pty.accepted == old(pty.accepted) + Rest(data, old(Resume(View())))[..count]
    {
      if pendingSeq == 0 {
        pendingSeq, pendingInput, pendingOffset := seq_, data, 0;
      }
      var taken: nat;
      taken, gone := WriteBytes(Rest(data, pendingOffset));
      count := taken;
      pendingOffset := pendingOffset + taken;
      var complete := pendingOffset == |data|;
      var written := pendingOffset;
      if complete {
        inputSeq, inputDigest, inputWritten := seq_, Sha256(data), written;
        pendingSeq, pendingInput, pendingOffset := 0, [], 0;
      }
      return Written(seq_, complete, written, !closed), count, gone;
    }

    /** The entry point: size and number are checked before the session is touched. */
    method Dispatch(id: Lease, seq_: nat, data: Blob) returns (reply: WriteReply, ghost count: nat, ghost gone: bool)
      modifies this, pty
      ensures Reaches(old(View()), id, seq_, data) ==> WriteOutcomePossible(old(View()), data, count, gone)
      ensures (View(), reply) == ShellWrite(old(View()), id, seq_, data, count, gone)
      ensures pty.accepted == old(pty.accepted) +
              if Reaches(old(View()), id, seq_, data) then Rest(data, old(Resume(View())))[..count] else []
      ensures reply == WriteRefused(RequestTooLarge) <==> |data| > ROOT_SHELL_MAX_WRITE_BYTES
      ensures reply == WriteRefused(InvalidParams) <==>
                |data| <= ROOT_SHELL_MAX_WRITE_BYTES && !(1 <= seq_ <= MAX_INPUT_SEQ)
      ensures reply.WriteRefused? ==> View() == old(View()) && count == 0
    {
      count, gone := 0, false;
      if |data| > ROOT_SHELL_MAX_WRITE_BYTES {
        return WriteRefused(RequestTooLarge), count, gone;
      }
      if !(1 <= seq_ <= MAX_INPUT_SEQ) {
        return WriteRefused(InvalidParams), count, gone;
      }
      reply, count, gone := Write(id, seq_, data);
    }

    method CloseBegin()
      modifies this`stop, this`closed
      ensures View() == BeginClose(old(View()))
      ensures stop && closed
    {
      stop := true;
      closed := true;
    }

    method CloseEnd()
      modifies this`pendingInput, this`output
      ensures View() == FinishClose(old(View()))
      ensures pendingInput == [] && output == []
    {
      pendingInput := [];
      output := [];
    }
  }
}
