/** The browser side of the stream (portal/app/static/root-shell.js) during the life of one shell.

    `Browser` holds the script's variables, `timer` being set while the input timer runs, and three
    histories: `typed` is the input it accepted, `log` the numbered chunks it cut, `rendered` what the
    terminal has processed. */
module ShellBrowser {
  import opened Bytes
  import opened ShellTransport

  const MAX_CHUNK: nat := 3500
  const MAX_QUEUED: nat := 256 * 1024

  /** One character as its UTF-8 bytes. */
  type Char = c: Blob | 1 <= |c| <= 4 witness [0]

  datatype Chunk = Chunk(seq_: nat, data: Blob)

  /** A frame handed to the terminal whose write callback has not run. */
  datatype Render = Render(cursor: nat, data: Blob, socket: nat)

  datatype Browser = Browser(
    socket: Option<nat>,
    connected: bool,
    stopped: bool,
    cursor: nat,
    nextSeq: nat,
    pending: Option<Chunk>,
    queue: seq<Char>,
    queuedBytes: int,
    timer: bool,
    renders: seq<Render>,
    rendered: Blob,
    log: seq<Blob>,
    typed: Blob)

  const FRESH := Browser(None, false, false, 0, 1, None, [], 0, false, [], [], [], [])

  function Encode(queue: seq<Char>): Blob {
    Flatten(queue)
  }

  /** How many characters from the front of `queue` fit into `room` bytes. */
  function Fitting(queue: seq<Char>, room: nat): (n: nat)
    ensures n <= |queue|
  {
    if queue == [] || |queue[0]| > room then 0
    else 1 + Fitting(queue[1..], room - |queue[0]|)
  }

  function Stop(b: Browser): Browser {
    b.(stopped := true, connected := false, pending := None, queue := [], queuedBytes := 0, timer := false,
       socket := None)
  }

  /** Cuts the next chunk when none is pending, then sends the pending one (again). */
  function Flush(b: Browser): (Browser, seq<ClientMsg>) {
    var c := b.(timer := false);
    if !b.connected then (c, [])
    else if b.pending.Some? then (c, [Input(b.pending.value.seq_, b.pending.value.data)])
    else if b.queue == [] then (c, [])
    else
      var n := Fitting(b.queue, MAX_CHUNK);
      var data := Encode(b.queue[..n]);
      (c.(pending := Some(Chunk(b.nextSeq, data)), queue := b.queue[n..],
          queuedBytes := b.queuedBytes - |data|, log := b.log + [data]),
       [Input(b.nextSeq, data)])
  }

  /** Input is queued whole or refused whole. The timer is started unless a chunk is pending. */
  function Type(b: Browser, text: seq<Char>): Browser {
    if b.stopped || text == [] || b.queuedBytes + |Encode(text)| > MAX_QUEUED then b
    else b.(queue := b.queue + text, queuedBytes := b.queuedBytes + |Encode(text)|, timer := b.timer || b.pending.None?,
            typed := b.typed + Encode(text))
  }

  function OnReady(b: Browser, inputSeq: nat): (Browser, seq<ClientMsg>) {
    Flush(b.(connected := true, nextSeq := if b.pending.None? then inputSeq + 1 else b.nextSeq))
  }

  function OnOutput(b: Browser, socket: nat, cursor: nat, data: Blob): (Browser, seq<ClientMsg>) {
    if cursor <= b.cursor then (b, [Ack(b.cursor)])
    else if cursor - |data| != b.cursor then (Stop(b), [])
    else (b.(renders := b.renders + [Render(cursor, data, socket)]), [])
  }

  function OnInputAck(b: Browser, seq_: nat, complete: bool, alive: bool): (Browser, seq<ClientMsg>) {
    if b.pending.None? || b.pending.value.seq_ != seq_ then (Stop(b), [])
    else if complete then Flush(b.(nextSeq := b.pending.value.seq_ + 1, pending := None))
    else if alive then (b.(timer := true), [])
    else (Stop(b), [])
  }

  /** A message from the current socket. */
  function OnMessage(b: Browser, socket: nat, m: ServerMsg): (Browser, seq<ClientMsg>) {
    match m
    case Ready(inputSeq) => OnReady(b, inputSeq)
    case Output(cursor, data) => OnOutput(b, socket, cursor, data)
    case InputAck(seq_, complete, alive) => OnInputAck(b, seq_, complete, alive)
    case Exit => (Stop(b), [])
    case Error => (Stop(b), [])
  }

  /** The terminal finished a frame. Only now does the cursor move and the frame get acknowledged. */
  function OnRendered(b: Browser): (Browser, seq<ClientMsg>)
    requires b.renders != []
  {
    var r := b.renders[0];
    var done := b.(renders := b.renders[1..], rendered := b.rendered + r.data);
    if b.stopped then (done, [])
    else (done.(cursor := r.cursor), if b.socket == Some(r.socket) then [Ack(r.cursor)] else [])
  }

  function OnClose(b: Browser): Browser {
    b.(socket := None, connected := false)
  }

  function Connect(b: Browser, socket: nat): Browser {
    b.(socket := Some(socket))
  }

  // ---- the script ------------------------------------------------------------------------

  /** Cutting a queue in two does not change its bytes. */
  lemma EncodeSplit(queue: seq<Char>, n: nat)
    requires n <= |queue|
    ensures Encode(queue) == Encode(queue[..n]) + Encode(queue[n..])
  {
    EncodeConcat(queue[..n], queue[n..]);
    assert queue[..n] + queue[n..] == queue;
  }

  lemma {:induction false} EncodeConcat(a: seq<Char>, b: seq<Char>)
    ensures Encode(a + b) == Encode(a) + Encode(b)
  {
    if b == [] {
      assert a + b == a;
    } else {
      var k := |b| - 1;
      EncodeConcat(a, b[..k]);
      assert (a + b)[..|a + b| - 1] == a + b[..k];
    }
  }

  lemma EncodeOne(c: Char)
    ensures Encode([c]) == c
  {
    FlattenSnoc([], c);
    assert [] + [c] == [c];
  }

  lemma {:induction false} FittingBound(queue: seq<Char>, room: nat)
    ensures |Encode(queue[..Fitting(queue, room)])| <= room
    ensures queue != [] && 4 <= room ==> 0 < |Encode(queue[..Fitting(queue, room)])|
    ensures var n := Fitting(queue, room); n < |queue| ==> room < |Encode(queue[..n + 1])|
  {
    var n := Fitting(queue, room);
    if queue != [] && |queue[0]| <= room {
      FittingBound(queue[1..], room - |queue[0]|);
      assert queue[..n] == [queue[0]] + queue[1..][..n - 1];
      EncodeConcat([queue[0]], queue[1..][..n - 1]);
      EncodeOne(queue[0]);
      if n < |queue| {
        assert queue[..n + 1] == [queue[0]] + queue[1..][..n];
        EncodeConcat([queue[0]], queue[1..][..n]);
      }
    } else if queue != [] {
      assert queue[..1] == [queue[0]];
      EncodeOne(queue[0]);
    }
  }

  /** Takes as many whole characters as fit into one chunk, in one pass over the queue. */
  method CutChunk(queue: seq<Char>) returns (length: nat, bytes: nat)
    ensures length == Fitting(queue, MAX_CHUNK)
    ensures bytes == |Encode(queue[..length])| <= MAX_CHUNK
    ensures queue != [] ==> 0 < bytes
    ensures length < |queue| ==> MAX_CHUNK < |Encode(queue[..length + 1])|
  {
    length, bytes := 0, 0;
    while length < |queue|
      invariant length <= |queue|
      invariant bytes == |Encode(queue[..length])| <= MAX_CHUNK
      invariant Fitting(queue, MAX_CHUNK) == length + Fitting(queue[length..], MAX_CHUNK - bytes)
    {
      var size := |queue[length]|;
      assert queue[length..][0] == queue[length];
      if bytes + size > MAX_CHUNK {
        break;
      }
      assert queue[..length + 1] == queue[..length] + [queue[length]];
      EncodeConcat(queue[..length], [queue[length]]);
      EncodeOne(queue[length]);
      assert queue[length..][1..] == queue[length + 1..];
      bytes := bytes + size;
      length := length + 1;
    }
    FittingBound(queue, MAX_CHUNK);
  }

  class RootShellPage {
    var socket: Option<nat>
    var connected: bool
    var stopped: bool
    var cursor: nat
    var nextSeq: nat
    var pending: Option<Chunk>
    var queue: seq<Char>
    var queuedBytes: int
    var timer: bool
    var renders: seq<Render>
    ghost var rendered: Blob
    ghost var log: seq<Blob>
    ghost var typed: Blob

    ghost function View(): Browser
      reads this
    {
      Browser(socket, connected, stopped, cursor, nextSeq, pending, queue, queuedBytes, timer,
              renders, rendered, log, typed)
    }

    constructor ()
      ensures View() == FRESH
      ensures !connected && !stopped && cursor == 0 && nextSeq == 1 && pending.None? && queue == [] && !timer
    {
      socket, connected, stopped, cursor, nextSeq, pending := None, false, false, 0, 1, None;
      queue, queuedBytes, timer, renders, rendered, log, typed := [], 0, false, [], [], [], [];
    }

    method StopPage()
      modifies this
      ensures View() == Stop(old(View()))
      ensures stopped && !connected && socket.None? && pending.None? && queue == [] && queuedBytes == 0 && !timer
      ensures cursor == old(cursor) && renders == old(renders)
    {
      stopped := true;
      connected := false;
      timer := false;
      pending := None;
      queue := [];
      queuedBytes := 0;
      socket := None;
    }

    method FlushInput() returns (out: seq<ClientMsg>)
      modifies this`timer, this`pending, this`queue, this`queuedBytes, this`log
      ensures (View(), out) == Flush(old(View()))
      ensures !timer
      ensures !connected ==> out == [] && pending == old(pending) && queue == old(queue)
      ensures connected ==>
                out == if pending.Some? then [Input(pending.value.seq_, pending.value.data)] else []
      ensures connected && pending.None? ==> old(pending).None? && queue == old(queue) == []
      ensures old(pending).Some? ==> pending == old(pending) && queue == old(queue)
      ensures old(pending).None? && pending.Some? ==>
                && pending.value.seq_ == nextSeq && 0 < |pending.value.data| <= MAX_CHUNK
                && pending.value.data + Encode(queue) == old(Encode(queue))
                && queuedBytes == old(queuedBytes) - |pending.value.data|
    {
      out := [];
      timer := false;
      if !connected {
        return;
      }
      if pending.None? && queue != [] {
        CutNext();
      }
      if pending.Some? {
        out := [Input(pending.value.seq_, pending.value.data)];
      }
    }

    /** The part of `flush` that makes the next chunk of the front of the queue. */
    method CutNext()
      requires pending.None? && queue != []
      modifies this`pending, this`queue, this`queuedBytes, this`log
      ensures var n := Fitting(old(queue), MAX_CHUNK);
              && pending == Some(Chunk(nextSeq, Encode(old(queue)[..n]))) && queue == old(queue)[n..]
              && queuedBytes == old(queuedBytes) - |pending.value.data| && log == old(log) + [pending.value.data]
      ensures pending.Some? && 0 < |pending.value.data| <= MAX_CHUNK
      ensures pending.value.data + Encode(queue) == old(Encode(queue))
    {
      var length, bytes := CutChunk(queue);
      var data := Encode(queue[..length]);
      EncodeSplit(queue, length);
      pending := Some(Chunk(nextSeq, data));
      queue := queue[length..];
      queuedBytes := queuedBytes - bytes;
      log := log + [data];
    }

    method OnData(text: seq<Char>)
      modifies this`timer, this`queue, this`queuedBytes, this`typed
      ensures View() == Type(old(View()), text)
      ensures !stopped && text != [] && old(queuedBytes) + |Encode(text)| <= MAX_QUEUED ==>
                && queue == old(queue) + text && queuedBytes == old(queuedBytes) + |Encode(text)|
                && typed == old(typed) + Encode(text) && (pending.None? ==> timer)
      ensures stopped || old(queuedBytes) + |Encode(text)| > MAX_QUEUED ==>
                queue == old(queue) && queuedBytes == old(queuedBytes) && typed == old(typed)
      ensures old(timer) ==> timer
    {
      if stopped || text == [] {
        return;
      }
      var size := |Encode(text)|;
      if queuedBytes + size > MAX_QUEUED {
        return;
      }
      queue := queue + text;
      queuedBytes := queuedBytes + size;
      typed := typed + Encode(text);
      if pending.None? {
        timer := true;
      }
    }

    /** The `input_ack` case: only the pending chunk can be acknowledged. */
    method Acknowledged(seq_: nat, complete: bool, alive: bool) returns (out: seq<ClientMsg>)
      modifies this
      ensures (View(), out) == OnInputAck(old(View()), seq_, complete, alive)
      ensures old(pending).None? || old(pending).value.seq_ != seq_ ==> stopped && out == []
      ensures old(pending).Some? && old(pending).value.seq_ == seq_ && complete ==>
                && nextSeq == seq_ + 1 && (pending.Some? ==> pending.value.seq_ == seq_ + 1)
                && (connected ==> out == if pending.Some? then [Input(pending.value.seq_, pending.value.data)] else [])
                && (connected && pending.None? ==> queue == [])
      ensures old(pending).Some? && old(pending).value.seq_ == seq_ && !complete ==>
                && out == []
                && if alive then View() == old(View()).(timer := true) else stopped
    {
      out := [];
      if pending.None? || pending.value.seq_ != seq_ {
        StopPage();
      } else if complete {
        nextSeq := pending.value.seq_ + 1;
        pending := None;
        out := FlushInput();
      } else if alive {
        timer := true;
      } else {
        StopPage();
      }
    }

    method Receive(m: ServerMsg) returns (out: seq<ClientMsg>)
      requires socket.Some?
      modifies this
      ensures (View(), out) == OnMessage(old(View()), old(socket).value, m)
      // The greeting opens the input; what is pending goes out again, and else the queue.
      ensures m.Ready? ==>
                && connected && (old(pending).Some? ==> pending == old(pending))
                && (old(pending).None? && pending.Some? ==> pending.value.seq_ == m.inputSeq + 1)
                && (pending.None? ==> queue == [])
                && out == if pending.Some? then [Input(pending.value.seq_, pending.value.data)] else []
      // A frame that continues the output is shown, an old one acknowledged again, a gap is the end.
      ensures m.Output? && m.cursor <= old(cursor) ==> View() == old(View()) && out == [Ack(cursor)]
      ensures m.Output? && old(cursor) < m.cursor && m.cursor - |m.data| == old(cursor) ==>
                && out == [] && stopped == old(stopped)
                && renders == old(renders) + [Render(m.cursor, m.data, old(socket).value)]
      ensures m.Output? && old(cursor) < m.cursor && m.cursor - |m.data| != old(cursor) ==> stopped && out == []
      // Only the pending chunk can be acknowledged: the next follows, or the rest after a while.
      ensures m.InputAck? && (old(pending).None? || old(pending).value.seq_ != m.seq_) ==> stopped && out == []
      ensures m.InputAck? && old(pending).Some? && old(pending).value.seq_ == m.seq_ && m.complete ==>
                && nextSeq == m.seq_ + 1 && (pending.Some? ==> pending.value.seq_ == m.seq_ + 1)
                && (connected ==> out == if pending.Some? then [Input(pending.value.seq_, pending.value.data)] else [])
                && (connected && pending.None? ==> queue == [])
      ensures m.InputAck? && old(pending).Some? && old(pending).value.seq_ == m.seq_ && !m.complete ==>
                && out == []
                && if m.alive then View() == old(View()).(timer := true) else stopped
      ensures m.Exit? || m.Error? ==> stopped && socket.None? && out == []
    {
      out := [];
      match m
      case Ready(inputSeq) =>
        connected := true;
        if pending.None? {
          nextSeq := inputSeq + 1;
        }
        out := FlushInput();
      case Output(at, data) =>
        if at <= cursor {
          out := [Ack(cursor)];
        } else if at - |data| != cursor {
          StopPage();
        } else {
          renders := renders + [Render(at, data, socket.value)];
        }
      case InputAck(seq_, complete, alive) =>
        out := Acknowledged(seq_, complete, alive);
      case Exit =>
        StopPage();
      case Error =>
        StopPage();
    }

    method WriteCallback() returns (out: seq<ClientMsg>)
      requires renders != []
      modifies this`cursor, this`renders, this`rendered
      ensures (View(), out) == OnRendered(old(View()))
      ensures renders == old(renders)[1..] && rendered == old(rendered) + old(renders)[0].data
      ensures cursor == if stopped then old(cursor) else old(renders)[0].cursor
      ensures out == if !stopped && socket == Some(old(renders)[0].socket) then [Ack(cursor)] else []
    {
      out := [];
      var r := renders[0];
      renders := renders[1..];
      rendered := rendered + r.data;
      if stopped {
        return;
      }
      cursor := r.cursor;
      if socket == Some(r.socket) {
        out := [Ack(cursor)];
      }
    }
  }
}
