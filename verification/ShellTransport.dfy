/** The portal side of one WebSocket connection (portal/app/routes/shell_stream.py).

    `Window` is the shared `state` dictionary together with the stop event; class
    `StreamWindow` updates it in place. `Conn` adds the two channels and where the receiving
    thread, the output thread and their calls to the agent stand. */
module ShellTransport {
  import opened Bytes
  import opened ShellSession

  datatype ClientMsg = Hello(cursor: nat) | Ack(cursor: nat) | Input(seq_: nat, data: Blob)

  datatype ServerMsg =
    | Ready(inputSeq: nat)
    | Output(cursor: nat, data: Blob)
    | InputAck(seq_: nat, complete: bool, alive: bool)
    | Exit
    | Error

  datatype Window = Window(cursor: nat, sent: nat, stopped: bool)

  /** The receiving thread. */
  datatype MainPhase = AwaitHello | Attaching | Serving | Writing | MainEnded

  /** The output thread. */
  datatype LoopPhase = NotStarted | Idle | Reading | LoopEnded

  /** A call runs at the agent even when the thread that issued it has given up waiting. */
  datatype AttachCall =
    | NotAttached
    | AttachIssued(at: nat)
    | AttachLeased(at: nat)
    | AttachWaiting(at: nat)
    | Attached(inputSeq: nat)
    | AttachFailed
  datatype ReadCall = NoRead | ReadIssued(at: nat) | ReadWaiting(at: nat) | ReadAnswered(frame: Frame) | ReadFailed
  datatype WriteCall = NoWrite | WriteIssued(seq_: nat, data: Blob) | WriteAnswered(reply: WriteReply)

  datatype Conn = Conn(
    hello: nat,
    inbox: seq<ClientMsg>,
    outbox: seq<ServerMsg>,
    window: Window,
    main: MainPhase,
    loop: LoopPhase,
    attach: AttachCall,
    read: ReadCall,
    write: WriteCall)

  /** A connection as the browser opens it: its greeting is on the way. */
  function Opening(cursor: nat): Conn {
    Conn(cursor, [Hello(cursor)], [], Window(0, 0, false), AwaitHello, NotStarted, NotAttached, NoRead, NoWrite)
  }

  // ---- the window ------------------------------------------------------------------------

  /** One frame may be unacknowledged; the next read is issued only without any. */
  predicate MayRead(w: Window) {
    !w.stopped && w.cursor == w.sent
  }

  /** What the output thread does with an answer: the new window and what it sends. */
  function Forward(w: Window, frame: Frame): (Window, seq<ServerMsg>) {
    if frame.data != [] then (w.(sent := frame.cursor), [Output(frame.cursor, frame.data)])
    else if !frame.alive then (w.(stopped := true), [Exit])
    else (w, [])
  }

  /** An acknowledgement outside `[cursor, sent]` ends the connection. */
  function Acked(w: Window, cursor: nat): (Window, bool) {
    if w.cursor <= cursor <= w.sent then (w.(cursor := cursor), true)
    else (w.(stopped := true), false)
  }

  class StreamWindow {
    var cursor: nat
    var sent: nat
    var stopped: bool

    ghost function View(): Window
      reads this
    {
      Window(cursor, sent, stopped)
    }

    constructor (hello: nat)
      ensures View() == Window(hello, hello, false)
    {
      cursor, sent, stopped := hello, hello, false;
    }

    /** The output thread may issue a read from the returned cursor, or must not. */
    method NextRead() returns (from: Option<nat>)
      ensures from == if MayRead(View()) then Some(View().sent) else None
      ensures from.Some? <==> !stopped && cursor == sent
      ensures from.Some? ==> from.value == cursor
    {
      if stopped {
        return None;
      }
      if cursor != sent {
        return None;
      }
      return Some(cursor);
    }

    method OnFrame(frame: Frame) returns (out: seq<ServerMsg>)
      modifies this`sent, this`stopped
      ensures (View(), out) == Forward(old(View()), frame)
      ensures frame.data != [] ==>
                out == [Output(frame.cursor, frame.data)] && sent == frame.cursor && stopped == old(stopped)
      ensures frame.data == [] && !frame.alive ==> out == [Exit] && stopped && sent == old(sent)
      ensures frame.data == [] && frame.alive ==> out == [] && View() == old(View())
      ensures frame.data != [] && frame.cursor != cursor ==> !MayRead(View())
    {
      out := [];
      if frame.data != [] {
        sent := frame.cursor;
        out := [Output(frame.cursor, frame.data)];
      } else if !frame.alive {
        out := [Exit];
        stopped := true;
      }
    }

    method OnAck(at: nat) returns (ok: bool)
      modifies this`cursor, this`stopped
      ensures (View(), ok) == Acked(old(View()), at)
      ensures ok <==> old(cursor) <= at <= sent
      ensures ok ==> cursor == at && stopped == old(stopped)
      ensures !ok ==> cursor == old(cursor) && stopped
    {
      if at < cursor || sent < at {
        stopped := true;
        return false;
      }
      cursor := at;
      return true;
    }
  }

  // ---- the receiving thread --------------------------------------------------------------

  function Ending(c: Conn, out: seq<ServerMsg>): Conn {
    c.(main := MainEnded, window := c.window.(stopped := true), outbox := c.outbox + out)
  }

  /** The greeting arrives; its cursor is where both ends of the window start. */
  function OnHello(c: Conn): Conn
    requires c.inbox != [] && c.inbox[0].Hello?
  {
    var at := c.inbox[0].cursor;
    c.(inbox := c.inbox[1..], window := Window(at, at, false), main := Attaching, attach := AttachIssued(at))
  }

  /** The attach call answered: announce the input position and start the output thread. */
  function OnAttached(c: Conn): Conn {
    if c.attach.Attached? then
      c.(outbox := c.outbox + [Ready(c.attach.inputSeq)], main := Serving, loop := Idle)
    else
      Ending(c, [Error])
  }

  function OnAck(c: Conn): Conn
    requires c.inbox != [] && c.inbox[0].Ack?
  {
    var (w, ok) := Acked(c.window, c.inbox[0].cursor);
    var d := c.(inbox := c.inbox[1..], window := w);
    if ok then d else d.(main := MainEnded)
  }

  function OnInput(c: Conn): Conn
    requires c.inbox != [] && c.inbox[0].Input?
  {
    c.(inbox := c.inbox[1..], main := Writing, write := WriteIssued(c.inbox[0].seq_, c.inbox[0].data))
  }

  function OnWritten(c: Conn): Conn
    requires c.write.WriteAnswered?
  {
    match c.write.reply
    case Written(seq_, complete, _, alive) =>
      c.(outbox := c.outbox + [InputAck(seq_, complete, alive)], main := Serving, write := NoWrite)
    case WriteRefused(_) =>
      Ending(c, [Error])
  }

  // ---- the output thread -----------------------------------------------------------------

  function StopLoop(c: Conn, out: seq<ServerMsg>): Conn {
    c.(loop := LoopEnded, window := c.window.(stopped := true), outbox := c.outbox + out)
  }

  function IssueRead(c: Conn): Conn {
    c.(read := ReadIssued(c.window.cursor), loop := Reading)
  }

  function OnRead(c: Conn): Conn
    requires c.read.ReadAnswered? || c.read.ReadFailed?
  {
    match c.read
    case ReadAnswered(frame) =>
      var (w, out) := Forward(c.window, frame);
      c.(window := w, outbox := c.outbox + out, read := NoRead,
         loop := if w.stopped && frame.data == [] && !frame.alive then LoopEnded else Idle)
    case _ =>
      StopLoop(c, [Error])
  }
}
