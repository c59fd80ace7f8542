/** The whole console: the pump and the agent session, any number of connections, old and new, and
    the browser, as one state machine. A step is one critical section or one message; channels
    deliver in order, and a connection either side gave up on simply stops being read.

    Connection `k` holds lease `k + 1`; lease 0 is the one `shell.open` takes for nobody. */
module ShellSystem {
  import opened Bytes
  import opened ShellSession
  import opened ShellTransport
  import B = ShellBrowser

  datatype Pump = PumpIdle | PumpReserved(capacity: nat) | PumpHolding(chunk: Blob) | PumpDone

  /** Who closed the session first. */
  datatype Cause = Open | ByPump | ByWrite | ByClose

  /** `produced` is everything the pump read from the terminal, `accepted` everything the terminal
      took. `finished` says that `close` has run to its end; `dropped` is where the output ended that
      it dropped, 0 if it found the buffer empty; `overrun` says that it dropped output while the
      pump could still add some (its join timed out). */
  datatype System = System(
    session: Session,
    pump: Pump,
    produced: Blob,
    accepted: Blob,
    conns: seq<Conn>,
    browser: B.Browser,
    cause: Cause,
    finished: bool,
    dropped: nat,
    overrun: bool)

  const START := System(OPENED, PumpIdle, [], [], [], B.FRESH, Open, false, 0, false)

  datatype Step =
    | PumpReserve
    | PumpRead(chunk: Blob)
    | PumpSkip
    | PumpStore
    | PumpEnd
    | CloseBegin
    | CloseEnd
    | Connect
    | Receive
    | Rendered
    | Disconnect
    | Type(text: seq<B.Char>)
    | FlushTimer
    | StopPage
    | At(k: nat, action: Action)

  /** A step of one connection: of its two threads, or of a call it has at the agent. */
  datatype Action =
    | Greet
    | TakeLease
    | AttachBegin
    | AttachEnd
    | Announce
    | TakeAck
    | TakeInput
    | RunWrite(count: nat, gone: bool)
    | ReturnWrite
    | IssueRead
    | ReadBegin
    | ReadEnd
    | ReturnRead
    | LoopStops
    | LoopGivesUp
    | MainQuits(report: bool)

  function Hand(s: System): Blob {
    if s.pump.PumpHolding? then s.pump.chunk else []
  }

  /** The pump will never add output again. */
  predicate Quiet(s: System) {
    s.pump.PumpDone? || (s.pump.PumpIdle? && s.session.stop)
  }

  /** The lease of connection `k`. */
  function LeaseOf(k: nat): Lease {
    k + 1
  }

  predicate HeadIs(c: Conn, kind: ClientMsg -> bool) {
    c.inbox != [] && kind(c.inbox[0])
  }

  predicate ConnEnabled(s: System, a: Action, k: nat, c: Conn) {
    match a
    case Greet => c.main.AwaitHello? && HeadIs(c, (m: ClientMsg) => m.Hello?)
    case TakeLease => c.attach.AttachIssued?
    case AttachBegin => c.attach.AttachLeased?
    case AttachEnd => c.attach.AttachWaiting?
    case Announce => c.main.Attaching? && (c.attach.Attached? || c.attach.AttachFailed?)
    case TakeAck => c.main.Serving? && HeadIs(c, (m: ClientMsg) => m.Ack?)
    case TakeInput => c.main.Serving? && HeadIs(c, (m: ClientMsg) => m.Input?)
    case RunWrite(count, gone) =>
      && c.write.WriteIssued?
      && if Reaches(s.session, LeaseOf(k), c.write.seq_, c.write.data)
         then WriteOutcomePossible(s.session, c.write.data, count, gone)
         else count == 0 && !gone
    case ReturnWrite => c.main.Writing? && c.write.WriteAnswered?
    case IssueRead => c.loop.Idle? && MayRead(c.window)
    case ReadBegin => c.read.ReadIssued?
    case ReadEnd => c.read.ReadWaiting?
    case ReturnRead => c.loop.Reading? && (c.read.ReadAnswered? || c.read.ReadFailed?)
    case LoopStops => c.loop.Idle? && c.window.stopped
    case LoopGivesUp => c.loop.Reading?
    case MainQuits(_) => !c.main.MainEnded?
  }

  predicate Enabled(s: System, step: Step) {
    match step
    case PumpReserve => s.pump.PumpIdle? && !s.session.stop && 0 < PumpCapacity(s.session)
    case PumpRead(chunk) => s.pump.PumpReserved? && 0 < |chunk| <= s.pump.capacity
    case PumpSkip => s.pump.PumpReserved?
    case PumpStore => s.pump.PumpHolding?
    case PumpEnd => s.pump.PumpReserved? || (s.pump.PumpIdle? && s.session.stop)
    case CloseBegin => true
    case CloseEnd => s.session.stop
    case Connect => !s.browser.stopped && s.browser.socket.None? && s.browser.renders == []
    case Receive =>
      && s.browser.socket.Some? && s.browser.socket.value < |s.conns|
      && s.conns[s.browser.socket.value].outbox != []
    case Rendered => s.browser.renders != []
    case Disconnect => s.browser.socket.Some?
    case Type(_) => true
    case FlushTimer => s.browser.timer
    case StopPage => true
    case At(k, a) => k < |s.conns| && ConnEnabled(s, a, k, s.conns[k])
  }

  /** Messages the browser sends travel on its current socket, if it has one. */
  function Post(s: System, b: B.Browser, out: seq<ClientMsg>): System {
    if b.socket.Some? && b.socket.value < |s.conns| then
      var c := s.conns[b.socket.value];
      s.(browser := b, conns := s.conns[b.socket.value := c.(inbox := c.inbox + out)])
    else
      s.(browser := b)
  }

  function Closing(s: System, session: Session, cause: Cause): System {
    s.(session := session, cause := if session.closed && !s.session.closed then cause else s.cause)
  }

  /** A step of connection `k`: what it does to the connection and to the rest. */
  function ConnNext(s: System, a: Action, k: nat, c: Conn): (System, Conn)
    requires ConnEnabled(s, a, k, c)
  {
    match a
    case Greet => (s, OnHello(c))
    case TakeLease => (s.(session := Attach(s.session, LeaseOf(k))), c.(attach := AttachLeased(c.attach.at)))
    case AttachBegin =>
      var (t, refused) := BeginRead(s.session, LeaseOf(k), c.attach.at);
      (s.(session := t), c.(attach := if refused.Some? then AttachFailed else AttachWaiting(c.attach.at)))
    case AttachEnd =>
      (s, c.(attach := match Deliver(s.session, LeaseOf(k), c.attach.at)
                       case Delivered(frame) => Attached(frame.inputSeq)
                       case ReadRefused(_) => AttachFailed))
    case Announce => (s, OnAttached(c))
    case TakeAck => (s, OnAck(c))
    case TakeInput => (s, OnInput(c))
    case RunWrite(count, gone) =>
      var (t, reply) := ShellWrite(s.session, LeaseOf(k), c.write.seq_, c.write.data, count, gone);
      var taken := if Reaches(s.session, LeaseOf(k), c.write.seq_, c.write.data)
                   then Rest(c.write.data, Resume(s.session))[..count] else [];
      (Closing(s, t, ByWrite).(accepted := s.accepted + taken), c.(write := WriteAnswered(reply)))
    case ReturnWrite => (s, OnWritten(c))
    case IssueRead => (s, ShellTransport.IssueRead(c))
    case ReadBegin =>
      var (t, refused) := BeginRead(s.session, LeaseOf(k), c.read.at);
      (s.(session := t), c.(read := if refused.Some? then ReadFailed else ReadWaiting(c.read.at)))
    case ReadEnd =>
      (s, c.(read := match Deliver(s.session, LeaseOf(k), c.read.at)
                     case Delivered(frame) => ReadAnswered(frame)
                     case ReadRefused(_) => ReadFailed))
    case ReturnRead => (s, OnRead(c))
    case LoopStops => (s, c.(loop := LoopEnded))
    case LoopGivesUp => (s, StopLoop(c, [Error]))
    case MainQuits(report) => (s, Ending(c, if report then [Error] else []))
  }

  function Next(s: System, step: Step): System
    requires Enabled(s, step)
  {
    match step
    case PumpReserve => s.(pump := PumpReserved(PumpCapacity(s.session)))
    case PumpRead(chunk) => s.(pump := PumpHolding(chunk), produced := s.produced + chunk)
    case PumpSkip => s.(pump := PumpIdle)
    case PumpStore => s.(pump := PumpIdle, session := PumpAppend(s.session, s.pump.chunk))
    case PumpEnd => Closing(s, PumpFinish(s.session), ByPump).(pump := PumpDone)
    case CloseBegin => Closing(s, BeginClose(s.session), ByClose)
    case CloseEnd =>
      s.(session := FinishClose(s.session), finished := true,
         dropped := if s.session.output != [] then End(s.session) else s.dropped,
         overrun := s.overrun || (s.session.output != [] && !Quiet(s)))
    case Connect => s.(browser := B.Connect(s.browser, |s.conns|), conns := s.conns + [Opening(s.browser.cursor)])
    case Receive =>
      var k := s.browser.socket.value;
      var c := s.conns[k];
      var (b, out) := B.OnMessage(s.browser, k, c.outbox[0]);
      Post(s.(conns := s.conns[k := c.(outbox := c.outbox[1..])]), b, out)
    case Rendered =>
      var (b, out) := B.OnRendered(s.browser);
      Post(s, b, out)
    case Disconnect => s.(browser := B.OnClose(s.browser))
    case Type(text) => s.(browser := B.Type(s.browser, text))
    case FlushTimer =>
      var (b, out) := B.Flush(s.browser);
      Post(s, b, out)
    case StopPage => s.(browser := B.Stop(s.browser))
    case At(k, a) =>
      var (t, c) := ConnNext(s, a, k, s.conns[k]);
      t.(conns := s.conns[k := c])
  }

  /** Step `i` can be taken and leads to the next state. */
  predicate StepAt(run: seq<System>, steps: seq<Step>, i: int) {
    0 <= i < |steps| && |run| == |steps| + 1 && Enabled(run[i], steps[i]) && run[i + 1] == Next(run[i], steps[i])
  }

  /** A finite run from the opened shell. */
  ghost predicate IsRun(run: seq<System>, steps: seq<Step>) {
    && |run| == |steps| + 1
    && run[0] == START
    && forall i :: 0 <= i < |steps| ==> StepAt(run, steps, i)
  }

  ghost predicate Reachable(s: System) {
    exists run: seq<System>, steps: seq<Step> :: IsRun(run, steps) && run[|steps|] == s
  }

  /** The given steps lead from `s` to `t`. */
  ghost predicate Leads(s: System, steps: seq<Step>, t: System)
    decreases |steps|
  {
    if steps == [] then s == t else Enabled(s, steps[0]) && Leads(Next(s, steps[0]), steps[1..], t)
  }
}
