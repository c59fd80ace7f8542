/** What holds of the output direction in every state the console can reach. */
module ShellOutput {
  import opened Bytes
  import opened ShellSession
  import opened ShellTransport
  import opened ShellSystem
  import B = ShellBrowser

  // ---- the buffer ------------------------------------------------------------------------

  /** The pump reserved room, which is still there when it stores what it read. */
  predicate Bounded(s: System) {
    match s.pump
    case PumpReserved(capacity) => 0 < capacity && |s.session.output| + capacity <= STREAM_BUFFER_BYTES
    case PumpHolding(chunk) => 0 < |chunk| && |s.session.output| + |chunk| <= STREAM_BUFFER_BYTES
    case _ => |s.session.output| <= STREAM_BUFFER_BYTES
  }

  // ---- one connection --------------------------------------------------------------------

  predicate Started(c: Conn) {
    !c.attach.NotAttached?
  }

  /** How the two threads of a connection, their calls and the window fit together. */
  ghost predicate Shape(c: Conn) {
    && c.window.cursor <= c.window.sent
    && (c.main.AwaitHello? ==> !Started(c))
    && (c.loop.NotStarted? <== !c.attach.Attached?)
    && (c.main.Attaching? ==> c.loop.NotStarted?)
    && (c.main.Serving? || c.main.Writing? ==> !c.loop.NotStarted?)
    && (c.attach.AttachIssued? || c.attach.AttachLeased? || c.attach.AttachWaiting? ==>
          c.attach.at == c.hello == c.window.cursor == c.window.sent)
    && (Started(c) ==> c.hello <= c.window.cursor)
    && (!Started(c) ==> c.window == Window(0, 0, c.window.stopped))
    && (c.loop.NotStarted? || c.loop.Idle? ==> c.read.NoRead?)
    && (c.loop.Reading? ==> !c.read.NoRead?)
    && (c.read.ReadIssued? || c.read.ReadWaiting? ==> c.read.at == c.window.cursor == c.window.sent)
    && (c.read.ReadAnswered? ==> c.read.frame.cursor - |c.read.frame.data| == c.window.cursor == c.window.sent)
    && (c.main.AwaitHello? ==> c.outbox == [])
    && (c.loop.NotStarted? ==> forall m :: m in c.outbox ==> !m.Output? && !m.Exit?)
  }

  /** The frame `data` ending at `cursor` is that part of what the terminal produced. */
  predicate Genuine(s: System, cursor: nat, data: Blob) {
    && |data| <= cursor <= |s.produced|
    && data == s.produced[cursor - |data|..cursor]
    && (s.dropped == 0 ==> cursor <= End(s.session))
  }

  predicate Announced(m: ClientMsg, limit: nat) {
    (m.Hello? || m.Ack?) ==> m.cursor <= limit
  }

  /** Nothing a connection asks for or carries goes beyond what the browser has rendered, and
      every frame on it is genuine. */
  ghost predicate Truthful(s: System, k: nat, c: Conn) {
    && Shape(c)
    && c.hello <= s.browser.cursor
    && c.window.cursor <= s.browser.cursor
    && (forall m :: m in c.inbox ==> Announced(m, s.browser.cursor))
    && (forall m :: m in c.inbox && m.Hello? ==> m.cursor == c.hello)
    && (forall m :: m in c.outbox && m.Output? ==> m.data != [] && Genuine(s, m.cursor, m.data))
    && (c.read.ReadAnswered? && c.read.frame.data != [] ==> Genuine(s, c.read.frame.cursor, c.read.frame.data))
    && (s.session.lease == LeaseOf(k) ==>
          && !c.attach.NotAttached? && !c.attach.AttachIssued?
          && (c.read.ReadWaiting? ==> s.session.outputStart == c.read.at))
  }

  // ---- the whole -------------------------------------------------------------------------

  /** Nothing is lost: what nobody acknowledged is in the buffer or the pump's hand, until `close`
      drops the end of the output. */
  predicate Accounted(s: System) {
    && s.session.outputStart <= |s.produced|
    && if s.dropped == 0 then s.produced[s.session.outputStart..] == s.session.output + Hand(s)
       else Quiet(s) && s.session.output == [] && s.session.outputStart < s.dropped == |s.produced|
  }

  predicate RenderedPrefix(s: System) {
    && s.browser.rendered <= s.produced
    && s.session.outputStart <= s.browser.cursor <= |s.browser.rendered|
    && (!s.browser.stopped ==> s.browser.cursor == |s.browser.rendered|)
    && (s.dropped == 0 ==> |s.browser.rendered| <= End(s.session))
    && |s.browser.renders| <= 1
    && (s.browser.renders != [] ==>
          var r := s.browser.renders[0];
          r.data != [] && Genuine(s, r.cursor, r.data) && r.cursor - |r.data| == |s.browser.rendered|)
  }

  /** On the current connection at most one frame is on the way, and it starts at the cursor. */
  ghost predicate OneFrame(b: B.Browser, k: nat, c: Conn) {
    if !Started(c) then
      b.renders == [] && b.cursor == c.hello
    else
      && b.cursor <= c.window.sent
      && (forall m :: m in c.outbox && m.Output? ==>
            m.cursor == c.window.sent && m.cursor - |m.data| == b.cursor && b.renders == [])
      && (forall i, j :: 0 <= i < j < |c.outbox| ==> !(c.outbox[i].Output? && c.outbox[j].Output?))
      && (b.renders != [] ==> b.renders[0].cursor == c.window.sent && b.renders[0].socket == k)
  }

  /** The newest connection is ahead of everything older ones may still ask for. */
  predicate Newest(s: System) {
    |s.conns| > 0 ==>
      var n := |s.conns| - 1;
      var hello := s.conns[n].hello;
      && s.session.outputStart <= (if Started(s.conns[n]) then s.conns[n].window.cursor else hello)
      && forall j :: 0 <= j < n ==>
           && s.conns[j].hello <= hello
           && s.conns[j].window.cursor <= hello
           && forall m :: m in s.conns[j].inbox ==> Announced(m, hello)
  }

  ghost predicate OutputInv(s: System) {
    && Accounted(s)
    && RenderedPrefix(s)
    && s.session.lease <= |s.conns|
    && (forall k :: 0 <= k < |s.conns| ==> Truthful(s, k, s.conns[k]))
    && (s.browser.stopped ==> s.browser.socket.None?)
    && (s.browser.socket.Some? ==>
          && s.browser.socket.value == |s.conns| - 1
          && OneFrame(s.browser, s.browser.socket.value, s.conns[s.browser.socket.value]))
    && Newest(s)
  }

  lemma BoundedKept(s: System, step: Step)
    requires Bounded(s) && Enabled(s, step)
    ensures Bounded(Next(s, step))
  {
    if step.At? {
      ConnStepFrame(s, step.action, step.k, s.conns[step.k]);
    }
  }

  /** A step of a connection leaves the pump and the histories alone and adds no output. */
  lemma ConnStepFrame(s: System, a: Action, k: nat, c: Conn)
    requires ConnEnabled(s, a, k, c)
    ensures var t := ConnNext(s, a, k, c).0;
            && t == s.(session := t.session, cause := t.cause, accepted := t.accepted)
            && |t.session.output| <= |s.session.output|
  {
  }

  lemma PumpReads(s: System, chunk: Blob)
    requires OutputInv(s) && Enabled(s, PumpRead(chunk))
    ensures OutputInv(Next(s, PumpRead(chunk)))
  {
    var t := s.(pump := PumpHolding(chunk), produced := s.produced + chunk);
    PumpMoves(s, t);
  }

  lemma PumpStores(s: System)
    requires OutputInv(s) && Enabled(s, PumpStore)
    ensures OutputInv(Next(s, PumpStore))
  {
    var t := s.(pump := PumpIdle, session := PumpAppend(s.session, s.pump.chunk));
    PumpMoves(s, t);
  }

  lemma PumpTurns(s: System, step: Step)
    requires OutputInv(s) && Enabled(s, step) && (step.PumpReserve? || step.PumpSkip? || step.PumpEnd?)
    ensures OutputInv(Next(s, step))
  {
    PumpMoves(s, Next(s, step));
  }

  /** The pump moved: output was only added, and all of it is accounted for. */
  lemma PumpMoves(s: System, t: System)
    requires OutputInv(s) && Accounted(t)
    requires t == s.(pump := t.pump, produced := t.produced, session := t.session, cause := t.cause)
    requires t.session.outputStart == s.session.outputStart && t.session.lease == s.session.lease
    requires s.produced <= t.produced && End(s.session) <= End(t.session)
    ensures OutputInv(t)
  {
    forall j | 0 <= j < |s.conns|
      ensures Truthful(t, j, s.conns[j])
    {
      TruthfulFrame(s, t, j, s.conns[j]);
    }
    if s.browser.renders != [] {
      var r := s.browser.renders[0];
      assert Genuine(t, r.cursor, r.data);
    }
  }

  /** Steps that touch nothing but one connection. */
  predicate IsLocal(a: Action) {
    a.Greet? || a.Announce? || a.TakeAck? || a.TakeInput? || a.ReturnWrite?
    || a.IssueRead? || a.ReturnRead? || a.LoopStops? || a.LoopGivesUp? || a.MainQuits?
  }

  lemma LocalKeepsShape(s: System, a: Action, k: nat, c: Conn)
    requires IsLocal(a) && ConnEnabled(s, a, k, c) && Shape(c)
    requires forall m :: m in c.inbox && m.Hello? ==> m.cursor == c.hello
    ensures Shape(ConnNext(s, a, k, c).1)
  {
    if a.Greet? {
      assert c.inbox[0] in c.inbox;
    }
  }

  lemma LocalIsTruthful(s: System, a: Action, k: nat, c: Conn)
    requires IsLocal(a) && ConnEnabled(s, a, k, c) && Truthful(s, k, c)
    ensures Truthful(s, k, ConnNext(s, a, k, c).1)
  {
    LocalKeepsShape(s, a, k, c);
    if a.Greet? || a.TakeAck? || a.TakeInput? {
      assert c.inbox[0] in c.inbox;
    }
  }

  /** The output thread sends a frame only when the previous one was rendered and acknowledged. */
  lemma SentIsOneFrame(s: System, k: nat, c: Conn)
    requires c.loop.Reading? && c.read.ReadAnswered? && c.read.frame.data != [] && Truthful(s, k, c)
    requires OneFrame(s.browser, k, c) && RenderedPrefix(s) && !s.browser.stopped
    ensures OneFrame(s.browser, k, OnRead(c))
  {
    var m := Output(c.read.frame.cursor, c.read.frame.data);
    assert forall x :: x in c.outbox ==> !x.Output?;
    assert OnRead(c).outbox == c.outbox + [m];
  }

  /** The connection sent no frame and its window's end did not move. */
  lemma QuietIsOneFrame(b: B.Browser, k: nat, c: Conn, d: Conn)
    requires OneFrame(b, k, c) && Started(c) && Started(d) && d.window.sent == c.window.sent
    requires d.outbox == c.outbox || exists m: ServerMsg :: !m.Output? && d.outbox == c.outbox + [m]
    ensures OneFrame(b, k, d)
  {
    assert forall m :: m in d.outbox && m.Output? ==> m in c.outbox;
  }

  lemma LocalIsOneFrame(s: System, a: Action, k: nat, c: Conn)
    requires IsLocal(a) && ConnEnabled(s, a, k, c) && Truthful(s, k, c)
    requires OneFrame(s.browser, k, c) && RenderedPrefix(s) && !s.browser.stopped
    ensures OneFrame(s.browser, k, ConnNext(s, a, k, c).1)
  {
    if a.Greet? {
      assert c.inbox[0] in c.inbox;
    } else if a.ReturnRead? && c.read.ReadAnswered? && c.read.frame.data != [] {
      SentIsOneFrame(s, k, c);
    } else if Started(c) {
      var d := ConnNext(s, a, k, c).1;
      assert d.outbox == c.outbox + [] == c.outbox || exists m: ServerMsg :: !m.Output? && d.outbox == c.outbox + [m];
      QuietIsOneFrame(s.browser, k, c, d);
    }
  }

  /** A connection moves its window only to a cursor it was told, and only forward. */
  ghost predicate Follows(c: Conn, d: Conn) {
    && d.hello == c.hello
    && (forall m :: m in d.inbox ==> m in c.inbox)
    && (d.window.cursor == c.window.cursor
        || exists m :: m in c.inbox && (m.Hello? || m.Ack?) && m.cursor == d.window.cursor)
    && (Started(c) ==> Started(d) && c.window.cursor <= d.window.cursor)
    && (Started(d) ==> d.hello <= d.window.cursor)
  }

  lemma LocalFollows(s: System, a: Action, k: nat, c: Conn)
    requires IsLocal(a) && ConnEnabled(s, a, k, c) && Truthful(s, k, c)
    ensures Follows(c, ConnNext(s, a, k, c).1)
  {
    if a.Greet? || a.TakeAck? || a.TakeInput? {
      assert c.inbox[0] in c.inbox;
    }
  }

  lemma NewestKept(s: System, k: nat, d: Conn)
    requires Newest(s) && k < |s.conns| && Follows(s.conns[k], d)
    ensures Newest(s.(conns := s.conns[k := d]))
  {
    var t := s.(conns := s.conns[k := d]);
    var n := |s.conns| - 1;
    if k < n {
      assert d.window.cursor <= s.conns[n].hello;
    }
  }

  lemma LocalKeeps(s: System, k: nat, a: Action)
    requires OutputInv(s) && Enabled(s, At(k, a)) && IsLocal(a)
    ensures OutputInv(Next(s, At(k, a)))
  {
    var c := s.conns[k];
    var d := ConnNext(s, a, k, c).1;
    LocalIsTruthful(s, a, k, c);
    LocalFollows(s, a, k, c);
    if s.browser.socket == Some(k) {
      LocalIsOneFrame(s, a, k, c);
    }
    ReplaceConn(s, k, d);
  }

  lemma ReplaceConn(s: System, k: nat, d: Conn)
    requires OutputInv(s) && k < |s.conns|
    requires Truthful(s, k, d) && Follows(s.conns[k], d)
    requires s.browser.socket == Some(k) ==> OneFrame(s.browser, k, d)
    ensures OutputInv(s.(conns := s.conns[k := d]))
  {
    NewestKept(s, k, d);
    ConnsKept(s, k, d);
  }

  lemma ConnsKept(s: System, k: nat, d: Conn)
    requires k < |s.conns| && Truthful(s, k, d)
    requires forall j :: 0 <= j < |s.conns| ==> Truthful(s, j, s.conns[j])
    ensures var t := s.(conns := s.conns[k := d]);
            forall j :: 0 <= j < |t.conns| ==> Truthful(t, j, t.conns[j])
  {
    var t := s.(conns := s.conns[k := d]);
    forall j | 0 <= j < |t.conns|
      ensures Truthful(t, j, t.conns[j])
    {
      TruthfulFrame(s, t, j, t.conns[j]);
    }
  }

  /** `Truthful` depends on the rest of the console only through these. */
  lemma TruthfulFrame(s: System, t: System, k: nat, c: Conn)
    requires Truthful(s, k, c)
    requires s.browser.cursor <= t.browser.cursor
    requires s.produced <= t.produced
    requires t.dropped > 0 || (s.dropped == 0 && End(s.session) <= End(t.session))
    requires t.session.lease == LeaseOf(k) ==>
               s.session.lease == LeaseOf(k) && (c.read.ReadWaiting? ==> t.session.outputStart == s.session.outputStart)
    ensures Truthful(t, k, c)
  {
  }

  // ---- calls at the agent ----------------------------------------------------------------

  /** Acknowledging drops exactly the bytes before the cursor. */
  lemma BeginReadAccounted(s: System, id: Lease, at: nat)
    requires Accounted(s)
    ensures var u := BeginRead(s.session, id, at);
            var t := s.(session := u.0);
            && Accounted(t) && End(u.0) == End(s.session) && u.0.lease == s.session.lease
            && (u.1.None? ==> id == s.session.lease && u.0.outputStart == at <= End(s.session))
            && (u.1.Some? ==> u.0 == s.session)
  {
    var n := at - s.session.outputStart;
    if 0 <= n <= |s.session.output| && s.dropped == 0 {
      assert s.produced[at..] == s.produced[s.session.outputStart..][n..];
      assert (s.session.output + Hand(s))[n..] == s.session.output[n..] + Hand(s);
    }
  }

  /** The session moved, seen by every connection. */
  lemma SessionTruthful(s: System, t: System, k: nat, d: Conn)
    requires OutputInv(s) && k < |s.conns|
    requires t == s.(session := t.session, cause := t.cause, accepted := t.accepted)
    requires End(t.session) == End(s.session)
    requires t.session.lease == s.session.lease || t.session.lease == LeaseOf(k)
    requires t.session.outputStart == s.session.outputStart || t.session.lease == LeaseOf(k)
    requires Truthful(t, k, d)
    ensures var u := t.(conns := s.conns[k := d]);
            forall j :: 0 <= j < |u.conns| ==> Truthful(u, j, u.conns[j])
  {
    var u := t.(conns := s.conns[k := d]);
    forall j | 0 <= j < |u.conns|
      ensures Truthful(u, j, u.conns[j])
    {
      if j == k {
        TruthfulFrame(t, u, k, d);
      } else {
        TruthfulFrame(s, u, j, s.conns[j]);
      }
    }
  }

  /** Wherever a connection may move the start of the buffer, the newest is not behind. */
  lemma SessionNewest(s: System, t: System, k: nat, d: Conn)
    requires Newest(s) && k < |s.conns| && t.conns == s.conns
    requires forall j :: 0 <= j < |s.conns| ==> Shape(s.conns[j])
    requires t.session.outputStart == s.session.outputStart
             || (t.session.outputStart == s.conns[k].window.cursor && Started(s.conns[k]))
             || t.session.outputStart == s.conns[k].hello
    requires d == s.conns[k].(attach := d.attach, read := d.read, write := d.write)
    requires Started(d) == Started(s.conns[k])
    ensures Newest(t.(conns := s.conns[k := d]))
  {
    var u := t.(conns := s.conns[k := d]);
    var n := |s.conns| - 1;
    assert s.conns[k].hello <= s.conns[n].hello || k == n;
    assert u.conns[n].window == s.conns[n].window && u.conns[n].hello == s.conns[n].hello;
    assert Shape(s.conns[n]);
  }

  lemma AllShaped(s: System)
    requires OutputInv(s)
    ensures forall j :: 0 <= j < |s.conns| ==> Shape(s.conns[j])
  {
    forall j | 0 <= j < |s.conns|
      ensures Shape(s.conns[j])
    {
      assert Truthful(s, j, s.conns[j]);
    }
  }

  /** The session moved, the connections did not. */
  lemma SessionMoves(s: System, t: System, k: nat, d: Conn)
    requires OutputInv(s) && k < |s.conns|
    requires t == s.(session := t.session, cause := t.cause, accepted := t.accepted)
    requires Accounted(t) && End(t.session) == End(s.session) && t.session.lease <= |s.conns|
    requires t.session.outputStart == s.session.outputStart
             || (t.session.outputStart == s.conns[k].window.cursor && Started(s.conns[k]))
             || t.session.outputStart == s.conns[k].hello
    requires t.session.lease == s.session.lease || t.session.lease == LeaseOf(k)
    requires t.session.outputStart == s.session.outputStart || t.session.lease == LeaseOf(k)
    requires Truthful(t, k, d) && d == s.conns[k].(attach := d.attach, read := d.read, write := d.write)
    requires Started(d) == Started(s.conns[k])
    requires s.browser.socket == Some(k) ==> OneFrame(s.browser, k, d)
    ensures OutputInv(t.(conns := s.conns[k := d]))
  {
    SessionTruthful(s, t, k, d);
    AllShaped(s);
    SessionNewest(s, t, k, d);
    SessionRest(s, t, k, d);
  }

  lemma SessionRest(s: System, t: System, k: nat, d: Conn)
    requires RenderedPrefix(s) && k < |s.conns| && Truthful(s, k, s.conns[k])
    requires t == s.(session := t.session, cause := t.cause, accepted := t.accepted)
    requires Accounted(t) && End(t.session) == End(s.session)
    requires t.session.outputStart == s.session.outputStart
             || t.session.outputStart == s.conns[k].window.cursor
             || t.session.outputStart == s.conns[k].hello
    ensures var u := t.(conns := s.conns[k := d]); Accounted(u) && RenderedPrefix(u)
  {
    RenderedStays(s, t);
    RenderedStays(t, t.(conns := s.conns[k := d]));
  }

  /** What was rendered depends on the session only through where its buffer lies. */
  lemma RenderedStays(s: System, t: System)
    requires RenderedPrefix(s) && t.browser == s.browser && t.produced == s.produced && t.dropped == s.dropped
    requires t.session.outputStart <= s.browser.cursor && End(t.session) == End(s.session)
    ensures RenderedPrefix(t)
  {
  }

  /** The frame a waiting read delivers is genuine: nobody else moved `outputStart` meanwhile. */
  lemma DeliverGenuine(s: System, at: nat)
    requires Accounted(s) && s.session.outputStart == at
    ensures var r := Deliver(s.session, s.session.lease, at);
            r.frame.data != [] ==> Genuine(s, r.frame.cursor, r.frame.data)
  {
    var data := Take(s.session.output, STREAM_CHUNK_BYTES);
    if data != [] {
      assert s.produced[at..][..|data|] == data;
      assert s.produced[at..at + |data|] == s.produced[at..][..|data|];
    }
  }

  lemma TakeLeaseKeeps(s: System, k: nat)
    requires OutputInv(s) && Enabled(s, At(k, TakeLease))
    ensures OutputInv(Next(s, At(k, TakeLease)))
  {
    var (t, d) := ConnNext(s, TakeLease, k, s.conns[k]);
    SessionMoves(s, t, k, d);
  }

  lemma AttachBeginKeeps(s: System, k: nat)
    requires OutputInv(s) && Enabled(s, At(k, AttachBegin))
    ensures OutputInv(Next(s, At(k, AttachBegin)))
  {
    var c := s.conns[k];
    var (t, d) := ConnNext(s, AttachBegin, k, c);
    BeginReadAccounted(s, LeaseOf(k), c.attach.at);
    SessionMoves(s, t, k, d);
  }

  lemma AttachEndKeeps(s: System, k: nat)
    requires OutputInv(s) && Enabled(s, At(k, AttachEnd))
    ensures OutputInv(Next(s, At(k, AttachEnd)))
  {
    var d := ConnNext(s, AttachEnd, k, s.conns[k]).1;
    ReplaceConn(s, k, d);
  }

  /** Writing input leaves the output side of the session alone. */
  lemma WriteLeavesOutput(s: Session, id: Lease, seq_: nat, data: Blob, count: nat, gone: bool)
    ensures var t := ShellWrite(s, id, seq_, data, count, gone).0;
            t.output == s.output && t.outputStart == s.outputStart && t.lease == s.lease
  {
  }

  lemma WriteKeeps(s: System, k: nat, a: Action)
    requires OutputInv(s) && Enabled(s, At(k, a)) && a.RunWrite?
    ensures OutputInv(Next(s, At(k, a)))
  {
    var c := s.conns[k];
    var (t, d) := ConnNext(s, a, k, c);
    WriteLeavesOutput(s.session, LeaseOf(k), c.write.seq_, c.write.data, a.count, a.gone);
    TruthfulFrame(s, t, k, c);
    SessionMoves(s, t, k, d);
  }

  lemma ReadBeginTruthful(s: System, k: nat, c: Conn)
    requires Accounted(s) && ConnEnabled(s, ReadBegin, k, c) && Truthful(s, k, c)
    ensures var (t, d) := ConnNext(s, ReadBegin, k, c);
            && Accounted(t) && Truthful(t, k, d) && t == s.(session := t.session) && d == c.(read := d.read)
            && End(t.session) == End(s.session) && t.session.lease == s.session.lease
            && (t.session.outputStart == s.session.outputStart
                || (t.session.outputStart == c.window.cursor && t.session.lease == LeaseOf(k)))
  {
    BeginReadAccounted(s, LeaseOf(k), c.read.at);
  }

  lemma ReadBeginKeeps(s: System, k: nat)
    requires OutputInv(s) && Enabled(s, At(k, ReadBegin))
    ensures OutputInv(Next(s, At(k, ReadBegin)))
  {
    var c := s.conns[k];
    var (t, d) := ConnNext(s, ReadBegin, k, c);
    ReadBeginTruthful(s, k, c);
    assert Shape(c) && Started(c);
    SessionMoves(s, t, k, d);
  }

  lemma ReadEndKeeps(s: System, k: nat)
    requires OutputInv(s) && Enabled(s, At(k, ReadEnd))
    ensures OutputInv(Next(s, At(k, ReadEnd)))
  {
    var c := s.conns[k];
    var (t, d) := ConnNext(s, ReadEnd, k, c);
    if s.session.lease == LeaseOf(k) {
      DeliverGenuine(s, c.read.at);
    }
    ReplaceConn(s, k, d);
  }

  // ---- the browser -----------------------------------------------------------------------

  /** The browser changed nothing the output direction depends on. */
  predicate SameOutput(b: B.Browser, c: B.Browser) {
    && c.socket == b.socket && c.stopped == b.stopped && c.cursor == b.cursor
    && c.renders == b.renders && c.rendered == b.rendered
  }

  lemma QuietKeeps(s: System, b: B.Browser)
    requires OutputInv(s) && SameOutput(s.browser, b)
    ensures OutputInv(s.(browser := b))
  {
    var t := s.(browser := b);
    forall j | 0 <= j < |s.conns|
      ensures Truthful(t, j, s.conns[j])
    {
      TruthfulFrame(s, t, j, s.conns[j]);
    }
  }

  lemma SentTruthful(s: System, k: nat, c: Conn, out: seq<ClientMsg>)
    requires Truthful(s, k, c)
    requires forall m :: m in out ==> m.Input? || (m.Ack? && m.cursor <= s.browser.cursor)
    ensures Truthful(s, k, c.(inbox := c.inbox + out))
  {
  }

  /** The newest connection changed nothing the others are measured by. */
  lemma SentNewest(s: System, k: nat, d: Conn)
    requires Newest(s) && k == |s.conns| - 1
    requires d == s.conns[k].(inbox := d.inbox)
    ensures Newest(s.(conns := s.conns[k := d]))
  {
  }

  /** The browser sends on its current connection, which is the newest. */
  lemma SendKeeps(s: System, k: nat, out: seq<ClientMsg>)
    requires OutputInv(s) && s.browser.socket == Some(k)
    requires forall m :: m in out ==> m.Input? || (m.Ack? && m.cursor <= s.browser.cursor)
    ensures OutputInv(s.(conns := s.conns[k := s.conns[k].(inbox := s.conns[k].inbox + out)]))
  {
    var d := s.conns[k].(inbox := s.conns[k].inbox + out);
    SentTruthful(s, k, s.conns[k], out);
    ConnsKept(s, k, d);
    SentNewest(s, k, d);
  }

  lemma PostKeeps(s: System, b: B.Browser, out: seq<ClientMsg>)
    requires OutputInv(s) && SameOutput(s.browser, b)
    requires forall m :: m in out ==> m.Input? || (m.Ack? && m.cursor <= b.cursor)
    ensures OutputInv(Post(s, b, out))
  {
    QuietKeeps(s, b);
    if b.socket.Some? {
      SendKeeps(s.(browser := b), b.socket.value, out);
    }
  }

  lemma StopKeeps(s: System)
    requires OutputInv(s)
    ensures OutputInv(s.(browser := B.Stop(s.browser)))
  {
    var t := s.(browser := B.Stop(s.browser));
    forall j | 0 <= j < |s.conns|
      ensures Truthful(t, j, s.conns[j])
    {
      TruthfulFrame(s, t, j, s.conns[j]);
    }
  }

  /** A message leaves the current connection's channel. */
  lemma PopKeeps(s: System)
    requires OutputInv(s) && Enabled(s, Receive)
    ensures var k := s.browser.socket.value;
            OutputInv(s.(conns := s.conns[k := s.conns[k].(outbox := s.conns[k].outbox[1..])]))
  {
    var k := s.browser.socket.value;
    var c := s.conns[k];
    var d := c.(outbox := c.outbox[1..]);
    assert forall m :: m in d.outbox ==> m in c.outbox;
    ReplaceConn(s, k, d);
  }

  /** A frame from the current connection always continues what was rendered. */
  lemma FrameContinues(s: System)
    requires OutputInv(s) && Enabled(s, Receive)
    requires s.conns[s.browser.socket.value].outbox[0].Output?
    ensures var m := s.conns[s.browser.socket.value].outbox[0];
            s.browser.cursor < m.cursor && m.cursor - |m.data| == s.browser.cursor && s.browser.renders == []
  {
    var c := s.conns[s.browser.socket.value];
    assert c.outbox[0] in c.outbox;
  }

  /** A message that neither stops the page nor is a frame changes no output state. */
  lemma QuietMessage(b: B.Browser, k: nat, m: ServerMsg)
    requires !m.Output?
    ensures var (c, out) := B.OnMessage(b, k, m);
            c == B.Stop(b) || (SameOutput(b, c) && forall x :: x in out ==> x.Input?)
  {
  }

  /** The frame ends where the connection stands, and no other is behind it. */
  lemma FrameIsNext(s: System, k: nat, c: Conn)
    requires OutputInv(s) && Enabled(s, Receive) && s.browser.socket == Some(k) && c == s.conns[k]
    requires c.outbox[0].Output?
    ensures Started(c) && c.window.sent == c.outbox[0].cursor
    ensures c.outbox[0].data != [] && Genuine(s, c.outbox[0].cursor, c.outbox[0].data)
    ensures forall m :: m in c.outbox[1..] ==> !m.Output?
  {
    var m := c.outbox[0];
    assert m in c.outbox && Truthful(s, k, c) && OneFrame(s.browser, k, c);
    forall i | 0 < i < |c.outbox|
      ensures !c.outbox[i].Output?
    {
    }
  }

  lemma FrameKeeps(s: System, k: nat, c: Conn)
    requires OutputInv(s) && Enabled(s, Receive) && s.browser.socket == Some(k) && c == s.conns[k]
    requires c.outbox[0].Output?
    ensures OutputInv(Next(s, Receive))
  {
    var m := c.outbox[0];
    var u := s.(conns := s.conns[k := c.(outbox := c.outbox[1..])]);
    FrameIsNext(s, k, c);
    PopKeeps(s);
    FrameContinues(s);
    RenderStarts(u, k, m.cursor, m.data);
  }

  lemma ReceiveKeeps(s: System)
    requires OutputInv(s) && Enabled(s, Receive)
    ensures OutputInv(Next(s, Receive))
  {
    var k := s.browser.socket.value;
    var c := s.conns[k];
    var m := c.outbox[0];
    if m.Output? {
      FrameKeeps(s, k, c);
    } else {
      var u := s.(conns := s.conns[k := c.(outbox := c.outbox[1..])]);
      var (b, out) := B.OnMessage(s.browser, k, m);
      PopKeeps(s);
      QuietMessage(s.browser, k, m);
      if b == B.Stop(s.browser) {
        StopKeeps(u);
        assert Post(u, b, out) == u.(browser := b);
      } else {
        PostKeeps(u, b, out);
      }
    }
  }

  lemma RenderStarts(s: System, k: nat, cursor: nat, data: Blob)
    requires OutputInv(s) && s.browser.socket == Some(k)
    requires Started(s.conns[k]) && s.conns[k].window.sent == cursor && data != [] && Genuine(s, cursor, data)
    requires cursor - |data| == s.browser.cursor && s.browser.renders == []
    requires forall m :: m in s.conns[k].outbox ==> !m.Output?
    ensures var b := s.browser.(renders := s.browser.renders + [B.Render(cursor, data, k)]);
            OutputInv(Post(s, b, []))
  {
    var b := s.browser.(renders := s.browser.renders + [B.Render(cursor, data, k)]);
    var t := s.(browser := b);
    forall j | 0 <= j < |s.conns|
      ensures Truthful(t, j, s.conns[j])
    {
      TruthfulFrame(s, t, j, s.conns[j]);
    }
    var c := s.conns[k];
    assert c.(inbox := c.inbox + []) == c;
    assert s.conns[k := c] == s.conns;
  }

  /** Rendering a frame extends what was rendered by exactly the next part of the output. */
  lemma RenderedExtends(s: System)
    requires RenderedPrefix(s) && Enabled(s, Rendered)
    ensures RenderedPrefix(s.(browser := B.OnRendered(s.browser).0))
  {
    var r := s.browser.renders[0];
    assert s.produced[..r.cursor] == s.produced[..|s.browser.rendered|] + r.data;
  }

  lemma ShownKeeps(s: System)
    requires OutputInv(s) && Enabled(s, Rendered)
    ensures OutputInv(s.(browser := B.OnRendered(s.browser).0))
  {
    var t := s.(browser := B.OnRendered(s.browser).0);
    RenderedExtends(s);
    forall j | 0 <= j < |s.conns|
      ensures Truthful(t, j, s.conns[j])
    {
      TruthfulFrame(s, t, j, s.conns[j]);
    }
  }

  lemma RenderedKeeps(s: System)
    requires OutputInv(s) && Enabled(s, Rendered)
    ensures OutputInv(Next(s, Rendered))
  {
    var (b, out) := B.OnRendered(s.browser);
    ShownKeeps(s);
    PostKeeps(s.(browser := b), b, out);
  }

  lemma ConnectKeeps(s: System)
    requires OutputInv(s) && Enabled(s, Connect)
    ensures OutputInv(Next(s, Connect))
  {
    var t := Next(s, Connect);
    var n := |s.conns|;
    var c := Opening(s.browser.cursor);
    assert c.inbox == [Hello(s.browser.cursor)];
    forall j | 0 <= j < |t.conns|
      ensures Truthful(t, j, t.conns[j])
    {
      if j < n {
        TruthfulFrame(s, t, j, s.conns[j]);
      }
    }
  }

  lemma DisconnectKeeps(s: System)
    requires OutputInv(s)
    ensures OutputInv(s.(browser := B.OnClose(s.browser)))
  {
    var t := s.(browser := B.OnClose(s.browser));
    forall j | 0 <= j < |s.conns|
      ensures Truthful(t, j, s.conns[j])
    {
      TruthfulFrame(s, t, j, s.conns[j]);
    }
  }

  lemma CloseKeeps(s: System, step: Step)
    requires OutputInv(s) && Enabled(s, step) && (step.CloseBegin? || step.CloseEnd?)
    ensures !Next(s, step).overrun ==> OutputInv(Next(s, step))
  {
    var t := Next(s, step);
    if !t.overrun {
      forall j | 0 <= j < |s.conns|
        ensures Truthful(t, j, s.conns[j])
      {
        TruthfulFrame(s, t, j, s.conns[j]);
      }
    }
  }

  // ---- every run -------------------------------------------------------------------------

  lemma ConnStepKeeps(s: System, k: nat, a: Action)
    requires OutputInv(s) && Enabled(s, At(k, a))
    ensures OutputInv(Next(s, At(k, a)))
  {
    if IsLocal(a) {
      LocalKeeps(s, k, a);
    } else if a.RunWrite? {
      WriteKeeps(s, k, a);
    } else if a.ReadBegin? {
      ReadBeginKeeps(s, k);
    } else if a.ReadEnd? {
      ReadEndKeeps(s, k);
    } else if a.TakeLease? {
      TakeLeaseKeeps(s, k);
    } else if a.AttachBegin? {
      AttachBeginKeeps(s, k);
    } else {
      AttachEndKeeps(s, k);
    }
  }

  lemma FlushKeeps(s: System)
    requires OutputInv(s) && Enabled(s, FlushTimer)
    ensures OutputInv(Next(s, FlushTimer))
  {
    var (b, out) := B.Flush(s.browser);
    PostKeeps(s, b, out);
  }

  lemma StepKeeps(s: System, step: Step)
    requires OutputInv(s) && Enabled(s, step)
    ensures !Next(s, step).overrun ==> OutputInv(Next(s, step))
  {
    match step
    case At(k, a) => ConnStepKeeps(s, k, a);
    case Connect => ConnectKeeps(s);
    case Receive => ReceiveKeeps(s);
    case Rendered => RenderedKeeps(s);
    case Disconnect => DisconnectKeeps(s);
    case Type(text) => QuietKeeps(s, B.Type(s.browser, text));
    case FlushTimer => FlushKeeps(s);
    case StopPage => StopKeeps(s);
    case CloseBegin => CloseKeeps(s, step);
    case CloseEnd => CloseKeeps(s, step);
    case PumpRead(chunk) => PumpReads(s, chunk);
    case PumpStore => PumpStores(s);
    case _ => PumpTurns(s, step);
  }

  lemma OverrunStays(s: System, step: Step)
    requires Enabled(s, step)
    ensures s.overrun ==> Next(s, step).overrun
  {
    if step.At? {
      ConnStepFrame(s, step.action, step.k, s.conns[step.k]);
    }
  }

  lemma {:induction false} EveryRunBounded(run: seq<System>, steps: seq<Step>, n: nat)
    requires IsRun(run, steps) && n <= |steps|
    ensures Bounded(run[n])
  {
    if n > 0 {
      EveryRunBounded(run, steps, n - 1);
      assert StepAt(run, steps, n - 1);
      BoundedKept(run[n - 1], steps[n - 1]);
    }
  }
}
