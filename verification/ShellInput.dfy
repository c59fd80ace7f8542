/** What holds of the input direction in every state the console can reach, torn down or not. */
module ShellInput {
  import opened Bytes
  import opened ShellSession
  import opened ShellTransport
  import opened ShellSystem
  import B = ShellBrowser

  // ---- the invariant ---------------------------------------------------------------------

  /** The part of the chunk being written that the terminal already has. */
  function Begun(s: Session, log: seq<Blob>): Blob {
    if s.pendingSeq != 0 && s.inputSeq < |log| then Take(log[s.inputSeq], s.pendingOffset) else []
  }

  /** The terminal took the first `inputSeq` chunks whole and the beginning of the next. */
  predicate AgentInput(s: Session, accepted: Blob, log: seq<Blob>, finished: bool) {
    && s.inputSeq <= |log| <= s.inputSeq + 1
    && (s.pendingSeq != 0 ==>
          && s.pendingSeq == s.inputSeq + 1 == |log|
          && s.pendingOffset < |log[s.inputSeq]|
          && (s.pendingInput == log[s.inputSeq] || finished))
    && (s.inputSeq > 0 ==> s.inputDigest == Sha256(log[s.inputSeq - 1]) && s.inputWritten == |log[s.inputSeq - 1]|)
    && accepted == Flatten(log[..s.inputSeq]) + Begun(s, log)
    && forall i :: 0 <= i < |log| ==> 0 < |log[i]| <= B.MAX_CHUNK
  }

  predicate Numbered(log: seq<Blob>, seq_: nat, data: Blob) {
    1 <= seq_ <= |log| && data == log[seq_ - 1]
  }

  predicate Acknowledges(reply: WriteReply, inputSeq: nat) {
    reply.Written? && reply.complete ==> reply.seq_ <= inputSeq
  }

  /** A connection carries only chunks of the log under their own numbers, in order, and only
      acknowledges completed ones. */
  ghost predicate ConnInput(s: Session, log: seq<Blob>, k: nat, c: Conn) {
    && (forall m :: m in c.inbox && m.Input? ==> Numbered(log, m.seq_, m.data))
    && (forall i, j :: 0 <= i < j < |c.inbox| && c.inbox[i].Input? && c.inbox[j].Input? ==>
          c.inbox[i].seq_ <= c.inbox[j].seq_)
    && (c.write.WriteIssued? ==>
          && Numbered(log, c.write.seq_, c.write.data)
          && forall m :: m in c.inbox && m.Input? ==> c.write.seq_ <= m.seq_)
    && (c.write.WriteAnswered? ==> Acknowledges(c.write.reply, s.inputSeq))
    && (forall m :: m in c.outbox && m.InputAck? && m.complete ==> m.seq_ <= s.inputSeq)
    && (!c.attach.Attached? ==> c.write.NoWrite? && forall m :: m in c.inbox ==> !m.Input?)
    && (c.main.Serving? || c.main.AwaitHello? || c.main.Attaching? ==> c.write.NoWrite?)
    && (c.main.Serving? || c.main.Writing? ==> c.attach.Attached?)
    && (c.main.AwaitHello? ==> c.attach.NotAttached?)
    && (s.lease == LeaseOf(k) ==>
          && !c.attach.NotAttached? && !c.attach.AttachIssued?
          && (c.write.WriteIssued? ==> s.inputSeq <= c.write.seq_)
          && forall m :: m in c.inbox && m.Input? ==> s.inputSeq <= m.seq_)
  }

  predicate BrowserInput(b: B.Browser, inputSeq: nat) {
    && (b.connected ==> b.socket.Some?)
    && (b.stopped ==> b.socket.None? && b.pending.None? && !b.connected)
    && (b.pending.Some? ==> b.log != [] && b.pending.value == B.Chunk(|b.log|, b.log[|b.log| - 1]))
    && (!b.stopped && b.pending.None? ==> b.nextSeq == |b.log| + 1 && inputSeq == |b.log|)
    && b.queuedBytes == |B.Encode(b.queue)| <= B.MAX_QUEUED
    && (!b.stopped ==> b.typed == Flatten(b.log) + B.Encode(b.queue))
    && Flatten(b.log) <= b.typed
  }

  /** The greeting the browser waits for announces the right number if nothing is pending. */
  ghost predicate Greeting(b: B.Browser, c: Conn) {
    && (b.connected ==>
          && c.attach.Attached? && !c.main.AwaitHello? && !c.main.Attaching?
          && forall m :: m in c.outbox ==> !m.Ready?)
    && (!b.connected ==>
          && c.write.NoWrite? && !c.main.Writing?
          && (forall m :: m in c.inbox ==> !m.Input?)
          && (forall m :: m in c.outbox ==> !m.InputAck?)
          && (b.pending.None? && c.attach.Attached? ==> c.attach.inputSeq == |b.log|)
          && (forall m :: m in c.outbox && m.Ready? && b.pending.None? ==> m.inputSeq == |b.log|)
          && (forall m :: m in c.outbox && m.Ready? ==> c.attach.Attached? && !c.main.AwaitHello? && !c.main.Attaching?)
          && forall i, j :: 0 <= i < j < |c.outbox| ==> !(c.outbox[i].Ready? && c.outbox[j].Ready?))
  }

  ghost predicate InputInv(s: System) {
    && AgentInput(s.session, s.accepted, s.browser.log, s.finished)
    && s.session.lease <= |s.conns|
    && (forall k :: 0 <= k < |s.conns| ==> ConnInput(s.session, s.browser.log, k, s.conns[k]))
    && BrowserInput(s.browser, s.session.inputSeq)
    && (s.browser.socket.Some? ==>
          s.browser.socket.value < |s.conns| && Greeting(s.browser, s.conns[s.browser.socket.value]))
  }

  // ---- connections -----------------------------------------------------------------------

  predicate IsWriteFree(a: Action) {
    !a.RunWrite? && !a.TakeLease?
  }

  /** The receiving thread's own steps. */
  predicate IsMain(a: Action) {
    a.Greet? || a.Announce? || a.TakeAck? || a.TakeInput? || a.ReturnWrite? || a.MainQuits?
  }

  lemma TakenInput(s: Session, log: seq<Blob>, k: nat, c: Conn)
    requires ConnInput(s, log, k, c) && c.main.Serving? && c.inbox != [] && c.inbox[0].Input?
    ensures ConnInput(s, log, k, OnInput(c))
  {
    assert c.inbox[0] in c.inbox;
    assert forall m :: m in c.inbox[1..] ==> exists j :: 1 <= j < |c.inbox| && c.inbox[j] == m;
  }

  lemma ReturnedWrite(s: Session, log: seq<Blob>, k: nat, c: Conn)
    requires ConnInput(s, log, k, c) && c.main.Writing? && c.write.WriteAnswered?
    ensures ConnInput(s, log, k, OnWritten(c))
  {
  }

  lemma ConnInputMain(s: System, a: Action, k: nat, c: Conn)
    requires ConnEnabled(s, a, k, c) && IsMain(a)
    requires ConnInput(s.session, s.browser.log, k, c)
    ensures ConnInput(s.session, s.browser.log, k, ConnNext(s, a, k, c).1)
  {
    if a.TakeInput? {
      TakenInput(s.session, s.browser.log, k, c);
    } else if a.ReturnWrite? {
      ReturnedWrite(s.session, s.browser.log, k, c);
    } else {
      var d := ConnNext(s, a, k, c).1;
      assert d.write == c.write && forall m :: m in d.outbox && m.InputAck? ==> m in c.outbox;
      assert d.inbox == c.inbox || d.inbox == c.inbox[1..];
    }
  }

  lemma ConnInputLocal(s: System, a: Action, k: nat, c: Conn)
    requires ConnEnabled(s, a, k, c) && IsWriteFree(a)
    requires ConnInput(s.session, s.browser.log, k, c)
    ensures ConnInput(s.session, s.browser.log, k, ConnNext(s, a, k, c).1)
  {
    if IsMain(a) {
      ConnInputMain(s, a, k, c);
    } else {
      var d := ConnNext(s, a, k, c).1;
      assert d.inbox == c.inbox && d.write == c.write && d.main == c.main;
      assert forall m :: m in d.outbox && m.InputAck? ==> m in c.outbox;
    }
  }

  lemma GreetingMain(s: System, a: Action, k: nat, c: Conn)
    requires ConnEnabled(s, a, k, c) && IsMain(a)
    requires ConnInput(s.session, s.browser.log, k, c)
    requires s.browser.socket == Some(k) && Greeting(s.browser, c)
    ensures Greeting(s.browser, ConnNext(s, a, k, c).1)
  {
    if a.TakeInput? {
      assert c.inbox[0] in c.inbox;
    }
  }

  lemma GreetingLocal(s: System, a: Action, k: nat, c: Conn)
    requires ConnEnabled(s, a, k, c) && !a.RunWrite?
    requires ConnInput(s.session, s.browser.log, k, c) && BrowserInput(s.browser, s.session.inputSeq)
    requires s.browser.socket == Some(k) && Greeting(s.browser, c)
    ensures Greeting(s.browser, ConnNext(s, a, k, c).1)
  {
    if IsMain(a) {
      GreetingMain(s, a, k, c);
    } else {
      var d := ConnNext(s, a, k, c).1;
      assert d.inbox == c.inbox && d.write == c.write && d.main == c.main;
      assert d.outbox == c.outbox || exists m: ServerMsg :: !m.InputAck? && !m.Ready? && d.outbox == c.outbox + [m];
    }
  }

  /** `ConnInput` and `AgentInput` depend on these fields of the session only. */
  predicate SameInput(s: Session, t: Session) {
    && t.inputSeq == s.inputSeq && t.inputDigest == s.inputDigest && t.inputWritten == s.inputWritten
    && t.pendingSeq == s.pendingSeq && t.pendingInput == s.pendingInput && t.pendingOffset == s.pendingOffset
  }

  lemma WriteFreeSession(s: System, a: Action, k: nat, c: Conn)
    requires ConnEnabled(s, a, k, c) && IsWriteFree(a)
    ensures var t := ConnNext(s, a, k, c).0;
            && t == s.(session := t.session)
            && SameInput(s.session, t.session) && t.session.lease == s.session.lease
  {
  }

  lemma LocalInputKept(s: System, k: nat, a: Action)
    requires InputInv(s) && Enabled(s, At(k, a)) && IsWriteFree(a)
    ensures InputInv(Next(s, At(k, a)))
  {
    var c := s.conns[k];
    var (t, d) := ConnNext(s, a, k, c);
    WriteFreeSession(s, a, k, c);
    ConnInputLocal(s, a, k, c);
    if s.browser.socket == Some(k) {
      GreetingLocal(s, a, k, c);
    }
    InputReplace(s, t, k, d);
  }

  /** One connection changed, and of the session nothing the input depends on. */
  lemma InputReplace(s: System, t: System, k: nat, d: Conn)
    requires InputInv(s) && k < |s.conns|
    requires t == s.(session := t.session) && SameInput(s.session, t.session) && t.session.lease == s.session.lease
    requires ConnInput(s.session, s.browser.log, k, d)
    requires s.browser.socket == Some(k) ==> Greeting(s.browser, d)
    ensures InputInv(t.(conns := s.conns[k := d]))
  {
    var u := t.(conns := s.conns[k := d]);
    forall j | 0 <= j < |u.conns|
      ensures ConnInput(u.session, u.browser.log, j, u.conns[j])
    {
      assert ConnInput(s.session, s.browser.log, j, u.conns[j]);
    }
  }

  /** A new lease holder has sent no input yet, and the others no longer count. */
  lemma LeaseMoves(s: Session, log: seq<Blob>, k: nat, j: nat, c: Conn)
    requires ConnInput(s, log, j, c)
    requires j == k ==> c.attach.AttachIssued?
    ensures ConnInput(Attach(s, LeaseOf(k)), log, j, if j == k then c.(attach := AttachLeased(c.attach.at)) else c)
  {
  }

  lemma LeaseInputKept(s: System, k: nat)
    requires InputInv(s) && Enabled(s, At(k, TakeLease))
    ensures InputInv(Next(s, At(k, TakeLease)))
  {
    var c := s.conns[k];
    var conns := s.conns[k := c.(attach := AttachLeased(c.attach.at))];
    var session := Attach(s.session, LeaseOf(k));
    forall j | 0 <= j < |conns|
      ensures ConnInput(session, s.browser.log, j, conns[j])
    {
      LeaseMoves(s.session, s.browser.log, k, j, s.conns[j]);
    }
    assert Next(s, At(k, TakeLease)) == s.(session := session, conns := conns);
    LeaseAssembles(s, session, k, conns);
  }

  lemma LeaseAssembles(s: System, session: Session, k: nat, conns: seq<Conn>)
    requires InputInv(s) && k < |s.conns| == |conns| && s.conns[k].attach.AttachIssued?
    requires session == Attach(s.session, LeaseOf(k))
    requires conns == s.conns[k := s.conns[k].(attach := AttachLeased(s.conns[k].attach.at))]
    requires forall j :: 0 <= j < |conns| ==> ConnInput(session, s.browser.log, j, conns[j])
    ensures InputInv(s.(session := session, conns := conns))
  {
  }

  // ---- the write -------------------------------------------------------------------------

  lemma AppendTaken(done: Blob, data: Blob, offset: nat, count: nat)
    requires offset + count <= |data|
    ensures done + data[..offset] + data[offset..][..count] == done + data[..offset + count]
  {
    assert data[..offset] + data[offset..][..count] == data[..offset + count];
  }

  lemma AcceptedSoFar(s: Session, accepted: Blob, log: seq<Blob>, finished: bool)
    requires AgentInput(s, accepted, log, finished) && s.inputSeq < |log|
    ensures Resume(s) <= |log[s.inputSeq]|
    ensures accepted == Flatten(log[..s.inputSeq]) + log[s.inputSeq][..Resume(s)]
  {
    assert Begun(s, log) == log[s.inputSeq][..Resume(s)];
  }

  /** The rest of the chunk is taken. */
  lemma AdvanceCompletes(s: Session, log: seq<Blob>, accepted: Blob, finished: bool, count: nat, gone: bool)
    requires AgentInput(s, accepted, log, finished) && s.inputSeq < |log|
    requires Resume(s) + count == |log[s.inputSeq]|
    ensures AgentInput(Advance(s, s.inputSeq + 1, log[s.inputSeq], count, gone),
                       Flatten(log[..s.inputSeq]) + log[s.inputSeq], log, finished)
  {
    var data, done := log[s.inputSeq], log[..s.inputSeq];
    var t := Advance(s, s.inputSeq + 1, data, count, gone);
    assert log[..s.inputSeq + 1] == done + [data];
    FlattenSnoc(done, data);
    assert Begun(t, log) == [];
    assert Flatten(log[..t.inputSeq]) + [] == Flatten(done) + data;
  }

  /** A part of it is. */
  lemma AdvancePartly(s: Session, log: seq<Blob>, accepted: Blob, finished: bool, count: nat, gone: bool)
    requires AgentInput(s, accepted, log, finished) && s.inputSeq < |log| && |log| == s.inputSeq + 1
    requires Resume(s) + count < |log[s.inputSeq]|
    ensures AgentInput(Advance(s, s.inputSeq + 1, log[s.inputSeq], count, gone),
                       Flatten(log[..s.inputSeq]) + log[s.inputSeq][..Resume(s) + count], log, finished)
  {
    var t := Advance(s, s.inputSeq + 1, log[s.inputSeq], count, gone);
    assert Begun(t, log) == log[s.inputSeq][..Resume(s) + count];
  }

  /** Writing on: the terminal's input grows by exactly the bytes after those it has. */
  lemma AdvanceAccepted(s: Session, accepted: Blob, log: seq<Blob>, finished: bool, id: Lease,
                        data: Blob, count: nat, gone: bool)
    requires AgentInput(s, accepted, log, finished) && s.inputSeq < |log| && data == log[s.inputSeq]
    requires IsNext(s, id, s.inputSeq + 1, data) && WriteOutcomePossible(s, data, count, gone)
    ensures AgentInput(Advance(s, s.inputSeq + 1, data, count, gone),
                       accepted + Rest(data, Resume(s))[..count], log, finished)
  {
    AcceptedSoFar(s, accepted, log, finished);
    AppendTaken(Flatten(log[..s.inputSeq]), data, Resume(s), count);
    if Resume(s) + count == |data| {
      assert data[..|data|] == data;
      AdvanceCompletes(s, log, accepted, finished, count, gone);
    } else {
      AdvancePartly(s, log, accepted, finished, count, gone);
    }
  }

  /** What a write does to the session, seen from the log. */
  lemma WriteAgent(s: Session, accepted: Blob, log: seq<Blob>, finished: bool, id: Lease,
                   seq_: nat, data: Blob, count: nat, gone: bool)
    requires AgentInput(s, accepted, log, finished) && Numbered(log, seq_, data)
    requires Reaches(s, id, seq_, data) ==> WriteOutcomePossible(s, data, count, gone)
    ensures var (t, reply) := ShellWrite(s, id, seq_, data, count, gone);
            var taken := if Reaches(s, id, seq_, data) then Rest(data, Resume(s))[..count] else [];
            && AgentInput(t, accepted + taken, log, finished)
            && t.lease == s.lease && Acknowledges(reply, t.inputSeq)
            && (t.inputSeq == s.inputSeq || (s.lease == id && t.inputSeq == seq_ == s.inputSeq + 1))
  {
    if Reaches(s, id, seq_, data) {
      AdvanceAccepted(s, accepted, log, finished, id, data, count, gone);
    } else {
      assert accepted + [] == accepted;
    }
  }

  lemma OtherConnInput(s: Session, t: Session, log: seq<Blob>, k: nat, c: Conn)
    requires ConnInput(s, log, k, c) && t.lease == s.lease
    requires t.inputSeq == s.inputSeq || (s.inputSeq < t.inputSeq && s.lease != LeaseOf(k))
    ensures ConnInput(t, log, k, c)
  {
  }

  lemma OwnConnInput(s: Session, t: Session, log: seq<Blob>, k: nat, c: Conn, reply: WriteReply)
    requires ConnInput(s, log, k, c) && t.lease == s.lease && c.write.WriteIssued?
    requires t.inputSeq == s.inputSeq || (s.inputSeq < t.inputSeq && t.inputSeq == c.write.seq_)
    requires Acknowledges(reply, t.inputSeq)
    ensures ConnInput(t, log, k, c.(write := WriteAnswered(reply)))
  {
  }

  lemma WriteConns(s: Session, t: Session, log: seq<Blob>, k: nat, conns: seq<Conn>, reply: WriteReply)
    requires forall j :: 0 <= j < |conns| ==> ConnInput(s, log, j, conns[j])
    requires k < |conns| && conns[k].write.WriteIssued? && Acknowledges(reply, t.inputSeq)
    requires t.lease == s.lease
    requires t.inputSeq == s.inputSeq
             || (s.lease == LeaseOf(k) && s.inputSeq < t.inputSeq && t.inputSeq == conns[k].write.seq_)
    ensures var next := conns[k := conns[k].(write := WriteAnswered(reply))];
            forall j :: 0 <= j < |next| ==> ConnInput(t, log, j, next[j])
  {
    var next := conns[k := conns[k].(write := WriteAnswered(reply))];
    forall j | 0 <= j < |next|
      ensures ConnInput(t, log, j, next[j])
    {
      if j == k {
        OwnConnInput(s, t, log, k, conns[k], reply);
      } else {
        OtherConnInput(s, t, log, j, conns[j]);
      }
    }
  }

  lemma WriteCore(s: System, k: nat, count: nat, gone: bool, t: System)
    requires InputInv(s) && k < |s.conns| && s.conns[k].write.WriteIssued?
    requires var w := s.conns[k].write;
             Reaches(s.session, LeaseOf(k), w.seq_, w.data) ==> WriteOutcomePossible(s.session, w.data, count, gone)
    requires var w := s.conns[k].write;
             var (u, reply) := ShellWrite(s.session, LeaseOf(k), w.seq_, w.data, count, gone);
             var taken := if Reaches(s.session, LeaseOf(k), w.seq_, w.data)
                          then Rest(w.data, Resume(s.session))[..count] else [];
             t == s.(session := u, accepted := s.accepted + taken, cause := t.cause,
                     conns := s.conns[k := s.conns[k].(write := WriteAnswered(reply))])
    ensures InputInv(t)
  {
    var log := s.browser.log;
    var w := s.conns[k].write;
    assert ConnInput(s.session, log, k, s.conns[k]);
    var reply := t.conns[k].write.reply;
    WriteAgent(s.session, s.accepted, log, s.finished, LeaseOf(k), w.seq_, w.data, count, gone);
    WriteConns(s.session, t.session, log, k, s.conns, reply);
    WriteInputAssembles(s, t.(conns := s.conns), k, t.conns);
  }

  lemma WriteInputKept(s: System, k: nat, a: Action)
    requires InputInv(s) && Enabled(s, At(k, a)) && a.RunWrite?
    ensures InputInv(Next(s, At(k, a)))
  {
    WriteCore(s, k, a.count, a.gone, Next(s, At(k, a)));
  }

  lemma WriteInputAssembles(s: System, t: System, k: nat, conns: seq<Conn>)
    requires InputInv(s) && k < |s.conns| == |conns| && conns == s.conns[k := conns[k]]
    requires t == s.(session := t.session, accepted := t.accepted, cause := t.cause)
    requires AgentInput(t.session, t.accepted, s.browser.log, s.finished)
    requires t.session.lease == s.session.lease && s.session.inputSeq <= t.session.inputSeq
    requires forall j :: 0 <= j < |conns| ==> ConnInput(t.session, s.browser.log, j, conns[j])
    requires conns[k] == s.conns[k].(write := conns[k].write) && s.conns[k].write.WriteIssued?
    ensures InputInv(t.(conns := conns))
  {
  }

  // ---- the browser -----------------------------------------------------------------------

  /** Cutting a chunk moves bytes from the queue to the log; the new chunk has the next number. */
  lemma FlushInput(b: B.Browser, inputSeq: nat)
    requires BrowserInput(b, inputSeq)
    ensures var (c, out) := B.Flush(b);
            && BrowserInput(c, inputSeq) && b.log <= c.log && c.typed == b.typed && c.socket == b.socket
            && c.connected == b.connected && c.stopped == b.stopped
            && (forall m :: m in out ==> c.connected && m == Input(|c.log|, c.log[|c.log| - 1]))
            && (c.log != b.log ==>
                  && b.pending.None? && !b.stopped && b.connected
                  && |c.log| == |b.log| + 1 && 0 < |c.log[|b.log|]| <= B.MAX_CHUNK)
            && |out| <= 1
  {
    if b.connected && b.pending.None? && b.queue != [] {
      var n := B.Fitting(b.queue, B.MAX_CHUNK);
      B.FittingBound(b.queue, B.MAX_CHUNK);
      B.EncodeSplit(b.queue, n);
      FlattenSnoc(b.log, B.Encode(b.queue[..n]));
    }
  }

  lemma TypeInput(b: B.Browser, text: seq<B.Char>, inputSeq: nat)
    requires BrowserInput(b, inputSeq)
    ensures BrowserInput(B.Type(b, text), inputSeq) && B.Type(b, text).log == b.log
    ensures b.typed <= B.Type(b, text).typed
  {
    B.EncodeConcat(b.queue, text);
  }

  /** The log only grows, by a chunk cut when all earlier ones were complete. */
  predicate LogGrows(b: B.Browser, c: B.Browser, inputSeq: nat) {
    && b.log <= c.log
    && (c.log != b.log ==>
          && inputSeq == |b.log| && |c.log| == |b.log| + 1
          && 0 < |c.log[|b.log|]| <= B.MAX_CHUNK)
  }

  predicate Sendable(b: B.Browser, m: ClientMsg) {
    m.Ack? || (b.connected && b.log != [] && m == Input(|b.log|, b.log[|b.log| - 1]))
  }

  lemma AgentLogGrows(s: System, c: B.Browser)
    requires AgentInput(s.session, s.accepted, s.browser.log, s.finished)
    requires LogGrows(s.browser, c, s.session.inputSeq)
    ensures AgentInput(s.session, s.accepted, c.log, s.finished)
  {
    assert c.log[..s.session.inputSeq] == s.browser.log[..s.session.inputSeq];
  }

  lemma ConnLogGrows(s: Session, log: seq<Blob>, more: seq<Blob>, k: nat, c: Conn)
    requires ConnInput(s, log, k, c) && log <= more
    ensures ConnInput(s, more, k, c)
  {
  }

  lemma ConnSends(s: Session, b: B.Browser, k: nat, c: Conn, m: ClientMsg)
    requires ConnInput(s, b.log, k, c) && Sendable(b, m) && s.inputSeq <= |b.log|
    requires b.connected ==> c.attach.Attached?
    ensures ConnInput(s, b.log, k, c.(inbox := c.inbox + [m]))
  {
    var inbox := c.inbox + [m];
    forall i, j | 0 <= i < j < |inbox| && inbox[i].Input? && inbox[j].Input?
      ensures inbox[i].seq_ <= inbox[j].seq_
    {
      if j == |c.inbox| {
        assert inbox[i] in c.inbox;
      }
    }
    assert forall x :: x in inbox ==> x in c.inbox || x == m;
  }

  /** One connection, on which the browser may have sent. */
  lemma PostConnKept(s: System, b: B.Browser, out: seq<ClientMsg>, j: nat)
    requires j < |s.conns| && ConnInput(s.session, s.browser.log, j, s.conns[j])
    requires AgentInput(s.session, s.accepted, s.browser.log, s.finished)
    requires LogGrows(s.browser, b, s.session.inputSeq)
    requires |out| <= 1 && forall m :: m in out ==> Sendable(b, m)
    requires b.socket == Some(j) ==> Greeting(b, s.conns[j])
    ensures ConnInput(s.session, b.log, j, Post(s, b, out).conns[j])
  {
    ConnLogGrows(s.session, s.browser.log, b.log, j, s.conns[j]);
    if b.socket == Some(j) {
      if out != [] {
        assert out == [out[0]];
        ConnSends(s.session, b, j, s.conns[j], out[0]);
      } else {
        assert s.conns[j].inbox + out == s.conns[j].inbox;
      }
    }
  }

  /** The browser moved on and sends at most one message. */
  lemma PostInputKept(s: System, b: B.Browser, out: seq<ClientMsg>)
    requires InputInv(s) && BrowserInput(b, s.session.inputSeq)
    requires LogGrows(s.browser, b, s.session.inputSeq)
    requires b.socket.Some? ==> b.socket == s.browser.socket && Greeting(b, s.conns[b.socket.value])
    requires |out| <= 1 && forall m :: m in out ==> Sendable(b, m)
    ensures InputInv(Post(s, b, out))
  {
    var t := Post(s, b, out);
    AgentLogGrows(s, b);
    forall j | 0 <= j < |t.conns|
      ensures ConnInput(t.session, t.browser.log, j, t.conns[j])
    {
      PostConnKept(s, b, out, j);
    }
    if b.socket.Some? {
      GreetingSends(b, s.conns[b.socket.value], out);
    }
  }

  lemma GreetingSends(b: B.Browser, c: Conn, out: seq<ClientMsg>)
    requires Greeting(b, c) && forall m :: m in out ==> Sendable(b, m)
    ensures Greeting(b, c.(inbox := c.inbox + out))
  {
  }

  lemma PopInputKept(s: System)
    requires InputInv(s) && Enabled(s, Receive)
    ensures var k := s.browser.socket.value;
            InputInv(s.(conns := s.conns[k := s.conns[k].(outbox := s.conns[k].outbox[1..])]))
  {
    var k := s.browser.socket.value;
    var c := s.conns[k];
    var d := c.(outbox := c.outbox[1..]);
    assert forall m :: m in d.outbox ==> m in c.outbox;
    assert ConnInput(s.session, s.browser.log, k, c);
    InputReplace(s, s, k, d);
  }

  /** After the greeting the numbering resumes exactly where the log ends. */
  lemma ReadyInputKept(s: System, inputSeq: nat)
    requires InputInv(s) && s.browser.socket.Some?
    requires var c := s.conns[s.browser.socket.value];
             && c.attach.Attached? && !c.main.AwaitHello? && !c.main.Attaching?
             && forall m :: m in c.outbox ==> !m.Ready?
    requires s.browser.pending.None? ==> inputSeq == |s.browser.log|
    ensures var (b, out) := B.OnReady(s.browser, inputSeq); InputInv(Post(s, b, out))
  {
    var b := s.browser;
    var c := b.(connected := true, nextSeq := if b.pending.None? then inputSeq + 1 else b.nextSeq);
    FlushInput(c, s.session.inputSeq);
    var (d, out) := B.Flush(c);
    PostInputKept(s, d, out);
  }

  lemma AckInputKept(s: System, seq_: nat, complete: bool, alive: bool)
    requires InputInv(s) && s.browser.socket.Some? && s.browser.connected
    requires complete ==> seq_ <= s.session.inputSeq
    ensures var (b, out) := B.OnInputAck(s.browser, seq_, complete, alive); InputInv(Post(s, b, out))
  {
    var b := s.browser;
    var (d, out) := B.OnInputAck(b, seq_, complete, alive);
    if b.pending.Some? && b.pending.value.seq_ == seq_ && complete {
      FlushInput(b.(nextSeq := seq_ + 1, pending := None), s.session.inputSeq);
    }
    PostInputKept(s, d, out);
  }

  lemma ReceiveReady(s: System, k: nat, c: Conn)
    requires InputInv(s) && Enabled(s, Receive) && s.browser.socket == Some(k) && c == s.conns[k]
    requires c.outbox[0].Ready?
    ensures InputInv(Next(s, Receive))
  {
    var d := c.(outbox := c.outbox[1..]);
    PopInputKept(s);
    assert c.outbox[0] in c.outbox;
    assert forall x :: x in d.outbox ==> exists j :: 1 <= j < |c.outbox| && c.outbox[j] == x;
    assert forall x :: x in d.outbox ==> !x.Ready?;
    ReadyInputKept(s.(conns := s.conns[k := d]), c.outbox[0].inputSeq);
  }

  lemma ReceiveAck(s: System, k: nat, c: Conn)
    requires InputInv(s) && Enabled(s, Receive) && s.browser.socket == Some(k) && c == s.conns[k]
    requires c.outbox[0].InputAck?
    ensures InputInv(Next(s, Receive))
  {
    var m := c.outbox[0];
    PopInputKept(s);
    assert m in c.outbox;
    assert ConnInput(s.session, s.browser.log, k, c);
    AckInputKept(s.(conns := s.conns[k := c.(outbox := c.outbox[1..])]), m.seq_, m.complete, m.alive);
  }

  /** Output, end and error messages do not concern the input, except that they may stop the page. */
  lemma OtherMessage(b: B.Browser, k: nat, m: ServerMsg, inputSeq: nat)
    requires BrowserInput(b, inputSeq) && !m.Ready? && !m.InputAck?
    ensures var (c, out) := B.OnMessage(b, k, m);
            && BrowserInput(c, inputSeq) && c.log == b.log && |out| <= 1
            && (forall x :: x in out ==> x.Ack?)
            && (c.socket.Some? ==> c.socket == b.socket && c.connected == b.connected && c.pending == b.pending)
  {
  }

  lemma ReceiveOther(s: System, k: nat, c: Conn)
    requires InputInv(s) && Enabled(s, Receive) && s.browser.socket == Some(k) && c == s.conns[k]
    requires !c.outbox[0].Ready? && !c.outbox[0].InputAck?
    ensures InputInv(Next(s, Receive))
  {
    PopInputKept(s);
    OtherMessage(s.browser, k, c.outbox[0], s.session.inputSeq);
    var (b, out) := B.OnMessage(s.browser, k, c.outbox[0]);
    PostInputKept(s.(conns := s.conns[k := c.(outbox := c.outbox[1..])]), b, out);
  }

  lemma ReceiveInputKept(s: System)
    requires InputInv(s) && Enabled(s, Receive)
    ensures InputInv(Next(s, Receive))
  {
    var k := s.browser.socket.value;
    var c := s.conns[k];
    if c.outbox[0].Ready? {
      ReceiveReady(s, k, c);
    } else if c.outbox[0].InputAck? {
      ReceiveAck(s, k, c);
    } else {
      ReceiveOther(s, k, c);
    }
  }

  lemma RenderedInputKept(s: System)
    requires InputInv(s) && Enabled(s, Rendered)
    ensures InputInv(Next(s, Rendered))
  {
    var (b, out) := B.OnRendered(s.browser);
    PostInputKept(s, b, out);
  }

  lemma FlushInputKept(s: System)
    requires InputInv(s) && Enabled(s, FlushTimer)
    ensures InputInv(Next(s, FlushTimer))
  {
    FlushInput(s.browser, s.session.inputSeq);
    var (b, out) := B.Flush(s.browser);
    PostInputKept(s, b, out);
  }

  lemma TypeKept(s: System, text: seq<B.Char>)
    requires InputInv(s) && BrowserInput(B.Type(s.browser, text), s.session.inputSeq)
    ensures InputInv(s.(browser := B.Type(s.browser, text)))
  {
  }

  lemma ConnectInputKept(s: System)
    requires InputInv(s) && Enabled(s, Connect)
    ensures InputInv(Next(s, Connect))
  {
    var t := Next(s, Connect);
    var c := Opening(s.browser.cursor);
    assert c.inbox == [Hello(s.browser.cursor)];
    forall j | 0 <= j < |t.conns|
      ensures ConnInput(t.session, t.browser.log, j, t.conns[j])
    {
      assert j < |s.conns| ==> ConnInput(s.session, s.browser.log, j, s.conns[j]);
    }
  }

  /** The pump and the closing of the session do not touch the numbering. */
  lemma SessionInputKept(s: System, t: System)
    requires InputInv(s)
    requires t == s.(session := t.session, pump := t.pump, produced := t.produced, cause := t.cause,
                     finished := t.finished, dropped := t.dropped, overrun := t.overrun)
    requires SameInput(s.session, t.session.(pendingInput := s.session.pendingInput))
    requires t.session.pendingInput == s.session.pendingInput || t.finished
    requires t.session.lease == s.session.lease && (s.finished ==> t.finished)
    ensures InputInv(t)
  {
    forall j | 0 <= j < |t.conns|
      ensures ConnInput(t.session, t.browser.log, j, t.conns[j])
    {
      assert ConnInput(s.session, s.browser.log, j, s.conns[j]);
    }
  }

  lemma AgentInputKept(s: System, step: Step)
    requires InputInv(s) && Enabled(s, step)
    requires step.PumpReserve? || step.PumpRead? || step.PumpSkip? || step.PumpStore? || step.PumpEnd?
             || step.CloseBegin? || step.CloseEnd?
    ensures InputInv(Next(s, step))
  {
    SessionInputKept(s, Next(s, step));
  }

  lemma InputKept(s: System, step: Step)
    requires InputInv(s) && Enabled(s, step)
    ensures InputInv(Next(s, step))
  {
    match step
    case At(k, a) =>
      if a.RunWrite? {
        WriteInputKept(s, k, a);
      } else if a.TakeLease? {
        LeaseInputKept(s, k);
      } else {
        LocalInputKept(s, k, a);
      }
    case Receive => ReceiveInputKept(s);
    case Connect => ConnectInputKept(s);
    case Rendered => RenderedInputKept(s);
    case Disconnect => PostInputKept(s, B.OnClose(s.browser), []);
    case Type(text) =>
      TypeInput(s.browser, text, s.session.inputSeq);
      TypeKept(s, text);
    case FlushTimer => FlushInputKept(s);
    case StopPage => PostInputKept(s, B.Stop(s.browser), []);
    case _ => AgentInputKept(s, step);
  }

  lemma {:induction false} EveryRunInput(run: seq<System>, steps: seq<Step>, n: nat)
    requires IsRun(run, steps) && n <= |steps|
    ensures InputInv(run[n])
  {
    if n > 0 {
      EveryRunInput(run, steps, n - 1);
      assert StepAt(run, steps, n - 1);
      InputKept(run[n - 1], steps[n - 1]);
    }
  }

  // ---- the guarantees --------------------------------------------------------------------

  lemma AcceptedPrefix(s: Session, accepted: Blob, log: seq<Blob>, finished: bool)
    requires AgentInput(s, accepted, log, finished)
    ensures Flatten(log[..s.inputSeq]) <= accepted <= Flatten(log)
  {
    var done := Flatten(log[..s.inputSeq]);
    var part := Begun(s, log);
    assert accepted[..|done|] == done;
    if s.inputSeq < |log| {
      var last := log[s.inputSeq];
      assert log == log[..s.inputSeq] + [last];
      FlattenSnoc(log[..s.inputSeq], last);
      assert part <= last;
      assert (done + last)[..|done + part|] == done + part;
    } else {
      assert log[..s.inputSeq] == log && accepted == done + [];
    }
  }

  /** Through partial writes, lost acknowledgements, resends and lease changes the terminal has
      taken the numbered chunks 1..inputSeq once each and in order, then the beginning of the next;
      so what it took is the beginning of what was typed. Tear-down does not weaken this. */
  lemma InputExactlyOnce(run: seq<System>, steps: seq<Step>, n: nat)
    requires IsRun(run, steps) && n <= |steps|
    ensures var s := run[n];
            && s.session.inputSeq <= |s.browser.log| <= s.session.inputSeq + 1
            && Flatten(s.browser.log[..s.session.inputSeq]) <= s.accepted
            && s.accepted <= Flatten(s.browser.log) <= s.browser.typed
  {
    EveryRunInput(run, steps, n);
    AcceptedPrefix(run[n].session, run[n].accepted, run[n].browser.log, run[n].finished);
  }

  /** When nothing is queued or pending, the terminal has taken all that was typed. */
  lemma IdleMeansAllTaken(run: seq<System>, steps: seq<Step>, n: nat)
    requires IsRun(run, steps) && n <= |steps|
    requires var b := run[n].browser; !b.stopped && b.pending.None? && b.queue == []
    ensures run[n].accepted == run[n].browser.typed
  {
    EveryRunInput(run, steps, n);
    var s := run[n];
    assert s.browser.log[..s.session.inputSeq] == s.browser.log;
  }

  /** A chunk or its retransmission on the connection that holds the lease is never refused as out
      of sequence or altered; it is written, written on, or acknowledged again. */
  lemma RetransmissionUnderstood(run: seq<System>, steps: seq<Step>, n: nat, k: nat, count: nat, gone: bool)
    requires IsRun(run, steps) && n <= |steps| && !run[n].finished
    requires k < |run[n].conns| && run[n].conns[k].write.WriteIssued?
    requires run[n].session.lease == LeaseOf(k) && run[n].conns[k].write.seq_ <= MAX_INPUT_SEQ
    ensures var w := run[n].conns[k].write;
            var reply := ShellWrite(run[n].session, LeaseOf(k), w.seq_, w.data, count, gone).1;
            reply.Written? && reply.seq_ == w.seq_
  {
    EveryRunInput(run, steps, n);
    var s := run[n];
    assert ConnInput(s.session, s.browser.log, k, s.conns[k]);
  }
}
