/** What keeps the console going: in every state that it can reach, whatever is not yet done in either
    direction is on its way. */
module ShellFlow {
  import opened Bytes
  import opened ShellSession
  import opened ShellTransport
  import opened ShellSystem
  import B = ShellBrowser
  import opened ShellOutput
  import ShellInput
  import ShellEnd

  // ---- output ----------------------------------------------------------------------------

  /** While the window is closed, the last frame, its rendering or its acknowledgement is on its way. */
  ghost predicate OutputMoves(b: B.Browser, c: Conn) {
    !c.window.stopped && c.window.cursor < c.window.sent ==>
      || (exists m :: m in c.outbox && m.Output? && m.cursor == c.window.sent)
      || (b.renders != [] && b.renders[0].cursor == c.window.sent)
      || Ack(c.window.sent) in c.inbox
  }

  ghost predicate PageOutputMoves(s: System) {
    s.browser.socket.Some? ==>
      s.browser.socket.value < |s.conns| && OutputMoves(s.browser, s.conns[s.browser.socket.value])
  }

  lemma AckMoves(b: B.Browser, c: Conn)
    requires OutputMoves(b, c) && c.inbox != [] && c.inbox[0].Ack?
    ensures OutputMoves(b, OnAck(c))
  {
    assert forall m :: m in c.inbox && m != c.inbox[0] ==> m in c.inbox[1..];
  }

  lemma ReadMoves(b: B.Browser, c: Conn)
    requires OutputMoves(b, c) && (c.read.ReadAnswered? || c.read.ReadFailed?)
    ensures OutputMoves(b, OnRead(c))
  {
    var d := OnRead(c);
    assert forall m :: m in c.outbox ==> m in d.outbox;
    if c.read.ReadAnswered? && c.read.frame.data != [] {
      assert Output(c.read.frame.cursor, c.read.frame.data) in d.outbox;
    }
  }

  lemma ConnOutputMoves(s: System, a: Action, k: nat, c: Conn)
    requires ConnEnabled(s, a, k, c) && OutputMoves(s.browser, c)
    ensures OutputMoves(s.browser, ConnNext(s, a, k, c).1)
  {
    if a.TakeAck? {
      AckMoves(s.browser, c);
    } else if a.ReturnRead? {
      ReadMoves(s.browser, c);
    } else {
      var d := ConnNext(s, a, k, c).1;
      assert forall m :: m in c.outbox ==> m in d.outbox;
      assert forall m :: m in c.inbox && m.Ack? ==> m in d.inbox;
    }
  }

  lemma ConnStepMoves(s: System, k: nat, a: Action)
    requires Enabled(s, At(k, a)) && PageOutputMoves(s)
    ensures PageOutputMoves(Next(s, At(k, a)))
  {
    ConnStepFrame(s, a, k, s.conns[k]);
    if s.browser.socket == Some(k) {
      ConnOutputMoves(s, a, k, s.conns[k]);
    }
  }

  /** The page sends on its connection and shows what it showed. */
  lemma PostMoves(s: System, b: B.Browser, out: seq<ClientMsg>)
    requires PageOutputMoves(s) && (b.socket.Some? ==> b.socket == s.browser.socket && b.renders == s.browser.renders)
    ensures PageOutputMoves(Post(s, b, out))
  {
    if b.socket.Some? {
      var c := s.conns[b.socket.value];
      assert forall m :: m in c.inbox ==> m in c.inbox + out;
    }
  }

  lemma FrameArrives(s: System)
    requires OutputInv(s) && Enabled(s, Receive)
    requires s.conns[s.browser.socket.value].outbox[0].Output?
    ensures PageOutputMoves(Next(s, Receive))
  {
    var k := s.browser.socket.value;
    FrameContinues(s);
    FrameIsNext(s, k, s.conns[k]);
    var m := s.conns[k].outbox[0];
    assert [] + [B.Render(m.cursor, m.data, k)] == [B.Render(m.cursor, m.data, k)];
  }

  lemma OtherArrives(s: System)
    requires PageOutputMoves(s) && Enabled(s, Receive)
    requires !s.conns[s.browser.socket.value].outbox[0].Output?
    ensures PageOutputMoves(Next(s, Receive))
  {
    var k := s.browser.socket.value;
    var c := s.conns[k];
    var d := c.(outbox := c.outbox[1..]);
    var (b, out) := B.OnMessage(s.browser, k, c.outbox[0]);
    ShellEnd.MessageKeepsPage(s.browser, k, c.outbox[0]);
    assert forall m :: m in c.outbox && m.Output? ==> m in d.outbox;
    PostMoves(s.(conns := s.conns[k := d]), b, out);
  }

  lemma RenderedMoves(s: System)
    requires OutputInv(s) && PageOutputMoves(s) && Enabled(s, Rendered)
    ensures PageOutputMoves(Next(s, Rendered))
  {
    if s.browser.socket.Some? {
      var k := s.browser.socket.value;
      var r := s.browser.renders[0];
      assert OneFrame(s.browser, k, s.conns[k]);
      var d := Next(s, Rendered).conns[k];
      assert Ack(r.cursor) in d.inbox;
    }
  }

  lemma OutputMovesKept(s: System, step: Step)
    requires OutputInv(s) && PageOutputMoves(s) && Enabled(s, step)
    ensures PageOutputMoves(Next(s, step))
  {
    if step.At? {
      ConnStepMoves(s, step.k, step.action);
    } else if step.Receive? {
      if s.conns[s.browser.socket.value].outbox[0].Output? {
        FrameArrives(s);
      } else {
        OtherArrives(s);
      }
    } else if step.Rendered? {
      RenderedMoves(s);
    } else if step.FlushTimer? {
      var (b, out) := B.Flush(s.browser);
      PostMoves(s, b, out);
    }
  }

  lemma {:induction false} EveryRunOutputMoves(run: seq<System>, steps: seq<Step>, n: nat)
    requires IsRun(run, steps) && n <= |steps| && !run[n].overrun
    ensures PageOutputMoves(run[n])
  {
    if n > 0 {
      assert StepAt(run, steps, n - 1);
      OverrunStays(run[n - 1], steps[n - 1]);
      EveryRunOutputMoves(run, steps, n - 1);
      ShellEnd.EveryRunSound(run, steps, n - 1);
      OutputMovesKept(run[n - 1], steps[n - 1]);
    }
  }

  /** The output never stalls: as long as the page's connection lives, either all frames sent are
      acknowledged, and an idle output thread may read on, or the last frame, its rendering or its
      acknowledgement is on its way. */
  lemma OutputNeverStalls(run: seq<System>, steps: seq<Step>, n: nat, k: nat)
    requires IsRun(run, steps) && n <= |steps| && !run[n].overrun && run[n].browser.socket == Some(k)
    ensures k < |run[n].conns|
    ensures var c := run[n].conns[k];
            !c.window.stopped && c.window.cursor < c.window.sent ==>
              || (exists data :: Output(c.window.sent, data) in c.outbox)
              || (exists r :: r in run[n].browser.renders && r.cursor == c.window.sent)
              || Ack(c.window.sent) in c.inbox
    ensures var c := run[n].conns[k];
            !c.window.stopped && c.window.cursor >= c.window.sent && c.loop.Idle? ==> Enabled(run[n], At(k, IssueRead))
  {
    EveryRunOutputMoves(run, steps, n);
    ShellEnd.EveryRunSound(run, steps, n);
    var s := run[n];
    var c := s.conns[k];
    assert Truthful(s, k, c);
    if m :| m in c.outbox && m.Output? && m.cursor == c.window.sent {
      assert Output(c.window.sent, m.data) in c.outbox;
    }
    if s.browser.renders != [] {
      assert s.browser.renders[0] in s.browser.renders;
    }
  }

  // ---- input -----------------------------------------------------------------------------

  /** The chunk, the call that writes it or its acknowledgement is on its way. */
  ghost predicate Coming(c: Conn, seq_: nat) {
    || (exists m :: m in c.inbox && m.Input? && m.seq_ == seq_)
    || (c.write.WriteIssued? && c.write.seq_ == seq_)
    || (c.write.WriteAnswered? && (c.write.reply.WriteRefused? || c.write.reply.seq_ == seq_))
    || (exists m :: m in c.outbox && m.InputAck? && m.seq_ == seq_)
  }

  ghost predicate InputMoves(b: B.Browser, c: Conn) {
    b.connected && !c.main.MainEnded? ==>
      && (b.pending.None? ==> b.queue == [] || b.timer)
      && (b.pending.Some? ==> b.timer || Coming(c, b.pending.value.seq_))
  }

  ghost predicate PageInputMoves(s: System) {
    s.browser.socket.Some? ==>
      s.browser.socket.value < |s.conns| && InputMoves(s.browser, s.conns[s.browser.socket.value])
  }

  lemma StaysComing(s: System, a: Action, k: nat, c: Conn, seq_: nat)
    requires ConnEnabled(s, a, k, c) && Coming(c, seq_) && ShellInput.ConnInput(s.session, s.browser.log, k, c)
    requires !ConnNext(s, a, k, c).1.main.MainEnded?
    ensures Coming(ConnNext(s, a, k, c).1, seq_)
  {
    var d := ConnNext(s, a, k, c).1;
    if a.TakeInput? {
      assert forall m :: m in c.inbox && m != c.inbox[0] ==> m in c.inbox[1..];
    } else if a.ReturnWrite? {
      assert c.write.reply.Written? ==> d.outbox[|c.outbox|] in d.outbox;
      assert forall m :: m in c.outbox ==> m in d.outbox;
    } else {
      assert forall m :: m in c.outbox ==> m in d.outbox;
      assert forall m :: m in c.inbox && m.Input? ==> m in d.inbox;
    }
  }

  lemma ConnInputMoves(s: System, a: Action, k: nat, c: Conn)
    requires ConnEnabled(s, a, k, c) && ShellInput.ConnInput(s.session, s.browser.log, k, c)
    requires InputMoves(s.browser, c)
    ensures InputMoves(s.browser, ConnNext(s, a, k, c).1)
  {
    MainStaysEnded(s, a, k, c);
    if s.browser.pending.Some? && Coming(c, s.browser.pending.value.seq_)
       && !ConnNext(s, a, k, c).1.main.MainEnded? {
      StaysComing(s, a, k, c, s.browser.pending.value.seq_);
    }
  }

  lemma MainStaysEnded(s: System, a: Action, k: nat, c: Conn)
    requires ConnEnabled(s, a, k, c) && ShellInput.ConnInput(s.session, s.browser.log, k, c)
    ensures c.main.MainEnded? ==> ConnNext(s, a, k, c).1.main.MainEnded?
  {
  }

  lemma ConnStepInputMoves(s: System, k: nat, a: Action)
    requires ShellInput.InputInv(s) && Enabled(s, At(k, a)) && PageInputMoves(s)
    ensures PageInputMoves(Next(s, At(k, a)))
  {
    ConnStepFrame(s, a, k, s.conns[k]);
    if s.browser.socket == Some(k) {
      ConnInputMoves(s, a, k, s.conns[k]);
    }
  }

  /** The page turns to its input. */
  function Flushed(s: System, b: B.Browser): System {
    var (d, out) := B.Flush(b);
    Post(s, d, out)
  }

  /** The page is connected, and the pending chunk is the last thing sent; if none is pending,
      nothing is left to send. */
  predicate Sent(t: System, k: nat) {
    && t.browser.socket == Some(k) && t.browser.connected && k < |t.conns|
    && (t.browser.pending.None? ==> t.browser.queue == [])
    && (t.browser.pending.Some? ==>
          var (p, inbox) := (t.browser.pending.value, t.conns[k].inbox);
          inbox != [] && inbox[|inbox| - 1] == Input(p.seq_, p.data))
  }

  lemma FlushSends(s: System, b: B.Browser, k: nat)
    requires b.connected && b.socket == Some(k) && k < |s.conns|
    ensures Sent(Flushed(s, b), k)
  {
    var d := B.Flush(b).0;
    if d.pending.Some? {
      var m := Input(d.pending.value.seq_, d.pending.value.data);
      assert (s.conns[k].inbox + [m])[|s.conns[k].inbox|] == m;
    }
  }

  lemma SentMoves(t: System, k: nat)
    requires Sent(t, k)
    ensures PageInputMoves(t)
  {
    if t.browser.pending.Some? {
      var inbox := t.conns[k].inbox;
      assert inbox[|inbox| - 1] in inbox;
    }
  }

  /** A message has left the channel to the page. */
  function Popped(s: System): System
    requires Enabled(s, Receive)
  {
    var k := s.browser.socket.value;
    s.(conns := s.conns[k := s.conns[k].(outbox := s.conns[k].outbox[1..])])
  }

  lemma TimerSends(s: System, k: nat)
    requires Enabled(s, FlushTimer) && s.browser.connected && s.browser.socket == Some(k) && k < |s.conns|
    ensures Sent(Next(s, FlushTimer), k)
  {
    FlushSends(s, s.browser, k);
  }

  lemma ReadySends(s: System, k: nat, m: ServerMsg)
    requires Enabled(s, Receive) && s.browser.socket == Some(k) && m == s.conns[k].outbox[0] && m.Ready?
    ensures Sent(Next(s, Receive), k)
  {
    var b := s.browser;
    var d := b.(connected := true, nextSeq := if b.pending.None? then m.inputSeq + 1 else b.nextSeq);
    FlushSends(Popped(s), d, k);
    assert Next(s, Receive) == Flushed(Popped(s), d);
  }

  lemma CompleteSends(s: System, k: nat, m: ServerMsg)
    requires Enabled(s, Receive) && s.browser.socket == Some(k) && s.browser.connected && s.browser.pending.Some?
    requires m == s.conns[k].outbox[0] && m.InputAck? && m.complete && m.seq_ == s.browser.pending.value.seq_
    ensures Sent(Next(s, Receive), k)
  {
    var d := s.browser.(nextSeq := s.browser.pending.value.seq_ + 1, pending := None);
    FlushSends(Popped(s), d, k);
    assert Next(s, Receive) == Flushed(Popped(s), d);
  }

  lemma AcknowledgedMoves(s: System, k: nat, m: ServerMsg)
    requires Enabled(s, Receive) && s.browser.socket == Some(k) && s.browser.connected
    requires m == s.conns[k].outbox[0] && m.InputAck?
    ensures PageInputMoves(Next(s, Receive))
  {
    if s.browser.pending.Some? && s.browser.pending.value.seq_ == m.seq_ && m.complete {
      CompleteSends(s, k, m);
      SentMoves(Next(s, Receive), k);
    }
  }

  lemma OtherInputMoves(b: B.Browser, c: B.Browser, d: Conn, e: Conn)
    requires InputMoves(b, d) && c.connected == b.connected && c.pending == b.pending
    requires c.queue == b.queue && c.timer == b.timer
    requires forall m :: m in d.inbox ==> m in e.inbox
    requires forall m :: m in d.outbox && m.InputAck? ==> m in e.outbox
    requires e.main == d.main && e.write == d.write
    ensures InputMoves(c, e)
  {
  }

  lemma OtherMessageMoves(s: System, k: nat, c: Conn)
    requires PageInputMoves(s) && Enabled(s, Receive) && s.browser.socket == Some(k) && c == s.conns[k]
    requires !c.outbox[0].Ready? && !c.outbox[0].InputAck?
    ensures PageInputMoves(Next(s, Receive))
  {
    var (b, out) := B.OnMessage(s.browser, k, c.outbox[0]);
    OtherMessage(s.browser, k, c.outbox[0]);
    if b.socket.Some? {
      assert forall m :: m in c.outbox && m != c.outbox[0] ==> m in c.outbox[1..];
      OtherInputMoves(s.browser, b, c, c.(outbox := c.outbox[1..], inbox := c.inbox + out));
    }
  }

  lemma OtherMessage(b: B.Browser, k: nat, m: ServerMsg)
    requires !m.Ready? && !m.InputAck?
    ensures var c := B.OnMessage(b, k, m).0;
            c.socket.Some? ==>
              && c.socket == b.socket && c.connected == b.connected && c.pending == b.pending
              && c.queue == b.queue && c.timer == b.timer
  {
  }

  lemma ReceiveMoves(s: System)
    requires ShellInput.InputInv(s) && PageInputMoves(s) && Enabled(s, Receive)
    ensures PageInputMoves(Next(s, Receive))
  {
    var k := s.browser.socket.value;
    var m := s.conns[k].outbox[0];
    assert m in s.conns[k].outbox;
    if m.Ready? {
      ReadySends(s, k, m);
      SentMoves(Next(s, Receive), k);
    } else if m.InputAck? {
      AcknowledgedMoves(s, k, m);
    } else {
      OtherMessageMoves(s, k, s.conns[k]);
    }
  }

  lemma RenderedInputMoves(s: System)
    requires PageInputMoves(s) && Enabled(s, Rendered)
    ensures PageInputMoves(Next(s, Rendered))
  {
    if s.browser.socket.Some? {
      var k := s.browser.socket.value;
      OtherInputMoves(s.browser, Next(s, Rendered).browser, s.conns[k], Next(s, Rendered).conns[k]);
    }
  }

  lemma TimerMoves(s: System)
    requires PageInputMoves(s) && Enabled(s, FlushTimer)
    ensures PageInputMoves(Next(s, FlushTimer))
  {
    if s.browser.socket.Some? && s.browser.connected {
      TimerSends(s, s.browser.socket.value);
      SentMoves(Next(s, FlushTimer), s.browser.socket.value);
    }
  }

  lemma InputMovesKept(s: System, step: Step)
    requires ShellInput.InputInv(s) && PageInputMoves(s) && Enabled(s, step)
    ensures PageInputMoves(Next(s, step))
  {
    if step.At? {
      ConnStepInputMoves(s, step.k, step.action);
    } else if step.Receive? {
      ReceiveMoves(s);
    } else if step.Rendered? {
      RenderedInputMoves(s);
    } else if step.FlushTimer? {
      TimerMoves(s);
    }
  }

  lemma {:induction false} EveryRunInputMoves(run: seq<System>, steps: seq<Step>, n: nat)
    requires IsRun(run, steps) && n <= |steps|
    ensures PageInputMoves(run[n])
  {
    if n > 0 {
      assert StepAt(run, steps, n - 1);
      EveryRunInputMoves(run, steps, n - 1);
      ShellInput.EveryRunInput(run, steps, n - 1);
      InputMovesKept(run[n - 1], steps[n - 1]);
    }
  }

  /** The input never stalls: as long as the page's connection lives, whatever is queued waits for a
      pending chunk or the timer, and the pending chunk waits for the timer, or it, the call that
      writes it or the acknowledgement is on its way. */
  lemma InputNeverStalls(run: seq<System>, steps: seq<Step>, n: nat, k: nat)
    requires IsRun(run, steps) && n <= |steps| && run[n].browser.socket == Some(k) && run[n].browser.connected
    ensures k < |run[n].conns|
    ensures var (b, c) := (run[n].browser, run[n].conns[k]);
            !c.main.MainEnded? && b.pending.None? && b.queue != [] ==> b.timer
    ensures var (b, c) := (run[n].browser, run[n].conns[k]);
            !c.main.MainEnded? && b.pending.Some? && !b.timer ==>
              var p := b.pending.value;
              || Input(p.seq_, p.data) in c.inbox
              || (c.write.WriteIssued? && c.write.seq_ == p.seq_ && c.write.data == p.data)
              || (c.write.WriteAnswered? && (c.write.reply.WriteRefused? || c.write.reply.seq_ == p.seq_))
              || exists complete, alive :: InputAck(p.seq_, complete, alive) in c.outbox
  {
    EveryRunInputMoves(run, steps, n);
    ShellInput.EveryRunInput(run, steps, n);
    var (b, c) := (run[n].browser, run[n].conns[k]);
    assert ShellInput.ConnInput(run[n].session, b.log, k, c);
    if b.pending.Some? {
      var p := b.pending.value;
      if m :| m in c.inbox && m.Input? && m.seq_ == p.seq_ {
        assert m == Input(p.seq_, p.data);
      }
      if m :| m in c.outbox && m.InputAck? && m.seq_ == p.seq_ {
        assert InputAck(p.seq_, m.complete, m.alive) in c.outbox;
      }
    }
  }

  /** The step makes the page turn to its input: the timer, the greeting, the pending chunk complete. */
  predicate Turns(s: System, step: Step)
    requires Enabled(s, step)
  {
    || (step.FlushTimer? && s.browser.connected)
    || (step.Receive? && s.conns[s.browser.socket.value].outbox[0].Ready?)
    || (step.Receive? && s.browser.pending.Some?
        && var m := s.conns[s.browser.socket.value].outbox[0];
           m.InputAck? && m.complete && m.seq_ == s.browser.pending.value.seq_)
  }

  lemma TurnSends(s: System, step: Step)
    requires ShellInput.InputInv(s) && Enabled(s, step) && Turns(s, step)
    ensures s.browser.socket.Some? && Sent(Next(s, step), s.browser.socket.value)
  {
    var k := s.browser.socket.value;
    if step.FlushTimer? {
      TimerSends(s, k);
    } else {
      assert s.conns[k].outbox[0] in s.conns[k].outbox;
      if s.conns[k].outbox[0].Ready? {
        ReadySends(s, k, s.conns[k].outbox[0]);
      } else {
        CompleteSends(s, k, s.conns[k].outbox[0]);
      }
    }
  }

  /** Whenever the timer of a connected page fires, it is greeted or its pending chunk is complete, the
      chunk that is then pending is the last thing sent, under its number; if none is pending, nothing
      is left to send. */
  lemma PendingIsSent(run: seq<System>, steps: seq<Step>, n: nat)
    requires IsRun(run, steps) && StepAt(run, steps, n) && Turns(run[n], steps[n])
    ensures run[n].browser.socket.Some? && Sent(run[n + 1], run[n].browser.socket.value)
    ensures var b := run[n + 1].browser;
            b.pending.Some? ==> b.log != [] && b.pending.value == B.Chunk(|b.log|, b.log[|b.log| - 1])
  {
    ShellInput.EveryRunInput(run, steps, n);
    ShellInput.EveryRunInput(run, steps, n + 1);
    TurnSends(run[n], steps[n]);
    if run[n + 1].browser.pending.Some? {
      PendingIsLast(run[n + 1]);
    }
  }

  lemma PendingIsLast(t: System)
    requires ShellInput.InputInv(t) && t.browser.pending.Some?
    ensures t.browser.log != []
    ensures var (p, log) := (t.browser.pending.value, t.browser.log); p == B.Chunk(|log|, log[|log| - 1])
  {
  }

  /** After an incomplete acknowledgement by a living session the chunk stays pending and the timer
      runs, so that it is sent again. */
  lemma RestIsSentAgain(run: seq<System>, steps: seq<Step>, n: nat, k: nat)
    requires IsRun(run, steps) && n < |steps| && steps[n].Receive? && run[n].browser.socket == Some(k)
    requires k < |run[n].conns| && run[n].conns[k].outbox != []
    requires var m := run[n].conns[k].outbox[0];
             m.InputAck? && !m.complete && m.alive && run[n].browser.pending.Some?
             && run[n].browser.pending.value.seq_ == m.seq_
    ensures var b := run[n + 1].browser;
            && b.connected && b.socket == Some(k) && b.pending == run[n].browser.pending
            && b.timer && Enabled(run[n + 1], FlushTimer)
  {
    assert StepAt(run, steps, n);
    ShellInput.EveryRunInput(run, steps, n);
    assert run[n].conns[k].outbox[0] in run[n].conns[k].outbox;
  }

  // ---- what the portal passes on ---------------------------------------------------------

  /** The connection gave up and said so. */
  predicate GaveUp(c: Conn, d: Conn) {
    d.outbox == c.outbox + [Error] && d.main.MainEnded? && d.window.stopped
  }

  /** Every call is made with what arrived, and every answer is passed on, once. */
  lemma AnswersArePassedOn(s: System, k: nat, a: Action)
    requires Enabled(s, At(k, a))
    ensures var (c, d) := (s.conns[k], Next(s, At(k, a)).conns[k]);
            && (a.TakeInput? ==> d.write == WriteIssued(c.inbox[0].seq_, c.inbox[0].data) && d.inbox == c.inbox[1..])
            && (a.TakeAck? && c.window.cursor <= c.inbox[0].cursor <= c.window.sent ==>
                  d == c.(inbox := c.inbox[1..], window := c.window.(cursor := c.inbox[0].cursor)))
            && (a.IssueRead? ==> d == c.(read := ReadIssued(c.window.cursor), loop := Reading))
            && (a.Announce? ==>
                  if c.attach.Attached? then
                    d == c.(outbox := c.outbox + [Ready(c.attach.inputSeq)], main := Serving, loop := Idle)
                  else GaveUp(c, d))
            && (a.ReturnWrite? ==>
                  match c.write.reply
                  case Written(seq_, complete, _, alive) =>
                    d == c.(outbox := c.outbox + [InputAck(seq_, complete, alive)], main := Serving, write := NoWrite)
                  case WriteRefused(_) => GaveUp(c, d))
            && (a.ReturnRead? && c.read.ReadAnswered? ==>
                  var f := c.read.frame;
                  if f.data != [] then
                    d == c.(outbox := c.outbox + [Output(f.cursor, f.data)], window := c.window.(sent := f.cursor),
                            read := NoRead, loop := Idle)
                  else if f.alive then d == c.(read := NoRead, loop := Idle)
                  else d == c.(outbox := c.outbox + [Exit], window := c.window.(stopped := true),
                               read := NoRead, loop := LoopEnded))
  {
  }
}
