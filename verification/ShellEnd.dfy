/** The console's guarantees about output, and what its end-of-session message means. */
module ShellEnd {
  import opened Bytes
  import opened ShellSession
  import opened ShellTransport
  import opened ShellSystem
  import B = ShellBrowser
  import opened ShellOutput

  // ---- end of session --------------------------------------------------------------------

  /** The answer that ends a connection: nothing to deliver and the session closed. */
  predicate Final(r: ReadCall) {
    r.ReadAnswered? && r.frame.data == [] && !r.frame.alive
  }

  /** The connection was told, or will be, that the session ended. */
  predicate Told(c: Conn) {
    Exit in c.outbox || Final(c.read)
  }

  predicate EndInv(s: System) {
    && (s.session.closed <==> !s.cause.Open?)
    && (s.cause.Open? ==> forall k :: 0 <= k < |s.conns| ==> !Told(s.conns[k]))
    && (s.cause.ByPump? ==> s.pump.PumpDone?)
    && (s.cause.ByPump? && s.dropped == 0 ==>
          forall k :: 0 <= k < |s.conns| && Told(s.conns[k]) ==> s.browser.rendered == s.produced)
  }

  /** Nothing in the buffer and nothing in the pump's hand: all of it was rendered. */
  lemma DrainedIsRendered(s: System)
    requires OutputInv(s) && s.dropped == 0 && s.session.output == []
    ensures s.browser.rendered == s.produced <==> Hand(s) == []
  {
    assert s.produced[s.session.outputStart..] == Hand(s);
  }

  /** Only the answer of a read on the closed, drained session tells anybody anything. */
  lemma ConnToldKept(s: System, a: Action, k: nat, c: Conn)
    requires ConnEnabled(s, a, k, c) && Shape(c) && !a.ReadEnd?
    ensures Told(ConnNext(s, a, k, c).1) ==> Told(c)
  {
    var d := ConnNext(s, a, k, c).1;
    if a.ReturnRead? && Exit in d.outbox && Exit !in c.outbox {
      assert Final(c.read);
    }
  }

  lemma ReadEndTold(s: System, k: nat, c: Conn)
    requires ConnEnabled(s, ReadEnd, k, c) && Told(ConnNext(s, ReadEnd, k, c).1) && !Told(c)
    ensures s.session.closed && s.session.output == []
  {
  }

  lemma ConnCause(s: System, a: Action, k: nat, c: Conn)
    requires ConnEnabled(s, a, k, c) && (s.session.closed <==> !s.cause.Open?)
    ensures var t := ConnNext(s, a, k, c).0;
            && (t.session.closed <==> !t.cause.Open?)
            && (!s.cause.Open? ==> t.cause == s.cause)
            && (s.cause.Open? ==> t.cause.Open? || t.cause.ByWrite?)
  {
  }

  lemma EndConnKept(s: System, k: nat, a: Action)
    requires OutputInv(s) && EndInv(s) && Enabled(s, At(k, a))
    ensures EndInv(Next(s, At(k, a)))
  {
    var c := s.conns[k];
    var (t, d) := ConnNext(s, a, k, c);
    ConnStepFrame(s, a, k, c);
    ConnCause(s, a, k, c);
    assert Shape(c) by { assert Truthful(s, k, c); }
    if a.ReadEnd? {
      if Told(d) && !Told(c) {
        ReadEndTold(s, k, c);
        if s.dropped == 0 {
          DrainedIsRendered(s);
        }
      }
    } else {
      ConnToldKept(s, a, k, c);
    }
    EndAssembles(s, t, k, d);
  }

  lemma EndAssembles(s: System, t: System, k: nat, d: Conn)
    requires EndInv(s) && k < |s.conns|
    requires t == s.(session := t.session, cause := t.cause, accepted := t.accepted)
    requires t.session.closed <==> !t.cause.Open?
    requires !s.cause.Open? ==> t.cause == s.cause
    requires s.cause.Open? ==> t.cause.Open? || t.cause.ByWrite?
    requires Told(d) && !Told(s.conns[k]) ==>
               && s.session.closed
               && (s.pump.PumpDone? && s.dropped == 0 ==> s.browser.rendered == s.produced)
    ensures EndInv(t.(conns := s.conns[k := d]))
  {
  }

  /** Nobody new was told, and what was rendered stays rendered. */
  lemma EndFrame(s: System, t: System)
    requires EndInv(s) && RenderedPrefix(t)
    requires t.session.closed == s.session.closed && t.cause == s.cause && (t.dropped == 0 ==> s.dropped == 0)
    requires s.pump.PumpDone? ==> t.pump.PumpDone? && t.produced == s.produced
    requires |s.browser.rendered| <= |t.browser.rendered|
    requires forall k :: 0 <= k < |t.conns| && Told(t.conns[k]) ==> k < |s.conns| && Told(s.conns[k])
    ensures EndInv(t)
  {
  }

  lemma EndCloses(s: System, step: Step)
    requires OutputInv(s) && EndInv(s) && (step.PumpEnd? || step.CloseBegin?) && Enabled(s, step)
    ensures EndInv(Next(s, step))
  {
  }

  /** A message shows nothing by itself, and posting replies tells nobody anything. */
  lemma MessageShowsNothing(b: B.Browser, k: nat, m: ServerMsg)
    ensures B.OnMessage(b, k, m).0.rendered == b.rendered
  {
  }

  lemma PostTells(s: System, b: B.Browser, out: seq<ClientMsg>, k: nat)
    requires k < |s.conns|
    ensures var t := Post(s, b, out);
            t == s.(browser := b, conns := t.conns) && |t.conns| == |s.conns|
            && (Told(t.conns[k]) <==> Told(s.conns[k]))
  {
  }

  lemma EndReceive(s: System)
    requires EndInv(s) && Enabled(s, Receive) && RenderedPrefix(Next(s, Receive))
    ensures EndInv(Next(s, Receive))
  {
    var k := s.browser.socket.value;
    var c := s.conns[k];
    var u := s.(conns := s.conns[k := c.(outbox := c.outbox[1..])]);
    var (b, out) := B.OnMessage(s.browser, k, c.outbox[0]);
    var t := Post(u, b, out);
    MessageShowsNothing(s.browser, k, c.outbox[0]);
    PostTells(u, b, out, k);
    assert forall m :: m in c.outbox[1..] ==> m in c.outbox;
    forall j | 0 <= j < |t.conns|
      ensures Told(t.conns[j]) ==> Told(s.conns[j])
    {
      PostTells(u, b, out, j);
    }
    EndFrame(s, t);
  }

  lemma EndConnect(s: System)
    requires EndInv(s) && Enabled(s, Connect) && RenderedPrefix(Next(s, Connect))
    ensures EndInv(Next(s, Connect))
  {
    assert !Told(Opening(s.browser.cursor));
    EndFrame(s, Next(s, Connect));
  }

  lemma EndRendered(s: System)
    requires EndInv(s) && Enabled(s, Rendered) && RenderedPrefix(Next(s, Rendered))
    ensures EndInv(Next(s, Rendered))
  {
    var (b, out) := B.OnRendered(s.browser);
    EndPost(s, b, out);
  }

  lemma EndPost(s: System, b: B.Browser, out: seq<ClientMsg>)
    requires EndInv(s) && RenderedPrefix(Post(s, b, out)) && |s.browser.rendered| <= |b.rendered|
    ensures EndInv(Post(s, b, out))
  {
    var t := Post(s, b, out);
    if s.conns != [] {
      PostTells(s, b, out, 0);
    }
    forall j | 0 <= j < |t.conns|
      ensures Told(t.conns[j]) ==> Told(s.conns[j])
    {
      PostTells(s, b, out, j);
    }
    EndFrame(s, t);
  }

  lemma EndBrowser(s: System, step: Step)
    requires EndInv(s) && Enabled(s, step) && RenderedPrefix(Next(s, step))
    requires step.Disconnect? || step.Type? || step.StopPage?
    ensures EndInv(Next(s, step))
  {
    EndFrame(s, Next(s, step));
  }

  lemma EndFlush(s: System)
    requires EndInv(s) && Enabled(s, FlushTimer) && RenderedPrefix(Next(s, FlushTimer))
    ensures EndInv(Next(s, FlushTimer))
  {
    var (b, out) := B.Flush(s.browser);
    EndPost(s, b, out);
  }

  lemma EndPump(s: System, step: Step)
    requires EndInv(s) && Enabled(s, step) && RenderedPrefix(Next(s, step))
    requires step.PumpReserve? || step.PumpRead? || step.PumpSkip? || step.PumpStore? || step.CloseEnd?
    ensures EndInv(Next(s, step))
  {
    EndFrame(s, Next(s, step));
  }

  lemma EndKept(s: System, step: Step)
    requires OutputInv(s) && EndInv(s) && Enabled(s, step) && RenderedPrefix(Next(s, step))
    ensures EndInv(Next(s, step))
  {
    match step
    case At(k, a) => EndConnKept(s, k, a);
    case PumpEnd => EndCloses(s, step);
    case CloseBegin => EndCloses(s, step);
    case Receive => EndReceive(s);
    case Connect => EndConnect(s);
    case Rendered => EndRendered(s);
    case Disconnect => EndBrowser(s, step);
    case Type(_) => EndBrowser(s, step);
    case FlushTimer => EndFlush(s);
    case StopPage => EndBrowser(s, step);
    case _ => EndPump(s, step);
  }

  ghost predicate Sound(s: System) {
    !s.overrun ==> OutputInv(s) && EndInv(s)
  }

  lemma SoundKept(s: System, step: Step)
    requires Sound(s) && Enabled(s, step)
    ensures Sound(Next(s, step))
  {
    OverrunStays(s, step);
    if !Next(s, step).overrun {
      StepKeeps(s, step);
      EndKept(s, step);
    }
  }

  lemma {:induction false} EveryRunSound(run: seq<System>, steps: seq<Step>, n: nat)
    requires IsRun(run, steps) && n <= |steps|
    ensures Sound(run[n])
  {
    if n > 0 {
      EveryRunSound(run, steps, n - 1);
      assert StepAt(run, steps, n - 1);
      SoundKept(run[n - 1], steps[n - 1]);
    }
  }

  // ---- the page's own connection ---------------------------------------------------------

  /** No more frames come over the connection. */
  ghost predicate Over(c: Conn) {
    && (forall m :: m in c.outbox ==> !m.Output?)
    && (Exit in c.outbox ==> c.loop.LoopEnded? && c.read.NoRead?)
  }

  /** The page is, or will be, told of the end over its current connection. */
  predicate PageTold(s: System) {
    s.browser.socket.Some? && s.browser.socket.value < |s.conns| && Told(s.conns[s.browser.socket.value])
  }

  /** Nothing is left to show over it, and what was shown ends before what `close` dropped. */
  ghost predicate PageDone(s: System, d: Conn) {
    && s.session.output == [] && Over(d) && s.browser.renders == []
    && (s.dropped > 0 ==> |s.browser.rendered| < s.dropped)
  }

  /** After the pump's regular end, whoever is told of the end is done. */
  ghost predicate PageInv(s: System) {
    s.cause.ByPump? && PageTold(s) ==> PageDone(s, s.conns[s.browser.socket.value])
  }

  /** When the final answer is given, the window is drained. */
  lemma FinalIsOver(s: System, k: nat)
    requires OutputInv(s) && Enabled(s, At(k, ReadEnd)) && Final(Next(s, At(k, ReadEnd)).conns[k].read)
    requires s.browser.socket == Some(k)
    ensures s.session.output == [] && s.browser.renders == []
    ensures forall m :: m in s.conns[k].outbox ==> !m.Output?
    ensures s.dropped > 0 ==> |s.browser.rendered| < s.dropped
  {
    assert Truthful(s, k, s.conns[k]);
    assert OneFrame(s.browser, k, s.conns[k]);
  }

  lemma OverStays(s: System, a: Action, k: nat, c: Conn)
    requires ConnEnabled(s, a, k, c) && Shape(c) && Told(c) && Over(c)
    ensures Over(ConnNext(s, a, k, c).1)
  {
  }

  lemma PageAssembles(s: System, t: System, k: nat, d: Conn)
    requires PageInv(s) && k < |s.conns| && t == s.(session := t.session, cause := t.cause, accepted := t.accepted)
    requires |t.session.output| <= |s.session.output| && (t.cause.ByPump? ==> s.cause.ByPump?)
    requires s.cause.ByPump? && s.browser.socket == Some(k) && Told(d) ==> PageDone(s, d)
    ensures PageInv(t.(conns := s.conns[k := d]))
  {
  }

  lemma PageToldNow(s: System, k: nat, a: Action)
    requires OutputInv(s) && PageInv(s) && Enabled(s, At(k, a)) && s.cause.ByPump? && s.browser.socket == Some(k)
    requires Told(Next(s, At(k, a)).conns[k])
    ensures PageDone(s, Next(s, At(k, a)).conns[k])
  {
    var c := s.conns[k];
    assert Truthful(s, k, c);
    if Told(c) {
      OverStays(s, a, k, c);
    } else if a.ReadEnd? {
      FinalIsOver(s, k);
    } else {
      ConnToldKept(s, a, k, c);
    }
  }

  lemma PageConn(s: System, k: nat, a: Action)
    requires OutputInv(s) && EndInv(s) && PageInv(s) && Enabled(s, At(k, a))
    ensures PageInv(Next(s, At(k, a)))
  {
    var (t, d) := ConnNext(s, a, k, s.conns[k]);
    ConnStepFrame(s, a, k, s.conns[k]);
    ConnCause(s, a, k, s.conns[k]);
    if s.cause.ByPump? && s.browser.socket == Some(k) && Told(d) {
      PageToldNow(s, k, a);
    }
    PageAssembles(s, t, k, d);
  }

  /** The page stays on its connection or leaves it, shows no more, and is told nothing new. */
  lemma PageFrame(s: System, t: System)
    requires PageInv(s) && (t.cause.ByPump? ==> s.cause.ByPump?)
    requires t.session.output == s.session.output && t.dropped == s.dropped
    requires PageTold(t) && PageTold(s) && s.cause.ByPump? ==>
               && t.browser.rendered == s.browser.rendered && t.browser.renders == s.browser.renders
               && t.browser.socket == s.browser.socket
               && var (c, d) := (s.conns[s.browser.socket.value], t.conns[s.browser.socket.value]);
                  && (forall m :: m in d.outbox ==> m in c.outbox)
                  && d.loop == c.loop && d.read == c.read
    requires PageTold(t) && t.cause.ByPump? ==> PageTold(s)
    ensures PageInv(t)
  {
  }

  lemma PagePost(s: System, b: B.Browser, out: seq<ClientMsg>)
    requires PageInv(s) && b.socket == s.browser.socket
    requires s.cause.ByPump? && PageTold(s) ==> b.rendered == s.browser.rendered && b.renders == s.browser.renders
    ensures PageInv(Post(s, b, out))
  {
    PageFrame(s, Post(s, b, out));
  }

  lemma PageReceive(s: System)
    requires PageInv(s) && Enabled(s, Receive)
    ensures PageInv(Next(s, Receive))
  {
    var k := s.browser.socket.value;
    var c := s.conns[k];
    var m := c.outbox[0];
    var u := s.(conns := s.conns[k := c.(outbox := c.outbox[1..])]);
    var (b, out) := B.OnMessage(s.browser, k, m);
    assert forall x :: x in c.outbox[1..] ==> x in c.outbox;
    assert m in c.outbox;
    PageFrame(s, u);
    if b.socket.Some? {
      MessageShowsNothing(s.browser, k, m);
      MessageKeepsPage(s.browser, k, m);
      PagePost(u, b, out);
    }
  }

  lemma MessageKeepsPage(b: B.Browser, k: nat, m: ServerMsg)
    ensures var c := B.OnMessage(b, k, m).0;
            && (c.socket == b.socket || c.socket.None?)
            && (!m.Output? ==> c.renders == b.renders || c.socket.None?)
  {
  }

  lemma PageBrowser(s: System, step: Step)
    requires PageInv(s) && Enabled(s, step)
    requires step.Connect? || step.Rendered? || step.Disconnect? || step.Type? || step.FlushTimer? || step.StopPage?
    ensures PageInv(Next(s, step))
  {
    if step.Connect? {
      assert !Told(Opening(s.browser.cursor));
    } else if step.Rendered? {
      var (b, out) := B.OnRendered(s.browser);
      PagePost(s, b, out);
    } else if step.FlushTimer? {
      var (b, out) := B.Flush(s.browser);
      PagePost(s, b, out);
    } else if step.Type? {
      PageFrame(s, Next(s, step));
    }
  }

  lemma PagePump(s: System, step: Step)
    requires EndInv(s) && PageInv(s) && Enabled(s, step)
    requires step.PumpReserve? || step.PumpRead? || step.PumpSkip? || step.PumpStore? || step.PumpEnd?
             || step.CloseBegin? || step.CloseEnd?
    ensures PageInv(Next(s, step))
  {
  }

  lemma PageKept(s: System, step: Step)
    requires OutputInv(s) && EndInv(s) && PageInv(s) && Enabled(s, step)
    ensures PageInv(Next(s, step))
  {
    match step
    case At(k, a) => PageConn(s, k, a);
    case Receive => PageReceive(s);
    case Connect => PageBrowser(s, step);
    case Rendered => PageBrowser(s, step);
    case Disconnect => PageBrowser(s, step);
    case Type(_) => PageBrowser(s, step);
    case FlushTimer => PageBrowser(s, step);
    case StopPage => PageBrowser(s, step);
    case _ => PagePump(s, step);
  }

  lemma {:induction false} EveryRunPage(run: seq<System>, steps: seq<Step>, n: nat)
    requires IsRun(run, steps) && n <= |steps| && !run[n].overrun
    ensures PageInv(run[n])
  {
    if n > 0 {
      assert StepAt(run, steps, n - 1);
      OverrunStays(run[n - 1], steps[n - 1]);
      EveryRunPage(run, steps, n - 1);
      EveryRunSound(run, steps, n - 1);
      PageKept(run[n - 1], steps[n - 1]);
    }
  }

  // ---- the guarantees --------------------------------------------------------------------

  /** Whatever connections drop, overlap or attach late, what the browser rendered is the
      beginning of what the terminal produced, and unless `close` dropped output the rest is
      exactly the unacknowledged part of the buffer followed by what the pump holds. */
  lemma RenderedExactlyOnce(run: seq<System>, steps: seq<Step>, n: nat)
    requires IsRun(run, steps) && n <= |steps| && !run[n].overrun
    ensures run[n].browser.rendered <= run[n].produced
    ensures var s := run[n];
            s.dropped == 0 ==>
              && s.session.outputStart <= |s.browser.rendered| <= End(s.session)
              && s.produced == s.browser.rendered
                              + s.session.output[|s.browser.rendered| - s.session.outputStart..] + Hand(s)
  {
    EveryRunSound(run, steps, n);
    var s := run[n];
    if s.dropped == 0 {
      RestIsBuffered(s);
    }
  }

  lemma RestIsBuffered(s: System)
    requires Accounted(s) && RenderedPrefix(s) && s.dropped == 0
    ensures s.session.outputStart <= |s.browser.rendered| <= End(s.session)
    ensures s.produced == s.browser.rendered
                         + s.session.output[|s.browser.rendered| - s.session.outputStart..] + Hand(s)
  {
    var d := |s.browser.rendered| - s.session.outputStart;
    assert s.produced == s.browser.rendered + s.produced[|s.browser.rendered|..];
    assert s.produced[|s.browser.rendered|..] == s.produced[s.session.outputStart..][d..];
    assert (s.session.output + Hand(s))[d..] == s.session.output[d..] + Hand(s);
  }

  /** The pump reads with the lock released and stores later, yet the buffer stays bounded. */
  lemma BufferBounded(run: seq<System>, steps: seq<Step>, n: nat)
    requires IsRun(run, steps) && n <= |steps|
    ensures |run[n].session.output| + |Hand(run[n])| <= STREAM_BUFFER_BYTES
  {
    EveryRunBounded(run, steps, n);
  }

  /** Where the newest connection stands: its window once it is attached, its greeting before. */
  function Position(c: Conn): nat {
    if Started(c) then c.window.cursor else c.hello
  }

  /** The newest connection's cursor always lies in the buffer, unless `close` dropped output; so a
      read or an attach it has issued is never refused for its cursor, only for a lost lease. */
  lemma NewestStaysInStep(run: seq<System>, steps: seq<Step>, n: nat)
    requires IsRun(run, steps) && n <= |steps| && !run[n].overrun && run[n].dropped == 0 && run[n].conns != []
    ensures var s := run[n];
            var k := |s.conns| - 1;
            var c := s.conns[k];
            && s.session.outputStart <= Position(c) <= End(s.session)
            && (c.read.ReadIssued? ==> c.read.at == Position(c))
            && (c.attach.AttachLeased? ==> c.attach.at == Position(c))
            && BeginRead(s.session, LeaseOf(k), Position(c)).1
               == if s.session.lease == LeaseOf(k) then None else Some(StreamReplaced)
  {
    EveryRunSound(run, steps, n);
    var s := run[n];
    var k := |s.conns| - 1;
    assert Truthful(s, k, s.conns[k]);
  }

  /** Every frame that reaches the browser on its current connection continues the rendering:
      the script never has to drop a frame or give up because state was lost. */
  lemma NoFrameIsDropped(run: seq<System>, steps: seq<Step>, n: nat)
    requires IsRun(run, steps) && n <= |steps| && !run[n].overrun && Enabled(run[n], Receive)
    requires run[n].conns[run[n].browser.socket.value].outbox[0].Output?
    ensures var k := run[n].browser.socket.value;
            var m := run[n].conns[k].outbox[0];
            B.OnMessage(run[n].browser, k, m) ==
            (run[n].browser.(renders := [B.Render(m.cursor, m.data, k)]), [])
  {
    EveryRunSound(run, steps, n);
    FrameContinues(run[n]);
    var k := run[n].browser.socket.value;
    var m := run[n].conns[k].outbox[0];
    assert [] + [B.Render(m.cursor, m.data, k)] == [B.Render(m.cursor, m.data, k)];
  }

  /** When the pump's end of output closed the session and a connection learns of the end, all that
      the terminal produced was rendered, if and only if `close` dropped nothing unrendered. If the
      page's own connection learns of it, the latter means that `close` dropped nothing. */
  lemma ExitAfterLastByte(run: seq<System>, steps: seq<Step>, n: nat, k: nat)
    requires IsRun(run, steps) && n <= |steps| && !run[n].overrun
    requires run[n].cause.ByPump? && k < |run[n].conns| && Exit in run[n].conns[k].outbox
    ensures run[n].browser.rendered == run[n].produced <==> run[n].dropped <= |run[n].browser.rendered|
    ensures run[n].browser.socket == Some(k) ==>
              (run[n].browser.rendered == run[n].produced <==> run[n].dropped == 0)
  {
    EveryRunSound(run, steps, n);
    EveryRunPage(run, steps, n);
    assert Told(run[n].conns[k]);
    var s := run[n];
    if s.dropped > 0 && s.dropped <= |s.browser.rendered| {
      assert s.browser.rendered == s.produced;
    }
  }

  // ---- when the final answer is the truth for good ---------------------------------------

  /** All output was rendered and there will never be more. */
  ghost predicate Settled(s: System) {
    && OutputInv(s) && !s.overrun && Quiet(s) && s.session.output == []
    && s.browser.rendered == s.produced
  }

  /** A quiet pump stays quiet, nothing is produced, the empty buffer stays empty, and nothing is
      unrendered. */
  lemma QuietStep(s: System, step: Step)
    requires Quiet(s) && Enabled(s, step) && s.session.output == []
    ensures var t := Next(s, step);
            && Quiet(t) && t.produced == s.produced && t.session.output == [] && t.overrun == s.overrun
  {
    if step.At? {
      QuietAction(s, step.action, step.k, s.conns[step.k]);
    }
  }

  lemma QuietAction(s: System, a: Action, k: nat, c: Conn)
    requires ConnEnabled(s, a, k, c)
    ensures var t := ConnNext(s, a, k, c).0;
            t.session.stop == s.session.stop && t.pump == s.pump && t.produced == s.produced && t.overrun == s.overrun
    ensures |ConnNext(s, a, k, c).0.session.output| <= |s.session.output|
  {
    ConnStepFrame(s, a, k, c);
  }

  lemma RenderedGrows(s: System, step: Step)
    requires Enabled(s, step)
    ensures |s.browser.rendered| <= |Next(s, step).browser.rendered|
  {
    if step.Receive? {
      var k := s.browser.socket.value;
      MessageShowsNothing(s.browser, k, s.conns[k].outbox[0]);
    } else if step.At? {
      ConnStepFrame(s, step.action, step.k, s.conns[step.k]);
    }
  }

  lemma SettledStep(s: System, step: Step)
    requires Settled(s) && Enabled(s, step)
    ensures Settled(Next(s, step))
  {
    var t := Next(s, step);
    QuietStep(s, step);
    StepKeeps(s, step);
    RenderedGrows(s, step);
    assert t.browser.rendered <= t.produced;
  }

  lemma {:induction false} SettledForGood(s: System, more: seq<Step>, t: System)
    requires Settled(s) && Leads(s, more, t)
    ensures t.browser.rendered == t.produced
    decreases |more|
  {
    if more != [] {
      SettledStep(s, more[0]);
      SettledForGood(Next(s, more[0]), more[1..], t);
    }
  }

  /** In this state and whatever follows, all output produced was rendered. */
  ghost predicate StaysRendered(s: System) {
    forall more, t :: Leads(s, more, t) ==> t.browser.rendered == t.produced
  }

  /** A pump that is not quiet can still bring a byte, in at most two steps. */
  lemma OneMoreByte(s: System) returns (more: seq<Step>, t: System)
    requires Bounded(s) && OutputInv(s) && !Quiet(s) && s.session.output == []
    ensures Leads(s, more, t) && t.browser.rendered != t.produced
  {
    if s.browser.rendered != s.produced {
      more, t := [], s;
    } else if s.pump.PumpHolding? {
      DrainedIsRendered(s);
      assert false;
    } else if s.pump.PumpReserved? {
      more := [PumpRead([0])];
      t := Next(s, more[0]);
      assert Leads(t, more[1..], t);
    } else {
      more := [PumpReserve, PumpRead([0])];
      var u := Next(s, more[0]);
      t := Next(u, more[1]);
      assert more[1..] == [PumpRead([0])];
      assert Leads(t, more[1..][1..], t);
      assert Leads(u, more[1..], t);
    }
  }

  /** The lease holder's answer left the rest of the console alone. */
  lemma FinalAnswerGiven(s: System, k: nat)
    requires OutputInv(s) && Enabled(s, At(k, ReadEnd)) && Final(Next(s, At(k, ReadEnd)).conns[k].read)
    ensures s.session.output == [] && s.session.closed
    ensures var t := Next(s, At(k, ReadEnd)); t == s.(conns := t.conns)
    ensures s.browser.socket == Some(k) ==> |s.browser.rendered| == s.session.outputStart
  {
    assert Truthful(s, k, s.conns[k]);
  }

  /** With an empty buffer and a quiet pump, all was rendered exactly if nothing dropped is missing. */
  lemma EmptyIsRendered(s: System)
    requires OutputInv(s) && s.session.output == [] && Quiet(s)
    ensures s.browser.rendered == s.produced <==> s.dropped <= |s.browser.rendered|
  {
    if s.dropped == 0 {
      DrainedIsRendered(s);
    } else if s.dropped <= |s.browser.rendered| {
      assert s.browser.rendered == s.produced;
    }
  }

  /** Exactly when the end-of-session answer is the truth for good, whatever closed the session: in
      every continuation all output is rendered, if and only if the pump will never add any and
      `close` dropped nothing unrendered. If the answer goes to the page's own connection, the
      latter means that `close` dropped nothing. */
  lemma FinalAnswerExact(run: seq<System>, steps: seq<Step>, n: nat, k: nat)
    requires IsRun(run, steps) && n < |steps| && steps[n] == At(k, ReadEnd) && k < |run[n].conns|
    requires !run[n].overrun && k < |run[n + 1].conns| && Final(run[n + 1].conns[k].read)
    ensures StaysRendered(run[n + 1]) <==> Quiet(run[n]) && run[n].dropped <= |run[n].browser.rendered|
    ensures run[n].browser.socket == Some(k) ==>
              (run[n].dropped <= |run[n].browser.rendered| <==> run[n].dropped == 0)
  {
    EveryRunSound(run, steps, n);
    EveryRunBounded(run, steps, n);
    assert StepAt(run, steps, n);
    StepKeeps(run[n], steps[n]);
    FinalAnswerGiven(run[n], k);
    var t := run[n + 1];
    if Quiet(t) {
      EmptyIsRendered(t);
      if t.dropped <= |t.browser.rendered| {
        forall more, u | Leads(t, more, u)
          ensures u.browser.rendered == u.produced
        {
          SettledForGood(t, more, u);
        }
      } else {
        assert Leads(t, [], t);
        assert !StaysRendered(t);
      }
    } else {
      var more, u := OneMoreByte(t);
      assert !StaysRendered(t);
    }
  }

  // ---- what a close over a live pump misplaces -------------------------------------------

  /** What the buffer holds is that part of what the terminal produced. */
  predicate Placed(s: System) {
    s.session.outputStart <= |s.produced| && s.session.output <= s.produced[s.session.outputStart..]
  }

  /** The buffer holds all that was produced from its start on. */
  predicate Whole(s: System) {
    s.session.outputStart <= |s.produced| && s.session.output == s.produced[s.session.outputStart..]
  }

  /** `close` finding the pump with a chunk in hand: the chunk is stored where it belongs exactly if
      the buffer was empty. */
  lemma HeldChunkMisplaced(s: System)
    requires OutputInv(s) && Bounded(s) && !s.overrun && s.pump.PumpHolding? && s.session.stop
    ensures var t := Next(Next(s, CloseEnd), PumpStore);
            Whole(t) <==> !Next(s, CloseEnd).overrun
  {
    var rest := s.produced[s.session.outputStart..];
    assert rest == s.session.output + s.pump.chunk;
    if s.session.output != [] {
      assert |rest| != |s.pump.chunk|;
    }
  }

  /** `close` finding the pump about to read: whatever it may still read is stored where it belongs
      exactly if the buffer was empty. */
  lemma NextChunkMisplaced(s: System)
    requires OutputInv(s) && Bounded(s) && !s.overrun && s.pump.PumpReserved? && s.session.stop
    ensures (forall chunk: Blob :: 0 < |chunk| <= s.pump.capacity ==>
               Placed(Next(Next(Next(s, CloseEnd), PumpRead(chunk)), PumpStore)))
            <==> !Next(s, CloseEnd).overrun
  {
    var start := s.session.outputStart;
    assert s.produced[start..] == s.session.output;
    if s.session.output == [] {
      forall chunk: Blob | 0 < |chunk| <= s.pump.capacity
        ensures Placed(Next(Next(Next(s, CloseEnd), PumpRead(chunk)), PumpStore))
      {
        assert (s.produced + chunk)[start..] == chunk;
      }
    } else {
      var other: Byte := if s.session.output[0] == 0 then 1 else 0;
      var t := Next(Next(Next(s, CloseEnd), PumpRead([other])), PumpStore);
      assert t.produced[start..][0] == s.produced[start..][0] == s.session.output[0];
      assert t.session.output == [other];
      assert !Placed(t);
    }
  }

  /** Over every run: `overrun` is exactly a close that can put later output in the wrong place. */
  lemma ClosingMisplacesExactly(run: seq<System>, steps: seq<Step>, n: nat)
    requires IsRun(run, steps) && StepAt(run, steps, n) && steps[n] == CloseEnd && !run[n].overrun
    ensures var (s, t) := (run[n], run[n + 1]);
            && (s.pump.PumpHolding? ==>
                  (Whole(Next(t, PumpStore)) <==> !t.overrun))
            && (s.pump.PumpReserved? ==>
                  ((forall chunk: Blob :: 0 < |chunk| <= s.pump.capacity ==>
                      Placed(Next(Next(t, PumpRead(chunk)), PumpStore)))
                   <==> !t.overrun))
            && (Quiet(s) ==> !t.overrun)
  {
    EveryRunSound(run, steps, n);
    EveryRunBounded(run, steps, n);
    assert StepAt(run, steps, n);
    var s := run[n];
    if s.pump.PumpHolding? {
      HeldChunkMisplaced(s);
    } else if s.pump.PumpReserved? {
      NextChunkMisplaced(s);
    }
  }
}
