/** Runs that show where the console's output guarantees end. */
module ShellLimits {
  import opened Bytes
  import opened ShellSession
  import opened ShellTransport
  import opened ShellSystem
  import B = ShellBrowser

  /** Equality of connections and of pages, list by list. */
  predicate SameConn(c: Conn, d: Conn) {
    && c.inbox == d.inbox && c.outbox == d.outbox
    && c == d.(inbox := c.inbox, outbox := c.outbox)
  }

  predicate SamePage(b: B.Browser, c: B.Browser) {
    && b.queue == c.queue && b.renders == c.renders && b.rendered == c.rendered && b.log == c.log && b.typed == c.typed
    && b == c.(queue := b.queue, renders := b.renders, rendered := b.rendered, log := b.log, typed := b.typed)
  }

  /** Equality of states with one connection, component by component. */
  predicate Same(s: System, t: System) {
    && |s.conns| == |t.conns| == 1 && SameConn(s.conns[0], t.conns[0]) && SamePage(s.browser, t.browser)
    && s.produced == t.produced && s.accepted == t.accepted
    && s.session.output == t.session.output && s.session.pendingInput == t.session.pendingInput
    && s.session == t.session.(output := s.session.output, pendingInput := s.session.pendingInput)
    && s.pump == t.pump && s.cause == t.cause && s.finished == t.finished && s.dropped == t.dropped
    && s.overrun == t.overrun
  }

  lemma Go(s: System, step: Step, t: System)
    requires Reachable(s) && Enabled(s, step) && Same(t, Next(s, step))
    ensures Reachable(t)
  {
    assert t.conns == Next(s, step).conns;
    assert t == Next(s, step);
    Extend(s, step);
  }

  lemma Extend(s: System, step: Step)
    requires Reachable(s) && Enabled(s, step)
    ensures Reachable(Next(s, step))
  {
    var t := Next(s, step);
    var run: seq<System>, steps: seq<Step> :| IsRun(run, steps) && run[|steps|] == s;
    var run', steps' := run + [t], steps + [step];
    forall i | 0 <= i < |steps'|
      ensures StepAt(run', steps', i)
    {
      assert i < |steps| ==> StepAt(run, steps, i);
    }
    assert IsRun(run', steps') && run'[|steps'|] == t;
  }

  lemma StartReachable()
    ensures Reachable(START)
  {
    var run: seq<System>, steps: seq<Step> := [START], [];
    assert IsRun(run, steps) && run[|steps|] == START;
  }

  // ---- one connection, waiting in its first read -----------------------------------------

  const ATTACHING := Conn(0, [], [], Window(0, 0, false), Attaching, NotStarted, AttachIssued(0), NoRead, NoWrite)
  const ANNOUNCED := Conn(0, [], [Ready(0)], Window(0, 0, false), Serving, Idle, Attached(0), NoRead, NoWrite)
  const IDLE := ANNOUNCED.(outbox := [])
  const WAITING := IDLE.(loop := Reading, read := ReadWaiting(0))

  const PAGE_OPENING := B.FRESH.(socket := Some(0))
  const PAGE_OPEN := PAGE_OPENING.(connected := true)

  const CONNECTED := START.(conns := [Opening(0)], browser := PAGE_OPENING)
  const GREETED := START.(conns := [ATTACHING], browser := PAGE_OPENING)
  const LEASED := GREETED.(session := Attach(OPENED, 1), conns := [ATTACHING.(attach := AttachLeased(0))])
  const ATTACHED := LEASED.(conns := [ATTACHING.(attach := Attached(0))])
  const READY := LEASED.(conns := [ANNOUNCED])
  const SERVING := LEASED.(conns := [IDLE], browser := PAGE_OPEN)
  const LISTENING := LEASED.(conns := [WAITING], browser := PAGE_OPEN)

  lemma GreetedReachable()
    ensures Reachable(LEASED)
  {
    StartReachable();
    Go(START, Connect, CONNECTED);
    Go(CONNECTED, At(0, Greet), GREETED);
    Go(GREETED, At(0, TakeLease), LEASED);
  }

  lemma AttachedReachable()
    ensures Reachable(READY)
  {
    GreetedReachable();
    var waiting := LEASED.(conns := [ATTACHING.(attach := AttachWaiting(0))]);
    Go(LEASED, At(0, AttachBegin), waiting);
    Go(waiting, At(0, AttachEnd), ATTACHED);
    Go(ATTACHED, At(0, Announce), READY);
  }

  lemma ListeningReachable()
    ensures Reachable(LISTENING)
  {
    AttachedReachable();
    assert READY.conns[0].outbox[1..] == [];
    Go(READY, Receive, SERVING);
    var issued := SERVING.(conns := [IDLE.(loop := Reading, read := ReadIssued(0))]);
    Go(SERVING, At(0, IssueRead), issued);
    Go(issued, At(0, ReadBegin), LISTENING);
  }

  // ---- a session closed by a refused write -----------------------------------------------

  const PAGE_TYPED := PAGE_OPEN.(pending := Some(B.Chunk(1, [1])), log := [[1]], typed := [1])

  /** The console, listening, with the pump and its output as given. */
  function Pumped(pump: Pump, produced: Blob): System {
    LISTENING.(pump := pump, produced := produced)
  }

  /** A chunk was typed and its write refused. */
  function Refused(pump: Pump, produced: Blob): System {
    Pumped(pump, produced).(
      browser := PAGE_TYPED, cause := ByWrite, session := Advance(Attach(OPENED, 1), 1, [1], 0, true),
      conns := [WAITING.(main := Writing, write := WriteAnswered(Written(1, false, 0, false)))])
  }

  /** Then the waiting read answered that the session is over, */
  function Answered(pump: Pump, produced: Blob): System {
    var s := Refused(pump, produced);
    s.(conns := [s.conns[0].(read := ReadAnswered(Frame(0, [], false, 0)))])
  }

  /** and the page was told. */
  function Told(pump: Pump, produced: Blob): System {
    var s := Refused(pump, produced);
    s.(conns := [s.conns[0].(read := NoRead, loop := LoopEnded, outbox := [Exit], window := Window(0, 0, true))])
  }

  const HOLDING := PumpHolding([7])

  lemma HoldingReachable()
    ensures Reachable(Pumped(HOLDING, [7]))
  {
    ListeningReachable();
    var reserved := LISTENING.(pump := PumpReserved(STREAM_CHUNK_BYTES));
    Go(LISTENING, PumpReserve, reserved);
    Go(reserved, PumpRead([7]), Pumped(HOLDING, [7]));
  }

  lemma SentReachable(pump: Pump, produced: Blob)
    requires Reachable(Pumped(pump, produced))
    ensures Reachable(Pumped(pump, produced).(browser := PAGE_TYPED, conns := [WAITING.(inbox := [Input(1, [1])])]))
  {
    var s := Pumped(pump, produced);
    var page := PAGE_OPEN.(queue := [[1]], queuedBytes := 1, timer := true, typed := [1]);
    B.EncodeOne([1]);
    assert B.Type(PAGE_OPEN, [[1]]) == page;
    Go(s, Type([[1]]), s.(browser := page));
    FlushedPage(page);
    Go(s.(browser := page), FlushTimer, s.(browser := PAGE_TYPED, conns := [WAITING.(inbox := [Input(1, [1])])]));
  }

  lemma FlushedPage(page: B.Browser)
    requires page == PAGE_OPEN.(queue := [[1]], queuedBytes := 1, timer := true, typed := [1])
    ensures SamePage(PAGE_TYPED, B.Flush(page).0) && B.Flush(page).1 == [Input(1, [1])]
  {
    B.EncodeOne([1]);
    assert B.Fitting([[1]], B.MAX_CHUNK) == 1 + B.Fitting([[1]][1..], B.MAX_CHUNK - 1);
    assert [[1]][..1] == [[1]] && [[1]][1..] == [];
  }

  lemma RefusedReachable(pump: Pump, produced: Blob)
    requires Reachable(Pumped(pump, produced))
    ensures Reachable(Refused(pump, produced))
  {
    SentReachable(pump, produced);
    var sent := Pumped(pump, produced).(browser := PAGE_TYPED, conns := [WAITING.(inbox := [Input(1, [1])])]);
    var taken := sent.(conns := [WAITING.(main := Writing, write := WriteIssued(1, [1]))]);
    Go(sent, At(0, TakeInput), taken);
    Go(taken, At(0, RunWrite(0, true)), Refused(pump, produced));
  }

  lemma AnsweredReachable(pump: Pump, produced: Blob)
    requires Reachable(Pumped(pump, produced))
    ensures Reachable(Answered(pump, produced))
  {
    RefusedReachable(pump, produced);
    Go(Refused(pump, produced), At(0, ReadEnd), Answered(pump, produced));
  }

  lemma ToldReachable(pump: Pump, produced: Blob)
    requires Reachable(Pumped(pump, produced))
    ensures Reachable(Told(pump, produced))
  {
    AnsweredReachable(pump, produced);
    Go(Answered(pump, produced), At(0, ReturnRead), Told(pump, produced));
  }

  /** When the terminal refuses a write, the session counts as closed before the pump has drained
      it; a connection may then be told of the end while output is still on its way. */
  lemma ExitCanPrecedeOutput()
    ensures exists s :: && Reachable(s) && !s.overrun && !s.finished && s.cause.ByWrite?
                        && s.conns != [] && Exit in s.conns[0].outbox
                        && s.browser.rendered != s.produced
  {
    HoldingReachable();
    ToldReachable(HOLDING, [7]);
    assert Exit in Told(HOLDING, [7]).conns[0].outbox;
  }

  lemma LeadsTwice(s: System, a: Step, b: Step)
    requires Enabled(s, a) && Enabled(Next(s, a), b)
    ensures Leads(s, [a, b], Next(Next(s, a), b))
  {
    var u := Next(s, a);
    assert [a, b][1..] == [b] && [b][1..] == [];
    assert Leads(Next(u, b), [], Next(u, b));
    assert Leads(u, [b], Next(u, b));
  }

  /** Nor does it help if at that moment all output was rendered and the pump's hand was empty: the
      pump still reads. */
  lemma TrueExitCanTurnFalse()
    ensures exists s: System, more: seq<Step>, t: System ::
              && Reachable(s) && s.cause.ByWrite? && s.conns != [] && Exit in s.conns[0].outbox
              && Hand(s) == [] && s.browser.rendered == s.produced
              && Leads(s, more, t) && !t.overrun && !t.finished && t.browser.rendered != t.produced
  {
    ListeningReachable();
    assert Pumped(PumpIdle, []) == LISTENING;
    ToldReachable(PumpIdle, []);
    var s := Told(PumpIdle, []);
    LeadsTwice(s, PumpReserve, PumpRead([7]));
    var t := Next(Next(s, PumpReserve), PumpRead([7]));
    assert Leads(s, [PumpReserve, PumpRead([7])], t);
    assert Exit in s.conns[0].outbox;
  }

  // ---- output dropped by a close ---------------------------------------------------------

  const ENDED: System := STORED.(pump := PumpDone, cause := ByPump, session := PumpFinish(STORED.session))
  const DROPPED: System := ENDED.(finished := true, dropped := 1,
                          session := FinishClose(BeginClose(ENDED.session)))
  const DROPPED_TOLD: System := DROPPED.(
    conns := [IDLE.(loop := LoopEnded, outbox := [Exit], window := Window(0, 0, true))])

  lemma DroppedReachable()
    ensures Reachable(DROPPED)
  {
    StoredReachable();
    var reserved := STORED.(pump := PumpReserved(STREAM_CHUNK_BYTES));
    Go(STORED, PumpReserve, reserved);
    Go(reserved, PumpEnd, ENDED);
    var closing := ENDED.(session := BeginClose(ENDED.session));
    Go(ENDED, CloseBegin, closing);
    Go(closing, CloseEnd, DROPPED);
  }

  /** Even after the pump's regular end, a `close` that finds output in the buffer drops it, and a
      waiting read then tells of the end although that output was never shown. */
  lemma ClosingCanDropOutput()
    ensures exists s :: && Reachable(s) && !s.overrun && s.cause.ByPump? && s.dropped > |s.browser.rendered|
                        && s.conns != [] && Exit in s.conns[0].outbox
                        && s.browser.rendered != s.produced
  {
    DroppedReachable();
    var answered := DROPPED.(conns := [WAITING.(read := ReadAnswered(Frame(0, [], false, 0)))]);
    Go(DROPPED, At(0, ReadEnd), answered);
    Go(answered, At(0, ReturnRead), DROPPED_TOLD);
    assert Exit in DROPPED_TOLD.conns[0].outbox;
  }

  // ---- a buffer cleared under the pump ---------------------------------------------------

  const STORED: System := LISTENING.(produced := [1], session := Attach(OPENED, 1).(output := [1]))
  const TORN := LISTENING.(
    produced := [1, 2], pump := PumpHolding([2]), cause := ByClose, finished := true, dropped := 1, overrun := true,
    session := Attach(OPENED, 1).(stop := true, closed := true))
  const MISPLACED := TORN.(pump := PumpIdle, session := TORN.session.(output := [2]))

  lemma StoredReachable()
    ensures Reachable(STORED)
  {
    ListeningReachable();
    var reserved := LISTENING.(pump := PumpReserved(STREAM_CHUNK_BYTES));
    var holding := LISTENING.(pump := PumpHolding([1]), produced := [1]);
    Go(LISTENING, PumpReserve, reserved);
    Go(reserved, PumpRead([1]), holding);
    Go(holding, PumpStore, STORED);
  }

  lemma TornReachable()
    ensures Reachable(TORN)
  {
    StoredReachable();
    var reserved := STORED.(pump := PumpReserved(STREAM_CHUNK_BYTES));
    var holding := STORED.(pump := PumpHolding([2]), produced := [1, 2]);
    Go(STORED, PumpReserve, reserved);
    Go(reserved, PumpRead([2]), holding);
    var closing := holding.(cause := ByClose, session := BeginClose(holding.session));
    Go(holding, CloseBegin, closing);
    Go(closing, CloseEnd, TORN);
  }

  const SHOWN := MISPLACED.(conns := [IDLE.(window := Window(0, 1, false))],
                            browser := PAGE_OPEN.(renders := [B.Render(1, [2], 0)]))

  lemma ShownReachable()
    ensures Reachable(SHOWN)
  {
    TornReachable();
    Go(TORN, PumpStore, MISPLACED);
    var answered := MISPLACED.(conns := [WAITING.(read := ReadAnswered(Frame(1, [2], false, 0)))]);
    assert Take([2], STREAM_CHUNK_BYTES) == [2];
    Go(MISPLACED, At(0, ReadEnd), answered);
    var sent := MISPLACED.(conns := [IDLE.(outbox := [Output(1, [2])], window := Window(0, 1, false))]);
    Go(answered, At(0, ReturnRead), sent);
    Go(sent, Receive, SHOWN);
  }

  /** If `close` gives up waiting for the pump and clears the buffer under it, what the pump stores
      afterwards lands at the wrong position: bytes 1 and 2 are produced, byte 2 alone is shown. */
  lemma ClearingUnderThePumpCorrupts()
    ensures exists s :: Reachable(s) && s.overrun && !(s.browser.rendered <= s.produced)
  {
    ShownReachable();
    Extend(SHOWN, Rendered);
    var s := Next(SHOWN, Rendered);
    assert s.browser.rendered == [2] && s.produced == [1, 2];
    assert s.browser.rendered[0] != s.produced[0];
  }
}
