/** Any number of threads in any number of processes using one store, with timeouts, failures,
    killed processes and power loss at every step (tools/kvnlib/core/io.py).

    A file keeps what programs see and what is on the platter apart; so does the directory entry:
    `links` lists the files the path may resolve to after power loss, the last being the one
    programs see. Synchronising the directory leaves only the last. */
module StoreRuns {
  import opened Bytes
  import opened Json
  import S = StateStore

  datatype Text = Torn | Whole(state: Json)

  datatype File = File(seen: Text, stored: Text)

  datatype Kind = Save(state: Json) | Update | Edit

  datatype Request = Request(kind: Kind, expected: Option<Revision>)

  /** A commit as its transaction saw it: what it loaded, if it loaded, and what it wrote. */
  datatype Commit = Commit(loaded: Option<Json>, written: Json, expected: Option<Revision>)

  datatype Result = Committed(number: nat) | Unchanged | Conflict | Failed | TimedOut

  datatype Phase =
    | Idle
    | WantThread(r: Request)
    | WantFile(r: Request)
    | Locked(r: Request)
    | Loaded(r: Request, before: Json)
    | Decided(c: Commit)
    | TempOpen(c: Commit, temp: File)
    | Replaced(number: nat)
    | Leaving(result: Result)
    | LeavingThread(result: Result)
    | Done(result: Result)

  datatype Client = Client(process: nat, phase: Phase)

  datatype World = World(
    clients: seq<Client>,
    threadOwner: map<nat, nat>,
    fileOwner: Option<nat>,
    links: seq<File>,
    history: seq<Json>,
    commits: seq<Commit>,
    acknowledged: nat)

  datatype Step =
    | Begin(i: nat, r: Request)
    | TakeThread(i: nat)
    | ThreadTimeout(i: nat)
    | TakeFile(i: nat)
    | FileTimeout(i: nat)
    | Load(i: nat)
    | Mutate(i: nat, working: Json)
    | OpenTemp(i: nat)
    | WriteTemp(i: nat)
    | SyncTemp(i: nat)
    | Replace(i: nat)
    | SyncDirectory(i: nat)
    | Fail(i: nat)
    | ReleaseFile(i: nat)
    | ReleaseThread(i: nat)
    | Kill(process: nat)
    | PowerLoss(kept: nat)

  function Initial(processes: seq<nat>, state: Json): World {
    World(seq(|processes|, i requires 0 <= i < |processes| => Client(processes[i], Idle)),
          map[], None, [File(Whole(state), Whole(state))], [state], [], 0)
  }

  function Visible(w: World): Text
    requires w.links != []
  {
    w.links[|w.links| - 1].seen
  }

  predicate HoldsFile(p: Phase) {
    p.Locked? || p.Loaded? || p.Decided? || p.TempOpen? || p.Replaced? || p.Leaving?
  }

  predicate HoldsThread(p: Phase) {
    p.WantFile? || HoldsFile(p) || p.LeavingThread?
  }

  predicate At(w: World, i: nat) {
    i < |w.clients|
  }

  predicate Enabled(w: World, step: Step) {
    match step
    case Begin(i, _) => At(w, i) && (w.clients[i].phase.Idle? || w.clients[i].phase.Done?)
    case TakeThread(i) => At(w, i) && w.clients[i].phase.WantThread? && w.clients[i].process !in w.threadOwner
    case ThreadTimeout(i) => At(w, i) && w.clients[i].phase.WantThread?
    case TakeFile(i) => At(w, i) && w.clients[i].phase.WantFile? && w.fileOwner.None?
    case FileTimeout(i) => At(w, i) && w.clients[i].phase.WantFile?
    case Load(i) => At(w, i) && w.clients[i].phase.Locked? && w.links != [] && Visible(w).Whole?
    case Mutate(i, _) => At(w, i) && w.clients[i].phase.Loaded? && !w.clients[i].phase.r.kind.Save?
    case OpenTemp(i) => At(w, i) && w.clients[i].phase.Decided?
    case WriteTemp(i) => At(w, i) && w.clients[i].phase.TempOpen? && w.clients[i].phase.temp.seen.Torn?
    case SyncTemp(i) => At(w, i) && w.clients[i].phase.TempOpen? && w.clients[i].phase.temp.seen.Whole?
    case Replace(i) => At(w, i) && w.clients[i].phase.TempOpen? && w.clients[i].phase.temp.stored.Whole?
    case SyncDirectory(i) => At(w, i) && w.clients[i].phase.Replaced? && w.links != []
    case Fail(i) => At(w, i) && HoldsFile(w.clients[i].phase) && !w.clients[i].phase.Leaving?
    case ReleaseFile(i) => At(w, i) && w.clients[i].phase.Leaving?
    case ReleaseThread(i) => At(w, i) && w.clients[i].phase.LeavingThread?
    case Kill(_) => true
    case PowerLoss(kept) => kept < |w.links| <= |w.history|
  }

  function Put(w: World, i: nat, p: Phase): World
    requires At(w, i)
  {
    w.(clients := w.clients[i := w.clients[i].(phase := p)])
  }

  /** Which transaction a loaded state leads to. */
  function AfterLoad(r: Request, state: Json): Phase {
    if r.expected.Some? && r.expected.value != Revision(state) then Leaving(Conflict)
    else match r.kind
      case Save(new_) => Decided(Commit(Some(state), new_, r.expected))
      case _ => Loaded(r, state)
  }

  function Cut(w: World, kept: nat): World
    requires kept < |w.links| <= |w.history|
  {
    var length := |w.history| - (|w.links| - 1 - kept);
    var f := w.links[kept];
    w.(links := [File(f.stored, f.stored)], history := w.history[..length],
       commits := if length - 1 <= |w.commits| then w.commits[..length - 1] else w.commits)
  }

  function Reset(c: Client): Client {
    c.(phase := Idle)
  }

  function Next(w: World, step: Step): World
    requires Enabled(w, step)
  {
    match step
    case Begin(i, r) => Put(w, i, WantThread(r))
    case TakeThread(i) =>
      Put(w, i, WantFile(w.clients[i].phase.r)).(threadOwner := w.threadOwner[w.clients[i].process := i])
    case ThreadTimeout(i) => Put(w, i, Done(TimedOut))
    case TakeFile(i) =>
      var r := w.clients[i].phase.r;
      // An unconditional save does not look at the file first.
      var p := if r.kind.Save? && r.expected.None? then Decided(Commit(None, r.kind.state, None)) else Locked(r);
      Put(w, i, p).(fileOwner := Some(i))
    case FileTimeout(i) => Put(w, i, LeavingThread(TimedOut))
    case Load(i) => Put(w, i, AfterLoad(w.clients[i].phase.r, Visible(w).state))
    case Mutate(i, working) =>
      var p := w.clients[i].phase;
      Put(w, i, if Revision(working) == Revision(p.before) then Leaving(Unchanged)
                else Decided(Commit(Some(p.before), working, p.r.expected)))
    case OpenTemp(i) => Put(w, i, TempOpen(w.clients[i].phase.c, File(Torn, Torn)))
    case WriteTemp(i) =>
      var p := w.clients[i].phase;
      Put(w, i, TempOpen(p.c, File(Whole(p.c.written), Torn)))
    case SyncTemp(i) =>
      var p := w.clients[i].phase;
      Put(w, i, TempOpen(p.c, File(p.temp.seen, p.temp.seen)))
    case Replace(i) =>
      var p := w.clients[i].phase;
      Put(w, i, Replaced(|w.commits|)).(links := w.links + [p.temp], history := w.history + [p.c.written],
                                        commits := w.commits + [p.c])
    case SyncDirectory(i) =>
      var n := w.clients[i].phase.number;
      Put(w, i, Leaving(Committed(n))).(links := [w.links[|w.links| - 1]], acknowledged := n + 1)
    case Fail(i) => Put(w, i, Leaving(Failed))
    case ReleaseFile(i) => Put(w, i, LeavingThread(w.clients[i].phase.result)).(fileOwner := None)
    case ReleaseThread(i) =>
      Put(w, i, Done(w.clients[i].phase.result)).(threadOwner := w.threadOwner - {w.clients[i].process})
    case Kill(process) =>
      w.(clients := seq(|w.clients|, i requires 0 <= i < |w.clients| =>
                          if w.clients[i].process == process then Reset(w.clients[i]) else w.clients[i]),
         threadOwner := w.threadOwner - {process},
         fileOwner := if w.fileOwner.Some? && w.fileOwner.value < |w.clients|
                         && w.clients[w.fileOwner.value].process == process then None else w.fileOwner)
    case PowerLoss(kept) =>
      Cut(w, kept).(clients := seq(|w.clients|, i requires 0 <= i < |w.clients| => Reset(w.clients[i])),
                    threadOwner := map[], fileOwner := None)
  }

  /** Step `i` can be taken and leads to the next state. */
  predicate StepAt(run: seq<World>, steps: seq<Step>, i: int) {
    0 <= i < |steps| && |run| == |steps| + 1 && Enabled(run[i], steps[i]) && run[i + 1] == Next(run[i], steps[i])
  }

  ghost predicate IsRun(run: seq<World>, steps: seq<Step>, processes: seq<nat>, state: Json) {
    && |run| == |steps| + 1
    && run[0] == Initial(processes, state)
    && forall i :: 0 <= i < |steps| ==> StepAt(run, steps, i)
  }

  // ---- the invariant ---------------------------------------------------------------------

  predicate LocksMatch(w: World) {
    && (forall i :: 0 <= i < |w.clients| && HoldsThread(w.clients[i].phase) ==>
          w.clients[i].process in w.threadOwner && w.threadOwner[w.clients[i].process] == i)
    && (forall i :: 0 <= i < |w.clients| && HoldsFile(w.clients[i].phase) ==> w.fileOwner == Some(i))
    && (forall p :: p in w.threadOwner ==>
          && w.threadOwner[p] < |w.clients| && w.clients[w.threadOwner[p]].process == p
          && HoldsThread(w.clients[w.threadOwner[p]].phase))
    && (w.fileOwner.Some? ==> w.fileOwner.value < |w.clients| && HoldsFile(w.clients[w.fileOwner.value].phase))
  }

  /** The history is a chain: each transaction that looked saw exactly the state it replaced. */
  predicate Fits(history: seq<Json>, c: Commit, n: nat) {
    && n < |history|
    && (c.loaded.Some? ==> c.loaded.value == history[n])
    && (c.expected.Some? ==> c.expected.value == Revision(history[n]))
  }

  predicate Chained(w: World) {
    && |w.history| == |w.commits| + 1
    && forall n :: 0 <= n < |w.commits| ==> Fits(w.history, w.commits[n], n) && w.history[n + 1] == w.commits[n].written
  }

  /** Whatever the path may resolve to is a whole state of the history. */
  predicate Durable(w: World) {
    && 1 <= |w.links| <= |w.history|
    && w.acknowledged <= |w.history| - |w.links|
    && forall j :: 0 <= j < |w.links| ==>
         var text := Whole(w.history[|w.history| - |w.links| + j]);
         w.links[j] == File(text, text)
  }

  predicate ClientFits(w: World, p: Phase)
    requires w.history != []
  {
    match p
    case Loaded(r, before) =>
      && before == w.history[|w.history| - 1] && !r.kind.Save?
      && (r.expected.Some? ==> r.expected.value == Revision(before))
    case Decided(c) => Fits(w.history, c, |w.history| - 1)
    case TempOpen(c, temp) =>
      && Fits(w.history, c, |w.history| - 1)
      && (temp.seen.Whole? ==> temp.seen == Whole(c.written))
      && (temp.stored.Whole? ==> temp.stored == temp.seen)
    case Replaced(n) => n == |w.commits| - 1
    case Leaving(Committed(n)) => n < w.acknowledged
    case LeavingThread(Committed(n)) => n < w.acknowledged
    case Done(Committed(n)) => n < w.acknowledged
    case _ => true
  }

  predicate Inv(w: World) {
    && LocksMatch(w)
    && Chained(w)
    && Durable(w)
    && forall i :: 0 <= i < |w.clients| ==> ClientFits(w, w.clients[i].phase)
  }

  // ---- every step keeps it ---------------------------------------------------------------

  /** One client moved on without giving or taking a lock, and the file did not change. */
  lemma PhaseKept(w: World, i: nat, p: Phase)
    requires Inv(w) && At(w, i) && ClientFits(w, p)
    requires HoldsThread(p) == HoldsThread(w.clients[i].phase) && HoldsFile(p) == HoldsFile(w.clients[i].phase)
    ensures Inv(Put(w, i, p))
  {
  }

  lemma TakeThreadKept(w: World, i: nat)
    requires Inv(w) && Enabled(w, TakeThread(i))
    ensures Inv(Next(w, TakeThread(i)))
  {
  }

  lemma TakeFileKept(w: World, i: nat)
    requires Inv(w) && Enabled(w, TakeFile(i))
    ensures Inv(Next(w, TakeFile(i)))
  {
  }

  lemma ReleaseFileKept(w: World, i: nat)
    requires Inv(w) && Enabled(w, ReleaseFile(i))
    ensures Inv(Next(w, ReleaseFile(i)))
  {
  }

  lemma ReleaseThreadKept(w: World, i: nat)
    requires Inv(w) && Enabled(w, ReleaseThread(i))
    ensures Inv(Next(w, ReleaseThread(i)))
  {
  }

  lemma ReplaceKept(w: World, i: nat)
    requires Inv(w) && Enabled(w, Replace(i))
    ensures Inv(Next(w, Replace(i)))
  {
    var t := Next(w, Replace(i));
    assert forall j :: 0 <= j < |w.clients| && j != i ==> !HoldsFile(w.clients[j].phase);
  }

  lemma SyncKept(w: World, i: nat)
    requires Inv(w) && Enabled(w, SyncDirectory(i))
    ensures Inv(Next(w, SyncDirectory(i)))
  {
  }

  lemma KillKept(w: World, process: nat)
    requires Inv(w)
    ensures Inv(Next(w, Kill(process)))
  {
  }

  lemma PowerLossKept(w: World, kept: nat)
    requires Inv(w) && Enabled(w, PowerLoss(kept))
    ensures Inv(Next(w, PowerLoss(kept)))
  {
  }

  /** The steps that move one client on and touch nothing else. */
  predicate Moves(step: Step) {
    step.Begin? || step.ThreadTimeout? || step.FileTimeout? || step.Load? || step.Mutate? || step.OpenTemp?
    || step.WriteTemp? || step.SyncTemp? || step.Fail?
  }

  lemma MoveKept(w: World, step: Step)
    requires Inv(w) && Enabled(w, step) && Moves(step)
    ensures Inv(Next(w, step))
  {
    PhaseKept(w, step.i, Next(w, step).clients[step.i].phase);
  }

  lemma StepKept(w: World, step: Step)
    requires Inv(w) && Enabled(w, step)
    ensures Inv(Next(w, step))
  {
    match step
    case Replace(i) => ReplaceKept(w, i);
    case SyncDirectory(i) => SyncKept(w, i);
    case Kill(process) => KillKept(w, process);
    case PowerLoss(kept) => PowerLossKept(w, kept);
    case TakeThread(i) => TakeThreadKept(w, i);
    case TakeFile(i) => TakeFileKept(w, i);
    case ReleaseFile(i) => ReleaseFileKept(w, i);
    case ReleaseThread(i) => ReleaseThreadKept(w, i);
    case _ => MoveKept(w, step);
  }

  lemma {:induction false} EveryRun(run: seq<World>, steps: seq<Step>, processes: seq<nat>, state: Json, n: nat)
    requires IsRun(run, steps, processes, state) && n <= |steps|
    ensures Inv(run[n])
  {
    if n > 0 {
      EveryRun(run, steps, processes, state, n - 1);
      assert StepAt(run, steps, n - 1);
      StepKept(run[n - 1], steps[n - 1]);
    }
  }

  // ---- the guarantees --------------------------------------------------------------------

  /** Whatever runs, times out, fails, dies or loses power: the file shows a whole state, the last of
      a history in which every transaction replaced exactly the state it loaded and, if it named a
      revision, the state of that revision. */
  lemma Serializable(run: seq<World>, steps: seq<Step>, processes: seq<nat>, state: Json, n: nat)
    requires IsRun(run, steps, processes, state) && n <= |steps|
    ensures var w := run[n];
            && w.links != [] && |w.history| == |w.commits| + 1
            && Visible(w) == Whole(w.history[|w.commits|])
            && forall i :: 0 <= i < |w.commits| ==>
                 && w.history[i + 1] == w.commits[i].written
                 && (w.commits[i].loaded.Some? ==> w.commits[i].loaded.value == w.history[i])
                 && (w.commits[i].expected.Some? ==> w.commits[i].expected.value == Revision(w.history[i]))
  {
    EveryRun(run, steps, processes, state, n);
  }

  /** Two clients never hold the file lock at once, nor two of one process the thread lock, and
      whoever timed out holds neither. */
  lemma MutualExclusion(run: seq<World>, steps: seq<Step>, processes: seq<nat>, state: Json, n: nat, i: nat, j: nat)
    requires IsRun(run, steps, processes, state) && n <= |steps|
    requires i < |run[n].clients| && j < |run[n].clients|
    ensures HoldsFile(run[n].clients[i].phase) && HoldsFile(run[n].clients[j].phase) ==> i == j
    ensures HoldsThread(run[n].clients[i].phase) && HoldsThread(run[n].clients[j].phase) ==>
              i == j || run[n].clients[i].process != run[n].clients[j].process
    ensures run[n].clients[i].phase == Done(TimedOut) ==>
              run[n].fileOwner != Some(i) && forall p :: p in run[n].threadOwner ==> run[n].threadOwner[p] != i
  {
    EveryRun(run, steps, processes, state, n);
  }

  /** After power loss the file is a whole state of the history, no earlier than the last commit
      whose transaction has returned. */
  lemma PowerLossSafe(run: seq<World>, steps: seq<Step>, processes: seq<nat>, state: Json, n: nat, kept: nat)
    requires IsRun(run, steps, processes, state) && StepAt(run, steps, n) && steps[n] == PowerLoss(kept)
    ensures var (w, t) := (run[n], run[n + 1]);
            && t.history <= w.history && Visible(t) == Whole(t.history[|t.history| - 1])
            && w.acknowledged < |t.history| && t.acknowledged == w.acknowledged
  {
    EveryRun(run, steps, processes, state, n);
    EveryRun(run, steps, processes, state, n + 1);
    assert StepAt(run, steps, n);
  }

  /** The history up to the last acknowledged commit never changes. */
  lemma {:induction false} AcknowledgedForGood(run: seq<World>, steps: seq<Step>, processes: seq<nat>, state: Json,
                                               m: nat, n: nat)
    requires IsRun(run, steps, processes, state) && m <= n <= |steps|
    ensures run[m].acknowledged <= run[n].acknowledged
    ensures run[m].acknowledged < |run[m].history| && run[m].acknowledged < |run[n].history|
    ensures run[m].history[..run[m].acknowledged + 1] == run[n].history[..run[m].acknowledged + 1]
    decreases n - m
  {
    EveryRun(run, steps, processes, state, n);
    if m < n {
      AcknowledgedForGood(run, steps, processes, state, m, n - 1);
      EveryRun(run, steps, processes, state, n - 1);
      assert StepAt(run, steps, n - 1);
      HistoryStep(run[n - 1], steps[n - 1]);
    }
  }

  /** What a transaction that returned had committed stays in the history, whatever happens later. */
  lemma ReturnedForGood(run: seq<World>, steps: seq<Step>, processes: seq<nat>, state: Json, m: nat, n: nat,
                        i: nat, number: nat)
    requires IsRun(run, steps, processes, state) && m <= n <= |steps| && i < |run[m].clients|
    requires run[m].clients[i].phase == Done(Committed(number))
    ensures number < |run[m].commits| && number + 1 < |run[m].history| && number + 1 < |run[n].history|
    ensures run[n].history[number + 1] == run[m].history[number + 1] == run[m].commits[number].written
  {
    EveryRun(run, steps, processes, state, m);
    assert ClientFits(run[m], run[m].clients[i].phase);
    AcknowledgedForGood(run, steps, processes, state, m, n);
    var kept := run[m].acknowledged + 1;
    assert run[n].history[..kept][number + 1] == run[m].history[..kept][number + 1];
  }

  lemma HistoryStep(w: World, step: Step)
    requires Inv(w) && Enabled(w, step)
    ensures var t := Next(w, step);
            && w.acknowledged <= t.acknowledged < |t.history|
            && (t.history <= w.history || w.history <= t.history)
            && w.acknowledged < |t.history|
  {
    StepKept(w, step);
  }

  // ---- the steps of one update are one transaction ---------------------------------------

  /** What a client goes on to do after the outcome of its transaction. */
  function Decision(outcome: S.Outcome, expected: Option<Revision>): Phase {
    match outcome
    case Committed(before, after) => Decided(Commit(Some(before), after, expected))
    case Unchanged(_) => Leaving(Unchanged)
    case Conflict => Leaving(Conflict)
    case Aborted => Leaving(Failed)
  }

  /** Between loading and deciding, other clients run; still the decision is that of one atomic
      transaction on the state the file shows when the decision is taken. */
  lemma DecidesAtomically(run: seq<World>, steps: seq<Step>, processes: seq<nat>, state: Json, n: nat, i: nat,
                          working: Json, mutate: Json -> S.Mutation)
    requires IsRun(run, steps, processes, state) && StepAt(run, steps, n) && steps[n] == Mutate(i, working)
    requires run[n].clients[i].phase.Loaded? && mutate(run[n].clients[i].phase.before) == S.Replacement(working)
    ensures run[n].links != [] && Visible(run[n]).Whole?
    ensures var r := run[n].clients[i].phase.r;
            run[n + 1].clients[i].phase == Decision(S.Transact(Visible(run[n]).state, mutate, r.expected), r.expected)
    ensures var (seen, expected) := (Visible(run[n]).state, run[n].clients[i].phase.r.expected);
            run[n + 1].clients[i].phase
            == if working == seen then Leaving(Unchanged) else Decided(Commit(Some(seen), working, expected))
  {
    EveryRun(run, steps, processes, state, n);
    assert StepAt(run, steps, n);
    assert ClientFits(run[n], run[n].clients[i].phase);
  }

  /** A mutator that raises ends the transaction as one atomic transaction would, and the file stays. */
  lemma RaisesAtomically(run: seq<World>, steps: seq<Step>, processes: seq<nat>, state: Json, n: nat, i: nat,
                         mutate: Json -> S.Mutation)
    requires IsRun(run, steps, processes, state) && StepAt(run, steps, n) && steps[n] == Fail(i)
    requires run[n].clients[i].phase.Loaded? && mutate(run[n].clients[i].phase.before).Raises?
    ensures run[n].links != [] && Visible(run[n]).Whole? && run[n + 1].links == run[n].links
    ensures run[n + 1].history == run[n].history && run[n + 1].clients[i].phase == Leaving(Failed)
    ensures var r := run[n].clients[i].phase.r;
            run[n + 1].clients[i].phase == Decision(S.Transact(Visible(run[n]).state, mutate, r.expected), r.expected)
  {
    EveryRun(run, steps, processes, state, n);
    assert ClientFits(run[n], run[n].clients[i].phase);
  }

  /** What a transaction loads is what the file shows, and a named revision that differs ends it. */
  lemma LoadsWhatIsVisible(run: seq<World>, steps: seq<Step>, processes: seq<nat>, state: Json, n: nat, i: nat)
    requires IsRun(run, steps, processes, state) && StepAt(run, steps, n) && steps[n] == Load(i)
    ensures run[n].links != [] && Visible(run[n]).Whole? && run[n + 1].links == run[n].links
    ensures var (seen, r) := (Visible(run[n]).state, run[n].clients[i].phase.r);
            run[n + 1].clients[i].phase
            == if r.expected.Some? && r.expected.value != Revision(seen) then Leaving(Conflict)
               else if r.kind.Save? then Decided(Commit(Some(seen), r.kind.state, r.expected))
               else Loaded(r, seen)
  {
  }

  /** A transaction that is through gives its locks back and returns the result it came to. */
  lemma ReturnsItsResult(w: World, i: nat)
    requires At(w, i)
    ensures Enabled(w, ReleaseFile(i)) ==>
              var t := Next(w, ReleaseFile(i));
              t.fileOwner.None? && t.clients[i].phase == LeavingThread(w.clients[i].phase.result)
    ensures Enabled(w, ReleaseThread(i)) ==>
              var t := Next(w, ReleaseThread(i));
              w.clients[i].process !in t.threadOwner && t.clients[i].phase == Done(w.clients[i].phase.result)
    ensures Enabled(w, SyncDirectory(i)) ==>
              var t := Next(w, SyncDirectory(i));
              t.clients[i].phase == Leaving(Committed(w.clients[i].phase.number))
    ensures Enabled(w, FileTimeout(i)) ==> Next(w, FileTimeout(i)).clients[i].phase == LeavingThread(TimedOut)
    ensures Enabled(w, ThreadTimeout(i)) ==> Next(w, ThreadTimeout(i)).clients[i].phase == Done(TimedOut)
  {
  }

  /** And the replacement puts the decided state over exactly the state it was decided on. */
  lemma ReplacesAtomically(run: seq<World>, steps: seq<Step>, processes: seq<nat>, state: Json, n: nat, i: nat)
    requires IsRun(run, steps, processes, state) && n < |steps| && steps[n] == Replace(i)
    requires i < |run[n].clients| && run[n].clients[i].phase.TempOpen?
    ensures run[n].links != [] && Visible(run[n]).Whole? && run[n + 1].links != []
    ensures var c := run[n].clients[i].phase.c;
            && (c.loaded.Some? ==> c.loaded.value == Visible(run[n]).state)
            && (c.expected.Some? ==> c.expected.value == Revision(Visible(run[n]).state))
            && Visible(run[n + 1]) == Whole(c.written)
  {
    EveryRun(run, steps, processes, state, n);
    assert StepAt(run, steps, n);
    assert ClientFits(run[n], run[n].clients[i].phase);
  }
}
