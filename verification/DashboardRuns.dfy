/** `get`, `invalidate` and the refresh threads, interleaved at every lock boundary, with the loader
    running unlocked (portal/agent_handlers/dispatcher.py). */
module DashboardRuns {
  import opened Bytes
  import opened Json
  import opened DashboardCache

  /** One load attempt: what it read before calling the loader. `begun` is the number of the step
      at which it read the generation. */
  datatype Attempt = Attempt(name: string, generation: nat, collectedAt: int, begun: nat)

  datatype Thread =
    | Starting(names: seq<string>)
    | Between(names: seq<string>, context: map<string, Json>)
    | Loading(attempt: Attempt, names: seq<string>, context: map<string, Json>)
    | Returned(attempt: Attempt, names: seq<string>, context: map<string, Json>, result: Option<Json>)
    | Ending
    | Finished

  /** `steps` counts the steps so far. For each source, `invalidated` is the number of the last step
      that invalidated it, `attempted` that of the beginning of its last stored attempt and `stored`
      that of its storing. */
  datatype System = System(
    cache: Cache,
    threads: seq<Thread>,
    steps: nat,
    invalidated: map<string, nat>,
    attempted: map<string, nat>,
    stored: map<string, nat>)

  /** `Load` is the loader returning or raising; `Abandon` an exception outside the loader's reach. */
  datatype Step =
    | Get(now: int)
    | Invalidate(names: seq<string>)
    | TakeContext(k: nat)
    | Begin(k: nat, collectedAt: int)
    | Load(k: nat, result: Option<Json>)
    | Store(k: nat)
    | NoMore(k: nat)
    | Abandon(k: nat)
    | Finish(k: nat)

  const INITIAL := System(EMPTY, [], 0, map[], map[], map[])

  predicate Enabled(s: System, step: Step) {
    match step
    case Get(_) => true
    case Invalidate(_) => true
    case TakeContext(k) => k < |s.threads| && s.threads[k].Starting?
    case Begin(k, _) => k < |s.threads| && s.threads[k].Between? && s.threads[k].names != []
    case Load(k, _) => k < |s.threads| && s.threads[k].Loading?
    case Store(k) => k < |s.threads| && s.threads[k].Returned? && s.threads[k].attempt.name in TTLS
    case NoMore(k) => k < |s.threads| && s.threads[k].Between? && s.threads[k].names == []
    case Abandon(k) => k < |s.threads| && (s.threads[k].Between? || s.threads[k].Loading? || s.threads[k].Returned?)
    case Finish(k) => k < |s.threads| && s.threads[k].Ending?
  }

  function Put(s: System, k: nat, t: Thread): System
    requires k < |s.threads|
  {
    s.(threads := s.threads[k := t])
  }

  function AfterStore(c: Cache, a: Attempt, result: Option<Json>): Cache
    requires a.name in TTLS
  {
    match result
    case Some(data) => AfterSuccess(c, a.name, a.generation, a.collectedAt, data)
    case None => AfterFailure(c, a.name, a.generation, a.collectedAt)
  }

  function Invalidated(s: System, names: seq<string>): map<string, nat> {
    s.invalidated + map x | x in names && x in TTLS :: s.steps
  }

  function Change(s: System, step: Step): System
    requires Enabled(s, step)
  {
    match step
    case Get(now) =>
      var starts := Starts(s.cache, now);
      s.(cache := AfterGet(s.cache, now),
         threads := if starts.Some? then s.threads + [Starting(starts.value)] else s.threads)
    case Invalidate(names) => s.(cache := AfterInvalidate(s.cache, names), invalidated := Invalidated(s, names))
    case TakeContext(k) => Put(s, k, Between(s.threads[k].names, Context(s.cache)))
    case Begin(k, at) =>
      var t := s.threads[k];
      var name := t.names[0];
      Put(s, k, Thread.Loading(Attempt(name, Generation(s.cache, name), at, s.steps), t.names[1..], t.context))
    case Load(k, result) =>
      var t := s.threads[k];
      var context := if result.Some? then t.context[t.attempt.name := result.value] else t.context;
      Put(s, k, Returned(t.attempt, t.names, context, result))
    case Store(k) =>
      var t := s.threads[k];
      Put(s, k, Between(t.names, t.context)).(
        cache := AfterStore(s.cache, t.attempt, t.result),
        attempted := s.attempted[t.attempt.name := t.attempt.begun],
        stored := s.stored[t.attempt.name := s.steps])
    case NoMore(k) => Put(s, k, Ending)
    case Abandon(k) => Put(s, k, Ending)
    case Finish(k) => Put(s, k, Finished).(cache := AfterFinish(s.cache))
  }

  function Next(s: System, step: Step): System
    requires Enabled(s, step)
  {
    Change(s, step).(steps := s.steps + 1)
  }

  /** Step `i` can be taken and leads to the next state. */
  predicate StepAt(run: seq<System>, steps: seq<Step>, i: int) {
    0 <= i < |steps| && |run| == |steps| + 1 && Enabled(run[i], steps[i]) && run[i + 1] == Next(run[i], steps[i])
  }

  ghost predicate IsRun(run: seq<System>, steps: seq<Step>) {
    && |run| == |steps| + 1 && run[0] == INITIAL
    && forall i :: 0 <= i < |steps| ==> StepAt(run, steps, i)
  }

  // ---- the invariant ---------------------------------------------------------------------

  /** Every thread but the newest is finished; the newest is at work exactly while `refreshing`. */
  predicate SingleFlight(s: System) {
    && (forall k :: 0 <= k < |s.threads| - 1 ==> s.threads[k].Finished?)
    && (s.cache.refreshing <==> s.threads != [] && !s.threads[|s.threads| - 1].Finished?)
    && (s.cache.done <==> !s.cache.refreshing)
    && (!s.cache.refreshing ==> s.cache.sources == {})
  }

  /** An attempt's generation is still current exactly if it began after the last invalidation. */
  predicate AttemptFits(s: System, a: Attempt) {
    && a.name in TTLS && a.begun < s.steps
    && a.generation <= Generation(s.cache, a.name)
    && (a.generation == Generation(s.cache, a.name) <==>
          (a.name in s.invalidated ==> s.invalidated[a.name] < a.begun))
  }

  predicate ThreadFits(s: System, t: Thread) {
    match t
    case Starting(names) => forall x :: x in names ==> x in TTLS
    case Between(names, _) => forall x :: x in names ==> x in TTLS
    case Loading(a, names, _) => AttemptFits(s, a) && forall x :: x in names ==> x in TTLS
    case Returned(a, names, _, _) => AttemptFits(s, a) && forall x :: x in names ==> x in TTLS
    case _ => true
  }

  /** A source that is not due at once was last stored by an attempt begun after its last invalidation. */
  predicate NothingLost(s: System) {
    forall x :: x in s.cache.items && s.cache.items[x].nextRefresh != 0 ==>
      x in s.attempted && (x in s.invalidated ==> s.invalidated[x] < s.attempted[x])
  }

  predicate Inv(s: System) {
    && SingleFlight(s)
    && NothingLost(s)
    && (forall x :: x in s.invalidated ==> s.invalidated[x] < s.steps)
    && (forall k :: 0 <= k < |s.threads| ==> ThreadFits(s, s.threads[k]))
  }

  lemma InvalidateKept(s: System, names: seq<string>)
    requires Inv(s)
    ensures Inv(Next(s, Invalidate(names)))
  {
    var t := Next(s, Invalidate(names));
    InvalidateMeans(s.cache, names);
    forall a: Attempt | AttemptFits(s, a)
      ensures AttemptFits(t, a)
    {
      if a.name in names {
        assert Generation(t.cache, a.name) > Generation(s.cache, a.name);
      }
    }
    forall k | 0 <= k < |t.threads|
      ensures ThreadFits(t, t.threads[k])
    {
      assert ThreadFits(s, s.threads[k]);
    }
  }

  lemma GetKept(s: System, now: int)
    requires Inv(s)
    ensures Inv(Next(s, Get(now)))
  {
    var t := Next(s, Get(now));
    forall k | 0 <= k < |t.threads|
      ensures ThreadFits(t, t.threads[k])
    {
      if k < |s.threads| {
        assert ThreadFits(s, s.threads[k]);
      } else {
        assert forall x :: x in SOURCES ==> x in TTLS;
      }
    }
  }

  /** A thread moved on and nothing else changed. */
  lemma MoveKept(s: System, k: nat, t: Thread)
    requires Inv(s) && k < |s.threads| && !s.threads[k].Finished? && !t.Finished?
    requires ThreadFits(s.(steps := s.steps + 1), t)
    ensures Inv(Put(s, k, t).(steps := s.steps + 1))
  {
    var u := Put(s, k, t).(steps := s.steps + 1);
    forall j | 0 <= j < |u.threads|
      ensures ThreadFits(u, u.threads[j])
    {
      assert ThreadFits(s, s.threads[j]);
    }
  }

  lemma StoreKept(s: System, k: nat)
    requires Inv(s) && Enabled(s, Store(k))
    ensures Inv(Next(s, Store(k)))
  {
    var u := Next(s, Store(k));
    assert ThreadFits(s, s.threads[k]);
    forall j | 0 <= j < |u.threads|
      ensures ThreadFits(u, u.threads[j])
    {
      assert ThreadFits(s, s.threads[j]);
    }
  }

  lemma FinishKept(s: System, k: nat)
    requires Inv(s) && Enabled(s, Finish(k))
    ensures Inv(Next(s, Finish(k)))
  {
    var u := Next(s, Finish(k));
    forall j | 0 <= j < |u.threads|
      ensures ThreadFits(u, u.threads[j])
    {
      assert ThreadFits(s, s.threads[j]);
    }
  }

  lemma ThreadMoveKept(s: System, step: Step, k: nat)
    requires Inv(s) && Enabled(s, step)
    requires step == TakeContext(k) || step == NoMore(k) || step == Abandon(k)
    ensures Inv(Next(s, step))
  {
    assert ThreadFits(s, s.threads[k]);
    MoveKept(s, k, Next(s, step).threads[k]);
  }

  lemma BeginKept(s: System, k: nat, at: int)
    requires Inv(s) && Enabled(s, Begin(k, at))
    ensures Inv(Next(s, Begin(k, at)))
  {
    assert ThreadFits(s, s.threads[k]);
    MoveKept(s, k, Next(s, Begin(k, at)).threads[k]);
  }

  lemma LoadKept(s: System, k: nat, result: Option<Json>)
    requires Inv(s) && Enabled(s, Load(k, result))
    ensures Inv(Next(s, Load(k, result)))
  {
    assert ThreadFits(s, s.threads[k]);
    MoveKept(s, k, Next(s, Load(k, result)).threads[k]);
  }

  lemma StepKept(s: System, step: Step)
    requires Inv(s) && Enabled(s, step)
    ensures Inv(Next(s, step))
  {
    match step
    case Get(now) => GetKept(s, now);
    case Invalidate(names) => InvalidateKept(s, names);
    case TakeContext(k) => ThreadMoveKept(s, step, k);
    case Begin(k, at) => BeginKept(s, k, at);
    case Load(k, result) => LoadKept(s, k, result);
    case NoMore(k) => ThreadMoveKept(s, step, k);
    case Abandon(k) => ThreadMoveKept(s, step, k);
    case Store(k) => StoreKept(s, k);
    case Finish(k) => FinishKept(s, k);
  }

  lemma {:induction false} EveryRun(run: seq<System>, steps: seq<Step>, n: nat)
    requires IsRun(run, steps) && n <= |steps|
    ensures Inv(run[n]) && run[n].steps == n
  {
    if n > 0 {
      EveryRun(run, steps, n - 1);
      assert StepAt(run, steps, n - 1);
      StepKept(run[n - 1], steps[n - 1]);
    }
  }

  // ---- the guarantees --------------------------------------------------------------------

  predicate Working(t: Thread) {
    !t.Finished?
  }

  /** At most one refresh is at work; `wait` is released exactly when none is; no storing step is
      ever refused. */
  lemma OneRefresh(run: seq<System>, steps: seq<Step>, n: nat, j: nat, k: nat)
    requires IsRun(run, steps) && n <= |steps| && j < |run[n].threads| && k < |run[n].threads|
    ensures Working(run[n].threads[j]) && Working(run[n].threads[k]) ==> j == k
    ensures run[n].cache.done <==> forall i :: 0 <= i < |run[n].threads| ==> !Working(run[n].threads[i])
    ensures run[n].threads[k].Returned? ==> Enabled(run[n], Store(k))
  {
    EveryRun(run, steps, n);
    assert ThreadFits(run[n], run[n].threads[k]);
  }

  /** Step `a` is the beginning of a load attempt for `name`. */
  predicate Begins(run: seq<System>, steps: seq<Step>, a: nat, name: string)
    requires |run| == |steps| + 1
  {
    && a < |steps| && steps[a].Begin?
    && steps[a].k < |run[a].threads| && run[a].threads[steps[a].k].Between? && run[a].threads[steps[a].k].names != []
    && run[a].threads[steps[a].k].names[0] == name
  }

  predicate Invalidates(step: Step, name: string) {
    step.Invalidate? && name in step.names && name in TTLS
  }

  /** The numbers kept in the state are those of the steps they name: of the attempts in flight, */
  predicate InFlightRecorded(run: seq<System>, steps: seq<Step>, n: nat)
    requires |run| == |steps| + 1 && n < |run|
  {
    forall k :: 0 <= k < |run[n].threads| ==>
      var t := run[n].threads[k];
      InFlight(t) ==> t.attempt.begun < n && Begins(run, steps, t.attempt.begun, t.attempt.name)
  }

  /** Step `b` stores an attempt for `name`. */
  predicate Stores(run: seq<System>, steps: seq<Step>, b: nat, name: string)
    requires |run| == |steps| + 1
  {
    && b < |steps| && steps[b].Store?
    && steps[b].k < |run[b].threads| && run[b].threads[steps[b].k].Returned?
    && run[b].threads[steps[b].k].attempt.name == name
  }

  /** of the attempts stored, */
  predicate StoredRecorded(run: seq<System>, steps: seq<Step>, n: nat)
    requires |run| == |steps| + 1 && n < |run|
  {
    && run[n].stored.Keys == run[n].attempted.Keys
    && forall x :: x in run[n].attempted ==> Recorded(run, steps, n, x, run[n].attempted[x], run[n].stored[x])
  }

  /** Step `a` began the attempt for `name` that step `b` stored. */
  predicate Recorded(run: seq<System>, steps: seq<Step>, n: nat, name: string, a: nat, b: nat)
    requires |run| == |steps| + 1
  {
    && a < b < n && Begins(run, steps, a, name)
    && Stores(run, steps, b, name) && run[b].threads[steps[b].k].attempt.begun == a
  }

  lemma {:induction false} AttemptsRecorded(run: seq<System>, steps: seq<Step>, n: nat)
    requires IsRun(run, steps) && n <= |steps|
    ensures InFlightRecorded(run, steps, n) && StoredRecorded(run, steps, n)
  {
    if n > 0 {
      AttemptsRecorded(run, steps, n - 1);
      EveryRun(run, steps, n - 1);
      AttemptsRecordedStep(run, steps, n - 1);
    }
  }

  predicate InFlight(t: Thread) {
    t.Loading? || t.Returned?
  }

  lemma AttemptsRecordedStep(run: seq<System>, steps: seq<Step>, n: nat)
    requires IsRun(run, steps) && n < |steps| && run[n].steps == n
    requires InFlightRecorded(run, steps, n) && StoredRecorded(run, steps, n)
    ensures InFlightRecorded(run, steps, n + 1) && StoredRecorded(run, steps, n + 1)
  {
    InFlightStep(run, steps, n);
    StoredRecordedStep(run, steps, n);
  }

  /** An attempt in flight has just begun, or was in flight before. */
  lemma AttemptOrigin(s: System, step: Step, k: nat)
    requires Enabled(s, step) && k < |Next(s, step).threads| && InFlight(Next(s, step).threads[k])
    ensures var a := Next(s, step).threads[k].attempt;
            || (step.Begin? && step.k == k && a.begun == s.steps && s.threads[k].Between? && s.threads[k].names != []
                && a.name == s.threads[k].names[0])
            || (k < |s.threads| && InFlight(s.threads[k]) && s.threads[k].attempt == a)
  {
  }

  lemma InFlightStep(run: seq<System>, steps: seq<Step>, n: nat)
    requires IsRun(run, steps) && n < |steps| && run[n].steps == n && InFlightRecorded(run, steps, n)
    ensures InFlightRecorded(run, steps, n + 1)
  {
    var u := run[n + 1];
    forall k | 0 <= k < |u.threads| && InFlight(u.threads[k])
      ensures u.threads[k].attempt.begun < n + 1
      ensures Begins(run, steps, u.threads[k].attempt.begun, u.threads[k].attempt.name)
    {
      assert StepAt(run, steps, n);
      AttemptOrigin(run[n], steps[n], k);
    }
  }

  lemma StoringStep(s: System, step: Step)
    requires Enabled(s, step)
    ensures var u := Next(s, step);
            if step.Store? then
              var a := s.threads[step.k].attempt;
              u.attempted == s.attempted[a.name := a.begun] && u.stored == s.stored[a.name := s.steps]
            else u.attempted == s.attempted && u.stored == s.stored
  {
  }

  lemma StoredRecordedStep(run: seq<System>, steps: seq<Step>, n: nat)
    requires IsRun(run, steps) && n < |steps| && run[n].steps == n
    requires InFlightRecorded(run, steps, n) && StoredRecorded(run, steps, n)
    ensures StoredRecorded(run, steps, n + 1)
  {
    StoredKeys(run, steps, n);
    var u := run[n + 1];
    forall x | x in u.attempted
      ensures Recorded(run, steps, n + 1, x, u.attempted[x], u.stored[x])
    {
      StoredRecordedFor(run, steps, n, x);
    }
  }

  lemma StoredKeys(run: seq<System>, steps: seq<Step>, n: nat)
    requires IsRun(run, steps) && n < |steps| && run[n].stored.Keys == run[n].attempted.Keys
    ensures run[n + 1].stored.Keys == run[n + 1].attempted.Keys
  {
    assert StepAt(run, steps, n);
    StoringStep(run[n], steps[n]);
  }

  lemma StoredRecordedFor(run: seq<System>, steps: seq<Step>, n: nat, x: string)
    requires IsRun(run, steps) && n < |steps| && run[n].steps == n
    requires InFlightRecorded(run, steps, n) && StoredRecorded(run, steps, n)
    requires x in run[n + 1].attempted && x in run[n + 1].stored
    ensures Recorded(run, steps, n + 1, x, run[n + 1].attempted[x], run[n + 1].stored[x])
  {
    assert StepAt(run, steps, n);
    var (s, step) := (run[n], steps[n]);
    StoringStep(s, step);
    if step.Store? && s.threads[step.k].attempt.name == x {
      StoringRecorded(run, steps, n);
    } else {
      assert Recorded(run, steps, n, x, s.attempted[x], s.stored[x]);
    }
  }

  lemma StoringRecorded(run: seq<System>, steps: seq<Step>, n: nat)
    requires IsRun(run, steps) && n < |steps| && steps[n].Store? && Enabled(run[n], steps[n])
    requires InFlightRecorded(run, steps, n)
    ensures var a := run[n].threads[steps[n].k].attempt; Recorded(run, steps, n + 1, a.name, a.begun, n)
  {
    assert InFlight(run[n].threads[steps[n].k]);
  }

  lemma StoredStep(run: seq<System>, steps: seq<Step>, n: nat, name: string)
    requires IsRun(run, steps) && n < |steps|
    ensures Stores(run, steps, n, name) ==> name in run[n + 1].stored && run[n + 1].stored[name] == n
    ensures !Stores(run, steps, n, name) ==>
              (name in run[n + 1].stored <==> name in run[n].stored)
              && (name in run[n].stored ==> run[n + 1].stored[name] == run[n].stored[name])
  {
    EveryRun(run, steps, n);
    assert StepAt(run, steps, n);
  }

  /** The recorded storing of a source is its last one. */
  lemma {:induction false} LastStored(run: seq<System>, steps: seq<Step>, n: nat, name: string, c: nat)
    requires IsRun(run, steps) && c < n <= |steps| && Stores(run, steps, c, name)
    ensures name in run[n].stored && c <= run[n].stored[name]
    decreases n
  {
    StoredStep(run, steps, n - 1, name);
    if c < n - 1 {
      LastStored(run, steps, n - 1, name, c);
    }
  }

  lemma InvalidatedGrows(s: System, step: Step, name: string)
    requires Inv(s) && Enabled(s, step)
    ensures var u := Next(s, step);
            && (name in s.invalidated ==> name in u.invalidated && s.invalidated[name] <= u.invalidated[name])
            && (Invalidates(step, name) ==> name in u.invalidated && u.invalidated[name] == s.steps)
  {
  }

  lemma InvalidatedStep(run: seq<System>, steps: seq<Step>, n: nat, name: string)
    requires IsRun(run, steps) && n < |steps|
    ensures name in run[n].invalidated ==>
              name in run[n + 1].invalidated && run[n].invalidated[name] <= run[n + 1].invalidated[name]
    ensures Invalidates(steps[n], name) ==> name in run[n + 1].invalidated && run[n + 1].invalidated[name] == n
  {
    EveryRun(run, steps, n);
    assert StepAt(run, steps, n);
    InvalidatedGrows(run[n], steps[n], name);
  }

  /** and of the invalidations. */
  lemma {:induction false} InvalidationRecorded(run: seq<System>, steps: seq<Step>, m: nat, n: nat, name: string)
    requires IsRun(run, steps) && m < n <= |steps| && Invalidates(steps[m], name)
    ensures name in run[n].invalidated && m <= run[n].invalidated[name]
    decreases n
  {
    InvalidatedStep(run, steps, n - 1, name);
    if m < n - 1 {
      InvalidationRecorded(run, steps, m, n - 1, name);
    }
  }

  /** Step `b` is the last to store `name` before step `n`, and what it stored began at step `a`. */
  ghost predicate ShownFrom(run: seq<System>, steps: seq<Step>, n: nat, name: string, a: nat, b: nat)
    requires |run| == |steps| + 1
  {
    && Recorded(run, steps, n, name, a, b)
    && forall c :: b < c < n ==> !Stores(run, steps, c, name)
  }

  /** No invalidation is lost, whatever was in flight when it came: at any later moment the source is
      due at once, or what is shown of it was stored by a load attempt that began afterwards. */
  lemma NoInvalidationLost(run: seq<System>, steps: seq<Step>, m: nat, n: nat, name: string, now: int)
    requires IsRun(run, steps) && m < n <= |steps| && Invalidates(steps[m], name) && now >= 0
    ensures Due(run[n].cache, name, now) || exists a, b :: m < a && ShownFrom(run, steps, n, name, a, b)
  {
    EveryRun(run, steps, n);
    AttemptsRecorded(run, steps, n);
    InvalidationRecorded(run, steps, m, n, name);
    if !Due(run[n].cache, name, now) {
      var a, b := run[n].attempted[name], run[n].stored[name];
      forall c | b < c < n
        ensures !Stores(run, steps, c, name)
      {
        if Stores(run, steps, c, name) {
          LastStored(run, steps, n, name, c);
        }
      }
      assert m < a && ShownFrom(run, steps, n, name, a, b);
    }
  }

  lemma InvalidatesStep(s: System, step: Step, name: string)
    requires Enabled(s, step)
    ensures var u := Next(s, step);
            (name in u.invalidated <==> name in s.invalidated || Invalidates(step, name))
            && (name in u.invalidated ==>
                  u.invalidated[name] == if Invalidates(step, name) then s.steps else s.invalidated[name])
  {
  }

  /** The recorded invalidation of a source is a step that invalidated it. */
  lemma {:induction false} InvalidationIsStep(run: seq<System>, steps: seq<Step>, n: nat, name: string)
    requires IsRun(run, steps) && n <= |steps| && name in run[n].invalidated
    ensures run[n].invalidated[name] < n && Invalidates(steps[run[n].invalidated[name]], name)
    decreases n
  {
    assert StepAt(run, steps, n - 1);
    EveryRun(run, steps, n - 1);
    InvalidatesStep(run[n - 1], steps[n - 1], name);
    if !Invalidates(steps[n - 1], name) {
      InvalidationIsStep(run, steps, n - 1, name);
    }
  }

  /** The source was invalidated after step `a` and before step `n`. */
  predicate InvalidatedSince(steps: seq<Step>, a: nat, n: nat, name: string)
    requires n <= |steps|
  {
    exists m :: a < m < n && Invalidates(steps[m], name)
  }

  lemma SinceIsRecorded(run: seq<System>, steps: seq<Step>, a: nat, n: nat, name: string)
    requires IsRun(run, steps) && a < n <= |steps| && !Invalidates(steps[a], name)
    ensures InvalidatedSince(steps, a, n, name) <==> name in run[n].invalidated && run[n].invalidated[name] >= a
  {
    if m :| a < m < n && Invalidates(steps[m], name) {
      InvalidationRecorded(run, steps, m, n, name);
    }
    if name in run[n].invalidated && run[n].invalidated[name] >= a {
      InvalidationIsStep(run, steps, n, name);
    }
  }

  /** When a source is due again: a lifetime after its last successful load, 15 seconds after a failed
      one, at once if it was invalidated after that load began. */
  ghost function DueFrom(run: seq<System>, steps: seq<Step>, n: nat, name: string): Option<int>
    requires |run| == |steps| + 1 && n <= |steps| && name in TTLS
  {
    if n == 0 then None
    else if Stores(run, steps, n - 1, name) then
      var t := run[n - 1].threads[steps[n - 1].k];
      Some(if InvalidatedSince(steps, t.attempt.begun, n - 1, name) then 0
           else t.attempt.collectedAt + if t.result.Some? then TTLS[name] else RETRY_SECONDS)
    else
      var before := DueFrom(run, steps, n - 1, name);
      if before.Some? && Invalidates(steps[n - 1], name) then Some(0) else before
  }

  lemma DeadlineStep(s: System, step: Step, name: string)
    requires Inv(s) && Enabled(s, step) && !(step.Store? && s.threads[step.k].attempt.name == name)
    ensures var u := Next(s, step);
            && (name in u.cache.items <==> name in s.cache.items)
            && (name in s.cache.items ==>
                  u.cache.items[name].nextRefresh
                  == if Invalidates(step, name) then 0 else s.cache.items[name].nextRefresh)
  {
    if step.Invalidate? {
      InvalidateMeans(s.cache, step.names);
    }
  }

  lemma DeadlineStored(s: System, k: nat)
    requires Inv(s) && Enabled(s, Store(k))
    ensures var (a, result, u) := (s.threads[k].attempt, s.threads[k].result, Next(s, Store(k)));
            && a.name in u.cache.items
            && u.cache.items[a.name].nextRefresh
               == if a.name in s.invalidated && s.invalidated[a.name] >= a.begun then 0
                  else a.collectedAt + if result.Some? then TTLS[a.name] else RETRY_SECONDS
  {
    assert ThreadFits(s, s.threads[k]);
  }

  /** In every run a source is due from exactly that moment on, and always if it was never loaded. */
  lemma {:induction false} DueExactly(run: seq<System>, steps: seq<Step>, n: nat, name: string)
    requires IsRun(run, steps) && n <= |steps| && name in TTLS
    ensures name in run[n].cache.items <==> DueFrom(run, steps, n, name).Some?
    ensures name in run[n].cache.items ==>
              run[n].cache.items[name].nextRefresh == DueFrom(run, steps, n, name).value
    ensures forall now ::
              Due(run[n].cache, name, now) <==>
                DueFrom(run, steps, n, name).None? || DueFrom(run, steps, n, name).value <= now
    decreases n
  {
    if n > 0 {
      DueExactly(run, steps, n - 1, name);
      EveryRun(run, steps, n - 1);
      assert StepAt(run, steps, n - 1);
      if Stores(run, steps, n - 1, name) {
        var k := steps[n - 1].k;
        AttemptsRecorded(run, steps, n - 1);
        assert InFlight(run[n - 1].threads[k]);
        DeadlineStored(run[n - 1], k);
        SinceIsRecorded(run, steps, run[n - 1].threads[k].attempt.begun, n - 1, name);
      } else {
        DeadlineStep(run[n - 1], steps[n - 1], name);
      }
    }
  }

  /** What the last stored attempts of a source left: the data and time of the last successful one,
      and whether the last one failed. */
  datatype Kept = Kept(data: Json, collectedAt: int, failed: bool)

  function LastKept(run: seq<System>, steps: seq<Step>, n: nat, name: string): Option<Kept>
    requires |run| == |steps| + 1 && n <= |steps|
  {
    if n == 0 then None
    else
      var before := LastKept(run, steps, n - 1, name);
      if Stores(run, steps, n - 1, name) then
        var t := run[n - 1].threads[steps[n - 1].k];
        AfterAttempt(before, t.attempt, t.result)
      else before
  }

  function AfterAttempt(before: Option<Kept>, a: Attempt, result: Option<Json>): Option<Kept> {
    match result
    case Some(data) => Some(Kept(data, a.collectedAt, false))
    case None => Some(if before.Some? then before.value.(failed := true) else Kept(Null, 0, true))
  }

  /** What the cache holds of a source. */
  function Holds(c: Cache, name: string): Option<Kept> {
    if name !in c.items then None
    else Some(Kept(c.items[name].data, c.items[name].collectedAt, c.items[name].error != ""))
  }

  lemma HoldsStep(s: System, step: Step, name: string)
    requires Enabled(s, step)
    ensures Holds(Next(s, step).cache, name) ==
            if step.Store? && s.threads[step.k].attempt.name == name
            then AfterAttempt(Holds(s.cache, name), s.threads[step.k].attempt, s.threads[step.k].result)
            else Holds(s.cache, name)
  {
    if step.Invalidate? {
      InvalidateMeans(s.cache, step.names);
    }
  }

  /** In every run, a source shows the data and time of its last successful load, with an error
      exactly when an attempt has failed since. */
  lemma {:induction false} OldDataKept(run: seq<System>, steps: seq<Step>, n: nat, name: string)
    requires IsRun(run, steps) && n <= |steps|
    ensures Holds(run[n].cache, name) == LastKept(run, steps, n, name)
  {
    if n > 0 {
      OldDataKept(run, steps, n - 1, name);
      assert StepAt(run, steps, n - 1);
      HoldsStep(run[n - 1], steps[n - 1], name);
    }
  }

  /** What a reader sees as not stale is the result of the last attempt, which succeeded, and is
      younger than its lifetime unless a refresh that includes it is at work. */
  lemma FreshMeansFresh(run: seq<System>, steps: seq<Step>, n: nat, name: string, now: int)
    requires IsRun(run, steps) && n <= |steps| && name in TTLS
    requires !View(run[n].cache, now).sources[name].stale
    ensures var kept := LastKept(run, steps, n, name);
            && kept.Some? && !kept.value.failed
            && View(run[n].cache, now).sources[name].data == kept.value.data
            && (now - kept.value.collectedAt < TTLS[name]
                || (name in run[n].cache.sources && !run[n].cache.done))
  {
    EveryRun(run, steps, n);
    OldDataKept(run, steps, n, name);
  }
}
