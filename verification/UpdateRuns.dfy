/** Every sequence of operations on the prepared updates (portal/app/storage.py). */
module UpdateRuns {
  import opened Bytes
  import opened PortalStorage

  /** The table and every identifier that was ever published: identifiers are random tokens, taken
      never to repeat. */
  datatype System = System(rows: Updates, issued: set<string>)

  datatype Step =
    | Publish(now: int, id: string, archive: string, details: string)
    | Claim(now: int, id: string)
    | Release(now: int, id: string)
    | Finish(now: int, id: string)
    | Discard(id: string)
    | Remove(archive: string)

  predicate Enabled(s: System, step: Step) {
    step.Publish? ==> step.id !in s.issued
  }

  function Next(s: System, step: Step): System {
    match step
    case Publish(now, id, archive, details) =>
      System(AfterPublish(s.rows, now, id, archive, details), s.issued + {id})
    case Claim(now, id) => s.(rows := AfterClaim(s.rows, now, id))
    case Release(now, id) => s.(rows := AfterRelease(s.rows, now, id))
    case Finish(now, id) => s.(rows := AfterFinish(s.rows, now, id))
    case Discard(id) => s.(rows := AfterDiscard(s.rows, id))
    case Remove(archive) => s.(rows := AfterRemove(s.rows, archive))
  }

  /** Step `i` can be taken and leads to the next state. */
  predicate StepAt(run: seq<System>, steps: seq<Step>, i: int) {
    0 <= i < |steps| && |run| == |steps| + 1 && Enabled(run[i], steps[i]) && run[i + 1] == Next(run[i], steps[i])
  }

  ghost predicate IsRun(run: seq<System>, steps: seq<Step>) {
    && |run| == |steps| + 1 && run[0] == System(map[], {})
    && forall i :: 0 <= i < |steps| ==> StepAt(run, steps, i)
  }

  predicate ArchivesUnique(u: Updates) {
    forall a, b :: a in u && b in u && u[a].archive == u[b].archive ==> a == b
  }

  predicate Inv(s: System) {
    && ArchivesUnique(s.rows)
    && forall id :: id in s.rows ==> id in s.issued
  }

  lemma StepKept(s: System, step: Step)
    requires Inv(s) && Enabled(s, step)
    ensures Inv(Next(s, step))
  {
  }

  lemma {:induction false} EveryRun(run: seq<System>, steps: seq<Step>, n: nat)
    requires IsRun(run, steps) && n <= |steps|
    ensures Inv(run[n])
  {
    if n > 0 {
      EveryRun(run, steps, n - 1);
      assert StepAt(run, steps, n - 1);
      StepKept(run[n - 1], steps[n - 1]);
    }
  }

  // ---- no collision ----------------------------------------------------------------------

  /** In every reachable table archives are unique, and a publication inserts its row unless its
      archive is being started: it never violates the table's constraints. */
  lemma PublishNeverCollides(run: seq<System>, steps: seq<Step>, n: nat)
    requires IsRun(run, steps) && n < |steps| && steps[n].Publish?
    ensures var (u, step) := (run[n].rows, steps[n]);
            && ArchivesUnique(u)
            && (ArchiveBusy(u, step.archive) || Insertable(Remaining(u, step.archive), step.id, step.archive))
            && (Has(run[n + 1].rows, step.id, Ready) <==> !ArchiveBusy(u, step.archive))
            && (ArchiveBusy(u, step.archive) ==> run[n + 1].rows == u)
  {
    EveryRun(run, steps, n);
    assert StepAt(run, steps, n);
    var (u, step) := (run[n].rows, steps[n]);
    if !ArchiveBusy(u, step.archive) {
      forall other | other in Remaining(u, step.archive)
        ensures u[other].archive != step.archive
      {
        assert u[other].status == Starting ==> !BusyRow(u, step.archive, other);
      }
    }
  }

  // ---- the life of one update ------------------------------------------------------------

  function StatusOf(s: System, id: string): Option<Status> {
    if id in s.rows then Some(s.rows[id].status) else None
  }

  /** The statuses an update has gone through, in order, without repetitions and gaps. */
  function Statuses(run: seq<System>, n: nat, id: string): seq<Status>
    requires n < |run|
  {
    Extended(if n == 0 then [] else Statuses(run, n - 1, id), StatusOf(run[n], id))
  }

  function Extended(statuses: seq<Status>, status: Option<Status>): seq<Status> {
    if status.None? || (statuses != [] && statuses[|statuses| - 1] == status.value) then statuses
    else statuses + [status.value]
  }

  /** (ready, starting)*, optionally ready, or ending in started. */
  predicate Proper(statuses: seq<Status>) {
    forall i :: 0 <= i < |statuses| ==>
      if i % 2 == 1 then statuses[i] == Starting
      else statuses[i] == Ready || (statuses[i] == Started && i == |statuses| - 1 && i >= 2)
  }

  /** How one step may change the row of `id`. */
  predicate Allowed(before: Option<Status>, after: Option<Status>) {
    match (before, after)
    case (_, None) => true
    case (None, Some(status)) => status == Ready
    case (Some(Ready), Some(status)) => status != Started
    case (Some(Starting), Some(_)) => true
    case (Some(Started), Some(status)) => status == Started
  }

  lemma StepAllowed(s: System, step: Step, id: string)
    requires Inv(s) && Enabled(s, step)
    ensures Allowed(StatusOf(s, id), StatusOf(Next(s, step), id))
    ensures id in s.issued && id !in s.rows ==> id !in Next(s, step).rows
    ensures id in s.issued ==> id in Next(s, step).issued
    ensures id in Next(s, step).rows ==> id in Next(s, step).issued
  {
  }

  lemma ExtendedProper(statuses: seq<Status>, before: Option<Status>, after: Option<Status>)
    requires Proper(statuses) && Allowed(before, after)
    requires before.Some? ==> statuses != [] && statuses[|statuses| - 1] == before.value
    requires before.None? && after.Some? ==> statuses == []
    ensures var r := Extended(statuses, after);
            Proper(r) && (after.Some? ==> r != [] && r[|r| - 1] == after.value)
  {
  }

  lemma RunStep(run: seq<System>, steps: seq<Step>, n: nat)
    requires IsRun(run, steps) && n < |steps|
    ensures Inv(run[n]) && Enabled(run[n], steps[n]) && run[n + 1] == Next(run[n], steps[n])
  {
    EveryRun(run, steps, n);
    assert StepAt(run, steps, n);
  }

  /** In every run, each update's statuses are (ready, starting)*, possibly ending in started, and
      the last one is its status while it is in the table. */
  lemma {:induction false} ProperLives(run: seq<System>, steps: seq<Step>, n: nat, id: string)
    requires IsRun(run, steps) && n <= |steps|
    ensures var statuses := Statuses(run, n, id);
            && Proper(statuses)
            && (id in run[n].rows ==> statuses != [] && statuses[|statuses| - 1] == run[n].rows[id].status)
            && (statuses != [] ==> id in run[n].issued)
  {
    if n > 0 {
      ProperLives(run, steps, n - 1, id);
      RunStep(run, steps, n - 1);
      var (s, u) := (run[n - 1], run[n]);
      StepAllowed(s, steps[n - 1], id);
      ExtendedProper(Statuses(run, n - 1, id), StatusOf(s, id), StatusOf(u, id));
    }
  }

  /** Once an update has left the table it never comes back. */
  lemma {:induction false} NeverComesBack(run: seq<System>, steps: seq<Step>, m: nat, n: nat, id: string)
    requires IsRun(run, steps) && m <= n <= |steps| && id in run[m].issued && id !in run[m].rows
    ensures id in run[n].issued && id !in run[n].rows
    decreases n
  {
    if m < n {
      NeverComesBack(run, steps, m, n - 1, id);
      RunStep(run, steps, n - 1);
      StepAllowed(run[n - 1], steps[n - 1], id);
    }
  }

  // ---- one claim at a time ---------------------------------------------------------------

  predicate Claims(s: System, step: Step, id: string) {
    step.Claim? && step.id == id && Has(s.rows, id, Ready)
  }

  predicate Releases(s: System, step: Step, id: string) {
    step.Release? && step.id == id && Has(s.rows, id, Starting)
  }

  /** Between a successful claim and the next successful release the row is not ready. */
  lemma {:induction false} NotReadyUntilReleased(run: seq<System>, steps: seq<Step>, m: nat, n: nat, id: string)
    requires IsRun(run, steps) && m < n <= |steps| && Claims(run[m], steps[m], id)
    requires forall k :: m < k < n ==> !Releases(run[k], steps[k], id)
    ensures !Has(run[n].rows, id, Ready) && id in run[n].issued
    decreases n
  {
    EveryRun(run, steps, n - 1);
    assert StepAt(run, steps, n - 1);
    if m < n - 1 {
      NotReadyUntilReleased(run, steps, m, n - 1, id);
    }
  }

  /** One winner: of two successful claims of an update, the first was released in between. */
  lemma ClaimedOnce(run: seq<System>, steps: seq<Step>, m: nat, n: nat, id: string)
    requires IsRun(run, steps) && m < n < |steps|
    requires Claims(run[m], steps[m], id) && Claims(run[n], steps[n], id)
    ensures exists k :: m < k < n && Releases(run[k], steps[k], id)
  {
    if forall k :: m < k < n ==> !Releases(run[k], steps[k], id) {
      NotReadyUntilReleased(run, steps, m, n, id);
    }
  }

  // ---- how many are ready ----------------------------------------------------------------

  ghost predicate OneReady(u: Updates) {
    forall a, b :: Has(u, a, Ready) && Has(u, b, Ready) ==> a == b
  }

  /** A second ready row appears exactly when an update is released while another one is ready. */
  lemma SecondReady(s: System, step: Step)
    requires Inv(s) && Enabled(s, step) && OneReady(s.rows)
    ensures OneReady(Next(s, step).rows) <==>
            !(step.Release? && Has(s.rows, step.id, Starting) && exists other :: Has(s.rows, other, Ready))
  {
    var t := Next(s, step).rows;
    if step.Release? && Has(s.rows, step.id, Starting) {
      if other :| Has(s.rows, other, Ready) {
        assert Has(t, other, Ready) && Has(t, step.id, Ready);
      } else {
        forall a, b | Has(t, a, Ready) && Has(t, b, Ready)
          ensures a == b
        {
          assert !Has(s.rows, a, Ready) && !Has(s.rows, b, Ready);
        }
      }
    } else {
      forall a, b | Has(t, a, Ready) && Has(t, b, Ready)
        ensures a == b
      {
        if !step.Publish? {
          assert Has(s.rows, a, Ready) && Has(s.rows, b, Ready);
        }
      }
    }
  }

  lemma PublishFirst(a: string, x: string, details: string, now: int)
    ensures var row := NewRow(x, details, now);
            && Next(System(map[], {}), Publish(now, a, x, details)) == System(map[a := row], {a})
            && Next(System(map[a := row], {a}), Claim(now, a)) == System(map[a := row.(status := Starting)], {a})
  {
    assert Remaining(map[], x) == map[];
  }

  lemma PublishSecond(a: string, b: string, x: string, y: string, details: string, now: int)
    requires a != b && x != y
    ensures var (row, other) := (NewRow(x, details, now), NewRow(y, details, now));
            var s := System(map[a := row.(status := Starting)], {a});
            var t := System(map[a := row.(status := Starting), b := other], {a, b});
            && Next(s, Publish(now, b, y, details)) == t
            && Next(t, Release(now, a)) == System(map[a := row, b := other], {a, b})
  {
    var claimed := map[a := NewRow(x, details, now).(status := Starting)];
    assert Remaining(claimed, y) == claimed;
    assert !ArchiveBusy(claimed, y);
    assert {a} + {b} == {a, b};
  }

  /** And it does happen: claim one, publish another, release the first. */
  lemma TwoReady(a: string, b: string, x: string, y: string, details: string, now: int)
    requires a != b && x != y
    ensures exists run: seq<System>, steps: seq<Step> ::
              IsRun(run, steps) && Has(run[|steps|].rows, a, Ready) && Has(run[|steps|].rows, b, Ready)
  {
    PublishFirst(a, x, details, now);
    PublishSecond(a, b, x, y, details, now);
    var (row, other) := (NewRow(x, details, now), NewRow(y, details, now));
    var steps := [Publish(now, a, x, details), Claim(now, a), Publish(now, b, y, details), Release(now, a)];
    var run := [System(map[], {}), System(map[a := row], {a}), System(map[a := row.(status := Starting)], {a}),
                System(map[a := row.(status := Starting), b := other], {a, b}),
                System(map[a := row, b := other], {a, b})];
    assert IsRun(run, steps) && Has(run[4].rows, a, Ready) && Has(run[4].rows, b, Ready);
  }
}
