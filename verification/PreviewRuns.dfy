/** Previews and commits against a store that others change at any moment
    (portal/control/migration.py, tools/kvnlib/runtime/migration.py, tools/kvnlib/core/io.py):
    whatever is interleaved, what a commit writes is what its preview showed. */
module PreviewRuns {
  import opened Bytes
  import opened Json
  import opened MigrationSchema
  import opened MigrationPlan
  import opened MigrationExport
  import opened MigrationPreviews
  import S = StateStore

  /** The fixed surroundings: the planner, the identity check, the final check of a candidate, the
      limits. The machine works for any planner; `Agent` is the one that runs. */
  datatype Env = Env(
    plan: (Json, Json, Mode) -> PlanResult,
    complete: Json -> bool,
    accepts: Json -> bool,
    ttl: int,
    capacity: nat)

  ghost function Agent(ext: Ext, accepts: Json -> bool, ttl: int, capacity: nat): Env {
    Env((state, envelope, mode) => Plan(ext, state, envelope, mode), envelope => IdentityComplete(ext, envelope),
        accepts, ttl, capacity)
  }

  /** What a preview recorded and the state it was computed from. */
  datatype Registration = Registration(entry: Entry, seen: Json)

  /** `running` are the entries handed to the commit callback whose transaction has not run;
      `shown` are the states the store has held. */
  datatype System = System(
    now: int,
    state: Json,
    shown: set<Json>,
    table: Table,
    registered: map<string, Registration>,
    running: map<string, Entry>)

  datatype Step =
    | Tick(now: int)
    | Others(other: Json)
    | Preview(issued: string, claimant: string, sealed: Blob, envelope: Json, mode: Mode, seen: Json, purged: int)
    | Commit(id: Option<string>, owner: Option<string>, archive: Option<Blob>)
    | Cancel(id: Option<string>, owner: Option<string>)
    | Timer(key: string)
    | Transaction(key: string, backedUp: bool)

  function Start(now: int, state: Json): System {
    System(now, state, {state}, map[], map[], map[])
  }

  function DigestOf(archive: Option<Blob>): ArchiveDigest {
    if archive.Some? then Sha256(archive.value) else NotBytes
  }

  /** The mutator of `commit_migration`: plan again, check again. */
  ghost function Migrate(env: Env, e: Entry): Json -> S.Mutation {
    (state: Json) =>
      match env.plan(state, e.envelope, e.mode)
      case Planned(candidate) => if env.accepts(candidate) then S.Replacement(candidate) else S.Raises
      case _ => S.Raises
  }

  ghost function Outcome(env: Env, s: System, e: Entry): S.Outcome {
    S.Transact(s.state, Migrate(env, e), Some(e.revision))
  }

  ghost predicate Enabled(env: Env, s: System, step: Step) {
    match step
    case Tick(now) => s.now <= now
    case Preview(issued, claimant, sealed, envelope, mode, seen, purged) =>
      && issued !in s.registered
      && claimant != "" && sealed != [] && |sealed| <= 2 * MAX_JSON_BYTES
      && env.complete(envelope)
      && seen in s.shown
      && env.plan(seen, envelope, mode).Planned?
      && env.accepts(env.plan(seen, envelope, mode).state)
      && purged <= s.now
    case Transaction(id, _) => id in s.running
    case _ => true
  }

  function EntryOf(env: Env, s: System, step: Step): Entry
    requires step.Preview?
  {
    Entry(step.claimant, Sha256(step.sealed), Revision(step.seen), step.mode, s.now + env.ttl, step.envelope)
  }

  ghost function Next(env: Env, s: System, step: Step): System
    requires Enabled(env, s, step)
  {
    match step
    case Tick(now) => s.(now := now)
    case Others(state) => s.(state := state, shown := s.shown + {state})
    case Preview(id, _, _, _, _, seen, purged) =>
      var e := EntryOf(env, s, step);
      var t := AfterRegister(s.table, purged, env.capacity, id, e);
      s.(table := t,
         registered := if |Live(s.table, purged)| < env.capacity then s.registered[id := Registration(e, seen)]
                       else s.registered)
    case Commit(id, owner, archive) =>
      var digest := DigestOf(archive);
      s.(table := AfterRedeem(s.table, s.now, id, owner, digest),
         running := if Redeemable(s.table, s.now, id, owner, digest) then s.running[id.value := s.table[id.value]]
                    else s.running)
    case Cancel(id, owner) => s.(table := AfterCancel(s.table, s.now, id, owner))
    case Timer(id) => s.(table := AfterTimer(s.table, s.now, id))
    case Transaction(id, backedUp) =>
      // Nothing is replaced before the backup of the old state succeeded.
      var state := if backedUp then S.StateAfter(s.state, Outcome(env, s, s.running[id])) else s.state;
      s.(state := state, shown := s.shown + {state}, running := s.running - {id})
  }

  /** Step `i` can be taken and leads to the next state. */
  ghost predicate StepAt(env: Env, run: seq<System>, steps: seq<Step>, i: int) {
    && 0 <= i < |steps| && |run| == |steps| + 1
    && Enabled(env, run[i], steps[i]) && run[i + 1] == Next(env, run[i], steps[i])
  }

  ghost predicate IsRun(env: Env, run: seq<System>, steps: seq<Step>) {
    && |run| == |steps| + 1
    && (exists now, state :: run[0] == Start(now, state))
    && forall i :: 0 <= i < |steps| ==> StepAt(env, run, steps, i)
  }

  /** The step hands the entry of `id` to the commit callback. */
  predicate HandsOver(s: System, step: Step, id: string) {
    step.Commit? && step.id == Some(id) && Redeemable(s.table, s.now, step.id, step.owner, DigestOf(step.archive))
  }

  // ---- the invariant ---------------------------------------------------------------------

  /** A registration is what its preview computed from the state it saw. */
  ghost predicate Faithful(env: Env, r: Registration) {
    && r.entry.revision == Revision(r.seen)
    && env.complete(r.entry.envelope)
    && env.plan(r.seen, r.entry.envelope, r.entry.mode).Planned?
    && env.accepts(env.plan(r.seen, r.entry.envelope, r.entry.mode).state)
  }

  ghost predicate Inv(env: Env, s: System) {
    && |s.table| <= env.capacity
    && s.state in s.shown
    && (forall id :: id in s.registered ==> Faithful(env, s.registered[id]))
    && (forall id :: id in s.table ==> id in s.registered && s.registered[id].entry == s.table[id] && id !in s.running)
    && (forall id :: id in s.running ==> id in s.registered && s.registered[id].entry == s.running[id])
  }

  lemma SubmapSize(t: Table, u: Table)
    requires forall k :: k in u ==> k in t
    ensures |u| <= |t|
  {
    SubsetSize(u.Keys, t.Keys);
    assert |u| == |u.Keys| && |t| == |t.Keys|;
  }

  lemma {:induction false} SubsetSize(a: set<string>, b: set<string>)
    requires a <= b
    ensures |a| <= |b|
  {
    if a != {} {
      var x :| x in a;
      SubsetSize(a - {x}, b - {x});
    }
  }

  /** Steps that only remove entries, and commits, which also hand one over. */
  lemma RemovalKept(env: Env, s: System, t: System)
    requires Inv(env, s)
    requires t.registered == s.registered && t.state in t.shown
    requires forall k :: k in t.table ==> k in s.table && t.table[k] == s.table[k] && k !in t.running
    requires forall k :: k in t.running ==>
      (k in s.running && t.running[k] == s.running[k]) || (k in s.table && t.running[k] == s.table[k])
    ensures Inv(env, t)
  {
    SubmapSize(s.table, t.table);
  }

  lemma PreviewKept(env: Env, s: System, step: Step)
    requires Inv(env, s) && Enabled(env, s, step) && step.Preview?
    ensures Inv(env, Next(env, s, step))
  {
    var live := Live(s.table, step.purged);
    SubmapSize(s.table, live);
    var t := Next(env, s, step);
    var e := EntryOf(env, s, step);
    assert Faithful(env, Registration(e, step.seen));
    if |live| < env.capacity {
      assert t.table == live[step.issued := e];
      assert t.registered == s.registered[step.issued := Registration(e, step.seen)];
    } else {
      assert t.table == live && t.registered == s.registered;
    }
  }

  lemma RedeemedTable(t: Table, now: int, id: Option<string>, owner: Option<string>, digest: ArchiveDigest)
    ensures var u := AfterRedeem(t, now, id, owner, digest);
            && (forall k :: k in u ==> k in t && u[k] == t[k])
            && (Redeemable(t, now, id, owner, digest) ==> id.value in t && id.value !in u)
  {
  }

  lemma CommitKept(env: Env, s: System, step: Step)
    requires Inv(env, s) && step.Commit?
    ensures Inv(env, Next(env, s, step))
  {
    var digest := DigestOf(step.archive);
    var table := AfterRedeem(s.table, s.now, step.id, step.owner, digest);
    RedeemedTable(s.table, s.now, step.id, step.owner, digest);
    if Redeemable(s.table, s.now, step.id, step.owner, digest) {
      HandOverKept(env, s, table, step.id.value);
      assert Next(env, s, step) == s.(table := table, running := s.running[step.id.value := s.table[step.id.value]]);
    } else {
      RemovalKept(env, s, s.(table := table));
      assert Next(env, s, step) == s.(table := table);
    }
  }

  lemma HandOverKept(env: Env, s: System, table: Table, id: string)
    requires Inv(env, s) && id in s.table && id !in table
    requires forall k :: k in table ==> k in s.table && table[k] == s.table[k]
    ensures Inv(env, s.(table := table, running := s.running[id := s.table[id]]))
  {
    RemovalKept(env, s, s.(table := table, running := s.running[id := s.table[id]]));
  }

  lemma TransactionKept(env: Env, s: System, step: Step)
    requires Inv(env, s) && step.Transaction? && step.key in s.running
    ensures Inv(env, Next(env, s, step))
  {
    RemovalKept(env, s, Next(env, s, step));
  }

  lemma DropKept(env: Env, s: System, step: Step)
    requires Inv(env, s) && (step.Cancel? || step.Timer?)
    ensures Inv(env, Next(env, s, step))
  {
    RemovalKept(env, s, Next(env, s, step));
  }

  lemma StepKept(env: Env, s: System, step: Step)
    requires Inv(env, s) && Enabled(env, s, step)
    ensures Inv(env, Next(env, s, step))
  {
    match step
    case Preview(_, _, _, _, _, _, _) => PreviewKept(env, s, step);
    case Commit(_, _, _) => CommitKept(env, s, step);
    case Cancel(_, _) => DropKept(env, s, step);
    case Timer(_) => DropKept(env, s, step);
    case Transaction(_, _) => TransactionKept(env, s, step);
    case _ =>
  }

  lemma {:induction false} EveryRun(env: Env, run: seq<System>, steps: seq<Step>, n: nat)
    requires IsRun(env, run, steps) && n <= |steps|
    ensures Inv(env, run[n])
  {
    if n > 0 {
      EveryRun(env, run, steps, n - 1);
      assert StepAt(env, run, steps, n - 1);
      StepKept(env, run[n - 1], steps[n - 1]);
    }
  }

  // ---- the guarantees --------------------------------------------------------------------

  lemma CapacityRespected(env: Env, run: seq<System>, steps: seq<Step>, n: nat)
    requires IsRun(env, run, steps) && n <= |steps|
    ensures |run[n].table| <= env.capacity
  {
    EveryRun(env, run, steps, n);
  }

  /** An identifier that was registered stays known under the same registration, and once it has
      left the table it never returns. */
  lemma {:induction false} NeverReturns(env: Env, run: seq<System>, steps: seq<Step>, m: nat, n: nat, id: string)
    requires IsRun(env, run, steps) && m <= n <= |steps| && id in run[m].registered
    ensures id in run[n].registered && run[n].registered[id] == run[m].registered[id]
    ensures id !in run[m].table ==> id !in run[n].table
    decreases n - m
  {
    if m < n {
      NeverReturns(env, run, steps, m, n - 1, id);
      assert StepAt(env, run, steps, n - 1);
    }
  }

  /** A preview reaches the commit callback only for its owner, with its archive and before it
      expires, carrying exactly what was recorded. */
  lemma HandedOverAsRecorded(env: Env, run: seq<System>, steps: seq<Step>, n: nat, id: string)
    requires IsRun(env, run, steps) && n < |steps| && HandsOver(run[n], steps[n], id)
    ensures id in run[n].registered && id in run[n + 1].registered
    ensures var e := run[n].registered[id].entry;
            && steps[n].owner == Some(e.owner) && DigestOf(steps[n].archive) == e.digest && run[n].now < e.expires
            && id in run[n + 1].running && run[n + 1].running[id] == e && id !in run[n + 1].table
  {
    EveryRun(env, run, steps, n);
    assert StepAt(env, run, steps, n);
  }

  /** The step uses up the preview of `id`: its owner commits it with its archive, or cancels it. */
  predicate UsesUp(step: Step, id: string, e: Entry) {
    || (step.Commit? && step.id == Some(id) && step.owner == Some(e.owner) && DigestOf(step.archive) == e.digest)
    || (step.Cancel? && step.id == Some(id) && step.owner == Some(e.owner))
  }

  lemma TimePasses(env: Env, run: seq<System>, steps: seq<Step>, m: nat, n: nat)
    requires IsRun(env, run, steps) && m <= n <= |steps|
    ensures run[m].now <= run[n].now
    decreases n - m
  {
    if m < n {
      TimePasses(env, run, steps, m, n - 1);
      assert StepAt(env, run, steps, n - 1);
    }
  }

  lemma CommitLeaves(t: Table, now: int, step: Step, k: string)
    requires step.Commit? && k in t && now < t[k].expires && !UsesUp(step, k, t[k])
    ensures var u := AfterRedeem(t, now, step.id, step.owner, DigestOf(step.archive)); k in u && u[k] == t[k]
  {
  }

  lemma CancelLeaves(t: Table, now: int, step: Step, k: string)
    requires step.Cancel? && k in t && now < t[k].expires && !UsesUp(step, k, t[k])
    ensures var u := AfterCancel(t, now, step.id, step.owner); k in u && u[k] == t[k]
  {
  }

  lemma RegisterLeaves(t: Table, now: int, capacity: nat, id: string, e: Entry, k: string)
    requires k in t && now < t[k].expires && k != id
    ensures var u := AfterRegister(t, now, capacity, id, e); k in u && u[k] == t[k]
  {
  }

  /** A step that does not use up a live preview leaves it in the table. */
  lemma LiveStays(env: Env, s: System, step: Step, id: string)
    requires Inv(env, s) && Enabled(env, s, step) && id in s.table
    requires s.now < s.table[id].expires && !UsesUp(step, id, s.table[id])
    ensures id in Next(env, s, step).table && Next(env, s, step).table[id] == s.table[id]
  {
    if step.Commit? {
      CommitLeaves(s.table, s.now, step, id);
    } else if step.Cancel? {
      CancelLeaves(s.table, s.now, step, id);
    } else if step.Preview? {
      RegisterLeaves(s.table, step.purged, env.capacity, step.issued, EntryOf(env, s, step), id);
    }
  }

  lemma {:induction false} StaysUntilUsed(env: Env, run: seq<System>, steps: seq<Step>, m: nat, n: nat, id: string)
    requires IsRun(env, run, steps) && m <= n <= |steps| && id in run[m].table
    requires run[n].now < run[m].table[id].expires
    requires forall j :: m <= j < n ==> !UsesUp(steps[j], id, run[m].table[id])
    ensures id in run[n].table && run[n].table[id] == run[m].table[id]
    decreases n - m
  {
    if m < n {
      TimePasses(env, run, steps, n - 1, n);
      StaysUntilUsed(env, run, steps, m, n - 1, id);
      EveryRun(env, run, steps, n - 1);
      assert StepAt(env, run, steps, n - 1);
      LiveStays(env, run[n - 1], steps[n - 1], id);
    }
  }

  /** A preview may be made of any archive that is complete, by any owner, against any state the store
      has held for which there is a plan that passes the final check; nothing else is asked. */
  lemma PreviewPossible(env: Env, s: System, step: Step)
    requires step.Preview?
    ensures Enabled(env, s, step) <==>
              && step.issued !in s.registered && step.purged <= s.now && step.seen in s.shown
              && step.claimant != "" && 0 < |step.sealed| <= 2 * 4 * 1024 * 1024 && env.complete(step.envelope)
              && match env.plan(step.seen, step.envelope, step.mode)
                 case Planned(candidate) => env.accepts(candidate)
                 case _ => false
  {
  }

  /** A preview that finds room is registered for its owner, its archive and its time. */
  lemma PreviewRegisters(env: Env, run: seq<System>, steps: seq<Step>, n: nat, id: string)
    requires IsRun(env, run, steps) && StepAt(env, run, steps, n) && steps[n].Preview? && steps[n].issued == id
    requires |run[n].table| < env.capacity
    ensures id in run[n + 1].table && id in run[n + 1].registered
    ensures var (e, p) := (run[n + 1].table[id], steps[n]);
            && run[n + 1].registered[id] == Registration(e, p.seen)
            && e == Entry(p.claimant, Sha256(p.sealed), Revision(p.seen), p.mode, run[n].now + env.ttl, p.envelope)
  {
    SubmapSize(run[n].table, Live(run[n].table, steps[n].purged));
  }

  /** Whatever others do, a preview that its owner commits with its archive, in time and without
      having used it before, reaches the commit callback as recorded; one that is cancelled does not. */
  lemma OwnerIsServed(env: Env, run: seq<System>, steps: seq<Step>, m: nat, n: nat, id: string)
    requires IsRun(env, run, steps) && m <= n < |steps| && id in run[m].table
    requires run[n].now < run[m].table[id].expires && UsesUp(steps[n], id, run[m].table[id])
    requires forall j :: m <= j < n ==> !UsesUp(steps[j], id, run[m].table[id])
    ensures id !in run[n + 1].table
    ensures steps[n].Commit? ==> id in run[n + 1].running && run[n + 1].running[id] == run[m].table[id]
    ensures steps[n].Cancel? ==> id !in run[n + 1].running
  {
    StaysUntilUsed(env, run, steps, m, n, id);
    EveryRun(env, run, steps, n);
    assert StepAt(env, run, steps, n);
  }

  /** No preview reaches the commit callback twice. */
  lemma HandedOverOnce(env: Env, run: seq<System>, steps: seq<Step>, m: nat, n: nat, id: string)
    requires IsRun(env, run, steps) && m < n < |steps|
    requires HandsOver(run[m], steps[m], id)
    ensures !HandsOver(run[n], steps[n], id)
  {
    HandedOverAsRecorded(env, run, steps, m, id);
    NeverReturns(env, run, steps, m + 1, n, id);
  }

  /** A commit that writes anything started from the very state its preview saw and writes the very
      candidate its preview computed, however the store changed in between; it is refused as a
      conflict exactly when the state is another one. */
  lemma CommitsWhatWasPreviewed(env: Env, run: seq<System>, steps: seq<Step>, n: nat,
                                id: string, backedUp: bool)
    requires IsRun(env, run, steps) && n < |steps| && steps[n] == Transaction(id, backedUp)
    ensures id in run[n].registered && id in run[n].running
    ensures var r := run[n].registered[id];
            var planned := env.plan(r.seen, r.entry.envelope, r.entry.mode);
            && planned.Planned? && env.accepts(planned.state)
            && Outcome(env, run[n], run[n].running[id])
               == (if run[n].state != r.seen then S.Conflict
                   else if planned.state == r.seen then S.Unchanged(r.seen)
                   else S.Committed(r.seen, planned.state))
            && run[n + 1].state == (if run[n].state == r.seen && backedUp then planned.state else run[n].state)
  {
    EveryRun(env, run, steps, n);
    assert StepAt(env, run, steps, n);
    assert Faithful(env, run[n].registered[id]);
  }

  /** With the planner that runs: whatever a commit writes is the plan of the state that was previewed. */
  lemma CommittedIsThePlan(ext: Ext, accepts: Json -> bool, ttl: int, capacity: nat,
                           run: seq<System>, steps: seq<Step>, n: nat, id: string, backedUp: bool)
    requires IsRun(Agent(ext, accepts, ttl, capacity), run, steps)
    requires n < |steps| && steps[n] == Transaction(id, backedUp)
    requires run[n + 1].state != run[n].state
    ensures id in run[n].registered
    ensures var r := run[n].registered[id];
            && run[n].state == r.seen
            && Plan(ext, r.seen, r.entry.envelope, r.entry.mode) == Planned(run[n + 1].state)
  {
    var env := Agent(ext, accepts, ttl, capacity);
    CommitsWhatWasPreviewed(env, run, steps, n, id, backedUp);
    var r := run[n].registered[id];
    assert env.plan(r.seen, r.entry.envelope, r.entry.mode) == Plan(ext, r.seen, r.entry.envelope, r.entry.mode);
  }
}
