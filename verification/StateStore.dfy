/** Locked, crash-atomic transactions over one JSON file (tools/kvnlib/core/io.py): the lock object
    and the store object. `StoreRuns` interleaves many of them, in many processes, with crashes. */
module StateStore {
  import opened Bytes
  import opened Json

  // ---- the lock --------------------------------------------------------------------------

  /** What one turn of the polling loop of `__enter__` meets. */
  datatype Attempt = Granted | Busy | BusyAtDeadline | OpenFails

  /** The per-path thread lock shared by a process, and the advisory lock on the file. */
  class SharedLock {
    var held: bool

    constructor ()
      ensures !held
    {
      held := false;
    }
  }

  class StateFileLock {
    const thread: SharedLock
    const file: SharedLock
    var handle: bool
    var owner: bool

    ghost predicate Valid()
      reads this, thread, file
    {
      && thread != file
      && (owner ==> thread.held)
      && (handle ==> owner && file.held)
    }

    constructor (thread: SharedLock, file: SharedLock)
      requires thread != file
      ensures Valid() && !handle && !owner && this.thread == thread && this.file == file
    {
      this.thread, this.file, handle, owner := thread, file, false, false;
    }

    /** Takes both locks or neither. `threadFree` is what waiting for the thread lock led to;
        `attempts` are the turns of the polling loop, which ends at its deadline at the latest. */
    method Enter(threadFree: bool, attempts: seq<Attempt>) returns (ok: bool)
      requires Valid() && !handle && !owner && (threadFree ==> !thread.held)
      requires forall i :: 0 <= i < |attempts| && attempts[i].Granted? ==> !file.held
      modifies this, thread, file
      ensures Valid()
      ensures ok ==> handle && owner && thread.held && file.held
      ensures !ok ==> !handle && !owner && thread.held == old(thread.held) && file.held == old(file.held)
      ensures ok ==> !old(thread.held) && !old(file.held)
      ensures ok <==> threadFree && exists i :: 0 <= i < |attempts| && attempts[i].Granted?
                                                && forall j :: 0 <= j < i ==> attempts[j].Busy?
    {
      if !threadFree {
        return false;
      }
      thread.held, owner := true, true;
      var i := 0;
      while i < |attempts|
        invariant 0 <= i <= |attempts|
        invariant thread.held && owner && !handle && file.held == old(file.held)
        invariant forall j :: 0 <= j < i ==> attempts[j].Busy?
      {
        match attempts[i] {
          case Granted =>
            file.held, handle := true, true;
            return true;
          case Busy =>
            i := i + 1;
          case _ =>
            break;
        }
      }
      thread.held, owner := false, false;
      return false;
    }

    method Exit()
      requires Valid()
      modifies this, thread, file
      ensures Valid() && !handle
      ensures old(handle) ==> !owner && !thread.held && !file.held
      ensures !old(handle) ==> owner == old(owner) && thread.held == old(thread.held) && file.held == old(file.held)
    {
      if !handle {
        return;
      }
      file.held, handle := false, false;
      if owner {
        thread.held, owner := false, false;
      }
    }
  }

  // ---- the store -------------------------------------------------------------------------

  datatype Mutation = Replacement(state: Json) | Raises

  datatype Outcome =
    | Committed(before: Json, after: Json)
    | Unchanged(state: Json)
    | Conflict
    | Aborted

  /** One transaction: check the revision, mutate a copy, write if the revision changed. */
  function Transact(state: Json, mutate: Json -> Mutation, expected: Option<Revision>): Outcome {
    if expected.Some? && expected.value != Revision(state) then Conflict
    else match mutate(state)
      case Raises => Aborted
      case Replacement(working) =>
        if Revision(working) == Revision(state) then Unchanged(state) else Committed(state, working)
  }

  function StateAfter(state: Json, outcome: Outcome): Json {
    if outcome.Committed? then outcome.after else state
  }

  /** The store as one transaction sees it, both locks held. */
  class JsonStateStore {
    var disk: Json

    constructor (disk: Json)
      ensures this.disk == disk
    {
      this.disk := disk;
    }

    method Save(state: Json, expected: Option<Revision>) returns (ok: bool)
      modifies this
      ensures ok <==> expected.None? || expected.value == Revision(old(disk))
      ensures disk == if ok then state else old(disk)
    {
      if expected.Some? {
        var current := disk;
        if Revision(current) != expected.value {
          return false;
        }
      }
      disk := state;
      return true;
    }

    method Update(mutate: Json -> Mutation, expected: Option<Revision>) returns (r: Outcome)
      modifies this
      ensures r == Transact(old(disk), mutate, expected)
      ensures disk == StateAfter(old(disk), r)
      ensures expected.Some? && expected.value != Revision(old(disk)) ==> r.Conflict? && disk == old(disk)
      ensures expected.None? || expected.value == Revision(old(disk)) ==>
                match mutate(old(disk))
                case Raises => r.Aborted? && disk == old(disk)
                case Replacement(working) =>
                  && disk == working
                  && r == if working == old(disk) then Unchanged(working) else Committed(old(disk), working)
    {
      var state := disk;
      var before := Revision(state);
      if expected.Some? && before != expected.value {
        return Conflict;
      }
      var working := state;
      match mutate(working) {
        case Raises =>
          return Aborted;
        case Replacement(replacement) =>
          working := replacement;
      }
      var after := Revision(working);
      if before == after {
        return Unchanged(state);
      }
      disk := working;
      return Committed(state, working);
    }
  }
}
