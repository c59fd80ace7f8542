/** The portal's runtime tables (portal/app/storage.py), one transaction per method: sessions,
    confirmations, login failures and prepared updates. Tokens stand for their hashes. */
module PortalStorage {
  import opened Bytes

  const LOCKOUT_FAILURES := 5
  const LOCKOUT_SECONDS := 12 * 60 * 60
  const SESSION_IDLE_SECONDS := 30 * 60
  const SESSION_ABSOLUTE_SECONDS := 8 * 60 * 60
  const CONFIRMATION_SECONDS := 300
  const AGENT_LENGTH := 512

  datatype Session = Session(
    csrf: string,
    createdAt: int,
    lastSeen: int,
    absoluteExpiresAt: int,
    ip: string,
    agent: string)

  datatype Confirmation = Confirmation(session: string, action: string, subject: string, expiresAt: int, used: bool)

  datatype Failure = Failure(failures: int, blockedUntil: int, updatedAt: int)

  datatype Status = Ready | Starting | Started

  /** `details` is the rest of the row, written once. */
  datatype Update = Update(
    archive: string,
    details: string,
    status: Status,
    createdAt: int,
    updatedAt: int,
    startedAt: int)

  datatype Tables = Tables(
    sessions: map<string, Session>,
    confirmations: map<string, Confirmation>,
    failures: map<string, Failure>)

  // ---- sessions --------------------------------------------------------------------------

  predicate Alive(s: Session, now: int) {
    s.absoluteExpiresAt > now && s.lastSeen + SESSION_IDLE_SECONDS > now
  }

  predicate SameClient(s: Session, ip: Option<string>, agent: Option<string>) {
    && (ip.Some? ==> s.ip == ip.value)
    && (agent.Some? ==> s.agent == Take(agent.value, AGENT_LENGTH))
  }

  function AfterCreateSession(t: Tables, now: int, token: string, csrf: string, ip: string, agent: string): Tables {
    if token in t.sessions then t
    else t.(sessions := t.sessions[token :=
              Session(csrf, now, now, now + SESSION_ABSOLUTE_SECONDS, ip, Take(agent, AGENT_LENGTH))])
  }

  function FoundSession(t: Tables, now: int, token: string, ip: Option<string>, agent: Option<string>)
    : Option<Session>
  {
    if token != "" && token in t.sessions && SameClient(t.sessions[token], ip, agent) && Alive(t.sessions[token], now)
    then Some(t.sessions[token]) else None
  }

  function AfterGetSession(t: Tables, now: int, token: string, ip: Option<string>, agent: Option<string>): Tables {
    if token == "" || token !in t.sessions || !SameClient(t.sessions[token], ip, agent) then t
    else if Alive(t.sessions[token], now) then t.(sessions := t.sessions[token := t.sessions[token].(lastSeen := now)])
    else t.(sessions := t.sessions - {token})
  }

  // ---- confirmations ---------------------------------------------------------------------

  function AfterCreateConfirmation(t: Tables, now: int, token: string, session: string,
                                   action: string, subject: string): Tables {
    if token in t.confirmations then t
    else t.(confirmations := t.confirmations[token :=
              Confirmation(session, action, subject, now + CONFIRMATION_SECONDS, false)])
  }

  predicate Consumable(t: Tables, now: int, session: string, token: string, action: string, subject: string) {
    && token in t.confirmations
    && var c := t.confirmations[token];
       !c.used && c.expiresAt > now && c.session == session && c.action == action && c.subject == subject
  }

  function AfterConsume(t: Tables, now: int, session: string, token: string, action: string, subject: string): Tables {
    if Consumable(t, now, session, token, action, subject)
    then t.(confirmations := t.confirmations[token := t.confirmations[token].(used := true)])
    else t
  }

  // ---- login failures --------------------------------------------------------------------

  function LockStatus(t: Tables, now: int, ip: string): int {
    if ip in t.failures && t.failures[ip].blockedUntil > now then t.failures[ip].blockedUntil - now else 0
  }

  function Counted(t: Tables, now: int, ip: string): int {
    if ip !in t.failures || 0 < t.failures[ip].blockedUntil <= now then 1 else t.failures[ip].failures + 1
  }

  function Blocked(t: Tables, now: int, ip: string): int {
    if Counted(t, now, ip) >= LOCKOUT_FAILURES then now + LOCKOUT_SECONDS else 0
  }

  function LockAfterFailure(t: Tables, now: int, ip: string): int {
    if Blocked(t, now, ip) > now then Blocked(t, now, ip) - now else 0
  }

  function AfterRecordFailure(t: Tables, now: int, ip: string): Tables {
    t.(failures := t.failures[ip := Failure(Counted(t, now, ip), Blocked(t, now, ip), now)])
  }

  // ---- cleanup ---------------------------------------------------------------------------

  predicate SessionKept(s: Session, now: int) {
    s.absoluteExpiresAt > now && s.lastSeen >= now - SESSION_IDLE_SECONDS
  }

  predicate FailureKept(f: Failure, now: int) {
    f.blockedUntil > now || f.updatedAt >= now - LOCKOUT_SECONDS
  }

  predicate ConfirmationKept(c: Confirmation, now: int) {
    c.expiresAt > now && !c.used
  }

  function AfterCleanup(t: Tables, now: int): Tables {
    Tables(map k | k in t.sessions && SessionKept(t.sessions[k], now) :: t.sessions[k],
           map k | k in t.confirmations && ConfirmationKept(t.confirmations[k], now) :: t.confirmations[k],
           map k | k in t.failures && FailureKept(t.failures[k], now) :: t.failures[k])
  }

  /** No lock in force and no session that can be found is affected. */
  lemma CleanupIsSilent(t: Tables, now: int)
    ensures forall ip :: LockStatus(AfterCleanup(t, now), now, ip) == LockStatus(t, now, ip)
    ensures forall token, ip, agent ::
              FoundSession(AfterCleanup(t, now), now, token, ip, agent) == FoundSession(t, now, token, ip, agent)
  {
  }

  // ---- prepared updates ------------------------------------------------------------------

  type Updates = map<string, Update>

  /** A row with its identifier. */
  datatype Listed = Listed(id: string, row: Update)

  datatype Published = Busy(row: Update) | Inserted(row: Update, replaced: seq<Listed>) | Collision

  /** The rows as a query lists them: each once, newest first; rows of one second in any order. */
  predicate Lists(rows: seq<Listed>, u: Updates) {
    && (forall i :: 0 <= i < |rows| ==> rows[i].id in u && rows[i].row == u[rows[i].id])
    && (forall id :: id in u ==> Listed(id, u[id]) in rows)
    && (forall i, j :: 0 <= i < j < |rows| ==>
          rows[i].id != rows[j].id && rows[i].row.createdAt >= rows[j].row.createdAt)
  }

  predicate BusyRow(u: Updates, archive: string, id: string) {
    id in u && u[id].archive == archive && u[id].status == Starting
  }

  predicate ArchiveBusy(u: Updates, archive: string) {
    exists id :: id in u && BusyRow(u, archive, id)
  }

  function ReadyRows(u: Updates): Updates {
    map id | id in u && u[id].status == Ready :: u[id]
  }

  /** What is left before the insertion: ready rows go, and a started row of the same archive. */
  function Remaining(u: Updates, archive: string): Updates {
    map id | id in u && u[id].status != Ready && !(u[id].archive == archive && u[id].status == Started) :: u[id]
  }

  /** The uniqueness constraints of the table. */
  predicate Insertable(u: Updates, id: string, archive: string) {
    id !in u && forall other :: other in u ==> u[other].archive != archive
  }

  function NewRow(archive: string, details: string, now: int): Update {
    Update(archive, details, Ready, now, now, 0)
  }

  /** A collision rolls the transaction back. */
  function AfterPublish(u: Updates, now: int, id: string, archive: string, details: string): Updates {
    if ArchiveBusy(u, archive) || !Insertable(Remaining(u, archive), id, archive) then u
    else Remaining(u, archive)[id := NewRow(archive, details, now)]
  }

  predicate Has(u: Updates, id: string, status: Status) {
    id in u && u[id].status == status
  }

  function AfterClaim(u: Updates, now: int, id: string): Updates {
    if Has(u, id, Ready) then u[id := u[id].(status := Starting, updatedAt := now)] else u
  }

  function AfterRelease(u: Updates, now: int, id: string): Updates {
    if Has(u, id, Starting) then u[id := u[id].(status := Ready, updatedAt := now)] else u
  }

  function AfterFinish(u: Updates, now: int, id: string): Updates {
    if Has(u, id, Starting) then u[id := u[id].(status := Started, updatedAt := now, startedAt := now)] else u
  }

  function AfterDiscard(u: Updates, id: string): Updates {
    if Has(u, id, Ready) then u - {id} else u
  }

  function AfterRemove(u: Updates, archive: string): Updates {
    map id | id in u && u[id].archive != archive :: u[id]
  }

  lemma ListsMore(rows: seq<Listed>, u: Updates, id: string, row: Update)
    requires Lists(rows, u) && id !in u
    requires forall i :: 0 <= i < |rows| ==> rows[i].row.createdAt >= row.createdAt
    ensures Lists(rows + [Listed(id, row)], u[id := row])
  {
    var more, v := rows + [Listed(id, row)], u[id := row];
    forall k | k in v
      ensures Listed(k, v[k]) in more
    {
      if k == id {
        assert more[|rows|] == Listed(id, row);
      } else {
        assert Listed(k, u[k]) in rows;
      }
    }
  }

  // ---- the object ------------------------------------------------------------------------

  class PortalStorage {
    var sessions: map<string, Session>
    var confirmations: map<string, Confirmation>
    var loginFailures: map<string, Failure>
    var preparedUpdates: Updates

    function Value(): Tables
      reads this
    {
      Tables(sessions, confirmations, loginFailures)
    }

    constructor ()
      ensures Value() == Tables(map[], map[], map[]) && preparedUpdates == map[]
    {
      sessions, confirmations, loginFailures, preparedUpdates := map[], map[], map[], map[];
    }

    /** `ok` is false when the insertion violates the primary key. */
    method CreateSession(now: int, token: string, csrf: string, ip: string, agent: string) returns (ok: bool)
      modifies this`sessions
      ensures Value() == AfterCreateSession(old(Value()), now, token, csrf, ip, agent)
      ensures ok <==> token !in old(sessions)
      ensures ok && token != "" ==> FoundSession(Value(), now, token, Some(ip), Some(agent)).Some?
      ensures sessions
              == if token in old(sessions) then old(sessions)
                 else old(sessions)[token := Session(csrf, now, now, now + 8 * 60 * 60, ip, Take(agent, 512))]
    {
      if token in sessions {
        return false;
      }
      var row := Session(csrf, now, now, now + SESSION_ABSOLUTE_SECONDS, ip, Take(agent, AGENT_LENGTH));
      sessions := sessions[token := row];
      return true;
    }

    method GetSession(token: string, now: int, ip: Option<string>, agent: Option<string>) returns (r: Option<Session>)
      modifies this`sessions
      ensures r == FoundSession(old(Value()), now, token, ip, agent)
      ensures Value() == AfterGetSession(old(Value()), now, token, ip, agent)
      ensures r.Some? <==>
                && token != "" && token in old(sessions)
                && var s := old(sessions)[token];
                   && (ip.Some? ==> s.ip == ip.value) && (agent.Some? ==> s.agent == Take(agent.value, 512))
                   && now < s.absoluteExpiresAt && now < s.lastSeen + 30 * 60
      ensures r.Some? ==> r.value == old(sessions)[token]
      ensures r.None? ==>
                sessions == if && token != "" && token in old(sessions)
                               && (ip.Some? ==> old(sessions)[token].ip == ip.value)
                               && (agent.Some? ==> old(sessions)[token].agent == Take(agent.value, 512))
                            then old(sessions) - {token} else old(sessions)
      ensures r.Some? ==> token in sessions && sessions[token] == r.value.(lastSeen := now)
      ensures r.None? ==> FoundSession(Value(), now, token, ip, agent).None?
      ensures sessions - {token} == old(sessions) - {token}
    {
      if token == "" || token !in sessions {
        return None;
      }
      var row := sessions[token];
      if ip.Some? && row.ip != ip.value {
        return None;
      }
      if agent.Some? && row.agent != Take(agent.value, AGENT_LENGTH) {
        return None;
      }
      if row.absoluteExpiresAt <= now || row.lastSeen + SESSION_IDLE_SECONDS <= now {
        sessions := sessions - {token};
        return None;
      }
      sessions := sessions[token := row.(lastSeen := now)];
      return Some(row);
    }

    method InvalidateSession(token: string)
      modifies this`sessions
      ensures sessions == if token != "" then old(sessions) - {token} else old(sessions)
      ensures forall now, ip, agent :: FoundSession(Value(), now, token, ip, agent).None?
    {
      if token != "" {
        sessions := sessions - {token};
      }
    }

    method CreateConfirmation(now: int, token: string, session: string, action: string, subject: string)
      returns (ok: bool)
      modifies this`confirmations
      ensures Value() == AfterCreateConfirmation(old(Value()), now, token, session, action, subject)
      ensures ok <==> token !in old(confirmations)
      ensures ok ==> Consumable(Value(), now, session, token, action, subject)
      ensures ok ==>
                confirmations == old(confirmations)[token := Confirmation(session, action, subject, now + 300, false)]
      ensures !ok ==> confirmations == old(confirmations)
    {
      if token in confirmations {
        return false;
      }
      var row := Confirmation(session, action, subject, now + CONFIRMATION_SECONDS, false);
      confirmations := confirmations[token := row];
      return true;
    }

    method ConsumeConfirmation(now: int, session: string, token: string, action: string, subject: string)
      returns (valid: bool)
      modifies this`confirmations
      ensures valid == Consumable(old(Value()), now, session, token, action, subject)
      ensures Value() == AfterConsume(old(Value()), now, session, token, action, subject)
      ensures valid <==>
                && token in old(confirmations)
                && var c := old(confirmations)[token];
                   !c.used && now < c.expiresAt && c.session == session && c.action == action && c.subject == subject
      ensures valid ==> confirmations == old(confirmations)[token := old(confirmations)[token].(used := true)]
      ensures valid ==> forall later, s, a, b :: !Consumable(Value(), later, s, token, a, b)
      ensures !valid ==> confirmations == old(confirmations)
    {
      valid := false;
      if token in confirmations {
        var row := confirmations[token];
        valid := !row.used && row.expiresAt > now
                 && row.session == session && row.action == action && row.subject == subject;
        if valid {
          confirmations := confirmations[token := row.(used := true)];
        }
      }
    }

    method RecordFailure(ip: string, now: int) returns (remaining: int)
      modifies this`loginFailures
      ensures remaining == LockAfterFailure(old(Value()), now, ip)
      ensures Value() == AfterRecordFailure(old(Value()), now, ip)
      ensures remaining == LockStatus(Value(), now, ip)
      ensures ip in loginFailures && loginFailures - {ip} == old(loginFailures) - {ip}
      ensures loginFailures[ip].failures ==
              if ip !in old(loginFailures) || 0 < old(loginFailures)[ip].blockedUntil <= now then 1
              else old(loginFailures)[ip].failures + 1
      ensures loginFailures[ip].updatedAt == now
      ensures loginFailures[ip].blockedUntil == if loginFailures[ip].failures >= 5 then now + 12 * 60 * 60 else 0
      ensures forall other :: other != ip ==> LockStatus(Value(), now, other) == LockStatus(old(Value()), now, other)
    {
      var failures := 0;
      if ip in loginFailures && !(loginFailures[ip].blockedUntil > 0 && loginFailures[ip].blockedUntil <= now) {
        failures := loginFailures[ip].failures;
      }
      failures := failures + 1;
      var blockedUntil := if failures >= LOCKOUT_FAILURES then now + LOCKOUT_SECONDS else 0;
      loginFailures := loginFailures[ip := Failure(failures, blockedUntil, now)];
      remaining := if blockedUntil > now then blockedUntil - now else 0;
    }

    method Cleanup(now: int)
      modifies this`sessions, this`confirmations, this`loginFailures
      ensures Value() == AfterCleanup(old(Value()), now)
      ensures forall k :: k in sessions <==>
                k in old(sessions) && now < old(sessions)[k].absoluteExpiresAt
                && now - 30 * 60 <= old(sessions)[k].lastSeen
      ensures forall k :: k in loginFailures <==>
                k in old(loginFailures)
                && (now < old(loginFailures)[k].blockedUntil || now - 12 * 60 * 60 <= old(loginFailures)[k].updatedAt)
      ensures forall k :: k in confirmations <==>
                k in old(confirmations) && now < old(confirmations)[k].expiresAt && !old(confirmations)[k].used
      ensures forall ip :: LockStatus(Value(), now, ip) == LockStatus(old(Value()), now, ip)
      ensures forall token, ip, agent ::
                FoundSession(Value(), now, token, ip, agent) == FoundSession(old(Value()), now, token, ip, agent)
    {
      var idle := set k | k in sessions &&
                          (sessions[k].absoluteExpiresAt <= now || sessions[k].lastSeen < now - SESSION_IDLE_SECONDS);
      sessions := sessions - idle;
      var past := set k | k in loginFailures &&
                          loginFailures[k].blockedUntil <= now && loginFailures[k].updatedAt < now - LOCKOUT_SECONDS;
      loginFailures := loginFailures - past;
      var spent := set k | k in confirmations && (confirmations[k].expiresAt <= now || confirmations[k].used);
      confirmations := confirmations - spent;
      CleanupIsSilent(old(Value()), now);
    }

    /** The latest of some rows. */
    method Newest(rows: Updates) returns (id: string)
      requires rows != map[]
      ensures id in rows && forall k :: k in rows ==> rows[k].createdAt <= rows[id].createdAt
    {
      id :| id in rows;
      var rest := rows.Keys - {id};
      while rest != {}
        invariant id in rows && rest <= rows.Keys
        invariant forall k :: k in rows && k !in rest ==> rows[k].createdAt <= rows[id].createdAt
        decreases rest
      {
        var k :| k in rest;
        rest := rest - {k};
        id := if rows[k].createdAt > rows[id].createdAt then k else id;
      }
    }

    /** `ORDER BY created_at DESC`. */
    method List(rows: Updates) returns (listed: seq<Listed>)
      ensures Lists(listed, rows)
    {
      listed := [];
      var rest := rows;
      while rest != map[]
        invariant forall k :: k in rest ==> k in rows && rest[k] == rows[k]
        invariant Lists(listed, rows - rest.Keys)
        invariant forall i, k :: 0 <= i < |listed| && k in rest ==> listed[i].row.createdAt >= rest[k].createdAt
        decreases |rest.Keys|
      {
        var id := Newest(rest);
        ghost var done := rows - rest.Keys;
        ListsMore(listed, done, id, rest[id]);
        assert rows - (rest - {id}).Keys == done[id := rest[id]];
        listed := listed + [Listed(id, rest[id])];
        assert (rest - {id}).Keys == rest.Keys - {id};
        rest := rest - {id};
      }
      assert rows - rest.Keys == rows;
    }

    method PublishPreparedUpdate(now: int, id: string, archive: string, details: string) returns (r: Published)
      modifies this`preparedUpdates
      ensures preparedUpdates == AfterPublish(old(preparedUpdates), now, id, archive, details)
      ensures r.Busy? <==> ArchiveBusy(old(preparedUpdates), archive)
      ensures r.Inserted? ==> id in preparedUpdates && r.row == preparedUpdates[id]
      ensures r.Busy? <==> exists k :: k in old(preparedUpdates) && old(preparedUpdates)[k].archive == archive
                                       && old(preparedUpdates)[k].status == Starting
      ensures r.Inserted? ==> preparedUpdates[id] == Update(archive, details, Ready, now, now, 0)
      ensures r.Inserted? ==> forall k :: k != id ==>
                (k in preparedUpdates <==>
                   && k in old(preparedUpdates) && old(preparedUpdates)[k].status != Ready
                   && !(old(preparedUpdates)[k].archive == archive && old(preparedUpdates)[k].status == Started))
                && (k in preparedUpdates ==> preparedUpdates[k] == old(preparedUpdates)[k])
      ensures r.Busy? ==> exists k :: BusyRow(old(preparedUpdates), archive, k) && r.row == old(preparedUpdates)[k]
      ensures r.Inserted? ==> Lists(r.replaced, ReadyRows(old(preparedUpdates)))
      ensures r.Inserted? ==> forall other :: Has(preparedUpdates, other, Ready) ==> other == id
      ensures !r.Inserted? ==> preparedUpdates == old(preparedUpdates)
      ensures r.Collision? <==> !r.Busy? && !Insertable(Remaining(old(preparedUpdates), archive), id, archive)
    {
      if busy :| busy in preparedUpdates && BusyRow(preparedUpdates, archive, busy) {
        return Busy(preparedUpdates[busy]);
      }
      var ready := ReadyRows(preparedUpdates);
      var replaced := List(ready);
      var kept := preparedUpdates - ready.Keys;
      kept := kept - set k | k in kept && kept[k].archive == archive && kept[k].status == Started;
      assert kept == Remaining(preparedUpdates, archive);
      if id in kept || exists k :: k in kept && kept[k].archive == archive {
        return Collision;
      }
      preparedUpdates := kept[id := Update(archive, details, Ready, now, now, 0)];
      return Inserted(preparedUpdates[id], replaced);
    }

    method ClaimPreparedUpdate(id: string, now: int) returns (r: Option<Update>)
      modifies this`preparedUpdates
      ensures preparedUpdates == AfterClaim(old(preparedUpdates), now, id)
      ensures r == if Has(old(preparedUpdates), id, Ready) then Some(preparedUpdates[id]) else None
      ensures r.Some? <==> id in old(preparedUpdates) && old(preparedUpdates)[id].status == Ready
      ensures preparedUpdates
              == if r.None? then old(preparedUpdates)
                 else old(preparedUpdates)[id := old(preparedUpdates)[id].(status := Starting, updatedAt := now)]
    {
      if id !in preparedUpdates || preparedUpdates[id].status != Ready {
        return None;
      }
      preparedUpdates := preparedUpdates[id := preparedUpdates[id].(status := Starting, updatedAt := now)];
      return Some(preparedUpdates[id]);
    }

    method ReleasePreparedUpdate(id: string, now: int) returns (changed: bool)
      modifies this`preparedUpdates
      ensures preparedUpdates == AfterRelease(old(preparedUpdates), now, id)
      ensures changed == Has(old(preparedUpdates), id, Starting)
      ensures changed <==> id in old(preparedUpdates) && old(preparedUpdates)[id].status == Starting
      ensures preparedUpdates
              == if !changed then old(preparedUpdates)
                 else old(preparedUpdates)[id := old(preparedUpdates)[id].(status := Ready, updatedAt := now)]
    {
      changed := id in preparedUpdates && preparedUpdates[id].status == Starting;
      if changed {
        preparedUpdates := preparedUpdates[id := preparedUpdates[id].(status := Ready, updatedAt := now)];
      }
    }

    method FinishPreparedUpdate(id: string, now: int) returns (changed: bool)
      modifies this`preparedUpdates
      ensures preparedUpdates == AfterFinish(old(preparedUpdates), now, id)
      ensures changed == Has(old(preparedUpdates), id, Starting)
      ensures changed <==> id in old(preparedUpdates) && old(preparedUpdates)[id].status == Starting
      ensures changed ==>
                preparedUpdates == old(preparedUpdates)[id :=
                  old(preparedUpdates)[id].(status := Started, updatedAt := now, startedAt := now)]
      ensures !changed ==> preparedUpdates == old(preparedUpdates)
    {
      changed := id in preparedUpdates && preparedUpdates[id].status == Starting;
      if changed {
        var row := preparedUpdates[id].(status := Started, updatedAt := now, startedAt := now);
        preparedUpdates := preparedUpdates[id := row];
      }
    }

    method DiscardPreparedUpdate(id: string) returns (r: Option<Update>)
      modifies this`preparedUpdates
      ensures preparedUpdates == AfterDiscard(old(preparedUpdates), id)
      ensures r == if Has(old(preparedUpdates), id, Ready) then Some(old(preparedUpdates)[id]) else None
      ensures r.Some? <==> id in old(preparedUpdates) && old(preparedUpdates)[id].status == Ready
      ensures preparedUpdates == if r.Some? then old(preparedUpdates) - {id} else old(preparedUpdates)
    {
      if id !in preparedUpdates || preparedUpdates[id].status != Ready {
        return None;
      }
      r := Some(preparedUpdates[id]);
      preparedUpdates := preparedUpdates - {id};
    }

    method RemovePreparedUpdateByArchive(archive: string)
      modifies this`preparedUpdates
      ensures preparedUpdates == AfterRemove(old(preparedUpdates), archive)
      ensures forall id :: id in preparedUpdates <==>
                id in old(preparedUpdates) && old(preparedUpdates)[id].archive != archive
      ensures forall id :: id in preparedUpdates ==> preparedUpdates[id] == old(preparedUpdates)[id]
    {
      preparedUpdates := preparedUpdates - set k | k in preparedUpdates && preparedUpdates[k].archive == archive;
    }
  }
}
