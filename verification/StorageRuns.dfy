/** Sessions, confirmations and login locks over every run with a clock that never goes back, and
    what inserting `cleanup` calls anywhere changes: nothing that is asked about sessions and
    confirmations, and no lock in force (portal/app/storage.py). */
module StorageRuns {
  import opened Bytes
  import opened PortalStorage

  datatype Operation =
    | CreateSession(token: string, csrf: string, ip: string, agent: string)
    | GetSession(token: string, fromIp: Option<string>, fromAgent: Option<string>)
    | InvalidateSession(token: string)
    | InvalidateAllSessions
    | CreateConfirmation(token: string, session: string, action: string, subject: string)
    | Consume(token: string, session: string, action: string, subject: string)
    | RecordFailure(ip: string)
    | ClearFailures(ip: string)
    | Cleanup

  datatype Call = Call(now: int, op: Operation)

  datatype Answer = Found(session: Option<Session>) | Consumed(ok: bool)

  const EMPTY := Tables(map[], map[], map[])

  function Next(t: Tables, c: Call): Tables {
    match c.op
    case CreateSession(token, csrf, ip, agent) => AfterCreateSession(t, c.now, token, csrf, ip, agent)
    case GetSession(token, ip, agent) => AfterGetSession(t, c.now, token, ip, agent)
    case InvalidateSession(token) => if token != "" then t.(sessions := t.sessions - {token}) else t
    case InvalidateAllSessions => t.(sessions := map[])
    case CreateConfirmation(token, session, action, subject) =>
      AfterCreateConfirmation(t, c.now, token, session, action, subject)
    case Consume(token, session, action, subject) => AfterConsume(t, c.now, session, token, action, subject)
    case RecordFailure(ip) => AfterRecordFailure(t, c.now, ip)
    case ClearFailures(ip) => t.(failures := t.failures - {ip})
    case Cleanup => AfterCleanup(t, c.now)
  }

  /** What a call tells its caller about a session or a confirmation. */
  function AnswerOf(t: Tables, c: Call): seq<Answer> {
    match c.op
    case GetSession(token, ip, agent) => [Found(FoundSession(t, c.now, token, ip, agent))]
    case Consume(token, session, action, subject) => [Consumed(Consumable(t, c.now, session, token, action, subject))]
    case _ => []
  }

  /** What the given calls make of the tables. */
  function After(t: Tables, calls: seq<Call>): Tables
    decreases |calls|
  {
    if calls == [] then t else Next(After(t, calls[..|calls| - 1]), calls[|calls| - 1])
  }

  /** The tables after the given calls. */
  function Final(calls: seq<Call>): Tables {
    After(EMPTY, calls)
  }

  function Answers(calls: seq<Call>): seq<Answer>
    decreases |calls|
  {
    if calls == [] then []
    else Answers(calls[..|calls| - 1]) + AnswerOf(Final(calls[..|calls| - 1]), calls[|calls| - 1])
  }

  function WithoutCleanup(calls: seq<Call>): seq<Call>
    decreases |calls|
  {
    if calls == [] then []
    else WithoutCleanup(calls[..|calls| - 1]) + (if calls[|calls| - 1].op.Cleanup? then [] else [calls[|calls| - 1]])
  }

  /** The clock never goes back. */
  predicate Ordered(calls: seq<Call>) {
    forall m, n :: 0 <= m < n < |calls| ==> calls[m].now <= calls[n].now
  }

  predicate Creates(c: Call, token: string) {
    (c.op.CreateSession? || c.op.CreateConfirmation?) && c.op.token == token
  }

  /** Tokens are random and taken never to repeat. */
  ghost predicate FreshTokens(calls: seq<Call>) {
    forall m, n, token :: 0 <= m < n < |calls| && Creates(calls[m], token) ==> !Creates(calls[n], token)
  }

  /** Everything in the tables was created by some call. */
  ghost predicate Issued(calls: seq<Call>, t: Tables) {
    forall k :: k in t.sessions || k in t.confirmations ==> exists m :: 0 <= m < |calls| && Creates(calls[m], k)
  }

  lemma IssuedStep(calls: seq<Call>, t: Tables, c: Call)
    requires Issued(calls, t)
    ensures Issued(calls + [c], Next(t, c))
  {
    var more := calls + [c];
    var u := Next(t, c);
    forall k | k in u.sessions || k in u.confirmations
      ensures exists m :: 0 <= m < |more| && Creates(more[m], k)
    {
      if k in t.sessions || k in t.confirmations {
        var m :| 0 <= m < |calls| && Creates(calls[m], k);
        assert Creates(more[m], k);
      } else {
        assert Creates(more[|calls|], k);
      }
    }
  }

  // ---- with and without cleanup ----------------------------------------------------------

  /** The cleaned sessions hold no other rows, and all that can still be used; */
  predicate SessionsCover(now: int, full: map<string, Session>, cleaned: map<string, Session>) {
    && (forall k :: k in cleaned ==> k in full && cleaned[k] == full[k])
    && (forall k :: k in full && Alive(full[k], now) ==> k in cleaned)
  }

  /** so do the cleaned confirmations. */
  predicate ConfirmationsCover(now: int, full: map<string, Confirmation>, cleaned: map<string, Confirmation>) {
    && (forall k :: k in cleaned ==> k in full && cleaned[k] == full[k])
    && (forall k :: k in full && ConfirmationKept(full[k], now) ==> k in cleaned)
  }

  predicate Covers(now: int, full: Tables, cleaned: Tables) {
    && SessionsCover(now, full.sessions, cleaned.sessions)
    && ConfirmationsCover(now, full.confirmations, cleaned.confirmations)
  }

  lemma CleanupCovers(before: int, now: int, full: Tables, cleaned: Tables)
    requires Covers(before, full, cleaned) && before <= now
    ensures Covers(now, full, AfterCleanup(cleaned, now))
  {
  }

  lemma GetSessionCovers(before: int, full: Tables, cleaned: Tables, c: Call)
    requires Covers(before, full, cleaned) && before <= c.now && c.op.GetSession?
    ensures Covers(c.now, Next(full, c), Next(cleaned, c))
    ensures AnswerOf(full, c) == AnswerOf(cleaned, c)
  {
    var GetSession(token, ip, agent) := c.op;
    FoundAlike(before, full, cleaned, c.now, token, ip, agent);
    TouchedCovers(before, full, cleaned, c.now, token, ip, agent);
  }

  lemma FoundAlike(before: int, full: Tables, cleaned: Tables, now: int,
                   token: string, ip: Option<string>, agent: Option<string>)
    requires SessionsCover(before, full.sessions, cleaned.sessions) && before <= now
    ensures FoundSession(full, now, token, ip, agent) == FoundSession(cleaned, now, token, ip, agent)
  {
  }

  lemma TouchedCovers(before: int, full: Tables, cleaned: Tables, now: int,
                      token: string, ip: Option<string>, agent: Option<string>)
    requires SessionsCover(before, full.sessions, cleaned.sessions) && before <= now
    ensures SessionsCover(now, AfterGetSession(full, now, token, ip, agent).sessions,
                          AfterGetSession(cleaned, now, token, ip, agent).sessions)
  {
    LaterCovers(before, full.sessions, cleaned.sessions, now);
    if token != "" && token in full.sessions && SameClient(full.sessions[token], ip, agent) {
      var s := full.sessions[token];
      if Alive(s, now) {
        ReplacedCovers(now, full.sessions, cleaned.sessions, token, s.(lastSeen := now));
      } else {
        RemovedCovers(now, full.sessions, cleaned.sessions, token);
      }
    }
  }

  lemma LaterCovers(before: int, full: map<string, Session>, cleaned: map<string, Session>, now: int)
    requires SessionsCover(before, full, cleaned) && before <= now
    ensures SessionsCover(now, full, cleaned)
  {
  }

  lemma ReplacedCovers(now: int, full: map<string, Session>, cleaned: map<string, Session>, token: string, s: Session)
    requires SessionsCover(now, full, cleaned)
    ensures SessionsCover(now, full[token := s], cleaned[token := s])
  {
  }

  lemma RemovedCovers(now: int, full: map<string, Session>, cleaned: map<string, Session>, token: string)
    requires SessionsCover(now, full, cleaned)
    ensures SessionsCover(now, full - {token}, cleaned - {token})
    ensures token !in cleaned ==> SessionsCover(now, full - {token}, cleaned)
  {
  }

  lemma SessionCallCovers(before: int, full: Tables, cleaned: Tables, c: Call)
    requires Covers(before, full, cleaned) && before <= c.now
    requires c.op.CreateSession? || c.op.InvalidateSession? || c.op.InvalidateAllSessions?
    requires c.op.CreateSession? ==> c.op.token !in full.sessions
    ensures Covers(c.now, Next(full, c), Next(cleaned, c))
    ensures AnswerOf(full, c) == AnswerOf(cleaned, c)
  {
    assert SessionsCover(c.now, full.sessions, cleaned.sessions);
  }

  lemma OtherCallCovers(before: int, full: Tables, cleaned: Tables, c: Call)
    requires Covers(before, full, cleaned) && before <= c.now
    requires c.op.CreateConfirmation? || c.op.Consume? || c.op.RecordFailure? || c.op.ClearFailures?
    requires c.op.CreateConfirmation? ==> c.op.token !in full.confirmations
    ensures Covers(c.now, Next(full, c), Next(cleaned, c))
    ensures AnswerOf(full, c) == AnswerOf(cleaned, c)
  {
    assert ConfirmationsCover(c.now, full.confirmations, cleaned.confirmations);
    assert SessionsCover(c.now, full.sessions, cleaned.sessions);
  }

  /** What holds of a run and the same run without its cleanups. */
  ghost predicate Parallel(calls: seq<Call>, now: int) {
    var full := Final(WithoutCleanup(calls));
    Issued(calls, full) && Covers(now, full, Final(calls)) && Answers(calls) == Answers(WithoutCleanup(calls))
  }

  /** One call more. */
  lemma AfterSnoc(t: Tables, front: seq<Call>, c: Call)
    ensures After(t, front + [c]) == Next(After(t, front), c)
  {
    assert (front + [c])[..|front|] == front;
  }

  lemma AnswersSnoc(front: seq<Call>, c: Call)
    ensures Answers(front + [c]) == Answers(front) + AnswerOf(Final(front), c)
  {
    assert (front + [c])[..|front|] == front;
  }

  lemma WithoutCleanupSnoc(front: seq<Call>, c: Call)
    ensures WithoutCleanup(front + [c]) == WithoutCleanup(front) + if c.op.Cleanup? then [] else [c]
  {
    assert (front + [c])[..|front|] == front;
  }

  lemma ParallelCleanup(front: seq<Call>, before: int, c: Call)
    requires Parallel(front, before) && before <= c.now && c.op.Cleanup?
    ensures Parallel(front + [c], c.now)
  {
    CleanupUnanswered(front, c);
    CleanupTables(front, before, c);
    IssuedMore(front, c, Final(WithoutCleanup(front)));
  }

  lemma CleanupUnanswered(front: seq<Call>, c: Call)
    requires c.op.Cleanup?
    ensures Answers(front + [c]) == Answers(front) && WithoutCleanup(front + [c]) == WithoutCleanup(front)
  {
    AnswersSnoc(front, c);
    WithoutCleanupSnoc(front, c);
    assert Answers(front) + [] == Answers(front) && WithoutCleanup(front) + [] == WithoutCleanup(front);
  }

  lemma CleanupTables(front: seq<Call>, before: int, c: Call)
    requires Covers(before, Final(WithoutCleanup(front)), Final(front)) && before <= c.now && c.op.Cleanup?
    ensures Covers(c.now, Final(WithoutCleanup(front)), Final(front + [c]))
  {
    AfterSnoc(EMPTY, front, c);
    CleanupCovers(before, c.now, Final(WithoutCleanup(front)), Final(front));
  }

  lemma ParallelCall(front: seq<Call>, before: int, c: Call)
    requires Parallel(front, before) && before <= c.now && !c.op.Cleanup? && FreshTokens(front + [c])
    ensures Parallel(front + [c], c.now)
  {
    var (full, cleaned) := (Final(WithoutCleanup(front)), Final(front));
    AfterSnoc(EMPTY, front, c);
    AnswersSnoc(front, c);
    WithoutCleanupSnoc(front, c);
    AfterSnoc(EMPTY, WithoutCleanup(front), c);
    AnswersSnoc(WithoutCleanup(front), c);
    TokenIsNew(front, c, full);
    if c.op.GetSession? {
      GetSessionCovers(before, full, cleaned, c);
    } else if c.op.CreateSession? || c.op.InvalidateSession? || c.op.InvalidateAllSessions? {
      SessionCallCovers(before, full, cleaned, c);
    } else {
      OtherCallCovers(before, full, cleaned, c);
    }
    IssuedStep(front, full, c);
  }

  lemma {:induction false} Simulated(calls: seq<Call>)
    requires calls != [] && Ordered(calls) && FreshTokens(calls)
    ensures Parallel(calls, calls[|calls| - 1].now)
    decreases |calls|
  {
    var front, c := calls[..|calls| - 1], calls[|calls| - 1];
    var before := if front == [] then c.now else front[|front| - 1].now;
    if front != [] {
      Simulated(front);
    }
    assert calls == front + [c];
    if c.op.Cleanup? {
      ParallelCleanup(front, before, c);
    } else {
      ParallelCall(front, before, c);
    }
  }

  lemma IssuedMore(front: seq<Call>, c: Call, t: Tables)
    requires Issued(front, t)
    ensures Issued(front + [c], t)
  {
    forall k | k in t.sessions || k in t.confirmations
      ensures exists m :: 0 <= m < |front + [c]| && Creates((front + [c])[m], k)
    {
      var m :| 0 <= m < |front| && Creates(front[m], k);
      assert Creates((front + [c])[m], k);
    }
  }

  lemma TokenIsNew(front: seq<Call>, c: Call, t: Tables)
    requires Issued(front, t) && FreshTokens(front + [c])
    ensures c.op.CreateSession? || c.op.CreateConfirmation? ==>
              c.op.token !in t.sessions && c.op.token !in t.confirmations
  {
    var calls := front + [c];
    if (c.op.CreateSession? || c.op.CreateConfirmation?)
       && (c.op.token in t.sessions || c.op.token in t.confirmations) {
      var m :| 0 <= m < |front| && Creates(front[m], c.op.token);
      assert Creates(calls[m], c.op.token) && Creates(calls[|front|], c.op.token);
      assert false;
    }
  }

  /** Removing every `cleanup` from a run changes no answer about a session or a confirmation. */
  lemma CleanupChangesNoAnswer(calls: seq<Call>)
    requires Ordered(calls) && FreshTokens(calls)
    ensures Answers(calls) == Answers(WithoutCleanup(calls))
  {
    if calls != [] {
      Simulated(calls);
    }
  }

  // ---- confirmations ---------------------------------------------------------------------

  predicate Consumes(t: Tables, c: Call, token: string) {
    c.op.Consume? && c.op.token == token && Consumable(t, c.now, c.op.session, token, c.op.action, c.op.subject)
  }

  lemma {:induction false} EverythingIssued(calls: seq<Call>)
    ensures Issued(calls, Final(calls))
    decreases |calls|
  {
    if calls != [] {
      EverythingIssued(calls[..|calls| - 1]);
      IssuedStep(calls[..|calls| - 1], Final(calls[..|calls| - 1]), calls[|calls| - 1]);
      assert calls == calls[..|calls| - 1] + [calls[|calls| - 1]];
    }
  }

  predicate Spent(t: Tables, token: string) {
    token in t.confirmations ==> t.confirmations[token].used
  }

  lemma SpentStep(t: Tables, c: Call, token: string)
    requires Spent(t, token) && !Creates(c, token)
    ensures Spent(Next(t, c), token) && !Consumes(t, c, token)
  {
  }

  lemma ConsumedNotMadeAgain(calls: seq<Call>, m: nat, n: nat, token: string)
    requires FreshTokens(calls) && m < n < |calls| && Consumes(Final(calls[..m]), calls[m], token)
    ensures !Creates(calls[n], token)
  {
    EverythingIssued(calls[..m]);
    var k :| 0 <= k < m && Creates(calls[..m][k], token);
    assert Creates(calls[k], token);
  }

  lemma {:induction false} SpentForGood(calls: seq<Call>, m: nat, n: nat, token: string)
    requires FreshTokens(calls) && m < n <= |calls| && Consumes(Final(calls[..m]), calls[m], token)
    ensures Spent(Final(calls[..n]), token)
    decreases n
  {
    assert calls[..n][..n - 1] == calls[..n - 1];
    if m < n - 1 {
      SpentForGood(calls, m, n - 1, token);
      ConsumedNotMadeAgain(calls, m, n - 1, token);
      SpentStep(Final(calls[..n - 1]), calls[n - 1], token);
    }
  }

  /** However often it is offered, and whatever is cleaned up in between, a confirmation succeeds once. */
  lemma ConsumedOnce(calls: seq<Call>, m: nat, n: nat, token: string)
    requires FreshTokens(calls) && m < n < |calls| && Consumes(Final(calls[..m]), calls[m], token)
    ensures !Consumes(Final(calls[..n]), calls[n], token)
  {
    SpentForGood(calls, m, n, token);
  }

  /** The call made this very confirmation. */
  predicate Made(c: Call, token: string, session: string, action: string, subject: string) {
    c.op == CreateConfirmation(token, session, action, subject)
  }

  lemma {:induction false} RowsAreMade(calls: seq<Call>, token: string)
    requires token in Final(calls).confirmations
    ensures var row := Final(calls).confirmations[token];
            exists k :: 0 <= k < |calls| && Made(calls[k], token, row.session, row.action, row.subject)
                        && row.expiresAt == calls[k].now + CONFIRMATION_SECONDS
    decreases |calls|
  {
    var front, c := calls[..|calls| - 1], calls[|calls| - 1];
    var row := Final(calls).confirmations[token];
    if token in Final(front).confirmations {
      RowsAreMade(front, token);
      var k :| 0 <= k < |front| && Made(front[k], token, row.session, row.action, row.subject)
               && row.expiresAt == front[k].now + CONFIRMATION_SECONDS;
      assert Made(calls[k], token, row.session, row.action, row.subject);
    } else {
      assert Made(calls[|calls| - 1], token, row.session, row.action, row.subject);
    }
  }

  /** And it succeeds only for the session, action and subject it was made for, within its lifetime. */
  lemma ConsumedAsMade(calls: seq<Call>, n: nat, token: string)
    requires n < |calls| && Consumes(Final(calls[..n]), calls[n], token)
    ensures exists k :: 0 <= k < n && calls[n].now < calls[k].now + CONFIRMATION_SECONDS
                        && Made(calls[k], token, calls[n].op.session, calls[n].op.action, calls[n].op.subject)
  {
    RowsAreMade(calls[..n], token);
    var row := Final(calls[..n]).confirmations[token];
    var k :| 0 <= k < n && Made(calls[..n][k], token, row.session, row.action, row.subject)
             && row.expiresAt == calls[..n][k].now + CONFIRMATION_SECONDS;
    assert Made(calls[k], token, row.session, row.action, row.subject);
  }

  // ---- locks -----------------------------------------------------------------------------

  /** The counter and the deadline of a reachable row agree. */
  predicate RowFits(f: Failure, now: int) {
    && f.failures >= 1 && 0 <= f.updatedAt <= now
    && f.blockedUntil == if f.failures >= LOCKOUT_FAILURES then f.updatedAt + LOCKOUT_SECONDS else 0
  }

  predicate RowsFit(t: Tables, now: int) {
    forall ip :: ip in t.failures ==> RowFits(t.failures[ip], now)
  }

  predicate Lawful(calls: seq<Call>) {
    Ordered(calls) && forall n :: 0 <= n < |calls| ==> calls[n].now >= 0
  }

  lemma RowsStep(t: Tables, before: int, c: Call)
    requires RowsFit(t, before) && before <= c.now && 0 <= c.now
    ensures RowsFit(Next(t, c), c.now)
  {
  }

  lemma {:induction false} RowsAlwaysFit(calls: seq<Call>)
    requires Lawful(calls) && calls != []
    ensures RowsFit(Final(calls), calls[|calls| - 1].now)
    decreases |calls|
  {
    var front, c := calls[..|calls| - 1], calls[|calls| - 1];
    if front != [] {
      RowsAlwaysFit(front);
      RowsStep(Final(front), front[|front| - 1].now, c);
    } else {
      assert Final(front) == EMPTY;
      RowsStep(EMPTY, c.now, c);
    }
  }

  /** The lock of `ip` lasts at least until `until`. */
  predicate LockedUntil(t: Tables, ip: string, until: int) {
    ip in t.failures && t.failures[ip].blockedUntil >= until
  }

  lemma LockStep(t: Tables, before: int, c: Call, ip: string, until: int)
    requires RowsFit(t, before) && 0 <= before <= c.now < until
    requires LockedUntil(t, ip, until) && c.op != ClearFailures(ip)
    ensures LockedUntil(Next(t, c), ip, until)
  {
  }

  /** A lock in force is never shortened: whatever happens before it ends, but for an explicit
      `clear_failures` of that address, it lasts at least as long. */
  lemma {:induction false} LocksLast(calls: seq<Call>, m: nat, n: nat, ip: string, until: int)
    requires Lawful(calls) && 0 < m <= n <= |calls| && LockedUntil(Final(calls[..m]), ip, until)
    requires forall k :: m <= k < n ==> calls[k].now < until && calls[k].op != ClearFailures(ip)
    ensures LockedUntil(Final(calls[..n]), ip, until)
    ensures forall now :: now < until ==> LockStatus(Final(calls[..n]), now, ip) >= until - now
    decreases n
  {
    if m < n {
      LocksLast(calls, m, n - 1, ip, until);
      assert calls[..n][..n - 1] == calls[..n - 1];
      RowsAlwaysFit(calls[..n - 1]);
      LockStep(Final(calls[..n - 1]), calls[n - 2].now, calls[n - 1], ip, until);
    }
  }

  // ---- what cleanup forgets --------------------------------------------------------------

  /** The calls happen in order from `c` to `now`. */
  predicate Later(c: int, calls: seq<Call>, now: int) {
    c <= now && Ordered(calls) && forall n :: 0 <= n < |calls| ==> c <= calls[n].now <= now
  }

  /** Some calls after which the lock of `ip` is shorter in `u` than in `t`. */
  ghost predicate Weakens(t: Tables, u: Tables, c: int, ip: string) {
    exists more, now ::
      Later(c, more, now) && LockStatus(After(u, more), now, ip) < LockStatus(After(t, more), now, ip)
  }

  /** Cleanup drops a row that still counted. */
  predicate Forgotten(t: Tables, c: int, ip: string) {
    && ip in t.failures && t.failures[ip].failures < LOCKOUT_FAILURES
    && t.failures[ip].updatedAt < c - LOCKOUT_SECONDS
  }

  /** The next failed login of `ip` counts as its first. */
  predicate Blank(t: Tables, ip: string, now: int) {
    ip !in t.failures || 0 < t.failures[ip].blockedUntil <= now
  }

  /** Nothing tells the two apart from `now` on, as far as locks of `ip` go. */
  predicate Alike(t: Tables, u: Tables, ip: string, now: int) {
    || (Blank(t, ip, now) && Blank(u, ip, now))
    || (ip in t.failures && ip in u.failures && t.failures[ip] == u.failures[ip])
  }

  lemma AlikeFailure(t: Tables, u: Tables, ip: string, now: int, other: string)
    requires Alike(t, u, ip, now)
    ensures Alike(AfterRecordFailure(t, now, other), AfterRecordFailure(u, now, other), ip, now)
  {
  }

  lemma AlikeCleanup(t: Tables, u: Tables, ip: string, now: int)
    requires Alike(t, u, ip, now)
    ensures Alike(AfterCleanup(t, now), AfterCleanup(u, now), ip, now)
  {
  }

  lemma OtherCalls(t: Tables, c: Call)
    requires !c.op.RecordFailure? && !c.op.Cleanup?
    ensures Next(t, c).failures == if c.op.ClearFailures? then t.failures - {c.op.ip} else t.failures
  {
  }

  lemma AlikeStep(t: Tables, u: Tables, ip: string, before: int, c: Call)
    requires Alike(t, u, ip, before) && before <= c.now
    ensures Alike(Next(t, c), Next(u, c), ip, c.now)
  {
    if c.op.RecordFailure? {
      AlikeFailure(t, u, ip, c.now, c.op.ip);
    } else if c.op.Cleanup? {
      AlikeCleanup(t, u, ip, c.now);
    } else {
      OtherCalls(t, c);
      OtherCalls(u, c);
    }
  }

  lemma {:induction false} AlikeForGood(t: Tables, u: Tables, ip: string, c: int, calls: seq<Call>, now: int)
    requires Alike(t, u, ip, c) && Later(c, calls, now)
    ensures Alike(After(t, calls), After(u, calls), ip, now)
    decreases |calls|
  {
    if calls != [] {
      var front, last := calls[..|calls| - 1], calls[|calls| - 1];
      AlikeForGood(t, u, ip, c, front, last.now);
      AlikeStep(After(t, front), After(u, front), ip, last.now, last);
    }
  }

  lemma OthersAlike(t: Tables, c: int, ip: string)
    requires RowsFit(t, c) && 0 <= c && !Forgotten(t, c, ip)
    ensures Alike(t, AfterCleanup(t, c), ip, c)
  {
    assert ip in t.failures ==> RowFits(t.failures[ip], c);
  }

  /** So many failed logins of one address, all in the same second. */
  function Failures(now: int, ip: string, n: nat): seq<Call> {
    if n == 0 then [] else Failures(now, ip, n - 1) + [Call(now, RecordFailure(ip))]
  }

  lemma {:induction false} FailuresShape(now: int, ip: string, n: nat)
    ensures |Failures(now, ip, n)| == n
    ensures forall i :: 0 <= i < n ==> Failures(now, ip, n)[i] == Call(now, RecordFailure(ip))
  {
    if n > 0 {
      FailuresShape(now, ip, n - 1);
    }
  }

  /** What an address without a lock has been charged with. */
  function Charged(t: Tables, ip: string): int {
    if ip in t.failures then t.failures[ip].failures else 0
  }

  /** The row after a failed login at `now` that made the counter `n`. */
  function CountedRow(n: int, now: int): Failure {
    Failure(n, if n >= LOCKOUT_FAILURES then now + LOCKOUT_SECONDS else 0, now)
  }

  lemma FirstFailure(t: Tables, now: int, ip: string)
    requires ip in t.failures ==> t.failures[ip].blockedUntil == 0
    ensures AfterRecordFailure(t, now, ip).failures[ip] == CountedRow(Charged(t, ip) + 1, now)
  {
  }

  lemma OneFailureMore(t: Tables, now: int, ip: string, n: int)
    requires ip in t.failures && t.failures[ip] == CountedRow(n, now)
    ensures AfterRecordFailure(t, now, ip).failures[ip] == CountedRow(n + 1, now)
  {
  }

  lemma {:induction false} FailuresCount(t: Tables, now: int, ip: string, n: nat)
    requires n > 0 && (ip in t.failures ==> t.failures[ip].blockedUntil == 0)
    ensures ip in After(t, Failures(now, ip, n)).failures
    ensures After(t, Failures(now, ip, n)).failures[ip] == CountedRow(Charged(t, ip) + n, now)
  {
    FailuresSnoc(t, now, ip, n);
    if n == 1 {
      FirstFailure(t, now, ip);
    } else {
      FailuresCount(t, now, ip, n - 1);
      OneFailureMore(After(t, Failures(now, ip, n - 1)), now, ip, Charged(t, ip) + n - 1);
    }
  }

  lemma FailuresSnoc(t: Tables, now: int, ip: string, n: nat)
    requires n > 0
    ensures After(t, Failures(now, ip, n)) == AfterRecordFailure(After(t, Failures(now, ip, n - 1)), now, ip)
  {
    AfterSnoc(t, Failures(now, ip, n - 1), Call(now, RecordFailure(ip)));
  }

  /** A failed login at `now`, after `n` in second `c`, finds the counter at what was charged before
      and `n`; it locks if that makes five, unless an earlier one locked and that lock is over. */
  lemma FailureAfter(t: Tables, c: int, ip: string, n: nat, now: int)
    requires c <= now && 0 <= c && (ip in t.failures ==> t.failures[ip].blockedUntil == 0)
    ensures var charged := Charged(t, ip) + n;
            LockAfterFailure(After(t, Failures(c, ip, n)), now, ip) ==
            if charged + 1 < LOCKOUT_FAILURES || (n > 0 && charged >= LOCKOUT_FAILURES && c + LOCKOUT_SECONDS <= now)
            then 0
            else LOCKOUT_SECONDS
  {
    if n > 0 {
      FailuresCount(t, c, ip, n);
    }
  }

  /** A row that cleanup forgets shows in what later failed logins are told: as many as were missing
      to the lock do not lock, and four that would have locked do not, so that the fifth, a lockout
      later, does. */
  lemma LaterLoginsShow(t: Tables, c: int, ip: string)
    requires RowsFit(t, c) && 0 <= c && Forgotten(t, c, ip)
    ensures var u := AfterCleanup(t, c);
            var missing := LOCKOUT_FAILURES - t.failures[ip].failures;
            && 0 < missing
            && LockAfterFailure(After(t, Failures(c, ip, missing - 1)), c, ip) == LOCKOUT_SECONDS
            && LockAfterFailure(After(u, Failures(c, ip, missing - 1)), c, ip) == 0
    ensures var u := AfterCleanup(t, c);
            var four := Failures(c, ip, LOCKOUT_FAILURES - 1);
            && LockAfterFailure(After(t, four), c + LOCKOUT_SECONDS, ip) == 0
            && LockAfterFailure(After(u, four), c + LOCKOUT_SECONDS, ip) == LOCKOUT_SECONDS
  {
    ForgottenCharges(t, c, ip);
    MissingShow(t, AfterCleanup(t, c), c, ip);
    FourShow(t, AfterCleanup(t, c), c, ip);
  }

  lemma ForgottenCharges(t: Tables, c: int, ip: string)
    requires RowsFit(t, c) && 0 <= c && Forgotten(t, c, ip)
    ensures ip !in AfterCleanup(t, c).failures
    ensures 0 < t.failures[ip].failures && t.failures[ip].blockedUntil == 0
  {
    assert RowFits(t.failures[ip], c);
  }

  lemma MissingShow(t: Tables, u: Tables, c: int, ip: string)
    requires 0 <= c && ip !in u.failures
    requires ip in t.failures && 0 < t.failures[ip].failures < LOCKOUT_FAILURES && t.failures[ip].blockedUntil == 0
    ensures var missing := LOCKOUT_FAILURES - t.failures[ip].failures;
            && LockAfterFailure(After(t, Failures(c, ip, missing - 1)), c, ip) == LOCKOUT_SECONDS
            && LockAfterFailure(After(u, Failures(c, ip, missing - 1)), c, ip) == 0
  {
    var missing := LOCKOUT_FAILURES - t.failures[ip].failures;
    FailureAfter(t, c, ip, missing - 1, c);
    FailureAfter(u, c, ip, missing - 1, c);
  }

  lemma FourShow(t: Tables, u: Tables, c: int, ip: string)
    requires 0 <= c && ip !in u.failures
    requires ip in t.failures && 0 < t.failures[ip].failures < LOCKOUT_FAILURES && t.failures[ip].blockedUntil == 0
    ensures var four := Failures(c, ip, LOCKOUT_FAILURES - 1);
            && LockAfterFailure(After(t, four), c + LOCKOUT_SECONDS, ip) == 0
            && LockAfterFailure(After(u, four), c + LOCKOUT_SECONDS, ip) == LOCKOUT_SECONDS
  {
    FailureAfter(t, c, ip, LOCKOUT_FAILURES - 1, c + LOCKOUT_SECONDS);
    FailureAfter(u, c, ip, LOCKOUT_FAILURES - 1, c + LOCKOUT_SECONDS);
  }

  /** What a failed login is told is the lock it leaves. */
  lemma ToldIsStatus(t: Tables, front: seq<Call>, now: int, ip: string)
    ensures LockStatus(After(t, front + [Call(now, RecordFailure(ip))]), now, ip)
            == LockAfterFailure(After(t, front), now, ip)
  {
    AfterSnoc(t, front, Call(now, RecordFailure(ip)));
    StatusIs(After(t, front), now, ip);
  }

  lemma StatusIs(t: Tables, now: int, ip: string)
    ensures LockStatus(AfterRecordFailure(t, now, ip), now, ip) == LockAfterFailure(t, now, ip)
  {
  }

  /** A later failed login that is told of a shorter lock. */
  lemma LoginWeakens(t: Tables, u: Tables, c: int, ip: string, n: nat, now: int)
    requires c <= now
    requires LockAfterFailure(After(u, Failures(c, ip, n)), now, ip)
             < LockAfterFailure(After(t, Failures(c, ip, n)), now, ip)
    ensures Weakens(t, u, c, ip)
  {
    FailuresLater(c, ip, n, now);
    ToldIsStatus(t, Failures(c, ip, n), now, ip);
    ToldIsStatus(u, Failures(c, ip, n), now, ip);
  }

  lemma FailuresLater(c: int, ip: string, n: nat, now: int)
    requires c <= now
    ensures Later(c, Failures(c, ip, n) + [Call(now, RecordFailure(ip))], now)
  {
    FailuresShape(c, ip, n);
  }

  lemma ForgottenShows(t: Tables, c: int, ip: string)
    requires RowsFit(t, c) && 0 <= c && Forgotten(t, c, ip)
    ensures Weakens(t, AfterCleanup(t, c), c, ip) && Weakens(AfterCleanup(t, c), t, c, ip)
  {
    LaterLoginsShow(t, c, ip);
    LoginWeakens(t, AfterCleanup(t, c), c, ip, LOCKOUT_FAILURES - t.failures[ip].failures - 1, c);
    LoginWeakens(AfterCleanup(t, c), t, c, ip, LOCKOUT_FAILURES - 1, c + LOCKOUT_SECONDS);
  }

  /** Exactly when a cleanup can make a lock shorter, and exactly when it can make one longer, in
      anything that may happen later: if the address has fewer failures than lock it, the last of
      them more than a lockout ago. */
  lemma CleanupForgetsExactly(calls: seq<Call>, c: int, ip: string)
    requires Lawful(calls) && calls != [] && calls[|calls| - 1].now <= c
    ensures var t := Final(calls);
            && (Weakens(t, AfterCleanup(t, c), c, ip) <==> Forgotten(t, c, ip))
            && (Weakens(AfterCleanup(t, c), t, c, ip) <==> Forgotten(t, c, ip))
  {
    var t := Final(calls);
    var u := AfterCleanup(t, c);
    RowsAlwaysFit(calls);
    if Forgotten(t, c, ip) {
      ForgottenShows(t, c, ip);
    } else {
      OthersAlike(t, c, ip);
      forall more, now | Later(c, more, now)
        ensures LockStatus(After(u, more), now, ip) == LockStatus(After(t, more), now, ip)
      {
        AlikeForGood(t, u, ip, c, more, now);
      }
    }
  }

  /** Of the very next failed login the answer changes only if the address was one failure short. */
  lemma {:induction false} CleanupForgets(calls: seq<Call>, c: int, now: int, ip: string)
    requires Lawful(calls) && calls != [] && calls[|calls| - 1].now <= c <= now
    ensures var t := Final(calls);
            LockAfterFailure(AfterCleanup(t, c), now, ip) != LockAfterFailure(t, now, ip) <==>
            Forgotten(t, c, ip) && t.failures[ip].failures == LOCKOUT_FAILURES - 1
  {
    RowsAlwaysFit(calls);
    NextLogin(Final(calls), c, now, ip);
  }

  lemma NextLogin(t: Tables, c: int, now: int, ip: string)
    requires RowsFit(t, c) && 0 <= c <= now
    ensures LockAfterFailure(AfterCleanup(t, c), now, ip) != LockAfterFailure(t, now, ip) <==>
            Forgotten(t, c, ip) && t.failures[ip].failures == LOCKOUT_FAILURES - 1
  {
    if Forgotten(t, c, ip) {
      assert RowFits(t.failures[ip], c) && ip !in AfterCleanup(t, c).failures;
    } else {
      OthersAlike(t, c, ip);
    }
  }

  /** It does happen: four failed logins, nothing for more than a lockout, a fifth. With a cleanup
      before it the fifth does not lock, without one it does. */
  lemma FifthFailureForgotten(ip: string)
    ensures exists calls: seq<Call>, c ::
              && Lawful(calls) && calls != [] && calls[|calls| - 1].now <= c
              && LockAfterFailure(AfterCleanup(Final(calls), c), c, ip) == 0
              && LockAfterFailure(Final(calls), c, ip) == LOCKOUT_SECONDS
  {
    var calls, c := Failures(0, ip, LOCKOUT_FAILURES - 1), LOCKOUT_SECONDS + 1;
    FailuresShape(0, ip, LOCKOUT_FAILURES - 1);
    FailuresCount(EMPTY, 0, ip, LOCKOUT_FAILURES - 1);
    var t := Final(calls);
    assert t.failures[ip] == Failure(LOCKOUT_FAILURES - 1, 0, 0);
    assert ip !in AfterCleanup(t, c).failures;
    assert LockAfterFailure(AfterCleanup(t, c), c, ip) == 0 && LockAfterFailure(t, c, ip) == LOCKOUT_SECONDS;
  }
}
