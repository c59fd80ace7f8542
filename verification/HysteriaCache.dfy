/** The cache in front of the Hysteria users file: the file is examined outside the lock and read
    inside it, while others replace it at any moment (portal/app/hysteria_auth.py). */
module HysteriaCache {
  import opened Bytes
  import opened Json
  import opened HysteriaUsers

  /** Modification time in nanoseconds and size. */
  type Signature = (int, int)

  /** One version of the file: its signature and what parsing it gives. */
  datatype Version = Missing | Present(signature: Signature, parsed: Loaded)

  /** What a load of this very version gives. */
  function UsersIn(v: Version): Loaded {
    if v.Missing? then Caught else v.parsed
  }

  // ---- the object ------------------------------------------------------------------------

  datatype Cache = Cache(signature: Option<Signature>, users: seq<User>)

  /** The locked section: the answer and the cache it leaves, `now` being the version read. */
  function Answer(c: Cache, signature: Signature, now: Version): (Loaded, Cache) {
    if c.signature == Some(signature) then (Users(c.users), c)
    else match UsersIn(now)
      case Users(users) => (Users(users), Cache(Some(signature), users))
      case Caught => (Caught, c)
      case Uncaught => (Uncaught, c)
  }

  function VersionOf(file: Option<Content>, signature: Signature): Version {
    match file
    case None => Missing
    case Some(content) => Present(signature, Parse(content))
  }

  class HysteriaUserCache {
    var signature: Option<Signature>
    var users: seq<User>

    function Value(): Cache
      reads this
    {
      Cache(signature, users)
    }

    constructor ()
      ensures Value() == Cache(None, [])
    {
      signature, users := None, [];
    }

    /** `_load` after its `stat` found `found`; `now` is what the path holds when it is read. */
    method LoadLocked(found: Signature, now: Option<Content>, current: Signature) returns (r: Loaded)
      modifies this
      ensures (r, Value()) == Answer(old(Value()), found, VersionOf(now, current))
      ensures old(signature) == Some(found) ==> r == Users(old(users)) && Value() == old(Value())
      ensures old(signature) != Some(found) ==>
                match now
                case None => r == Caught && Value() == old(Value())
                case Some(Garbage) => r == Caught && Value() == old(Value())
                case Some(TooDeep) => r == Uncaught && Value() == old(Value())
                case Some(Doc(state)) =>
                  && r == UsersOf(state)
                  && Value() == if r.Users? then Cache(Some(found), r.users) else old(Value())
    {
      if signature == Some(found) {
        return Users(users);
      }
      match now {
        case None =>
          return Caught;
        case Some(Garbage) =>
          return Caught;
        case Some(TooDeep) =>
          return Uncaught;
        case Some(Doc(state)) =>
          r := BuildUsers(state);
          if r.Users? {
            users, signature := r.users, Some(found);
          }
      }
    }

    /** One undisturbed call of `authenticate`. */
    method Authenticate(file: Option<Content>, current: Signature, credential: string) returns (verdict: Verdict)
      modifies this
      ensures file.None? ==> verdict == Refused && Value() == old(Value())
      ensures file.Some? ==>
                var (loaded, cache) := Answer(old(Value()), current, VersionOf(file, current));
                verdict == HysteriaUsers.Authenticate(loaded, credential) && Value() == cache
    {
      if file.None? {
        return Refused;
      }
      var loaded := LoadLocked(current, file, current);
      match loaded {
        case Caught =>
          return Refused;
        case Uncaught =>
          return Raised;
        case Users(known) =>
          var i := Colon(credential);
          if i == |credential| {
            return Refused;
          }
          verdict := Find(known, credential[..i], credential[i + 1..]);
      }
    }
  }

  // ---- many threads and a file that changes ----------------------------------------------

  /** A call remembers the version the file held when it began, and, once over, the one at its end. */
  datatype Client =
    | Idle
    | Called(from: nat)
    | Examined(from: nat, signature: Signature)
    | Holding(from: nat, signature: Signature)
    | Done(from: nat, to: nat, result: Loaded)

  datatype System = System(history: seq<Version>, lock: Option<nat>, cache: Cache, clients: seq<Client>)

  datatype Step =
    | Replace(v: Version)
    | Call(k: nat)
    | Stat(k: nat)
    | Lock(k: nat)
    | Read(k: nat)

  function Start(v: Version, clients: nat): System {
    System([v], None, Cache(None, []), seq(clients, _ => Idle))
  }

  predicate Enabled(s: System, step: Step) {
    && s.history != []
    && match step
       case Replace(_) => true
       case Call(k) => k < |s.clients| && (s.clients[k].Idle? || s.clients[k].Done?)
       case Stat(k) => k < |s.clients| && s.clients[k].Called?
       case Lock(k) => k < |s.clients| && s.clients[k].Examined? && s.lock.None?
       case Read(k) => k < |s.clients| && s.clients[k].Holding?
  }

  function Next(s: System, step: Step): System
    requires Enabled(s, step)
  {
    var last := |s.history| - 1;
    match step
    case Replace(v) => s.(history := s.history + [v])
    case Call(k) => s.(clients := s.clients[k := Called(last)])
    case Stat(k) =>
      var from := s.clients[k].from;
      s.(clients := s.clients[k := match s.history[last]
                                   case Missing => Done(from, last, Caught)
                                   case Present(signature, _) => Examined(from, signature)])
    case Lock(k) => s.(clients := s.clients[k := Holding(s.clients[k].from, s.clients[k].signature)], lock := Some(k))
    case Read(k) =>
      var (result, cache) := Answer(s.cache, s.clients[k].signature, s.history[last]);
      s.(clients := s.clients[k := Done(s.clients[k].from, last, result)], lock := None, cache := cache)
  }

  /** The state after the given steps, if each can be taken. */
  function Exec(s: System, steps: seq<Step>): Option<System>
    decreases |steps|
  {
    if steps == [] then Some(s)
    else match Exec(s, steps[..|steps| - 1])
      case None => None
      case Some(m) => if Enabled(m, steps[|steps| - 1]) then Some(Next(m, steps[|steps| - 1])) else None
  }

  // ---- what every run keeps --------------------------------------------------------------

  /** The cache answers `signature` with the users of `users`: it was found on some version, and the
      users were read from that one or a later one. */
  predicate Origin(history: seq<Version>, i: nat, j: nat, signature: Signature, users: seq<User>) {
    && i <= j < |history|
    && history[i].Present? && history[i].signature == signature
    && UsersIn(history[j]) == Users(users)
  }

  /** The result is that of a version held during the call. */
  ghost predicate Current(history: seq<Version>, from: nat, to: nat, result: Loaded) {
    exists v :: from <= v <= to < |history| && UsersIn(history[v]) == result
  }

  /** The result was cached earlier, for the signature of a version held during the call. */
  ghost predicate FromCache(history: seq<Version>, from: nat, to: nat, result: Loaded) {
    && result.Users?
    && exists i: nat, j: nat, k: nat :: Carried(history, i, j, k, result.users) && from <= k <= to
  }

  predicate Carried(history: seq<Version>, i: nat, j: nat, k: nat, users: seq<User>) {
    && j <= k < |history| && history[k].Present?
    && Origin(history, i, j, history[k].signature, users)
  }

  ghost predicate ClientFits(history: seq<Version>, c: Client) {
    match c
    case Idle => true
    case Called(from) => from < |history|
    case Examined(from, signature) => SeenSince(history, from, signature)
    case Holding(from, signature) => SeenSince(history, from, signature)
    case Done(from, to, result) =>
      from <= to < |history| && (Current(history, from, to, result) || FromCache(history, from, to, result))
  }

  ghost predicate SeenSince(history: seq<Version>, from: nat, signature: Signature) {
    exists i :: from <= i < |history| && history[i].Present? && history[i].signature == signature
  }

  ghost predicate CacheFits(history: seq<Version>, c: Cache) {
    c.signature.Some? ==> exists i: nat, j: nat :: Origin(history, i, j, c.signature.value, c.users)
  }

  ghost predicate Inv(s: System) {
    && s.history != []
    && CacheFits(s.history, s.cache)
    && forall k :: 0 <= k < |s.clients| ==> ClientFits(s.history, s.clients[k])
  }

  lemma ClientStillFits(history: seq<Version>, v: Version, c: Client)
    requires ClientFits(history, c)
    ensures ClientFits(history + [v], c)
  {
    var later := history + [v];
    match c
    case Examined(from, signature) =>
      var i :| from <= i < |history| && history[i].Present? && history[i].signature == signature;
      assert later[i] == history[i];
    case Holding(from, signature) =>
      var i :| from <= i < |history| && history[i].Present? && history[i].signature == signature;
      assert later[i] == history[i];
    case Done(from, to, result) =>
      if Current(history, from, to, result) {
        var i :| from <= i <= to < |history| && UsersIn(history[i]) == result;
        assert later[i] == history[i];
      } else {
        var i: nat, j: nat, k: nat :| Carried(history, i, j, k, result.users) && from <= k <= to;
        assert Carried(later, i, j, k, result.users);
      }
    case _ =>
  }

  lemma ReplaceKept(s: System, v: Version)
    requires Inv(s)
    ensures Inv(Next(s, Replace(v)))
  {
    var t := Next(s, Replace(v));
    forall k | 0 <= k < |t.clients|
      ensures ClientFits(t.history, t.clients[k])
    {
      ClientStillFits(s.history, v, s.clients[k]);
    }
    if s.cache.signature.Some? {
      var i: nat, j: nat :| Origin(s.history, i, j, s.cache.signature.value, s.cache.users);
      assert Origin(t.history, i, j, s.cache.signature.value, s.cache.users);
    }
  }

  lemma ReadKept(s: System, k: nat)
    requires Inv(s) && Enabled(s, Read(k))
    ensures Inv(Next(s, Read(k)))
  {
    var t := Next(s, Read(k));
    var (from, signature) := (s.clients[k].from, s.clients[k].signature);
    var last := |s.history| - 1;
    assert ClientFits(s.history, s.clients[k]);
    var n: nat :| from <= n < |s.history| && s.history[n].Present? && s.history[n].signature == signature;
    if s.cache.signature == Some(signature) {
      var i: nat, j: nat :| Origin(s.history, i, j, signature, s.cache.users);
      if j <= n {
        assert Carried(s.history, i, j, n, s.cache.users);
      } else {
        assert from <= j <= last < |s.history| && UsersIn(s.history[j]) == Users(s.cache.users);
      }
    } else {
      assert from <= last <= last < |s.history| && UsersIn(s.history[last]) == t.clients[k].result;
      if UsersIn(s.history[last]).Users? {
        assert Origin(s.history, n, last, signature, UsersIn(s.history[last]).users);
      }
    }
    assert ClientFits(t.history, t.clients[k]);
    assert CacheFits(t.history, t.cache);
  }

  lemma StatKept(s: System, k: nat)
    requires Inv(s) && Enabled(s, Stat(k))
    ensures Inv(Next(s, Stat(k)))
  {
    var t := Next(s, Stat(k));
    var last := |s.history| - 1;
    assert ClientFits(s.history, s.clients[k]);
    if s.history[last].Missing? {
      assert s.clients[k].from <= last <= last < |s.history| && UsersIn(s.history[last]) == Caught;
    }
    assert ClientFits(t.history, t.clients[k]);
  }

  lemma StepKept(s: System, step: Step)
    requires Inv(s) && Enabled(s, step)
    ensures Inv(Next(s, step))
  {
    match step
    case Replace(v) => ReplaceKept(s, v);
    case Call(k) =>
    case Stat(k) => StatKept(s, k);
    case Lock(k) => assert ClientFits(s.history, s.clients[k]);
    case Read(k) => ReadKept(s, k);
  }

  lemma {:induction false} EveryRun(v: Version, clients: nat, steps: seq<Step>)
    requires Exec(Start(v, clients), steps).Some?
    ensures Inv(Exec(Start(v, clients), steps).value)
    decreases |steps|
  {
    if steps != [] {
      EveryRun(v, clients, steps[..|steps| - 1]);
      StepKept(Exec(Start(v, clients), steps[..|steps| - 1]).value, steps[|steps| - 1]);
    }
  }

  // ---- when the answers are current ------------------------------------------------------

  /** Whenever a signature comes back, every readable version since it was last seen has the same users. */
  predicate SignaturesTell(history: seq<Version>) {
    forall i, j, k :: 0 <= i <= j <= k < |history| && history[i].Present? && history[k].Present?
                      && history[i].signature == history[k].signature && UsersIn(history[j]).Users? ==>
      UsersIn(history[j]) == UsersIn(history[k])
  }

  /** If signatures tell, every call returns what some version held during that call contains. */
  lemma LoadsAreCurrent(v: Version, clients: nat, steps: seq<Step>, k: nat)
    requires Exec(Start(v, clients), steps).Some?
    requires var s := Exec(Start(v, clients), steps).value;
             && SignaturesTell(s.history) && k < |s.clients| && s.clients[k].Done?
    ensures var s := Exec(Start(v, clients), steps).value;
            Current(s.history, s.clients[k].from, s.clients[k].to, s.clients[k].result)
  {
    EveryRun(v, clients, steps);
    var s := Exec(Start(v, clients), steps).value;
    assert ClientFits(s.history, s.clients[k]);
    var Done(from, to, result) := s.clients[k];
    if FromCache(s.history, from, to, result) {
      var i: nat, j: nat, n: nat :| Carried(s.history, i, j, n, result.users) && from <= n <= to;
      assert from <= n <= to < |s.history| && UsersIn(s.history[n]) == result;
    }
  }

  /** The second of two calls is over and returned what no version held during it contains. */
  ghost predicate Stale(history: seq<Version>, end: System) {
    && end.history == history && |end.clients| == 2 && end.clients[1].Done?
    && !Current(history, end.clients[1].from, end.clients[1].to, end.clients[1].result)
  }

  /** If they do not, two calls suffice for one to return users no version it saw contains: the
      condition cannot be weakened for any history. */
  lemma StaleOtherwise(history: seq<Version>)
    requires history != [] && !SignaturesTell(history)
    ensures exists steps, end :: Exec(Start(history[0], 2), steps) == Some(end) && Stale(history, end)
  {
    var i: nat, j: nat, k: nat :| i <= j <= k < |history| && history[i].Present? && history[k].Present?
                   && history[i].signature == history[k].signature && UsersIn(history[j]).Users?
                   && UsersIn(history[j]) != UsersIn(history[k]);
    MisledIsStale(history, i, j, k);
    var p := BothCalls(history, i, j, k);
  }

  lemma MisledIsStale(history: seq<Version>, i: nat, j: nat, k: nat)
    requires i <= j <= k < |history| && history[i].Present? && UsersIn(history[j]).Users?
    requires UsersIn(history[j]) != UsersIn(history[k])
    ensures Stale(history, Misled(history, i, j, k))
  {
  }

  lemma BothCalls(history: seq<Version>, i: nat, j: nat, k: nat) returns (p: seq<Step>)
    requires i <= j <= k < |history| && history[i].Present? && UsersIn(history[j]).Users?
    requires history[k].Present? && history[i].signature == history[k].signature
    ensures Exec(Start(history[0], 2), p) == Some(Misled(history, i, j, k))
  {
    p := FirstCall(history, i, j);
    p := SecondCall(history, p, i, j, k);
    p := AdvancedToEnd(Start(history[0], 2), p, Misled(history, i, j, k).(history := history[..k + 1]), history);
  }

  /** The cache after a call that examined version `i` and read version `j`. */
  function Poisoned(history: seq<Version>, i: nat, j: nat): System
    requires i <= j < |history| && history[i].Present? && UsersIn(history[j]).Users?
  {
    var loaded := UsersIn(history[j]);
    System(history[..j + 1], None, Cache(Some(history[i].signature), loaded.users), [Done(i, j, loaded), Idle])
  }

  /** And after a second call, made while version `k` was in place. */
  function Misled(history: seq<Version>, i: nat, j: nat, k: nat): System
    requires i <= j < |history| && history[i].Present? && UsersIn(history[j]).Users?
  {
    var s := Poisoned(history, i, j);
    System(history, None, s.cache, [s.clients[0], Done(k, k, UsersIn(history[j]))])
  }

  lemma FirstCall(history: seq<Version>, i: nat, j: nat) returns (p: seq<Step>)
    requires i <= j < |history| && history[i].Present? && UsersIn(history[j]).Users?
    ensures Exec(Start(history[0], 2), p) == Some(Poisoned(history, i, j))
  {
    var s := Start(history[0], 2);
    assert history[..1] == [history[0]];
    p := ExamineAt(s, [], s, history, i, 0);
    var m := System(history[..i + 1], None, s.cache, s.clients[0 := Examined(i, history[i].signature)]);
    p := LoadAt(s, p, m, history, j, 0);
    assert m.clients[0 := Done(i, j, UsersIn(history[j]))] == [Done(i, j, UsersIn(history[j])), Idle];
  }

  lemma SecondCall(history: seq<Version>, first: seq<Step>, i: nat, j: nat, k: nat) returns (p: seq<Step>)
    requires i <= j <= k < |history| && history[i].Present? && UsersIn(history[j]).Users?
    requires history[k].Present? && history[i].signature == history[k].signature
    requires Exec(Start(history[0], 2), first) == Some(Poisoned(history, i, j))
    ensures Exec(Start(history[0], 2), p) == Some(Misled(history, i, j, k).(history := history[..k + 1]))
  {
    var s := Start(history[0], 2);
    var m := Poisoned(history, i, j);
    p := ExamineAt(s, first, m, history, k, 1);
    var n := System(history[..k + 1], None, m.cache, m.clients[1 := Examined(k, history[k].signature)]);
    p := LoadAt(s, p, n, history, k, 1);
    assert n.clients[1 := Done(k, k, UsersIn(history[j]))] == [m.clients[0], Done(k, k, UsersIn(history[j]))];
  }

  lemma AdvancedToEnd(s: System, steps: seq<Step>, m: System, history: seq<Version>) returns (more: seq<Step>)
    requires Exec(s, steps) == Some(m)
    requires 0 < |m.history| <= |history| && m.history == history[..|m.history|]
    ensures Exec(s, more) == Some(m.(history := history))
  {
    more := Advanced(s, steps, m, history, |history| - 1);
    assert history[..|history|] == history;
  }

  /** The file goes through the versions up to `n`, and then a call begins and examines it. */
  lemma ExamineAt(s: System, steps: seq<Step>, m: System, history: seq<Version>, n: nat, k: nat)
    returns (more: seq<Step>)
    requires Exec(s, steps) == Some(m) && k < |m.clients| && m.clients[k].Idle?
    requires n < |history| && 0 < |m.history| <= n + 1 && m.history == history[..|m.history|] && history[n].Present?
    ensures Exec(s, more) == Some(m.(history := history[..n + 1],
                                     clients := m.clients[k := Examined(n, history[n].signature)]))
  {
    more := Advanced(s, steps, m, history, n);
    more := Examine(s, more, m.(history := history[..n + 1]), k);
  }

  /** The file goes through the versions up to `n`, and then a call goes through its locked section. */
  lemma LoadAt(s: System, steps: seq<Step>, m: System, history: seq<Version>, n: nat, k: nat)
    returns (more: seq<Step>)
    requires Exec(s, steps) == Some(m) && k < |m.clients| && m.clients[k].Examined? && m.lock.None?
    requires n < |history| && 0 < |m.history| <= n + 1 && m.history == history[..|m.history|]
    ensures var (result, cache) := Answer(m.cache, m.clients[k].signature, history[n]);
            Exec(s, more) == Some(m.(history := history[..n + 1], cache := cache,
                                     clients := m.clients[k := Done(m.clients[k].from, n, result)]))
  {
    more := Advanced(s, steps, m, history, n);
    more := Load(s, more, m.(history := history[..n + 1]), k);
  }

  /** A call begins and examines the file. */
  lemma Examine(s: System, steps: seq<Step>, m: System, k: nat) returns (more: seq<Step>)
    requires Exec(s, steps) == Some(m) && k < |m.clients| && m.clients[k].Idle?
    requires m.history != [] && m.history[|m.history| - 1].Present?
    ensures var last := |m.history| - 1;
            Exec(s, more) == Some(m.(clients := m.clients[k := Examined(last, m.history[last].signature)]))
  {
    more := Then(s, steps, m, Call(k));
    var called := Next(m, Call(k));
    more := Then(s, more, called, Stat(k));
    var last := |m.history| - 1;
    assert called.clients[k := Examined(last, m.history[last].signature)]
           == m.clients[k := Examined(last, m.history[last].signature)];
  }

  /** A call that examined the file goes through its locked section. */
  lemma Load(s: System, steps: seq<Step>, m: System, k: nat) returns (more: seq<Step>)
    requires Exec(s, steps) == Some(m) && k < |m.clients| && m.clients[k].Examined? && m.lock.None?
    requires m.history != []
    ensures var last := |m.history| - 1;
            var (result, cache) := Answer(m.cache, m.clients[k].signature, m.history[last]);
            Exec(s, more) == Some(m.(clients := m.clients[k := Done(m.clients[k].from, last, result)], cache := cache))
  {
    more := Then(s, steps, m, Lock(k));
    var locked := Next(m, Lock(k));
    more := Then(s, more, locked, Read(k));
    var last := |m.history| - 1;
    var (result, cache) := Answer(m.cache, m.clients[k].signature, m.history[last]);
    var done := Done(m.clients[k].from, last, result);
    assert locked.clients[k := done] == m.clients[k := done];
  }

  lemma Then(s: System, steps: seq<Step>, m: System, step: Step) returns (more: seq<Step>)
    requires Exec(s, steps) == Some(m) && Enabled(m, step)
    ensures Exec(s, more) == Some(Next(m, step))
  {
    more := steps + [step];
    assert more[..|more| - 1] == steps;
  }

  /** The file goes through the versions up to `n`. */
  lemma {:induction false} Advanced(s: System, steps: seq<Step>, m: System, history: seq<Version>, n: nat)
    returns (more: seq<Step>)
    requires Exec(s, steps) == Some(m) && n < |history| && 0 < |m.history| <= n + 1
    requires m.history == history[..|m.history|]
    ensures Exec(s, more) == Some(m.(history := history[..n + 1]))
  {
    if |m.history| == n + 1 {
      more := steps;
    } else {
      more := Advanced(s, steps, m, history, n - 1);
      more := Then(s, more, m.(history := history[..n]), Replace(history[n]));
      assert history[..n] + [history[n]] == history[..n + 1];
    }
  }

  /** Equal signatures meaning equal contents is not enough: a version can be read while the signature
      of an older one is remembered, and the older one can come back. */
  lemma EqualContentsNotEnough(a: Version, b: Version)
    requires a.Present? && b.Present? && a.signature != b.signature
    requires UsersIn(b).Users? && UsersIn(b) != UsersIn(a)
    ensures SignaturesIdentify([a, b, a]) && !SignaturesTell([a, b, a])
  {
    var history := [a, b, a];
    assert history[0].signature == history[2].signature && UsersIn(history[1]) != UsersIn(history[2]);
  }

  /** Versions with one signature have one content. */
  predicate SignaturesIdentify(history: seq<Version>) {
    forall i, k :: 0 <= i <= k < |history| && history[i].Present? && history[k].Present?
                   && history[i].signature == history[k].signature ==>
      history[i].parsed == history[k].parsed
  }

  /** Once a version with another signature was seen, the old signature is gone; the file may be
      missing for a while. */
  predicate ReplacedForGood(history: seq<Version>) {
    forall i, j, k :: 0 <= i < j < k < |history|
                      && history[i].Present? && history[j].Present? && history[k].Present?
                      && history[i].signature != history[j].signature ==>
      history[i].signature != history[k].signature
  }

  lemma ReplacedForGoodTells(history: seq<Version>)
    requires SignaturesIdentify(history) && ReplacedForGood(history)
    ensures SignaturesTell(history)
  {
    forall i, j, k | 0 <= i <= j <= k < |history| && history[i].Present? && history[k].Present?
                     && history[i].signature == history[k].signature && UsersIn(history[j]).Users?
      ensures UsersIn(history[j]) == UsersIn(history[k])
    {
      assert history[j].signature == history[k].signature;
    }
  }

  /** What is enough in practice: if signatures identify contents and a replaced signature never
      comes back, then in every run every call returns what some version held during it contains. */
  lemma NeverReusedSuffices(v: Version, clients: nat, steps: seq<Step>, k: nat)
    requires Exec(Start(v, clients), steps).Some?
    requires var s := Exec(Start(v, clients), steps).value;
             SignaturesIdentify(s.history) && ReplacedForGood(s.history) && k < |s.clients| && s.clients[k].Done?
    ensures var s := Exec(Start(v, clients), steps).value;
            Current(s.history, s.clients[k].from, s.clients[k].to, s.clients[k].result)
  {
    ReplacedForGoodTells(Exec(Start(v, clients), steps).value.history);
    LoadsAreCurrent(v, clients, steps, k);
  }
}
