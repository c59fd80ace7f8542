/** The users of the internal Hysteria authentication and the decision taken on them
    (portal/app/hysteria_auth.py). */
module HysteriaUsers {
  import opened Bytes
  import opened Json

  /** A dictionary key as `compare_digest` meets it: a string, or something it rejects. */
  datatype Name = Text(text: string) | NotText

  datatype User = User(name: Name, password: string)

  /** What reading the file leads to: the users in dictionary order, an exception `authenticate`
      turns into a refusal, or one it lets through. */
  datatype Loaded = Users(users: seq<User>) | Caught | Uncaught

  datatype Verdict = Accepted(name: string) | Refused | Raised

  // ---- the dictionary of users -----------------------------------------------------------

  predicate Distinct(users: seq<User>) {
    forall i, j :: 0 <= i < j < |users| ==> users[i].name != users[j].name
  }

  function Position(users: seq<User>, name: Name): (i: nat)
    ensures i <= |users| && (i < |users| ==> users[i].name == name)
    ensures forall j :: 0 <= j < i ==> users[j].name != name
  {
    if users == [] || users[0].name == name then 0 else Position(users[1..], name) + 1
  }

  /** `users[name] = password`: in place if the name is there, at the end if not. */
  function Set(users: seq<User>, user: User): seq<User> {
    var i := Position(users, user.name);
    if i < |users| then users[i := user] else users + [user]
  }

  lemma SetMeans(users: seq<User>, user: User)
    requires Distinct(users)
    ensures Distinct(Set(users, user))
    ensures forall u :: u in Set(users, user) <==> u == user || (u in users && u.name != user.name)
    ensures var r := Set(users, user);
            && (forall k :: 0 <= k < |users| ==> r[k] == if users[k].name == user.name then user else users[k])
            && |r| == if exists k :: 0 <= k < |users| && users[k].name == user.name then |users| else |users| + 1
  {
    var i := Position(users, user.name);
    var r := Set(users, user);
    forall u
      ensures u in r <==> u == user || (u in users && u.name != user.name)
    {
      if u in users && u.name != user.name {
        var j :| 0 <= j < |users| && users[j] == u;
        assert r[j] == u;
      }
      if u == user {
        assert r[i] == u;
      }
    }
  }

  // ---- one user of the file --------------------------------------------------------------

  datatype Reading = Skipped | Entry(user: User) | Fails(with: Loaded)

  predicate Contains(s: string, part: string) {
    part <= s || (s != "" && Contains(s[1..], part))
  }

  /** `"hysteria" in systems`, or nothing when `systems` is not a container. */
  function MemberOf(systems: Json): Option<bool> {
    match systems
    case Arr(items) => Some(Str("hysteria") in items)
    case Str(s) => Some(Contains(s, "hysteria"))
    case Obj(fields) => Some("hysteria" in fields)
    case _ => None
  }

  function NameOf(user: Json): Option<Name>
    requires user.Obj?
  {
    if "name" !in user.fields then None
    else match user.fields["name"]
      case Str(s) => Some(Text(s))
      case Arr(_) => None
      case Obj(_) => None
      case _ => Some(NotText)
  }

  function Read(user: Json): Reading {
    if !user.Obj? then Fails(Uncaught)
    else if !Truthy(Get(user, "enabled", Bool(true))) then Skipped
    else
      match MemberOf(Get(user, "systems", Arr([])))
      case None => Fails(Caught)
      case Some(false) => Skipped
      case Some(true) =>
        var password := Get(user, "hysteria_password", Null);
        if !(password.Str? && password.s != "") then Skipped
        else match NameOf(user)
          case None => Fails(Caught)
          case Some(name) => Entry(User(name, password.s))
  }

  predicate PartAt(s: string, part: string, i: int) {
    0 <= i && i + |part| <= |s| && s[i..i + |part|] == part
  }

  lemma PartShift(s: string, part: string, i: nat)
    requires s != ""
    ensures PartAt(s[1..], part, i) <==> PartAt(s, part, i + 1)
  {
    if i + |part| <= |s[1..]| {
      assert s[1..][i..i + |part|] == s[i + 1..i + 1 + |part|];
    }
  }

  lemma {:induction false} ContainsExactly(s: string, part: string)
    ensures Contains(s, part) <==> exists i :: PartAt(s, part, i)
  {
    if part <= s {
      assert PartAt(s, part, 0);
    } else if s != "" {
      ContainsExactly(s[1..], part);
      if i :| PartAt(s[1..], part, i) {
        PartShift(s, part, i);
      }
      if i :| PartAt(s, part, i) {
        NotAtStart(s, part, i);
        PartShift(s, part, i - 1);
      }
    }
  }

  lemma NotAtStart(s: string, part: string, i: int)
    requires PartAt(s, part, i) && !(part <= s)
    ensures i > 0
  {
  }

  /** The user belongs to Hysteria: `"hysteria"` is in its list, its text or among its keys. */
  ghost predicate InHysteria(systems: Json) {
    || (systems.Arr? && Str("hysteria") in systems.items)
    || (systems.Str? && exists i :: PartAt(systems.s, "hysteria", i))
    || (systems.Obj? && "hysteria" in systems.fields)
  }

  /** An enabled Hysteria user with a password, whatever its name. */
  ghost predicate Listable(user: Json) {
    && user.Obj? && ("enabled" in user.fields ==> Truthy(user.fields["enabled"]))
    && "systems" in user.fields && InHysteria(user.fields["systems"])
    && "hysteria_password" in user.fields && user.fields["hysteria_password"].Str?
    && user.fields["hysteria_password"].s != ""
  }

  lemma MemberExactly(systems: Json)
    ensures MemberOf(systems) == Some(true) <==> InHysteria(systems)
  {
    if systems.Str? {
      ContainsExactly(systems.s, "hysteria");
    }
  }

  /** Exactly the enabled Hysteria users with a password and a text as name are listed under it. */
  lemma ListedExactly(user: Json, name: string, password: string)
    ensures Read(user) == Entry(User(Text(name), password)) <==>
              && Listable(user) && Get(user, "hysteria_password", Null) == Str(password)
              && Get(user, "name", Null) == Str(name)
  {
    MemberExactly(Get(user, "systems", Arr([])));
  }

  lemma ListedIsListable(user: Json)
    requires Read(user).Entry?
    ensures Listable(user)
  {
    MemberExactly(Get(user, "systems", Arr([])));
  }

  // ---- all users of the file -------------------------------------------------------------

  function Collect(items: seq<Json>): Loaded
    decreases |items|
  {
    if items == [] then Users([])
    else match Collect(items[..|items| - 1])
      case Users(users) =>
        (match Read(items[|items| - 1])
         case Skipped => Users(users)
         case Entry(user) => Users(Set(users, user))
         case Fails(with) => with)
      case Caught => Caught
      case Uncaught => Uncaught
  }

  /** The value the loop runs over, or the exception it starts with. */
  function UserList(state: Json): (r: (seq<Json>, Option<Loaded>)) {
    if !state.Obj? then ([], Some(Uncaught))
    else match Get(state, "users", Arr([]))
      case Arr(items) => (items, None)
      case Str(s) => ([], if s == "" then None else Some(Uncaught))
      case Obj(fields) => ([], if fields == map[] then None else Some(Uncaught))
      case _ => ([], Some(Caught))
  }

  function UsersOf(state: Json): Loaded {
    var (items, failure) := UserList(state);
    if failure.Some? then failure.value else Collect(items)
  }

  /** The text of the file: no JSON, JSON nested too deep for the parser, or a value. */
  datatype Content = Garbage | TooDeep | Doc(state: Json)

  /** What parsing and reading it gives; the parser's `RecursionError` is not caught. */
  function Parse(content: Content): Loaded {
    match content
    case Garbage => Caught
    case TooDeep => Uncaught
    case Doc(state) => UsersOf(state)
  }

  /** The loop of `_load`. */
  method BuildUsers(state: Json) returns (r: Loaded)
    ensures r == UsersOf(state)
  {
    var (items, failure) := UserList(state);
    if failure.Some? {
      return failure.value;
    }
    var users: seq<User> := [];
    for i := 0 to |items|
      invariant Collect(items[..i]) == Users(users)
    {
      assert items[..i + 1][..i] == items[..i];
      match Read(items[i]) {
        case Skipped =>
        case Entry(user) =>
          users := Set(users, user);
        case Fails(with) =>
          FailureStays(items, i + 1);
          return with;
      }
    }
    assert items[..|items|] == items;
    return Users(users);
  }

  lemma {:induction false} FailureStays(items: seq<Json>, n: nat)
    requires n <= |items| && !Collect(items[..n]).Users?
    ensures Collect(items) == Collect(items[..n])
    decreases |items| - n
  {
    if n < |items| {
      assert items[..n + 1][..n] == items[..n];
      FailureStays(items, n + 1);
    } else {
      assert items[..n] == items;
    }
  }

  /** `user` is what entry `i` of the file says and no later entry has its name. */
  predicate LastSaid(items: seq<Json>, i: nat, user: User) {
    && i < |items| && Read(items[i]) == Entry(user)
    && forall j :: i < j < |items| ==> !(Read(items[j]).Entry? && Read(items[j]).user.name == user.name)
  }

  lemma {:induction false} CollectSucceeds(items: seq<Json>)
    ensures Collect(items).Users? <==> forall i :: 0 <= i < |items| ==> !Read(items[i]).Fails?
    decreases |items|
  {
    if items != [] {
      CollectSucceeds(items[..|items| - 1]);
    }
  }

  lemma {:induction false} CollectHas(items: seq<Json>, u: User)
    requires Collect(items).Users?
    ensures Distinct(Collect(items).users)
    ensures u in Collect(items).users <==> exists i :: LastSaid(items, i, u)
    decreases |items|
  {
    if items != [] {
      var front := items[..|items| - 1];
      CollectHas(front, u);
      LastSaidSnoc(items, u);
      if Read(items[|items| - 1]).Entry? {
        SetMeans(Collect(front).users, Read(items[|items| - 1]).user);
      }
    }
  }

  /** Loading succeeds exactly when no entry fails; then the names are distinct and the users are
      exactly the last ones the file gives for their names. */
  lemma {:induction false} CollectMeans(items: seq<Json>)
    ensures Collect(items).Users? <==> forall i :: 0 <= i < |items| ==> !Read(items[i]).Fails?
    ensures Collect(items).Users? ==>
              && Distinct(Collect(items).users)
              && forall u :: u in Collect(items).users <==> exists i :: LastSaid(items, i, u)
  {
    CollectSucceeds(items);
    if Collect(items).Users? {
      forall u
        ensures Distinct(Collect(items).users)
        ensures u in Collect(items).users <==> exists i :: LastSaid(items, i, u)
      {
        CollectHas(items, u);
      }
      CollectHas(items, User(NotText, ""));
    }
  }

  lemma LastSaidSnoc(items: seq<Json>, u: User)
    requires items != []
    ensures var front := items[..|items| - 1];
            var last := Read(items[|items| - 1]);
            (exists i :: LastSaid(items, i, u)) <==>
            (last == Entry(u) || (!(last.Entry? && last.user.name == u.name) && exists i :: LastSaid(front, i, u)))
  {
    var front := items[..|items| - 1];
    var last := Read(items[|items| - 1]);
    if last == Entry(u) {
      assert LastSaid(items, |items| - 1, u);
    } else if !(last.Entry? && last.user.name == u.name) {
      if i :| LastSaid(front, i, u) {
        assert LastSaid(items, i, u);
      }
      if i :| LastSaid(items, i, u) {
        assert LastSaid(front, i, u);
      }
    }
  }

  /** The first entry that fails decides with which kind of exception loading ends. */
  lemma {:induction false} FirstFailureDecides(items: seq<Json>, with: Loaded)
    requires !with.Users?
    ensures Collect(items) == with <==> exists i :: FailsFirst(items, i, with)
    decreases |items|
  {
    if items != [] {
      var front, last := items[..|items| - 1], |items| - 1;
      FirstFailureDecides(front, with);
      CollectSucceeds(front);
      if i :| FailsFirst(front, i, with) {
        assert FailsFirst(items, i, with);
      }
      if i :| FailsFirst(items, i, with) {
        assert i < last ==> FailsFirst(front, i, with);
      }
      if Collect(front).Users? && Read(items[last]) == Fails(with) {
        assert FailsFirst(items, last, with);
      }
    }
  }

  predicate FailsFirst(items: seq<Json>, i: int, with: Loaded) {
    && 0 <= i < |items| && Read(items[i]) == Fails(with)
    && forall j :: 0 <= j < i ==> !Read(items[j]).Fails?
  }

  /** The `users` of the file is something the loop cannot take users from: a non-empty string or
      object. */
  predicate NotUsers(users: Json) {
    (users.Str? && users.s != "") || (users.Obj? && users.fields != map[])
  }

  /** The file's `users`. */
  function Listed(content: Content): Json
    requires content.Doc?
  {
    Get(content.state, "users", Arr([]))
  }

  /** Exactly when loading ends in an exception that `authenticate` does not catch: the text is nested
      too deep, it is no object, its `users` is a non-empty string or object, or the first user that
      fails is no object. */
  lemma UncaughtExactly(content: Content)
    ensures Parse(content) == Uncaught <==>
            || content.TooDeep?
            || (content.Doc? &&
                (|| !content.state.Obj?
                 || NotUsers(Listed(content))
                 || (Listed(content).Arr? && exists i :: FirstNonObject(Listed(content).items, i))))
  {
    if content.Doc? && content.state.Obj? && Listed(content).Arr? {
      var items := Listed(content).items;
      FirstFailureDecides(items, Uncaught);
      if i :| FailsFirst(items, i, Uncaught) {
        assert FirstNonObject(items, i);
      }
      if i :| FirstNonObject(items, i) {
        assert FailsFirst(items, i, Uncaught);
      }
    }
  }

  /** Entry `i` is no object and no entry before it fails. */
  predicate FirstNonObject(items: seq<Json>, i: int) {
    && 0 <= i < |items| && !items[i].Obj?
    && forall j :: 0 <= j < i ==> !Read(items[j]).Fails?
  }

  // ---- the decision ----------------------------------------------------------------------

  predicate Ascii(s: string) {
    forall i :: 0 <= i < |s| ==> s[i] < 128 as char
  }

  /** `compare_digest` accepts two strings only if both are ASCII. */
  predicate Comparable(user: User, name: string, password: string) {
    && user.name.Text? && Ascii(user.name.text) && Ascii(user.password) && Ascii(name) && Ascii(password)
  }

  predicate Matches(user: User, name: string, password: string) {
    user == User(Text(name), password)
  }

  /** The loop of `authenticate`. */
  method Find(users: seq<User>, name: string, password: string) returns (r: Verdict)
    ensures r == Decide(users, name, password)
  {
    for i := 0 to |users|
      invariant Decide(users, name, password) == Decide(users[i..], name, password)
    {
      assert users[i..][1..] == users[i + 1..];
      if !Comparable(users[i], name, password) {
        return Raised;
      }
      if users[i].name.text == name && users[i].password == password {
        return Accepted(users[i].name.text);
      }
    }
    return Refused;
  }

  function Decide(users: seq<User>, name: string, password: string): Verdict {
    if users == [] then Refused
    else if !Comparable(users[0], name, password) then Raised
    else if Matches(users[0], name, password) then Accepted(name)
    else Decide(users[1..], name, password)
  }

  function Colon(credential: string): (i: nat)
    ensures i <= |credential| && (i < |credential| ==> credential[i] == ':')
    ensures forall j :: 0 <= j < i ==> credential[j] != ':'
  {
    if credential == "" || credential[0] == ':' then 0 else Colon(credential[1..]) + 1
  }

  function Authenticate(loaded: Loaded, credential: string): Verdict {
    match loaded
    case Caught => Refused
    case Uncaught => Raised
    case Users(users) =>
      match Supplied(credential)
      case None => Refused
      case Some((name, password)) => Decide(users, name, password)
  }

  /** What a credential supplies: it is split at its first colon. */
  function Supplied(credential: string): Option<(string, string)> {
    var i := Colon(credential);
    if i == |credential| then None else Some((credential[..i], credential[i + 1..]))
  }

  /** Nobody gets in but with the name and password of a user, and no name with a colon ever does. */
  lemma {:induction false} AcceptedIsAUser(users: seq<User>, credential: string, name: string)
    requires Authenticate(Users(users), credential) == Accepted(name)
    ensures ':' !in name
    ensures exists password :: User(Text(name), password) in users && credential == name + ":" + password
  {
    var i := Colon(credential);
    DecideMeans(users, credential[..i], credential[i + 1..]);
    assert credential == name + ":" + credential[i + 1..];
  }

  /** The exact outcome: the first user that matches or cannot be compared decides. */
  lemma {:induction false} DecideMeans(users: seq<User>, name: string, password: string)
    ensures var r := Decide(users, name, password);
            && (r.Accepted? ==> r.name == name)
            && (r.Accepted? <==> exists i :: 0 <= i < |users| && Matches(users[i], name, password)
                                             && forall j :: 0 <= j <= i ==> Comparable(users[j], name, password))
            && (r.Refused? <==> forall i :: 0 <= i < |users| ==>
                  Comparable(users[i], name, password) && !Matches(users[i], name, password))
  {
    if users != [] {
      var rest := users[1..];
      DecideMeans(rest, name, password);
      assert forall i :: 0 < i < |users| ==> users[i] == rest[i - 1];
      if Comparable(users[0], name, password) && !Matches(users[0], name, password) {
        if i :| 0 <= i < |rest| && Matches(rest[i], name, password)
                && forall j :: 0 <= j <= i ==> Comparable(rest[j], name, password) {
          assert Matches(users[i + 1], name, password);
          assert forall j :: 0 < j <= i + 1 ==> Comparable(users[j], name, password);
        }
        if i :| 0 <= i < |users| && Matches(users[i], name, password)
                && forall j :: 0 <= j <= i ==> Comparable(users[j], name, password) {
          assert Matches(rest[i - 1], name, password);
          assert forall j :: 0 <= j <= i - 1 ==> Comparable(rest[j], name, password);
        }
      }
    }
  }

  /** User `i` cannot be compared, its name being no text or something not being ASCII, and no user
      before it is the one supplied. */
  predicate BlocksFirst(users: seq<User>, i: int, name: string, password: string) {
    && 0 <= i < |users|
    && !(users[i].name.Text? && Ascii(users[i].name.text) && Ascii(users[i].password) && Ascii(name) && Ascii(password))
    && forall j :: 0 <= j < i ==> users[j] != User(Text(name), password)
  }

  ghost predicate Blocked(users: seq<User>, name: string, password: string) {
    exists i :: BlocksFirst(users, i, name, password)
  }

  lemma {:induction false} DecideRaises(users: seq<User>, name: string, password: string)
    ensures Decide(users, name, password).Raised? <==> Blocked(users, name, password)
  {
    if users != [] {
      var rest := users[1..];
      assert forall i :: 0 < i < |users| ==> users[i] == rest[i - 1];
      DecideRaises(rest, name, password);
      if !Comparable(users[0], name, password) {
        assert BlocksFirst(users, 0, name, password);
      } else if !Matches(users[0], name, password) {
        if i :| BlocksFirst(rest, i, name, password) {
          assert BlocksFirst(users, i + 1, name, password);
        }
        if i :| BlocksFirst(users, i, name, password) {
          assert BlocksFirst(rest, i - 1, name, password);
        }
      }
    }
  }

  /** Exactly when `authenticate` raises instead of refusing: loading ended in an exception it does
      not catch (`UncaughtExactly` says when), or the credential has a colon and a user that cannot
      be compared precedes every match. */
  lemma RaisedExactly(loaded: Loaded, credential: string)
    ensures var supplied := Supplied(credential);
            Authenticate(loaded, credential).Raised? <==>
            || loaded.Uncaught?
            || (loaded.Users? && supplied.Some? && Blocked(loaded.users, supplied.value.0, supplied.value.1))
  {
    var supplied := Supplied(credential);
    if loaded.Users? && supplied.Some? {
      DecideRaises(loaded.users, supplied.value.0, supplied.value.1);
    }
  }

  /** It does raise: on a file nested too deep, on one that is a list, on a user that is a string, and
      on a password that is not ASCII, whoever is asked for. */
  lemma RaisingInputs(name: string)
    ensures Authenticate(Parse(TooDeep), name + ":x").Raised?
    ensures Authenticate(Parse(Doc(Arr([]))), name + ":x").Raised?
    ensures Authenticate(Parse(Doc(Obj(map["users" := Arr([Str(name)])]))), name + ":x").Raised?
    ensures Authenticate(Parse(Doc(Obj(map["users" := Arr([Foreign(name)])]))), name + ":x").Raised?
  {
    var content := Doc(Obj(map["users" := Arr([Str(name)])]));
    assert FirstNonObject([Str(name)], 0);
    UncaughtExactly(content);
    ForeignLoads(name);
    var credential := name + ":x";
    assert credential[|name|] == ':';
    assert !Ascii("\U{E9}") by {
      assert "\U{E9}"[0] >= 128 as char;
    }
  }

  /** An enabled user with a password outside ASCII. */
  function Foreign(name: string): Json {
    Obj(map["name" := Str(name), "systems" := Arr([Str("hysteria")]), "hysteria_password" := Str("\U{E9}")])
  }

  lemma ForeignLoads(name: string)
    ensures Collect([Foreign(name)]) == Users([User(Text(name), "\U{E9}")])
  {
    assert Read(Foreign(name)) == Entry(User(Text(name), "\U{E9}"));
    assert [Foreign(name)][..0] == [];
    assert Collect([]) == Users([]);
  }

  /** With ASCII names and passwords throughout, a credential is accepted exactly when it is the name
      and password of a user whose name has no colon, whatever the order of the users. */
  lemma AcceptedExactly(users: seq<User>, name: string, password: string)
    requires forall u :: u in users ==> Comparable(u, name, password)
    requires Ascii(name) && Ascii(password)
    ensures var r := Authenticate(Users(users), name + ":" + password);
            ':' !in name ==> r == if User(Text(name), password) in users then Accepted(name) else Refused
  {
    var credential := name + ":" + password;
    var i := Colon(credential);
    if ':' !in name {
      assert credential[|name|] == ':';
      assert forall j :: 0 <= j < |name| ==> credential[j] == name[j];
      assert credential[..i] == name && credential[i + 1..] == password;
      DecideMeans(users, name, password);
      if User(Text(name), password) in users {
        var k :| 0 <= k < |users| && users[k] == User(Text(name), password);
        assert Matches(users[k], name, password);
      }
    }
  }

  // ---- from the file to the decision -----------------------------------------------------

  /** Entry `i` of the file is an enabled Hysteria user of that name and password, and no later entry
      replaces it. */
  ghost predicate InForce(items: seq<Json>, i: int, name: string, password: string) {
    && 0 <= i < |items| && Listable(items[i])
    && Get(items[i], "name", Null) == Str(name) && Get(items[i], "hysteria_password", Null) == Str(password)
    && forall j :: i < j < |items| ==> !(Listable(items[j]) && Get(items[j], "name", Null) == Str(name))
  }

  lemma ListableHasEntry(user: Json, name: string)
    requires Listable(user) && Get(user, "name", Null) == Str(name)
    ensures Read(user) == Entry(User(Text(name), user.fields["hysteria_password"].s))
  {
    ListedExactly(user, name, user.fields["hysteria_password"].s);
  }

  lemma InForceIsLast(items: seq<Json>, i: nat, name: string, password: string)
    ensures LastSaid(items, i, User(Text(name), password)) <==> InForce(items, i, name, password)
  {
    if i < |items| {
      ListedExactly(items[i], name, password);
      forall j | i < j < |items|
        ensures Read(items[j]).Entry? && Read(items[j]).user.name == Text(name) <==>
                  Listable(items[j]) && Get(items[j], "name", Null) == Str(name)
      {
        if Read(items[j]).Entry? && Read(items[j]).user.name == Text(name) {
          ListedExactly(items[j], name, Read(items[j]).user.password);
        }
        if Listable(items[j]) && Get(items[j], "name", Null) == Str(name) {
          ListableHasEntry(items[j], name);
        }
      }
    }
  }

  lemma LoadedFromList(content: Content)
    requires Parse(content).Users?
    ensures content.Doc? && content.state.Obj?
    ensures Listed(content).Arr? ==> Parse(content) == Collect(Listed(content).items)
    ensures !Listed(content).Arr? ==> Parse(content).users == []
  {
  }

  /** Whoever is accepted is an enabled Hysteria user of the file, by the last entry of that name. */
  lemma AcceptedIsEnabled(content: Content, credential: string, name: string)
    requires Authenticate(Parse(content), credential) == Accepted(name)
    ensures content.Doc? && Listed(content).Arr?
    ensures exists i, password ::
              InForce(Listed(content).items, i, name, password) && credential == name + ":" + password
  {
    LoadedFromList(content);
    var users := Parse(content).users;
    AcceptedIsAUser(users, credential, name);
    var password :| User(Text(name), password) in users && credential == name + ":" + password;
    var items := Listed(content).items;
    CollectMeans(items);
    var i: nat :| LastSaid(items, i, User(Text(name), password));
    InForceIsLast(items, i, name, password);
  }

  /** And all of them are accepted, if the file can be read and all its listed names and passwords are
      ASCII. */
  lemma EnabledIsAccepted(content: Content, i: nat, name: string, password: string)
    requires content.Doc? && content.state.Obj? && Listed(content).Arr?
    requires forall j :: 0 <= j < |Listed(content).items| ==> !Read(Listed(content).items[j]).Fails?
    requires forall j, user :: 0 <= j < |Listed(content).items| && Read(Listed(content).items[j]) == Entry(user) ==>
               user.name.Text? && Ascii(user.name.text) && Ascii(user.password)
    requires InForce(Listed(content).items, i, name, password) && ':' !in name
    ensures Authenticate(Parse(content), name + ":" + password) == Accepted(name)
  {
    var items := Listed(content).items;
    CollectMeans(items);
    InForceIsLast(items, i, name, password);
    var users := Collect(items).users;
    assert LastSaid(items, i, User(Text(name), password));
    assert Read(items[i]) == Entry(User(Text(name), password));
    forall u | u in users
      ensures Comparable(u, name, password)
    {
      var j: nat :| LastSaid(items, j, u);
      assert Read(items[j]) == Entry(u);
    }
    AcceptedExactly(users, name, password);
  }
}
