/** Laws of the planner: validity looks at the users as a multiset and survives dropping some, so
    merges commute; planned states are valid with every peer inside its network. */
module MigrationLaws {
  import opened Json
  import opened MigrationBounds
  import opened MigrationSchema
  import opened MigrationPlan

  // ---- lists with fewer elements ---------------------------------------------------------

  /** Every element of `y` is in `x`, at least as often. */
  ghost predicate Within<T>(y: seq<T>, x: seq<T>) {
    multiset(y) <= multiset(x)
  }

  lemma Without<T>(x: seq<T>, e: T) returns (k: nat)
    requires e in x
    ensures k < |x| && x[k] == e
    ensures multiset(x[..k] + x[k + 1..]) == multiset(x) - multiset{e}
  {
    k :| 0 <= k < |x| && x[k] == e;
    SplitAt(x, k);
  }

  lemma SplitAt<T>(x: seq<T>, k: nat)
    requires k < |x|
    ensures x == x[..k] + [x[k]] + x[k + 1..]
  {
  }

  lemma NodesSnoc(a: seq<Json>, v: Json)
    ensures NodesOfAll(a + [v]) == NodesOfAll(a) + Nodes(v)
  {
    assert (a + [v])[..|a|] == a;
  }

  lemma NodesAround(a: seq<Json>, v: Json, b: seq<Json>)
    ensures NodesOfAll(a + [v] + b) == NodesOfAll(a + b) + Nodes(v)
  {
    NodesConcat(a + [v], b);
    NodesSnoc(a, v);
    NodesConcat(a, b);
  }

  lemma NodesSplit(x: seq<Json>, k: nat)
    requires k < |x|
    ensures NodesOfAll(x) == NodesOfAll(x[..k] + x[k + 1..]) + Nodes(x[k])
  {
    SplitAt(x, k);
    NodesAround(x[..k], x[k], x[k + 1..]);
  }

  lemma {:induction false} NodesWithin(y: seq<Json>, x: seq<Json>)
    requires Within(y, x)
    ensures NodesOfAll(y) <= NodesOfAll(x) && |y| <= |x|
    decreases |y|
  {
    if y != [] {
      var last := |y| - 1;
      assert y == y[..last] + [y[last]];
      assert y[last] in multiset(y) && y[last] in multiset(x);
      var k := Without(x, y[last]);
      NodesWithin(y[..last], x[..k] + x[k + 1..]);
      NodesSplit(x, k);
    }
  }

  /** Twice in the list means at two places. */
  lemma TwicePlaces<T>(x: seq<T>, e: T) returns (i: nat, j: nat)
    requires multiset(x)[e] >= 2
    ensures i < j < |x| && x[i] == e && x[j] == e
  {
    assert e in x;
    var k := Without(x, e);
    var rest := x[..k] + x[k + 1..];
    assert e in multiset(rest);
    assert e in rest;
    var m :| 0 <= m < |rest| && rest[m] == e;
    if m < k {
      i, j := m, k;
    } else {
      i, j := k, m + 1;
    }
  }

  lemma PlacesTwice<T>(x: seq<T>, i: nat, j: nat)
    requires i < j < |x| && x[i] == x[j]
    ensures multiset(x)[x[i]] >= 2
  {
    assert x == x[..i] + [x[i]] + x[i + 1..j] + [x[j]] + x[j + 1..];
  }

  /** Disjoint non-empty key sets stay so when reordered and when some are dropped. */
  lemma ApartWithin(y: seq<set<Key>>, x: seq<set<Key>>)
    requires Within(y, x) && Apart(x)
    ensures Apart(y)
  {
    forall i | 0 <= i < |y|
      ensures y[i] in x
    {
      assert y[i] in multiset(y) && y[i] in multiset(x);
    }
    forall i, j | 0 <= i < j < |y|
      ensures y[i] !! y[j]
    {
      if y[i] == y[j] {
        PlacesTwice(y, i, j);
        var a, b := TwicePlaces(x, y[i]);
        assert x[a] !! x[b];
      } else {
        var a :| 0 <= a < |x| && x[a] == y[i];
        var b :| 0 <= b < |x| && x[b] == y[j];
        if a < b {
          assert x[a] !! x[b];
        } else {
          assert x[b] !! x[a];
        }
      }
    }
  }

  // ---- validity and the user list --------------------------------------------------------

  lemma {:induction false} KeySetsConcat(ext: Ext, a: seq<Json>, b: seq<Json>)
    ensures KeySets(ext, a + b) == KeySets(ext, a) + KeySets(ext, b)
  {
    if b == [] {
      assert a + b == a;
    } else {
      KeySetsConcat(ext, a, b[..|b| - 1]);
      assert (a + b)[..|a + b| - 1] == a + b[..|b| - 1];
    }
  }

  lemma {:induction false} KeySetsWithin(ext: Ext, y: seq<Json>, x: seq<Json>)
    requires Within(y, x)
    ensures Within(KeySets(ext, y), KeySets(ext, x))
    decreases |y|
  {
    if y != [] {
      var last := |y| - 1;
      assert y == y[..last] + [y[last]];
      assert y[last] in multiset(y) && y[last] in multiset(x);
      var k := Without(x, y[last]);
      KeySetsWithin(ext, y[..last], x[..k] + x[k + 1..]);
      KeySetsSplit(ext, x, k);
    }
  }

  lemma KeySetsSplit(ext: Ext, x: seq<Json>, k: nat)
    requires k < |x|
    ensures multiset(KeySets(ext, x))
         == multiset(KeySets(ext, x[..k] + x[k + 1..])) + multiset{KeysOrNone(ext, x[k])}
  {
    var head := x[..k] + [x[k]];
    assert head[..k] == x[..k];
    assert x == head + x[k + 1..];
    KeySetsConcat(ext, head, x[k + 1..]);
    KeySetsConcat(ext, x[..k], x[k + 1..]);
  }

  /** A user list stays valid when it is reordered and when users are dropped. */
  lemma UsersValidWithin(ext: Ext, protocols: Json, x: seq<Json>, y: seq<Json>)
    requires UsersValid(ext, protocols, x) && Within(y, x)
    ensures UsersValid(ext, protocols, y)
  {
    UsersAreKeySets(ext, protocols, x);
    UsersAreKeySets(ext, protocols, y);
    KeySetsWithin(ext, y, x);
    NodesWithin(y, x);
    SetsValidWithin(ext, protocols, KeySets(ext, x), KeySets(ext, y));
  }

  lemma SetsValidWithin(ext: Ext, protocols: Json, x: seq<set<Key>>, y: seq<set<Key>>)
    requires Apart(x) && Unreserved(ext, protocols, x) && Within(y, x)
    ensures Apart(y) && Unreserved(ext, protocols, y)
  {
    ApartWithin(y, x);
    forall i | 0 <= i < |y|
      ensures y[i] in x
    {
      assert y[i] in multiset(y) && y[i] in multiset(x);
    }
  }

  function Replace(v: Json, users: seq<Json>): Json
    requires v.Obj?
  {
    Obj(v.fields["users" := Arr(users)])
  }

  lemma LegalWithin(x: seq<Json>, y: seq<Json>, depth: nat)
    requires Legal(Arr(x), depth) && Within(y, x)
    ensures Legal(Arr(y), depth)
  {
    NodesWithin(y, x);
    forall u | u in y
      ensures Legal(u, depth + 1)
    {
      assert u in multiset(y) && u in multiset(x);
      assert u in x;
    }
  }

  lemma BoundedWithin(v: Json, x: seq<Json>, y: seq<Json>)
    requires v.Obj? && "users" in v.fields && v.fields["users"] == Arr(x)
    requires Bounded(v) && Within(y, x)
    ensures Bounded(Replace(v, y))
  {
    var w := Replace(v, y);
    var others := v.fields.Keys - {"users"};
    assert w.fields.Keys == v.fields.Keys;
    FieldsAnyOrder(v, v.fields.Keys, "users");
    FieldsAnyOrder(w, w.fields.Keys, "users");
    FieldsAgree(v, w, others);
    NodesWithin(y, x);
    LegalWithin(x, y, 1);
    assert |w.fields| == |w.fields.Keys| == |v.fields.Keys| == |v.fields|;
    forall k | k in w.fields
      ensures Legal(w.fields[k], 1)
    {
      assert Legal(v.fields[k], 1);
    }
  }

  lemma ValidWithin(ext: Ext, v: Json, x: seq<Json>, y: seq<Json>)
    requires v.Obj? && "users" in v.fields && v.fields["users"] == Arr(x)
    requires Valid(ext, v) && Within(y, x)
    ensures Valid(ext, Replace(v, y))
  {
    BoundedWithin(v, x, y);
    UsersValidWithin(ext, v.fields["protocols"], x, y);
  }

  // ---- merging ---------------------------------------------------------------------------

  /** With these users the target passes every check of the second half of the planner. */
  ghost predicate Admits(ext: Ext, target: Json, users: seq<Json>)
    requires target.Obj?
  {
    Recheck(ext, WithUsers(target, users)) == Planned(WithUsers(target, users))
  }

  lemma CandidateUsers(ext: Ext, target: Json, x: seq<Json>, y: seq<Json>)
    requires target.Obj?
    ensures Candidate(ext, WithUsers(target, y)) == Replace(Candidate(ext, WithUsers(target, x)), y)
  {
    var a, b := WithUsers(target, x), WithUsers(target, y);
    assert "users" !in PROTOCOL_FIELDS;
    assert (map name | name in PROTOCOL_FIELDS && name in a.fields :: a.fields[name])
        == (map name | name in PROTOCOL_FIELDS && name in b.fields :: b.fields[name]);
    assert ServerText(ext, a) == ServerText(ext, b);
    assert Candidate(ext, b).fields == Replace(Candidate(ext, a), y).fields;
  }

  lemma NetworkIgnoresUsers(ext: Ext, target: Json, x: seq<Json>, y: seq<Json>, users: seq<Json>,
                            system: string, default: string)
    requires target.Obj? && system != "users"
    ensures NetworkVerdict(ext, WithUsers(target, x), users, system, default)
         == NetworkVerdict(ext, WithUsers(target, y), users, system, default)
  {
    assert Get(WithUsers(target, x), system, Obj(map[])) == Get(WithUsers(target, y), system, Obj(map[]));
  }

  lemma NetworkWithin(ext: Ext, state: Json, x: seq<Json>, y: seq<Json>, system: string, default: string)
    requires NetworkVerdict(ext, state, x, system, default).Fits? && Within(y, x)
    ensures NetworkVerdict(ext, state, y, system, default).Fits?
  {
    assert forall u :: u in y ==> u in multiset(y) && u in multiset(x);
  }

  /** What a target admits, it admits in any order and with users left out. */
  lemma AdmitsWithin(ext: Ext, target: Json, x: seq<Json>, y: seq<Json>)
    requires target.Obj? && Admits(ext, target, x) && Within(y, x)
    ensures Admits(ext, target, y)
  {
    var a, b := WithUsers(target, x), WithUsers(target, y);
    CandidateUsers(ext, target, x, y);
    NetworkIgnoresUsers(ext, target, x, y, y, "amneziawg", AWG_NETWORK);
    NetworkIgnoresUsers(ext, target, x, y, y, "wireguard", WG_NETWORK);
    ValidWithin(ext, Candidate(ext, a), x, y);
    NetworkWithin(ext, a, x, y, "amneziawg", AWG_NETWORK);
    NetworkWithin(ext, a, x, y, "wireguard", WG_NETWORK);
  }

  ghost predicate Mergeable(ext: Ext, target: Json, envelope: Json) {
    Valid(ext, envelope) && TargetShape(target) && Admits(ext, target, UsersOf(target) + UsersOf(envelope))
  }

  lemma RecheckKeeps(ext: Ext, state: Json)
    requires state.Obj? && "users" in state.fields
    ensures Recheck(ext, state).Planned? ==> Recheck(ext, state) == Planned(state)
  {
  }

  lemma MergeIsRecheck(ext: Ext, target: Json, envelope: Json)
    requires Valid(ext, envelope) && TargetShape(target)
    ensures Plan(ext, target, envelope, Merge) == Recheck(ext, WithUsers(target, UsersOf(target) + UsersOf(envelope)))
  {
  }

  lemma MergeIs(ext: Ext, target: Json, envelope: Json)
    ensures Plan(ext, target, envelope, Merge).Planned? <==> Mergeable(ext, target, envelope)
    ensures Mergeable(ext, target, envelope) ==>
              Plan(ext, target, envelope, Merge)
              == Planned(WithUsers(target, UsersOf(target) + UsersOf(envelope)))
  {
    if Valid(ext, envelope) && TargetShape(target) {
      MergeIsRecheck(ext, target, envelope);
      RecheckKeeps(ext, WithUsers(target, UsersOf(target) + UsersOf(envelope)));
    }
  }

  /** Merging one archive, then another into the result. */
  ghost function MergeTwo(ext: Ext, target: Json, first: Json, second: Json): PlanResult {
    match Plan(ext, target, first, Merge)
    case Planned(state) => Plan(ext, state, second, Merge)
    case failed => failed
  }

  lemma MergedAgain(target: Json, x: seq<Json>, y: seq<Json>)
    requires target.Obj?
    ensures WithUsers(WithUsers(target, x), y) == WithUsers(target, y)
    ensures TargetShape(WithUsers(target, x)) && UsersOf(WithUsers(target, x)) == x
  {
    assert target.fields["users" := Arr(x)]["users" := Arr(y)] == target.fields["users" := Arr(y)];
  }

  /** Two merges in a row succeed exactly when the target admits all users at once. */
  lemma MergeTwoIs(ext: Ext, target: Json, first: Json, second: Json)
    ensures var users := UsersOf(target) + UsersOf(first) + UsersOf(second);
            && (MergeTwo(ext, target, first, second).Planned? <==>
                  Valid(ext, first) && Valid(ext, second) && TargetShape(target) && Admits(ext, target, users))
            && (MergeTwo(ext, target, first, second).Planned? ==>
                  MergeTwo(ext, target, first, second) == Planned(WithUsers(target, users)))
  {
    var one := UsersOf(target) + UsersOf(first);
    var users := one + UsersOf(second);
    MergeIs(ext, target, first);
    if TargetShape(target) {
      MergedAgain(target, one, users);
      MergeIs(ext, WithUsers(target, one), second);
      if Admits(ext, target, users) {
        AdmitsWithin(ext, target, users, one);
      }
    }
  }

  /** Merges commute: in either order both succeed or neither does, and the results are equal but
      for the order of the users. */
  lemma MergesCommute(ext: Ext, target: Json, first: Json, second: Json)
    ensures MergeTwo(ext, target, first, second).Planned? <==> MergeTwo(ext, target, second, first).Planned?
    ensures MergeTwo(ext, target, first, second).Planned? ==>
              var a, b := MergeTwo(ext, target, first, second).state, MergeTwo(ext, target, second, first).state;
              && a.Obj? && b == WithUsers(a, UsersOf(b))
              && multiset(UsersOf(a)) == multiset(UsersOf(b))
  {
    var t, x, y := UsersOf(target), UsersOf(first), UsersOf(second);
    MergeTwoIs(ext, target, first, second);
    MergeTwoIs(ext, target, second, first);
    assert multiset(t + x + y) == multiset(t + y + x);
    if TargetShape(target) {
      MergedAgain(target, t + x + y, t + y + x);
      MergedAgain(target, t + y + x, t + x + y);
      if Admits(ext, target, t + x + y) {
        AdmitsWithin(ext, target, t + x + y, t + y + x);
      }
      if Admits(ext, target, t + y + x) {
        AdmitsWithin(ext, target, t + y + x, t + x + y);
      }
    }
  }

  // ---- what every plan guarantees --------------------------------------------------------

  function DefaultNetwork(system: string): string {
    if system == "amneziawg" then AWG_NETWORK else WG_NETWORK
  }

  /** Every peer address of the system lies in the network the state configures for it and is neither
      the server's nor the network's own nor the broadcast address. */
  ghost predicate PeersFit(ext: Ext, state: Json, system: string) {
    var config := Get(state, system, Obj(map[]));
    var network := ext.networkOf(Get(config, "network", Str(DefaultNetwork(system))));
    && config.Obj? && network.Some?
    && var server := if Has(config, "server_address") then ext.ipOf(config.fields["server_address"])
                     else ext.firstHost(network.value);
       && server.Some?
       && forall u :: u in UsersOf(state) ==>
            var address := Get(Get(u, system, Obj(map[])), "address", Null);
            Truthy(address) && ext.ipOf(address).Some? ==>
              var a := ext.ipOf(address).value;
              && ext.contains(network.value, a) && a != server.value
              && a != ext.networkAddress(network.value) && a != ext.broadcastAddress(network.value)
  }

  lemma FittingPeers(ext: Ext, state: Json, system: string)
    ensures PeersFit(ext, state, system)
            <==> NetworkVerdict(ext, state, UsersOf(state), system, DefaultNetwork(system)).Fits?
  {
    VerdictExactly(ext, state, UsersOf(state), system, DefaultNetwork(system));
  }

  lemma RecheckIsSound(ext: Ext, state: Json)
    requires state.Obj? && "users" in state.fields && Recheck(ext, state).Planned?
    ensures Recheck(ext, state) == Planned(state)
    ensures Valid(ext, Candidate(ext, state)) && PeersFit(ext, state, "amneziawg") && PeersFit(ext, state, "wireguard")
  {
    FittingPeers(ext, state, "amneziawg");
    FittingPeers(ext, state, "wireguard");
  }

  /** A planned state has valid, pairwise distinct users and every peer address usable in its network. */
  ghost predicate SoundState(ext: Ext, state: Json) {
    && state.Obj? && "users" in state.fields && state.fields["users"] == Arr(UsersOf(state))
    && Valid(ext, Candidate(ext, state))
    && UsersValid(ext, Candidate(ext, state).fields["protocols"], UsersOf(state))
    && PeersFit(ext, state, "amneziawg") && PeersFit(ext, state, "wireguard")
  }

  lemma RecheckedIsSound(ext: Ext, state: Json)
    requires state.Obj? && "users" in state.fields && state.fields["users"].Arr? && Recheck(ext, state).Planned?
    ensures Recheck(ext, state) == Planned(state) && SoundState(ext, state)
  {
    RecheckIsSound(ext, state);
  }

  /** The target's other entries are as they were. */
  predicate KeepsOthers(target: Json, envelope: Json, mode: Mode, state: Json) {
    && target.Obj? && state.Obj? && Get(envelope, "protocols", Null).Obj?
    && forall k :: k in target.fields && k != "users"
                   && (mode.Merge? || k !in Get(envelope, "protocols", Null).fields) ==>
         k in state.fields && state.fields[k] == target.fields[k]
  }

  /** The state the planner builds before it checks again. */
  function Built(target: Json, envelope: Json, mode: Mode): Json
    requires target.Obj?
  {
    var protocols, users := Get(envelope, "protocols", Null), Get(envelope, "users", Null);
    if mode.Restore? && protocols.Obj? then RestoredState(target, protocols.fields, users)
    else WithUsers(target, UsersOf(target) + UsersOf(envelope))
  }

  lemma BuiltKeepsOthers(target: Json, envelope: Json, mode: Mode)
    requires target.Obj? && Get(envelope, "protocols", Null).Obj?
    ensures KeepsOthers(target, envelope, mode, Built(target, envelope, mode))
  {
  }

  lemma PlanIsRechecked(ext: Ext, target: Json, envelope: Json, mode: Mode)
    requires Plan(ext, target, envelope, mode).Planned?
    ensures target.Obj? && Get(envelope, "protocols", Null).Obj? && Get(envelope, "users", Null).Arr?
    ensures Plan(ext, target, envelope, mode) == Recheck(ext, Built(target, envelope, mode))
  {
  }

  /** A plan is that state, rechecked. */
  lemma PlannedIsBuilt(ext: Ext, target: Json, envelope: Json, mode: Mode)
    requires Plan(ext, target, envelope, mode).Planned?
    ensures target.Obj? && Get(envelope, "protocols", Null).Obj?
    ensures var state := Built(target, envelope, mode);
            && state.Obj? && "users" in state.fields && state.fields["users"].Arr?
            && Recheck(ext, state).Planned? && Plan(ext, target, envelope, mode) == Planned(state)
  {
    PlanIsRechecked(ext, target, envelope, mode);
    RecheckKeeps(ext, Built(target, envelope, mode));
  }

  /** Whatever is planned has valid, pairwise distinct users, every peer address in its network and
      not taken there, and the target's other entries as they were. */
  lemma PlannedIsSound(ext: Ext, target: Json, envelope: Json, mode: Mode)
    requires Plan(ext, target, envelope, mode).Planned?
    ensures SoundState(ext, Plan(ext, target, envelope, mode).state)
    ensures KeepsOthers(target, envelope, mode, Plan(ext, target, envelope, mode).state)
  {
    PlannedIsBuilt(ext, target, envelope, mode);
    RecheckedIsSound(ext, Built(target, envelope, mode));
    BuiltKeepsOthers(target, envelope, mode);
  }

  /** What a planned state is: after a merge the target with the archive's users appended; after a
      restore the target with the archive's users and sections, a section keeping the `enabled` flag
      of the target's VPN section that has one. */
  lemma PlannedState(ext: Ext, target: Json, envelope: Json, mode: Mode, state: Json, name: string)
    requires Plan(ext, target, envelope, mode) == Planned(state)
    ensures var protocols := Get(envelope, "protocols", Null);
            && state.Obj? && target.Obj? && protocols.Obj?
            && (mode.Restore? ==> UsersOf(target) == [])
            && UsersOf(state) == UsersOf(target) + UsersOf(envelope)
            && (name != "users" && !(mode.Restore? && name in protocols.fields) ==>
                  (name in state.fields <==> name in target.fields)
                  && (name in state.fields ==> state.fields[name] == target.fields[name]))
            && (mode.Restore? && name in protocols.fields && name != "users" ==>
                  && name in state.fields
                  && var (before, section) := (Get(target, name, Null), protocols.fields[name]);
                     state.fields[name]
                     == if name in {"amneziawg", "wireguard", "ocserv"} && Has(before, "enabled") && section.Obj?
                        then Obj(section.fields["enabled" := before.fields["enabled"]])
                        else section)
  {
    PlannedIsBuilt(ext, target, envelope, mode);
    PlannedUsers(ext, target, envelope, mode);
    BuiltState(target, envelope, mode, name);
  }

  lemma PlannedUsers(ext: Ext, target: Json, envelope: Json, mode: Mode)
    requires Plan(ext, target, envelope, mode).Planned?
    ensures target.Obj? && !mode.UnknownMode? && (mode.Restore? ==> UsersOf(target) == [])
    ensures UsersOf(Built(target, envelope, mode)) == UsersOf(target) + UsersOf(envelope)
  {
    PlanIsRechecked(ext, target, envelope, mode);
  }

  lemma BuiltState(target: Json, envelope: Json, mode: Mode, name: string)
    requires target.Obj? && Get(envelope, "protocols", Null).Obj?
    ensures var state := Built(target, envelope, mode);
            var protocols := Get(envelope, "protocols", Null);
            && state.Obj?
            && (name != "users" && !(mode.Restore? && name in protocols.fields) ==>
                  (name in state.fields <==> name in target.fields)
                  && (name in state.fields ==> state.fields[name] == target.fields[name]))
            && (mode.Restore? && name in protocols.fields && name != "users" ==>
                  && name in state.fields
                  && var (before, section) := (Get(target, name, Null), protocols.fields[name]);
                     state.fields[name]
                     == if name in {"amneziawg", "wireguard", "ocserv"} && Has(before, "enabled") && section.Obj?
                        then Obj(section.fields["enabled" := before.fields["enabled"]])
                        else section)
  {
  }

  /** Exactly when there is a plan: the archive is valid, the target has a list of users, empty for a
      restore, and the state that results is valid as an archive and has every peer in its network. */
  lemma PlansExactly(ext: Ext, target: Json, envelope: Json, mode: Mode)
    ensures Plan(ext, target, envelope, mode).Planned? <==>
              && Valid(ext, envelope) && target.Obj? && Get(target, "users", Arr([])).Arr?
              && (mode.Merge? || (mode.Restore? && Get(target, "users", Arr([])) == Arr([])))
              && Valid(ext, Candidate(ext, Built(target, envelope, mode)))
              && PeersFit(ext, Built(target, envelope, mode), "amneziawg")
              && PeersFit(ext, Built(target, envelope, mode), "wireguard")
  {
    if Valid(ext, envelope) && TargetShape(target) {
      var state := Built(target, envelope, mode);
      BuiltIsRechecked(ext, target, envelope, mode);
      FittingPeers(ext, state, "amneziawg");
      FittingPeers(ext, state, "wireguard");
    }
  }

  lemma BuiltIsRechecked(ext: Ext, target: Json, envelope: Json, mode: Mode)
    requires Valid(ext, envelope) && TargetShape(target)
    ensures var state := Built(target, envelope, mode); state.Obj? && "users" in state.fields
    ensures mode.Merge? || (mode.Restore? && UsersOf(target) == []) ==>
              Plan(ext, target, envelope, mode) == Recheck(ext, Built(target, envelope, mode))
  {
  }

  /** The planned state read as an archive carries its own sections, server and users. */
  lemma CandidateIs(ext: Ext, state: Json, name: string)
    requires state.Obj? && "users" in state.fields
    ensures var c := Candidate(ext, state);
            && c.Obj? && c.fields.Keys == {"format", "version", "source_server", "users", "protocols"}
            && c.fields["users"] == state.fields["users"] && c.fields["protocols"].Obj?
            && (name in c.fields["protocols"].fields <==>
                  name in state.fields
                  && name in {"reality", "reality_tcp", "xray", "telemt", "mtg", "ocserv", "amneziawg", "wireguard",
                              "sni_routes"})
            && (name in c.fields["protocols"].fields ==> c.fields["protocols"].fields[name] == state.fields[name])
  {
  }
}
