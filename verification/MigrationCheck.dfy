/** `validate_migration` (tools/kvnlib/core/migration.py): one pass over the users that collects
    names, identifiers, tokens, addresses and keys, decides exactly the declarative validity. */
module MigrationCheck {
  import opened Json
  import opened MigrationBounds
  import opened MigrationSchema

  /** The sets the loop collects; the last two have one set per peer system. */
  datatype Seen = Seen(
    names: set<string>,
    uuids: set<nat>,
    tokens: set<string>,
    addresses: map<string, set<Ip>>,
    publicKeys: map<string, set<string>>)

  predicate Complete(seen: Seen) {
    seen.addresses.Keys == PEER_SYSTEMS && seen.publicKeys.Keys == PEER_SYSTEMS
  }

  predicate Holds(seen: Seen, k: Key) {
    match k
    case NameKey(folded) => folded in seen.names
    case UuidKey(id) => id in seen.uuids
    case TokenKey(token) => token in seen.tokens
    case PeerKey(system, key) => system in seen.publicKeys && key in seen.publicKeys[system]
    case PeerIp(system, ip) => system in seen.addresses && ip in seen.addresses[system]
  }

  ghost predicate Adds(before: Seen, after: Seen, keys: set<Key>) {
    Complete(after) && forall k :: Holds(after, k) <==> Holds(before, k) || k in keys
  }

  ghost predicate Free(seen: Seen, keys: set<Key>) {
    forall k :: k in keys ==> !Holds(seen, k)
  }

  /** The public key of a peer, if it has one. */
  function UsedKey(system: string, peer: Json): set<Key>
    requires AllStrings(peer)
  {
    var key := Get(peer, "public_key", Str(""));
    if key != Str("") then {PeerKey(system, key.s)} else {}
  }

  method AdmitKey(system: string, peer: Json, seen: Seen) returns (next: Seen, ok: bool)
    requires AllStrings(peer) && system in PEER_SYSTEMS && Complete(seen)
    ensures ok <==> Free(seen, UsedKey(system, peer))
    ensures ok ==> Adds(seen, next, UsedKey(system, peer))
  {
    next := seen;
    var key := Get(peer, "public_key", Str(""));
    if key != Str("") {
      if key.s in next.publicKeys[system] {
        assert PeerKey(system, key.s) in UsedKey(system, peer) && Holds(seen, PeerKey(system, key.s));
        return next, false;
      }
      next := next.(publicKeys := next.publicKeys[system := next.publicKeys[system] + {key.s}]);
    }
    ok := true;
  }

  /** The address of a peer, if it has one. */
  function UsedIp(ext: Ext, system: string, peer: Json): set<Key>
    requires PeerShape(ext, peer)
  {
    if Truthy(Get(peer, "address", Null)) then {PeerIp(system, ext.ipOf(peer.fields["address"]).value)} else {}
  }

  method AdmitIp(ext: Ext, system: string, peer: Json, seen: Seen) returns (next: Seen, ok: bool)
    requires PeerShape(ext, peer) && system in PEER_SYSTEMS && Complete(seen)
    ensures ok <==> Free(seen, UsedIp(ext, system, peer))
    ensures ok ==> Adds(seen, next, UsedIp(ext, system, peer))
  {
    next := seen;
    if Truthy(Get(peer, "address", Null)) {
      var ip := ext.ipOf(peer.fields["address"]).value;
      if ip in next.addresses[system] {
        assert PeerIp(system, ip) in UsedIp(ext, system, peer) && Holds(seen, PeerIp(system, ip));
        return next, false;
      }
      next := next.(addresses := next.addresses[system := next.addresses[system] + {ip}]);
    }
    ok := true;
  }

  /** The part of the loop body for one peer system. */
  method AdmitPeer(ext: Ext, system: string, u: Json, seen: Seen) returns (next: Seen, ok: bool)
    requires UserShape(ext, u) && system in PEER_SYSTEMS && Complete(seen)
    ensures ok <==> Free(seen, PeerKeys(ext, system, u))
    ensures ok ==> Adds(seen, next, PeerKeys(ext, system, u))
  {
    next := seen;
    if system !in u.fields {
      return next, true;
    }
    var peer := u.fields[system];
    ghost var key, ip := UsedKey(system, peer), UsedIp(ext, system, peer);
    assert PeerKeys(ext, system, u) == key + ip;
    next, ok := AdmitKey(system, peer, seen);
    if ok {
      AddsKeepsFree(seen, next, key, ip);
      next, ok := AdmitIp(ext, system, peer, next);
    }
  }

  /** The part of the loop body for the name, the identifier and the token. */
  method AdmitOwn(ext: Ext, u: Json, seen: Seen) returns (next: Seen, ok: bool)
    requires UserShape(ext, u) && Complete(seen)
    ensures ok <==> Free(seen, OwnKeys(ext, u))
    ensures ok ==> Adds(seen, next, OwnKeys(ext, u))
  {
    next := seen;
    ghost var used := OwnKeys(ext, u);
    var name := ext.casefold(u.fields["name"].s);
    if name in next.names {
      assert NameKey(name) in used && Holds(seen, NameKey(name));
      return next, false;
    }
    next := next.(names := next.names + {name});
    if Has(u, "uuid") && u.fields["uuid"].s != "" {
      var id := ext.uuid(u.fields["uuid"].s).value;
      if id in next.uuids {
        assert UuidKey(id) in used && Holds(seen, UuidKey(id));
        return next, false;
      }
      next := next.(uuids := next.uuids + {id});
    }
    if Has(u, "sub_token") && u.fields["sub_token"].s != "" {
      var token := u.fields["sub_token"].s;
      if token in next.tokens {
        assert TokenKey(token) in used && Holds(seen, TokenKey(token));
        return next, false;
      }
      next := next.(tokens := next.tokens + {token});
    }
    ok := true;
  }

  lemma KindsDiffer(ext: Ext, u: Json)
    requires UserShape(ext, u)
    ensures OwnKeys(ext, u) !! PeerKeys(ext, "amneziawg", u) !! PeerKeys(ext, "wireguard", u)
  {
  }

  lemma AddsKeepsFree(seen: Seen, next: Seen, keys: set<Key>, more: set<Key>)
    requires Adds(seen, next, keys) && keys !! more
    ensures Free(next, more) <==> Free(seen, more)
  {
    if !Free(next, more) {
      var k :| k in more && Holds(next, k);
      assert k !in keys;
    }
  }

  /** The loop body: a user is admitted if it is well formed and shares no key with those before. */
  method Admit(ext: Ext, u: Json, seen: Seen) returns (next: Seen, ok: bool)
    requires Complete(seen)
    ensures ok <==> KeysOrNone(ext, u) != {} && Free(seen, KeysOrNone(ext, u))
    ensures ok ==> Adds(seen, next, KeysOrNone(ext, u))
  {
    next := seen;
    KeysNotEmpty(ext, u);
    if !UserShape(ext, u) {
      return next, false;
    }
    KindsDiffer(ext, u);
    ghost var own, awg, wg := OwnKeys(ext, u), PeerKeys(ext, "amneziawg", u), PeerKeys(ext, "wireguard", u);
    assert Free(seen, Keys(ext, u)) <==> Free(seen, own) && Free(seen, awg) && Free(seen, wg);
    next, ok := AdmitOwn(ext, u, seen);
    if !ok {
      return;
    }
    AddsKeepsFree(seen, next, own, awg);
    ghost var first := next;
    next, ok := AdmitPeer(ext, "amneziawg", u, next);
    if !ok {
      return;
    }
    assert Adds(seen, next, own + awg);
    AddsKeepsFree(seen, next, own + awg, wg);
    next, ok := AdmitPeer(ext, "wireguard", u, next);
  }

  /** Nobody uses a reserved name or a server key; decided on the collected sets. */
  method CheckReserved(ext: Ext, protocols: Json, seen: Seen) returns (ok: bool)
    requires Complete(seen)
    ensures ok <==> forall k :: Holds(seen, k) ==> !Reserved(ext, protocols, k)
  {
    var extra := ExtraUsers(protocols);
    if exists n :: n in extra && ext.casefold(n) in seen.names {
      var n :| n in extra && ext.casefold(n) in seen.names;
      assert Holds(seen, NameKey(ext.casefold(n))) && Reserved(ext, protocols, NameKey(ext.casefold(n)));
      return false;
    }
    var systems := ["amneziawg", "wireguard"];
    var i := 0;
    while i < |systems|
      invariant 0 <= i <= 2
      invariant forall j, key :: 0 <= j < i && key in seen.publicKeys[systems[j]] ==>
                  ServerKey(protocols, systems[j]) != Str(key)
    {
      var server := ServerKey(protocols, systems[i]);
      if server.Str? && server.s in seen.publicKeys[systems[i]] {
        assert Holds(seen, PeerKey(systems[i], server.s)) && Reserved(ext, protocols, PeerKey(systems[i], server.s));
        return false;
      }
      i := i + 1;
    }
    forall k | Holds(seen, k)
      ensures !Reserved(ext, protocols, k)
    {
      if k.PeerKey? {
        assert k.system == systems[0] || k.system == systems[1];
      } else if k.NameKey? {
        assert forall n :: n in extra ==> ext.casefold(n) !in seen.names;
      }
    }
    ok := true;
  }

  /** The sets hold the keys of these users, who are well formed and share none. */
  ghost predicate Collected(sets: seq<set<Key>>, seen: Seen) {
    && Complete(seen)
    && Apart(sets)
    && (forall k :: Holds(seen, k) <==> exists i :: 0 <= i < |sets| && k in sets[i])
  }

  lemma CollectMore(sets: seq<set<Key>>, seen: Seen, keys: set<Key>, next: Seen)
    requires Collected(sets, seen) && keys != {} && Free(seen, keys) && Adds(seen, next, keys)
    ensures Collected(sets + [keys], next)
  {
    var more := sets + [keys];
    forall k
      ensures Holds(next, k) <==> exists i :: 0 <= i < |more| && k in more[i]
    {
      if Holds(next, k) {
        if Holds(seen, k) {
          var i :| 0 <= i < |sets| && k in sets[i];
          assert k in more[i];
        } else {
          assert k in more[|sets|];
        }
      }
    }
  }

  /** A user who is not admitted spoils every list it is in with those before. */
  lemma NotAdmitted(sets: seq<set<Key>>, i: nat, seen: Seen)
    requires i < |sets| && Collected(sets[..i], seen)
    requires sets[i] == {} || !Free(seen, sets[i])
    ensures !Apart(sets)
  {
    if sets[i] != {} {
      var k :| k in sets[i] && Holds(seen, k);
      var a :| 0 <= a < i && k in sets[..i][a];
      assert k in sets[a] && k in sets[i];
    }
  }

  /** `Admit` for the user at an index, in terms of the list's key sets. */
  method AdmitAt(ext: Ext, users: seq<Json>, i: nat, seen: Seen) returns (next: Seen, ok: bool)
    requires i < |users| && Complete(seen)
    ensures ok <==> KeySets(ext, users)[i] != {} && Free(seen, KeySets(ext, users)[i])
    ensures ok ==> Adds(seen, next, KeySets(ext, users)[i])
  {
    KeySetAt(ext, users, i);
    next, ok := Admit(ext, users[i], seen);
  }

  /** One turn of the loop over the users. */
  method AdmitNext(ext: Ext, users: seq<Json>, i: nat, seen: Seen) returns (next: Seen, ok: bool)
    requires i < |users| && Collected(KeySets(ext, users)[..i], seen)
    ensures ok ==> Collected(KeySets(ext, users)[..i + 1], next)
    ensures !ok ==> !Apart(KeySets(ext, users))
  {
    ghost var sets := KeySets(ext, users);
    next, ok := AdmitAt(ext, users, i, seen);
    if ok {
      CollectMore(sets[..i], seen, sets[i], next);
      assert sets[..i + 1] == sets[..i] + [sets[i]];
    } else {
      NotAdmitted(sets, i, seen);
    }
  }

  /** The loop over the users. */
  method CollectUsers(ext: Ext, users: seq<Json>) returns (seen: Seen, ok: bool)
    ensures ok ==> Collected(KeySets(ext, users), seen)
    ensures ok <==> Apart(KeySets(ext, users))
  {
    seen := Seen({}, {}, {}, map["amneziawg" := {}, "wireguard" := {}], map["amneziawg" := {}, "wireguard" := {}]);
    var i := 0;
    while i < |users|
      invariant 0 <= i <= |users|
      invariant Collected(KeySets(ext, users)[..i], seen)
    {
      seen, ok := AdmitNext(ext, users, i, seen);
      if !ok {
        return;
      }
      i := i + 1;
    }
    assert KeySets(ext, users)[..i] == KeySets(ext, users);
    ok := true;
  }

  lemma CollectedDecides(ext: Ext, protocols: Json, sets: seq<set<Key>>, seen: Seen)
    requires Collected(sets, seen)
    ensures Unreserved(ext, protocols, sets) <==> forall k :: Holds(seen, k) ==> !Reserved(ext, protocols, k)
  {
  }

  /** Exactly the declarative validity of a user list. */
  method CheckUsers(ext: Ext, protocols: Json, users: seq<Json>) returns (ok: bool)
    ensures ok <==> UsersValid(ext, protocols, users)
  {
    UsersAreKeySets(ext, protocols, users);
    if |users| > MAX_USERS {
      return false;
    }
    var seen;
    seen, ok := CollectUsers(ext, users);
    if ok {
      CollectedDecides(ext, protocols, KeySets(ext, users), seen);
      ok := CheckReserved(ext, protocols, seen);
    }
  }

  method Validate(ext: Ext, value: Json) returns (ok: bool)
    ensures ok <==> Valid(ext, value)
  {
    ok := CheckBounds(value);
    if !ok || !HeaderShape(value) {
      return false;
    }
    ok := CheckUsers(ext, value.fields["protocols"], value.fields["users"].items);
  }
}
