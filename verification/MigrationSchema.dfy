/** What a well-formed migration archive is (tools/kvnlib/core/migration.py), declaratively: the
    shape of every part, and one set of identity keys per user that must not repeat. */
module MigrationSchema {
  import opened Bytes
  import opened Json
  import opened MigrationBounds

  const FORMAT := "kvn-vpn-migration"
  const FORMAT_VERSION := 1

  const SYSTEMS :=
    {"tls", "reality-xhttp", "reality-tcp", "hysteria", "telemt", "mtg", "amneziawg", "wireguard", "ocserv"}
  const USER_FIELDS := {"name", "uuid", "hysteria_password", "telemt_secret", "ocserv_password", "sub_token", "enabled",
                        "description", "device", "systems", "sni_overrides", "amneziawg", "wireguard"}
  const TEXT_FIELDS :=
    {"uuid", "hysteria_password", "telemt_secret", "ocserv_password", "sub_token", "description", "device"}
  const PEER_FIELDS := {"private_key", "public_key", "preshared_key", "address"}
  const PEER_SYSTEMS := {"amneziawg", "wireguard"}
  const OVERRIDE_FIELDS := {"tls", "reality-xhttp", "reality-tcp", "hysteria"}
  const ENVELOPE_FIELDS := {"format", "version", "source_server", "users", "protocols"}
  const ROUTE_FIELDS := {"default", "dest", "aliases", "reality_mode"}
  const CUSTOM_ROUTE_FIELDS := {"sni", "dest"}
  const OBFUSCATION_FIELDS :=
    {"Jc", "Jmin", "Jmax", "S1", "S2", "S3", "S4", "H1", "H2", "H3", "H4", "I1", "I2", "I3", "I4", "I5"}
  const AWG3_FIELDS := {"header_protection_key", "content_padding_addition", "rekey_after_time", "rekey_timeout",
                        "reject_after_time", "keepalive_timeout", "max_handshake_attempts",
                        "random_trailers", "disable_cookies"}

  const SECTIONS := {"reality", "reality_tcp", "xray", "telemt", "mtg", "ocserv", "amneziawg", "wireguard"}
  const PROTOCOL_FIELDS := SECTIONS + {"sni_routes"}

  function SectionFields(section: string): set<string> {
    match section
    case "reality" => {"privateKey", "public_key", "short_id", "shortIds"}
    case "reality_tcp" => {"privateKey", "public_key", "short_id", "shortIds"}
    case "xray" => {"xhttp_mode", "reality_xhttp_server_names"}
    case "telemt" => {"camouflage_origin", "extra_users"}
    case "mtg" => {"camouflage_origin", "secret16"}
    case "ocserv" => {"enabled", "sni_enabled", "sni", "tcp_port", "dtls_enabled", "udp_port", "front_snis", "network",
                      "dns", "max_clients", "max_same_clients", "mtu"}
    case "amneziawg" => {"enabled", "port", "interface", "network", "server_address", "dns", "mtu", "route_mode",
                         "route_excludes", "compact_route_excludes", "protocol_version", "obfuscation", "v3",
                         "private_key", "public_key"}
    case _ => {"enabled", "port", "interface", "network", "server_address", "dns", "mtu", "private_key", "public_key"}
  }

  type Ip = nat
  type Network = nat

  /** Library parsing: case folding, UUIDs, IP interfaces and networks, keys in base 64, `str`. */
  datatype Ext = Ext(
    casefold: string -> string,
    uuid: string -> Option<nat>,
    ipOf: Json -> Option<Ip>,
    networkOf: Json -> Option<Network>,
    firstHost: Network -> Option<Ip>,
    networkAddress: Network -> Ip,
    broadcastAddress: Network -> Ip,
    contains: (Network, Ip) -> bool,
    isWgKey: string -> bool,
    isRealityKey: string -> bool,
    text: Json -> string,
    encodedSize: Json -> nat)

  // ---- patterns --------------------------------------------------------------------------

  predicate NameChar(c: char) {
    'A' <= c <= 'Z' || 'a' <= c <= 'z' || '0' <= c <= '9' || c == '_' || c == '.' || c == '-'
  }

  predicate IsName(s: string) {
    2 <= |s| <= 32 && forall i :: 0 <= i < |s| ==> NameChar(s[i])
  }

  predicate LowerHex(s: string, length: nat) {
    |s| == length && forall i :: 0 <= i < |s| ==> '0' <= s[i] <= '9' || 'a' <= s[i] <= 'f'
  }

  predicate IsObject(v: Json, allowed: set<string>) {
    v.Obj? && v.fields.Keys <= allowed
  }

  predicate AllStrings(v: Json) {
    v.Obj? && forall k :: k in v.fields ==> v.fields[k].Str?
  }

  predicate Distinct<T(==)>(s: seq<T>) {
    forall i, j :: 0 <= i < j < |s| ==> s[i] != s[j]
  }

  // ---- protocol sections -----------------------------------------------------------------

  predicate RouteShape(name: string, route: Json) {
    if name == "custom" then
      route.Arr? && forall c :: c in route.items ==> IsObject(c, CUSTOM_ROUTE_FIELDS)
    else
      IsObject(route, ROUTE_FIELDS)
  }

  predicate SectionShape(section: string, item: Json) {
    if section == "sni_routes" then
      IsObject(item, SYSTEMS + {"custom"}) && forall r :: r in item.fields ==> RouteShape(r, item.fields[r])
    else
      && IsObject(item, SectionFields(section))
      && (section == "amneziawg" && "obfuscation" in item.fields ==>
            IsObject(item.fields["obfuscation"], OBFUSCATION_FIELDS))
      && (section == "amneziawg" && "v3" in item.fields ==> IsObject(item.fields["v3"], AWG3_FIELDS))
      && (section == "telemt" && "extra_users" in item.fields ==>
            && AllStrings(item.fields["extra_users"])
            && forall k :: k in item.fields["extra_users"].fields ==> IsName(k))
  }

  predicate ProtocolsShape(protocols: Json) {
    && IsObject(protocols, PROTOCOL_FIELDS)
    && forall s :: s in protocols.fields ==> SectionShape(s, protocols.fields[s])
  }

  // ---- users -----------------------------------------------------------------------------

  predicate SystemsShape(v: Json) {
    && v.Arr?
    && (forall x :: x in v.items ==> x.Str? && x.s in SYSTEMS)
    && Distinct(v.items)
  }

  predicate PeerShape(ext: Ext, peer: Json) {
    && IsObject(peer, PEER_FIELDS) && AllStrings(peer)
    && (Truthy(Get(peer, "address", Null)) ==> ext.ipOf(peer.fields["address"]).Some?)
  }

  /** What a user must satisfy on its own. */
  predicate UserShape(ext: Ext, u: Json) {
    && IsObject(u, USER_FIELDS)
    && Has(u, "name") && u.fields["name"].Str? && IsName(u.fields["name"].s)
    && (Has(u, "enabled") ==> u.fields["enabled"].Bool?)
    && (forall f :: f in TEXT_FIELDS && f in u.fields ==> u.fields[f].Str?)
    && (Has(u, "uuid") && u.fields["uuid"].s != "" ==> ext.uuid(u.fields["uuid"].s).Some?)
    && (Has(u, "sub_token") && u.fields["sub_token"].s != "" ==> LowerHex(u.fields["sub_token"].s, 32))
    && SystemsShape(Get(u, "systems", Arr([])))
    && (Has(u, "sni_overrides") ==>
          IsObject(u.fields["sni_overrides"], OVERRIDE_FIELDS) && AllStrings(u.fields["sni_overrides"]))
    && (forall s :: s in PEER_SYSTEMS && s in u.fields ==> PeerShape(ext, u.fields[s]))
  }

  /** Everything that identifies a user, tagged; no two users may share any of it. */
  datatype Key =
    | NameKey(folded: string)
    | UuidKey(id: nat)
    | TokenKey(token: string)
    | PeerKey(system: string, key: string)
    | PeerIp(system: string, ip: Ip)

  function PeerKeys(ext: Ext, system: string, u: Json): set<Key>
    requires UserShape(ext, u) && system in PEER_SYSTEMS
  {
    if system !in u.fields then {} else
      var peer := u.fields[system];
      var key := Get(peer, "public_key", Str(""));
      (if key != Str("") then {PeerKey(system, key.s)} else {})
      + (if Truthy(Get(peer, "address", Null)) then {PeerIp(system, ext.ipOf(peer.fields["address"]).value)} else {})
  }

  function OwnKeys(ext: Ext, u: Json): set<Key>
    requires UserShape(ext, u)
  {
    {NameKey(ext.casefold(u.fields["name"].s))}
    + (if Has(u, "uuid") && u.fields["uuid"].s != "" then {UuidKey(ext.uuid(u.fields["uuid"].s).value)} else {})
    + (if Has(u, "sub_token") && u.fields["sub_token"].s != "" then {TokenKey(u.fields["sub_token"].s)} else {})
  }

  function Keys(ext: Ext, u: Json): set<Key>
    requires UserShape(ext, u)
  {
    OwnKeys(ext, u) + PeerKeys(ext, "amneziawg", u) + PeerKeys(ext, "wireguard", u)
  }

  function ExtraUsers(protocols: Json): map<string, Json> {
    var extra := Get(Get(protocols, "telemt", Obj(map[])), "extra_users", Obj(map[]));
    if extra.Obj? then extra.fields else map[]
  }

  function ServerKey(protocols: Json, system: string): Json {
    Get(Get(protocols, system, Obj(map[])), "public_key", Null)
  }

  /** The key belongs to an additional Telemt account or to the server. */
  predicate Reserved(ext: Ext, protocols: Json, k: Key) {
    match k
    case NameKey(folded) => exists n :: n in ExtraUsers(protocols) && ext.casefold(n) == folded
    case PeerKey(system, key) => ServerKey(protocols, system) == Str(key)
    case _ => false
  }

  /** A list or an object as server key cannot be looked up in a set. */
  predicate ServerKeysHashable(protocols: Json) {
    forall s :: s in PEER_SYSTEMS ==> !ServerKey(protocols, s).Arr? && !ServerKey(protocols, s).Obj?
  }

  ghost predicate UsersValid(ext: Ext, protocols: Json, users: seq<Json>) {
    && |users| <= MAX_USERS
    && (forall u :: u in users ==> UserShape(ext, u))
    && (forall u, k :: u in users && k in Keys(ext, u) ==> !Reserved(ext, protocols, k))
    && (forall i, j :: 0 <= i < j < |users| ==> Keys(ext, users[i]) !! Keys(ext, users[j]))
  }

  // ---- users as their key sets -----------------------------------------------------------

  /** A well-formed user's keys, never empty; nothing for a malformed one. */
  ghost function KeysOrNone(ext: Ext, u: Json): set<Key> {
    if UserShape(ext, u) then Keys(ext, u) else {}
  }

  /** The key sets of a list of users. What follows about lists only needs these. */
  ghost function KeySets(ext: Ext, users: seq<Json>): (r: seq<set<Key>>)
    ensures |r| == |users|
  {
    if users == [] then [] else KeySets(ext, users[..|users| - 1]) + [KeysOrNone(ext, users[|users| - 1])]
  }

  ghost predicate Apart(sets: seq<set<Key>>) {
    && (forall i :: 0 <= i < |sets| ==> sets[i] != {})
    && (forall i, j :: 0 <= i < j < |sets| ==> sets[i] !! sets[j])
  }

  ghost predicate Unreserved(ext: Ext, protocols: Json, sets: seq<set<Key>>) {
    forall i, k :: 0 <= i < |sets| && k in sets[i] ==> !Reserved(ext, protocols, k)
  }

  lemma {:induction false} KeySetAt(ext: Ext, users: seq<Json>, i: nat)
    requires i < |users|
    ensures KeySets(ext, users)[i] == KeysOrNone(ext, users[i])
  {
    if i < |users| - 1 {
      KeySetAt(ext, users[..|users| - 1], i);
    }
  }

  lemma KeysNotEmpty(ext: Ext, u: Json)
    ensures UserShape(ext, u) <==> KeysOrNone(ext, u) != {}
  {
    if UserShape(ext, u) {
      assert NameKey(ext.casefold(u.fields["name"].s)) in Keys(ext, u);
    }
  }

  lemma UsersAreKeySets(ext: Ext, protocols: Json, users: seq<Json>)
    ensures UsersValid(ext, protocols, users)
            <==> |users| <= MAX_USERS && Apart(KeySets(ext, users)) && Unreserved(ext, protocols, KeySets(ext, users))
  {
    var sets := KeySets(ext, users);
    forall i | 0 <= i < |users|
      ensures sets[i] == KeysOrNone(ext, users[i]) && (UserShape(ext, users[i]) <==> sets[i] != {})
    {
      KeySetAt(ext, users, i);
      KeysNotEmpty(ext, users[i]);
    }
    if Apart(sets) {
      forall u | u in users
        ensures UserShape(ext, u)
      {
        var i :| 0 <= i < |users| && users[i] == u;
        assert sets[i] != {};
      }
    }
    if UsersValid(ext, protocols, users) {
      ValidAreKeySets(ext, protocols, users, sets);
    } else if Apart(sets) && Unreserved(ext, protocols, sets) && |users| <= MAX_USERS {
      ApartAreKeySets(ext, protocols, users, sets);
    }
  }

  lemma ValidAreKeySets(ext: Ext, protocols: Json, users: seq<Json>, sets: seq<set<Key>>)
    requires UsersValid(ext, protocols, users) && |sets| == |users|
    requires forall i :: 0 <= i < |users| ==> sets[i] == KeysOrNone(ext, users[i]) != {}
    ensures Apart(sets) && Unreserved(ext, protocols, sets)
  {
    forall i, k | 0 <= i < |sets| && k in sets[i]
      ensures !Reserved(ext, protocols, k)
    {
      assert users[i] in users;
    }
  }

  lemma ApartAreKeySets(ext: Ext, protocols: Json, users: seq<Json>, sets: seq<set<Key>>)
    requires forall u :: u in users ==> UserShape(ext, u)
    requires |sets| == |users| && forall i :: 0 <= i < |users| ==> sets[i] == KeysOrNone(ext, users[i])
    requires Apart(sets) && Unreserved(ext, protocols, sets) && |users| <= MAX_USERS
    ensures UsersValid(ext, protocols, users)
  {
    forall u, k | u in users && k in Keys(ext, u)
      ensures !Reserved(ext, protocols, k)
    {
      var i :| 0 <= i < |users| && users[i] == u;
      assert k in sets[i];
    }
    forall i, j | 0 <= i < j < |users|
      ensures Keys(ext, users[i]) !! Keys(ext, users[j])
    {
      assert sets[i] !! sets[j];
    }
  }

  // ---- what it means for two users to be told apart --------------------------------------

  function Text(u: Json, field: string): string {
    var v := Get(u, field, Str(""));
    if v.Str? then v.s else ""
  }

  /** The peer of the user in a system, empty if it has none. */
  function PeerOf(u: Json, system: string): Json {
    Get(u, system, Obj(map[]))
  }

  /** The users have different names, identifiers and tokens, as far as they have any. */
  predicate OwnDiffer(ext: Ext, u: Json, w: Json) {
    && ext.casefold(Text(u, "name")) != ext.casefold(Text(w, "name"))
    && (Text(u, "uuid") != "" && Text(w, "uuid") != "" ==> ext.uuid(Text(u, "uuid")) != ext.uuid(Text(w, "uuid")))
    && (Text(u, "sub_token") != "" ==> Text(u, "sub_token") != Text(w, "sub_token"))
  }

  /** And different keys and addresses in the system. */
  predicate PeersDiffer(ext: Ext, u: Json, w: Json, system: string) {
    var (p, q) := (PeerOf(u, system), PeerOf(w, system));
    && (Text(p, "public_key") != "" ==> Text(p, "public_key") != Text(q, "public_key"))
    && (Text(p, "address") != "" && Text(q, "address") != "" ==>
          ext.ipOf(Str(Text(p, "address"))) != ext.ipOf(Str(Text(q, "address"))))
  }

  lemma OwnKeysAre(ext: Ext, u: Json, k: Key)
    requires UserShape(ext, u)
    ensures Text(u, "uuid") != "" ==> ext.uuid(Text(u, "uuid")).Some?
    ensures k in OwnKeys(ext, u) <==>
              || k == NameKey(ext.casefold(Text(u, "name")))
              || (Text(u, "uuid") != "" && k == UuidKey(ext.uuid(Text(u, "uuid")).value))
              || (Text(u, "sub_token") != "" && k == TokenKey(Text(u, "sub_token")))
  {
  }

  lemma OwnKeysDiffer(ext: Ext, u: Json, w: Json)
    requires UserShape(ext, u) && UserShape(ext, w)
    ensures OwnKeys(ext, u) !! OwnKeys(ext, w) <==> OwnDiffer(ext, u, w)
  {
    if k :| k in OwnKeys(ext, u) && k in OwnKeys(ext, w) {
      OwnKeysAre(ext, u, k);
      OwnKeysAre(ext, w, k);
    } else {
      OwnKeysAre(ext, u, NameKey(ext.casefold(Text(u, "name"))));
      OwnKeysAre(ext, w, NameKey(ext.casefold(Text(u, "name"))));
      OwnKeysAre(ext, u, TokenKey(Text(u, "sub_token")));
      OwnKeysAre(ext, w, TokenKey(Text(u, "sub_token")));
      if Text(u, "uuid") != "" {
        OwnKeysAre(ext, u, UuidKey(ext.uuid(Text(u, "uuid")).value));
        OwnKeysAre(ext, w, UuidKey(ext.uuid(Text(u, "uuid")).value));
      }
    }
  }

  lemma PeerKeysDiffer(ext: Ext, u: Json, w: Json, system: string)
    requires UserShape(ext, u) && UserShape(ext, w) && system in PEER_SYSTEMS
    ensures PeerKeys(ext, system, u) !! PeerKeys(ext, system, w) <==> PeersDiffer(ext, u, w, system)
  {
    PeerKeysAre(ext, u, system);
    PeerKeysAre(ext, w, system);
    PeersApart(ext, PeerOf(u, system), PeerOf(w, system), system, PeerKeys(ext, system, u), PeerKeys(ext, system, w));
  }

  /** The sets hold the keys of the two peers. */
  lemma PeersApart(ext: Ext, p: Json, q: Json, system: string, a: set<Key>, b: set<Key>)
    requires Text(p, "address") != "" ==> ext.ipOf(Str(Text(p, "address"))).Some?
    requires Text(q, "address") != "" ==> ext.ipOf(Str(Text(q, "address"))).Some?
    requires forall k :: k in a <==>
               || (Text(p, "public_key") != "" && k == PeerKey(system, Text(p, "public_key")))
               || (Text(p, "address") != "" && k == PeerIp(system, ext.ipOf(Str(Text(p, "address"))).value))
    requires forall k :: k in b <==>
               || (Text(q, "public_key") != "" && k == PeerKey(system, Text(q, "public_key")))
               || (Text(q, "address") != "" && k == PeerIp(system, ext.ipOf(Str(Text(q, "address"))).value))
    ensures a !! b <==>
              && (Text(p, "public_key") != "" ==> Text(p, "public_key") != Text(q, "public_key"))
              && (Text(p, "address") != "" && Text(q, "address") != "" ==>
                    ext.ipOf(Str(Text(p, "address"))) != ext.ipOf(Str(Text(q, "address"))))
  {
    if a !! b {
      assert PeerKey(system, Text(p, "public_key")) !in a || PeerKey(system, Text(p, "public_key")) !in b;
      if Text(p, "address") != "" {
        var ip := PeerIp(system, ext.ipOf(Str(Text(p, "address"))).value);
        assert ip !in a || ip !in b;
      }
    } else {
      var k :| k in a && k in b;
    }
  }

  lemma PeerKeysAre(ext: Ext, u: Json, system: string)
    requires UserShape(ext, u) && system in PEER_SYSTEMS
    ensures var p := PeerOf(u, system);
            && (Text(p, "address") != "" ==> ext.ipOf(Str(Text(p, "address"))).Some?)
            && forall k :: k in PeerKeys(ext, system, u) <==>
                 || (Text(p, "public_key") != "" && k == PeerKey(system, Text(p, "public_key")))
                 || (Text(p, "address") != "" && k == PeerIp(system, ext.ipOf(Str(Text(p, "address"))).value))
  {
    if system in u.fields {
      assert PeerShape(ext, u.fields[system]);
    }
  }

  lemma KeysDiffer(ext: Ext, u: Json, w: Json)
    requires UserShape(ext, u) && UserShape(ext, w)
    ensures Keys(ext, u) !! Keys(ext, w) <==>
              OwnDiffer(ext, u, w) && PeersDiffer(ext, u, w, "amneziawg") && PeersDiffer(ext, u, w, "wireguard")
  {
    OwnKeysDiffer(ext, u, w);
    PeerKeysDiffer(ext, u, w, "amneziawg");
    PeerKeysDiffer(ext, u, w, "wireguard");
    KindsApart(ext, u, w);
  }

  lemma OwnKinds(ext: Ext, u: Json, k: Key)
    requires UserShape(ext, u) && k in OwnKeys(ext, u)
    ensures k.NameKey? || k.UuidKey? || k.TokenKey?
  {
  }

  lemma PeerKinds(ext: Ext, u: Json, system: string, k: Key)
    requires UserShape(ext, u) && system in PEER_SYSTEMS && k in PeerKeys(ext, system, u)
    ensures (k.PeerKey? || k.PeerIp?) && k.system == system
  {
  }

  lemma OwnApart(ext: Ext, u: Json, w: Json, system: string)
    requires UserShape(ext, u) && UserShape(ext, w) && system in PEER_SYSTEMS
    ensures OwnKeys(ext, u) !! PeerKeys(ext, system, w)
  {
    if k :| k in OwnKeys(ext, u) && k in PeerKeys(ext, system, w) {
      OwnKinds(ext, u, k);
      PeerKinds(ext, w, system, k);
      assert false;
    }
  }

  lemma SystemsApart(ext: Ext, u: Json, w: Json, system: string, other: string)
    requires UserShape(ext, u) && UserShape(ext, w)
    requires system in PEER_SYSTEMS && other in PEER_SYSTEMS && system != other
    ensures PeerKeys(ext, system, u) !! PeerKeys(ext, other, w)
  {
    if k :| k in PeerKeys(ext, system, u) && k in PeerKeys(ext, other, w) {
      PeerKinds(ext, u, system, k);
      PeerKinds(ext, w, other, k);
      assert false;
    }
  }

  lemma KindsApart(ext: Ext, u: Json, w: Json)
    requires UserShape(ext, u) && UserShape(ext, w)
    ensures OwnKeys(ext, u) !! PeerKeys(ext, "amneziawg", w) && OwnKeys(ext, u) !! PeerKeys(ext, "wireguard", w)
    ensures PeerKeys(ext, "amneziawg", u) !! OwnKeys(ext, w) && PeerKeys(ext, "wireguard", u) !! OwnKeys(ext, w)
    ensures PeerKeys(ext, "amneziawg", u) !! PeerKeys(ext, "wireguard", w)
    ensures PeerKeys(ext, "wireguard", u) !! PeerKeys(ext, "amneziawg", w)
  {
    OwnApart(ext, u, w, "amneziawg");
    OwnApart(ext, u, w, "wireguard");
    OwnApart(ext, w, u, "amneziawg");
    OwnApart(ext, w, u, "wireguard");
    SystemsApart(ext, u, w, "amneziawg", "wireguard");
    SystemsApart(ext, u, w, "wireguard", "amneziawg");
  }

  /** A user takes no name of an additional Telemt account */
  predicate NameAllowed(ext: Ext, protocols: Json, u: Json) {
    forall n :: n in ExtraUsers(protocols) ==> ext.casefold(n) != ext.casefold(Text(u, "name"))
  }

  /** and no key of the server. */
  predicate KeyAllowed(protocols: Json, u: Json, system: string) {
    Text(PeerOf(u, system), "public_key") != "" ==>
      ServerKey(protocols, system) != Str(Text(PeerOf(u, system), "public_key"))
  }

  ghost predicate NoneReserved(ext: Ext, protocols: Json, keys: set<Key>) {
    forall k :: k in keys ==> !Reserved(ext, protocols, k)
  }

  lemma OwnAllowed(ext: Ext, protocols: Json, u: Json)
    requires UserShape(ext, u)
    ensures NoneReserved(ext, protocols, OwnKeys(ext, u)) <==> NameAllowed(ext, protocols, u)
  {
    var name := NameKey(ext.casefold(Text(u, "name")));
    assert name in OwnKeys(ext, u);
    assert Reserved(ext, protocols, name) <==> !NameAllowed(ext, protocols, u);
    forall k | k in OwnKeys(ext, u) && k != name
      ensures !Reserved(ext, protocols, k)
    {
      OwnKinds(ext, u, k);
    }
  }

  lemma PeerAllowed(ext: Ext, protocols: Json, u: Json, system: string)
    requires UserShape(ext, u) && system in PEER_SYSTEMS
    ensures NoneReserved(ext, protocols, PeerKeys(ext, system, u)) <==> KeyAllowed(protocols, u, system)
  {
    PeerKeysAre(ext, u, system);
    var key := PeerKey(system, Text(PeerOf(u, system), "public_key"));
    assert Reserved(ext, protocols, key) <==> ServerKey(protocols, system) == Str(key.key);
    assert Text(PeerOf(u, system), "public_key") != "" ==> key in PeerKeys(ext, system, u);
  }

  predicate Allowed(ext: Ext, protocols: Json, u: Json) {
    NameAllowed(ext, protocols, u) && KeyAllowed(protocols, u, "amneziawg") && KeyAllowed(protocols, u, "wireguard")
  }

  lemma AllowedKeys(ext: Ext, protocols: Json, u: Json)
    requires UserShape(ext, u)
    ensures NoneReserved(ext, protocols, Keys(ext, u)) <==> Allowed(ext, protocols, u)
  {
    OwnAllowed(ext, protocols, u);
    PeerAllowed(ext, protocols, u, "amneziawg");
    PeerAllowed(ext, protocols, u, "wireguard");
    AllReserved(ext, protocols, OwnKeys(ext, u), PeerKeys(ext, "amneziawg", u), PeerKeys(ext, "wireguard", u));
  }

  lemma AllReserved(ext: Ext, protocols: Json, a: set<Key>, b: set<Key>, c: set<Key>)
    ensures NoneReserved(ext, protocols, a + b + c) <==>
              NoneReserved(ext, protocols, a) && NoneReserved(ext, protocols, b) && NoneReserved(ext, protocols, c)
  {
    if NoneReserved(ext, protocols, a + b + c) {
      assert forall k :: k in a || k in b || k in c ==> k in a + b + c;
    }
  }

  /** Exactly when a list of users is valid: at most 2048 of them, each well formed, none with a
      reserved name or key, and no two with the same name, identifier, token, key or address. */
  lemma UsersValidExactly(ext: Ext, protocols: Json, users: seq<Json>)
    ensures UsersValid(ext, protocols, users) <==>
              && |users| <= 2048
              && (forall u :: u in users ==> UserShape(ext, u) && Allowed(ext, protocols, u))
              && (forall i, j :: 0 <= i < j < |users| ==>
                    && OwnDiffer(ext, users[i], users[j])
                    && PeersDiffer(ext, users[i], users[j], "amneziawg")
                    && PeersDiffer(ext, users[i], users[j], "wireguard"))
  {
    if forall u :: u in users ==> UserShape(ext, u) {
      forall u | u in users
        ensures NoneReserved(ext, protocols, Keys(ext, u)) <==> Allowed(ext, protocols, u)
      {
        AllowedKeys(ext, protocols, u);
      }
      forall i, j | 0 <= i < j < |users|
        ensures Keys(ext, users[i]) !! Keys(ext, users[j]) <==>
                  && OwnDiffer(ext, users[i], users[j])
                  && PeersDiffer(ext, users[i], users[j], "amneziawg")
                  && PeersDiffer(ext, users[i], users[j], "wireguard")
      {
        KeysDiffer(ext, users[i], users[j]);
      }
    }
  }

  /** What a well-formed user is, field by field. */
  lemma UserTexts(ext: Ext, u: Json, f: string)
    requires UserShape(ext, u)
    ensures u.Obj? && 2 <= |Text(u, "name")| <= 32
    ensures forall i :: 0 <= i < |Text(u, "name")| ==>
              var c := Text(u, "name")[i];
              'A' <= c <= 'Z' || 'a' <= c <= 'z' || '0' <= c <= '9' || c == '_' || c == '.' || c == '-'
    ensures f in u.fields ==>
              || (f == "enabled" && u.fields[f].Bool?) || (f == "systems" && u.fields[f].Arr?)
              || (f in {"sni_overrides", "amneziawg", "wireguard"} && u.fields[f].Obj?)
              || (f in {"name", "uuid", "hysteria_password", "telemt_secret", "ocserv_password", "sub_token",
                        "description", "device"} && u.fields[f].Str?)
    ensures Text(u, "uuid") != "" ==> ext.uuid(Text(u, "uuid")).Some?
    ensures Text(u, "sub_token") != "" ==>
              && |Text(u, "sub_token")| == 32
              && forall i :: 0 <= i < 32 ==>
                   '0' <= Text(u, "sub_token")[i] <= '9' || 'a' <= Text(u, "sub_token")[i] <= 'f'
  {
  }

  lemma UserSystems(ext: Ext, u: Json)
    requires UserShape(ext, u) && Has(u, "systems")
    ensures u.fields["systems"].Arr?
    ensures forall x :: x in u.fields["systems"].items ==>
              x.Str? && x.s in {"tls", "reality-xhttp", "reality-tcp", "hysteria", "telemt", "mtg", "amneziawg",
                                "wireguard", "ocserv"}
    ensures var systems := u.fields["systems"].items;
            forall i, j :: 0 <= i < j < |systems| ==> systems[i] != systems[j]
  {
  }

  lemma UserParts(ext: Ext, u: Json, part: string, f: string)
    requires UserShape(ext, u) && part in {"sni_overrides", "amneziawg", "wireguard"} && part in u.fields
    ensures u.fields[part].Obj?
    ensures f in u.fields[part].fields ==>
              && u.fields[part].fields[f].Str?
              && f in if part == "sni_overrides" then {"tls", "reality-xhttp", "reality-tcp", "hysteria"}
                      else {"private_key", "public_key", "preshared_key", "address"}
    ensures part != "sni_overrides" && Text(u.fields[part], "address") != "" ==>
              ext.ipOf(u.fields[part].fields["address"]).Some?
  {
  }

  // ---- the archive -----------------------------------------------------------------------

  predicate HeaderShape(v: Json) {
    && v.Obj? && v.fields.Keys == ENVELOPE_FIELDS
    && v.fields["format"] == Str(FORMAT)
    && v.fields["version"] == Int(FORMAT_VERSION)
    && v.fields["source_server"].Str?
    && ProtocolsShape(v.fields["protocols"]) && ServerKeysHashable(v.fields["protocols"])
    && v.fields["users"].Arr?
  }

  ghost predicate Valid(ext: Ext, v: Json) {
    && Bounded(v)
    && HeaderShape(v)
    && UsersValid(ext, v.fields["protocols"], v.fields["users"].items)
  }

  // ---- what is accepted ------------------------------------------------------------------

  /** The frame of a valid archive, */
  lemma HeaderFields(ext: Ext, v: Json)
    requires Valid(ext, v)
    ensures v.Obj? && v.fields.Keys == {"format", "version", "source_server", "users", "protocols"}
    ensures v.fields["format"] == Str("kvn-vpn-migration") && v.fields["version"] == Int(1)
    ensures v.fields["source_server"].Str? && v.fields["users"].Arr? && v.fields["protocols"].Obj?
  {
  }

  /** down to the fields of its sections. */
  lemma SectionIsKnown(protocols: Json, s: string, f: string)
    requires ProtocolsShape(protocols) && s in protocols.fields && s != "sni_routes"
    ensures s in SECTIONS && protocols.fields[s].Obj?
    ensures f in protocols.fields[s].fields ==> f in SectionFields(s)
  {
    assert SectionShape(s, protocols.fields[s]);
  }

  lemma ExtraUsersAreNames(protocols: Json, f: string)
    requires ProtocolsShape(protocols) && f in ExtraUsers(protocols)
    ensures IsName(f) && ExtraUsers(protocols)[f].Str?
  {
    assert SectionShape("telemt", protocols.fields["telemt"]);
  }

  lemma {:induction false} SmallFields(v: Json, keys: set<string>)
    requires v.Obj? && keys <= v.fields.Keys && forall k :: k in keys ==> Nodes(v.fields[k]) <= 3
    ensures NodesOfFields(v, keys) <= 3 * |keys|
    decreases keys
  {
    if keys != {} {
      var k :| k in keys;
      FieldsAnyOrder(v, keys, k);
      SmallFields(v, keys - {k});
    }
  }

  lemma SingletonNodes(u: Json)
    ensures Nodes(Arr([u])) == 1 + Nodes(u)
  {
    assert [u][..0] == [];
    assert NodesOfAll([]) == 0;
  }

  /** An object all of whose fields are legal and small. */
  lemma SmallIsBounded(v: Json)
    requires v.Obj? && |v.fields| <= 5 && forall k :: k in v.fields ==> |k| <= MAX_KEY
    requires forall k :: k in v.fields ==> Legal(v.fields[k], 1) && Nodes(v.fields[k]) <= 3
    ensures Bounded(v)
  {
    SmallFields(v, v.fields.Keys);
    assert |v.fields.Keys| == |v.fields|;
  }

  function PlainUser(name: string): Json {
    Obj(map["name" := Str(name)])
  }

  lemma PlainUserIsSmall(name: string)
    requires IsName(name)
    ensures Legal(Arr([PlainUser(name)]), 1) && Nodes(Arr([PlainUser(name)])) <= 3
  {
    var u := PlainUser(name);
    FieldsAnyOrder(u, u.fields.Keys, "name");
    assert u.fields.Keys - {"name"} == {};
    SingletonNodes(u);
    assert Legal(Str(name), 3) && Legal(u, 2);
  }

  lemma PlainUserIsValid(ext: Ext, name: string)
    requires IsName(name)
    ensures UsersValid(ext, Obj(map[]), [PlainUser(name)])
  {
    var users := [PlainUser(name)];
    assert UserShape(ext, users[0]);
    UsersValidExactly(ext, Obj(map[]), users);
  }

  /** The fields of an archive with one user and no sections. */
  predicate IsPlain(v: Json, name: string) {
    && v.Obj? && v.fields.Keys == {"format", "version", "source_server", "users", "protocols"}
    && v.fields["format"] == Str("kvn-vpn-migration") && v.fields["version"] == Int(1)
    && v.fields["source_server"].Str?
    && |v.fields["source_server"].s| <= 4096 && '\0' !in v.fields["source_server"].s
    && v.fields["users"] == Arr([PlainUser(name)]) && v.fields["protocols"] == Obj(map[])
  }

  lemma PlainFieldIsSmall(v: Json, name: string, k: string)
    requires IsPlain(v, name) && IsName(name) && k in v.fields
    ensures Legal(v.fields[k], 1) && Nodes(v.fields[k]) <= 3 && |k| <= MAX_KEY
  {
    PlainUserIsSmall(name);
    assert NodesOfFields(Obj(map[]), {}) == 0;
  }

  lemma PlainIsBounded(v: Json, name: string)
    requires IsPlain(v, name) && IsName(name)
    ensures Bounded(v)
  {
    forall k | k in v.fields
      ensures Legal(v.fields[k], 1) && Nodes(v.fields[k]) <= 3 && |k| <= MAX_KEY
    {
      PlainFieldIsSmall(v, name, k);
    }
    assert |v.fields| == |v.fields.Keys| == |{"format", "version", "source_server", "users", "protocols"}|;
    SmallIsBounded(v);
  }

  lemma PlainHeader(v: Json, name: string)
    requires IsPlain(v, name)
    ensures HeaderShape(v)
  {
    assert forall s :: s in PEER_SYSTEMS ==> ServerKey(v.fields["protocols"], s) == Null;
  }

  /** An archive with one user of an allowed name and nothing else is valid, whatever the server. */
  lemma PlainIsValid(ext: Ext, v: Json, name: string)
    requires IsPlain(v, name) && 2 <= |name| <= 32
    requires forall i :: 0 <= i < |name| ==>
               var c := name[i];
               'A' <= c <= 'Z' || 'a' <= c <= 'z' || '0' <= c <= '9' || c == '_' || c == '.' || c == '-'
    ensures Valid(ext, v)
  {
    PlainIsBounded(v, name);
    PlainHeader(v, name);
    PlainUserIsValid(ext, name);
  }
}
