/** `plan_migration` (tools/kvnlib/core/migration.py): merging an archive into a target state, or
    restoring it onto an empty one, checked again as a whole before anything is written. */
module MigrationPlan {
  import opened Bytes
  import opened Json
  import opened MigrationSchema
  import opened MigrationCheck

  datatype Mode = Restore | Merge | UnknownMode

  datatype PlanResult = Planned(state: Json) | Invalid | Conflicting

  const AWG_NETWORK := "10.66.66.0/24"
  const WG_NETWORK := "10.88.88.0/24"
  const KEEPS_ENABLED := {"amneziawg", "wireguard", "ocserv"}

  // ---- what the plan is ------------------------------------------------------------------

  predicate TargetShape(target: Json) {
    target.Obj? && Get(target, "users", Arr([])).Arr?
  }

  function UsersOf(state: Json): seq<Json> {
    var users := Get(state, "users", Arr([]));
    if users.Arr? then users.items else []
  }

  /** A restored section keeps the target's `enabled` flag where the target has one. */
  function RestoredSection(target: Json, name: string, section: Json): Json {
    var previous := Get(target, name, Null);
    if name in KEEPS_ENABLED && Has(previous, "enabled") && section.Obj? then
      Obj(section.fields["enabled" := previous.fields["enabled"]])
    else
      section
  }

  function RestoredSections(target: Json, protocols: map<string, Json>): map<string, Json> {
    map name | name in protocols :: RestoredSection(target, name, protocols[name])
  }

  function RestoredState(target: Json, protocols: map<string, Json>, users: Json): Json
    requires target.Obj?
  {
    Obj((target.fields + RestoredSections(target, protocols))["users" := users])
  }

  function WithUsers(target: Json, users: seq<Json>): Json
    requires target.Obj?
  {
    Obj(target.fields["users" := Arr(users)])
  }

  function ServerText(ext: Ext, state: Json): string {
    var server := Get(state, "server", Str(""));
    if server.Str? then server.s else ext.text(server)
  }

  /** The planned state as an archive, for the second validation. */
  function Candidate(ext: Ext, state: Json): Json
    requires state.Obj? && "users" in state.fields
  {
    Obj(map["format" := Str(FORMAT), "version" := Int(FORMAT_VERSION), "source_server" := Str(ServerText(ext, state)),
            "users" := state.fields["users"],
            "protocols" := Obj(map name | name in PROTOCOL_FIELDS && name in state.fields :: state.fields[name])])
  }

  function NetworkOf(ext: Ext, state: Json, system: string, default: string): Option<Network> {
    ext.networkOf(Get(Get(state, system, Obj(map[])), "network", Str(default)))
  }

  function ServerIp(ext: Ext, state: Json, system: string, network: Network): Option<Ip> {
    var config := Get(state, system, Obj(map[]));
    if Has(config, "server_address") then ext.ipOf(config.fields["server_address"]) else ext.firstHost(network)
  }

  /** The user's address in the system, if it has one. */
  function PeerAddress(ext: Ext, u: Json, system: string): Option<Ip> {
    var address := Get(Get(u, system, Obj(map[])), "address", Null);
    if Truthy(address) then ext.ipOf(address) else None
  }

  /** Inside the network, and neither the server's nor the network's own or broadcast address. */
  predicate Usable(ext: Ext, network: Network, server: Ip, address: Ip) {
    && ext.contains(network, address) && address != server
    && address != ext.networkAddress(network) && address != ext.broadcastAddress(network)
  }

  datatype Verdict = Fits | BadNetwork | BadPeer

  function NetworkVerdict(ext: Ext, state: Json, users: seq<Json>, system: string, default: string): Verdict {
    var config := Get(state, system, Obj(map[]));
    var network := NetworkOf(ext, state, system, default);
    if !config.Obj? || network.None? || ServerIp(ext, state, system, network.value).None? then BadNetwork
    else if forall u :: u in users ==>
              var a := PeerAddress(ext, u, system);
              a.Some? ==> Usable(ext, network.value, ServerIp(ext, state, system, network.value).value, a.value)
    then Fits
    else BadPeer
  }

  /** A network that cannot be read is told from a peer that does not fit: its address lies outside
      or is the server's, the network's or the broadcast address. */
  lemma VerdictExactly(ext: Ext, state: Json, users: seq<Json>, system: string, default: string)
    ensures var config := Get(state, system, Obj(map[]));
            var network := ext.networkOf(Get(config, "network", Str(default)));
            NetworkVerdict(ext, state, users, system, default).BadNetwork? <==>
              || !config.Obj? || network.None?
              || (if Has(config, "server_address") then ext.ipOf(config.fields["server_address"])
                  else ext.firstHost(network.value)).None?
    ensures !NetworkVerdict(ext, state, users, system, default).BadNetwork? ==>
              var config := Get(state, system, Obj(map[]));
              var network := ext.networkOf(Get(config, "network", Str(default))).value;
              var server := (if Has(config, "server_address") then ext.ipOf(config.fields["server_address"])
                             else ext.firstHost(network)).value;
              NetworkVerdict(ext, state, users, system, default).BadPeer? <==>
                exists u :: u in users &&
                  var address := Get(Get(u, system, Obj(map[])), "address", Null);
                  && Truthy(address) && ext.ipOf(address).Some?
                  && var a := ext.ipOf(address).value;
                     || !ext.contains(network, a) || a == server
                     || a == ext.networkAddress(network) || a == ext.broadcastAddress(network)
  {
  }

  /** The checks of the second half, on the state that is about to be returned. */
  ghost function Recheck(ext: Ext, state: Json): PlanResult
    requires state.Obj? && "users" in state.fields
  {
    if !Valid(ext, Candidate(ext, state)) then Conflicting
    else match NetworkVerdict(ext, state, UsersOf(state), "amneziawg", AWG_NETWORK)
      case BadNetwork => Invalid
      case BadPeer => Conflicting
      case Fits =>
        match NetworkVerdict(ext, state, UsersOf(state), "wireguard", WG_NETWORK)
        case BadNetwork => Invalid
        case BadPeer => Conflicting
        case Fits => Planned(state)
  }

  ghost function Plan(ext: Ext, target: Json, envelope: Json, mode: Mode): PlanResult {
    if !Valid(ext, envelope) || !TargetShape(target) || mode.UnknownMode? then Invalid
    else if mode.Restore? then
      if UsersOf(target) != [] then Conflicting
      else Recheck(ext, RestoredState(target, envelope.fields["protocols"].fields, envelope.fields["users"]))
    else
      Recheck(ext, WithUsers(target, UsersOf(target) + UsersOf(envelope)))
  }

  // ---- the planner -----------------------------------------------------------------------

  /** Copies the archive's sections one by one, in whatever order the archive has them. */
  method RestoreSections(target: Json, protocols: map<string, Json>) returns (fields: map<string, Json>)
    requires target.Obj?
    ensures fields == target.fields + RestoredSections(target, protocols)
  {
    fields := target.fields;
    var rest := protocols.Keys;
    ghost var whole := RestoredSections(target, protocols);
    while rest != {}
      invariant rest <= protocols.Keys
      invariant fields == target.fields + map name | name in whole && name !in rest :: whole[name]
      decreases rest
    {
      var name :| name in rest;
      var previous := if name in fields then fields[name] else Null;
      var incoming := protocols[name];
      assert previous == Get(target, name, Null);
      if name in KEEPS_ENABLED && Has(previous, "enabled") && incoming.Obj? {
        incoming := Obj(incoming.fields["enabled" := previous.fields["enabled"]]);
      }
      assert incoming == whole[name];
      fields := fields[name := incoming];
      rest := rest - {name};
    }
    assert (map name | name in whole && name !in rest :: whole[name]) == whole;
  }

  method CheckNetwork(ext: Ext, state: Json, users: seq<Json>, system: string, default: string) returns (v: Verdict)
    ensures v == NetworkVerdict(ext, state, users, system, default)
    ensures var config := Get(state, system, Obj(map[]));
            var network := ext.networkOf(Get(config, "network", Str(default)));
            v.BadNetwork? <==>
              || !config.Obj? || network.None?
              || (if Has(config, "server_address") then ext.ipOf(config.fields["server_address"])
                  else ext.firstHost(network.value)).None?
    ensures !v.BadNetwork? ==>
              var config := Get(state, system, Obj(map[]));
              var network := ext.networkOf(Get(config, "network", Str(default))).value;
              var server := (if Has(config, "server_address") then ext.ipOf(config.fields["server_address"])
                             else ext.firstHost(network)).value;
              v.BadPeer? <==>
                exists u :: u in users &&
                  var address := Get(Get(u, system, Obj(map[])), "address", Null);
                  && Truthy(address) && ext.ipOf(address).Some?
                  && var a := ext.ipOf(address).value;
                     || !ext.contains(network, a) || a == server
                     || a == ext.networkAddress(network) || a == ext.broadcastAddress(network)
  {
    VerdictExactly(ext, state, users, system, default);
    var config := Get(state, system, Obj(map[]));
    if !config.Obj? {
      return BadNetwork;
    }
    var network := ext.networkOf(Get(config, "network", Str(default)));
    if network.None? {
      return BadNetwork;
    }
    var server := ServerIp(ext, state, system, network.value);
    if server.None? {
      return BadNetwork;
    }
    for i := 0 to |users|
      invariant forall u :: u in users[..i] ==>
                  var a := PeerAddress(ext, u, system);
                  a.Some? ==> Usable(ext, network.value, server.value, a.value)
    {
      var a := PeerAddress(ext, users[i], system);
      if a.Some? && !Usable(ext, network.value, server.value, a.value) {
        assert users[i] in users;
        return BadPeer;
      }
    }
    assert users[..|users|] == users;
    return Fits;
  }

  method PlanMigration(ext: Ext, target: Json, envelope: Json, mode: Mode) returns (r: PlanResult)
    ensures r == Plan(ext, target, envelope, mode)
  {
    var ok := Validate(ext, envelope);
    if !ok || !TargetShape(target) || mode.UnknownMode? {
      return Invalid;
    }
    if mode.Restore? && UsersOf(target) != [] {
      return Conflicting;
    }
    var state;
    if mode.Restore? {
      var fields := RestoreSections(target, envelope.fields["protocols"].fields);
      state := Obj(fields["users" := envelope.fields["users"]]);
    } else {
      state := WithUsers(target, UsersOf(target) + UsersOf(envelope));
    }
    var valid := Validate(ext, Candidate(ext, state));
    if !valid {
      return Conflicting;
    }
    var v := CheckNetwork(ext, state, UsersOf(state), "amneziawg", AWG_NETWORK);
    if v.Fits? {
      v := CheckNetwork(ext, state, UsersOf(state), "wireguard", WG_NETWORK);
    }
    match v {
      case BadNetwork => return Invalid;
      case BadPeer => return Conflicting;
      case Fits => return Planned(state);
    }
  }
}
