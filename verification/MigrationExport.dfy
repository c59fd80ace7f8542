/** `build_migration` (tools/kvnlib/exports/migration.py) and `validate_identity_complete`, and the
    round trip from a state through its archive onto an empty target.

    Encoding an archive as text loses nothing, so an archive is identified with its value. */
module MigrationExport {
  import opened Bytes
  import opened Json
  import opened MigrationBounds
  import opened MigrationSchema
  import opened MigrationPlan
  import opened MigrationLaws

  const MAX_JSON_BYTES: nat := 4 * 1024 * 1024
  const MAX_NAME: nat := 32
  const DEFAULT_SYSTEMS :=
    [Str("tls"), Str("reality-xhttp"), Str("reality-tcp"), Str("hysteria"), Str("telemt"), Str("mtg")]

  // ---- identity --------------------------------------------------------------------------

  predicate WgKey(ext: Ext, v: Json) {
    v.Str? && ext.isWgKey(v.s)
  }

  predicate ShortId(v: Json) {
    v.Str? && |v.s| <= 16
    && forall i :: 0 <= i < |v.s| ==> '0' <= v.s[i] <= '9' || 'a' <= v.s[i] <= 'f' || 'A' <= v.s[i] <= 'F'
  }

  predicate RealityComplete(ext: Ext, reality: Json) {
    var private := Get(reality, "privateKey", Null);
    var ids := Get(reality, "shortIds", Null);
    var shortIds := if Truthy(ids) then ids else Arr([Get(reality, "short_id", Null)]);
    && private.Str? && ext.isRealityKey(private.s)
    && shortIds.Arr? && shortIds.items != [] && forall x :: x in shortIds.items ==> ShortId(x)
  }

  function SystemsOf(u: Json): Json {
    Get(u, "systems", Arr(DEFAULT_SYSTEMS))
  }

  predicate SecretsComplete(u: Json) {
    && (forall k :: k in {"uuid", "hysteria_password", "telemt_secret", "sub_token"} ==> Truthy(Get(u, k, Null)))
    && SystemsOf(u).Arr?
    && (Str("ocserv") in SystemsOf(u).items ==> Truthy(Get(u, "ocserv_password", Null)))
  }

  predicate PeerComplete(ext: Ext, peer: Json) {
    && Truthy(Get(peer, "address", Null))
    && forall k :: k in {"private_key", "public_key", "preshared_key"} ==> WgKey(ext, Get(peer, k, Null))
  }

  predicate UserComplete(ext: Ext, u: Json) {
    && SecretsComplete(u)
    && forall s :: s in PEER_SYSTEMS && Str(s) in SystemsOf(u).items ==> PeerComplete(ext, Get(u, s, Obj(map[])))
  }

  /** No key that rendering would otherwise silently regenerate is missing. */
  ghost predicate IdentityComplete(ext: Ext, envelope: Json) {
    && Valid(ext, envelope)
    && var protocols := envelope.fields["protocols"];
       var awg := Get(protocols, "amneziawg", Obj(map[]));
       var secret := Get(Get(protocols, "mtg", Obj(map[])), "secret16", Str(""));
       && RealityComplete(ext, Get(protocols, "reality", Obj(map[])))
       && RealityComplete(ext, Get(protocols, "reality_tcp", Obj(map[])))
       && (forall s, k :: s in PEER_SYSTEMS && k in {"private_key", "public_key"} ==>
             WgKey(ext, Get(Get(protocols, s, Obj(map[])), k, Null)))
       && (Get(awg, "protocol_version", Null) == Str("3.1") ==>
             WgKey(ext, Get(Get(awg, "v3", Obj(map[])), "header_protection_key", Null)))
       && LowerHex(if secret.Str? then secret.s else ext.text(secret), 32)
       && forall u :: u in UsersOf(envelope) ==> UserComplete(ext, u)
  }

  /** What each user of a complete archive has: its secrets, */
  lemma SecretsExactly(ext: Ext, u: Json)
    requires UserShape(ext, u)
    ensures SecretsComplete(u) <==>
              && Text(u, "uuid") != "" && Text(u, "hysteria_password") != "" && Text(u, "telemt_secret") != ""
              && Text(u, "sub_token") != ""
              && (Has(u, "systems") && Str("ocserv") in u.fields["systems"].items ==> Text(u, "ocserv_password") != "")
  {
    DefaultsUseNoVpn();
    SecretTexts(ext, u);
  }

  lemma DefaultsUseNoVpn()
    ensures forall s :: s in {"ocserv", "amneziawg", "wireguard"} ==> Str(s) !in DEFAULT_SYSTEMS
  {
  }

  lemma SecretTexts(ext: Ext, u: Json)
    requires UserShape(ext, u)
    ensures forall f :: f in {"uuid", "hysteria_password", "telemt_secret", "sub_token", "ocserv_password"} ==>
              (Truthy(Get(u, f, Null)) <==> Text(u, f) != "")
  {
  }

  /** and for every VPN it uses an address and three keys; */
  lemma PeerExactly(ext: Ext, u: Json, s: string)
    requires UserShape(ext, u) && s in PEER_SYSTEMS
    ensures var peer := PeerOf(u, s);
            PeerComplete(ext, peer) <==>
              && Text(peer, "address") != "" && WgText(ext, peer, "private_key")
              && WgText(ext, peer, "public_key") && WgText(ext, peer, "preshared_key")
  {
    PeerTexts(ext, u, s);
  }

  /** without a list of systems it uses none. */
  lemma PeersUsed(u: Json, s: string)
    requires s in {"amneziawg", "wireguard"} && (Has(u, "systems") ==> u.fields["systems"].Arr?)
    ensures SystemsOf(u).Arr?
    ensures Str(s) in SystemsOf(u).items <==> Has(u, "systems") && Str(s) in u.fields["systems"].items
  {
    DefaultsUseNoVpn();
  }

  /** The field is there and a key. */
  predicate WgText(ext: Ext, v: Json, field: string) {
    Has(v, field) && v.fields[field].Str? && ext.isWgKey(v.fields[field].s)
  }

  lemma PeerTexts(ext: Ext, u: Json, s: string)
    requires UserShape(ext, u) && s in PEER_SYSTEMS
    ensures Truthy(Get(PeerOf(u, s), "address", Null)) <==> Text(PeerOf(u, s), "address") != ""
    ensures forall k :: WgKey(ext, Get(PeerOf(u, s), k, Null)) <==> WgText(ext, PeerOf(u, s), k)
  {
    if s in u.fields {
      assert PeerShape(ext, u.fields[s]);
    }
  }

  /** What the server of a complete archive has: both Reality identities, both VPN key pairs, the header
      key of protocol 3.1 if that is in use, and the MTProto secret. */
  lemma ServerComplete(ext: Ext, envelope: Json)
    ensures IdentityComplete(ext, envelope) <==>
              && Valid(ext, envelope)
              && var protocols := envelope.fields["protocols"];
                 var (awg, wg) := (Get(protocols, "amneziawg", Obj(map[])), Get(protocols, "wireguard", Obj(map[])));
                 var secret := Get(Get(protocols, "mtg", Obj(map[])), "secret16", Str(""));
                 && RealityComplete(ext, Get(protocols, "reality", Obj(map[])))
                 && RealityComplete(ext, Get(protocols, "reality_tcp", Obj(map[])))
                 && WgText(ext, awg, "private_key") && WgText(ext, awg, "public_key")
                 && WgText(ext, wg, "private_key") && WgText(ext, wg, "public_key")
                 && (Get(awg, "protocol_version", Null) == Str("3.1") ==>
                       WgText(ext, Get(awg, "v3", Obj(map[])), "header_protection_key"))
                 && LowerHex(if secret.Str? then secret.s else ext.text(secret), 32)
                 && forall u :: u in UsersOf(envelope) ==> UserComplete(ext, u)
  {
    if Valid(ext, envelope) {
      VpnKeys(ext, envelope.fields["protocols"]);
    }
  }

  lemma VpnKeys(ext: Ext, protocols: Json)
    ensures (forall s, k :: s in PEER_SYSTEMS && k in {"private_key", "public_key"} ==>
               WgKey(ext, Get(Get(protocols, s, Obj(map[])), k, Null)))
            <==> && WgText(ext, Get(protocols, "amneziawg", Obj(map[])), "private_key")
                 && WgText(ext, Get(protocols, "amneziawg", Obj(map[])), "public_key")
                 && WgText(ext, Get(protocols, "wireguard", Obj(map[])), "private_key")
                 && WgText(ext, Get(protocols, "wireguard", Obj(map[])), "public_key")
  {
    if forall s, k :: s in PEER_SYSTEMS && k in {"private_key", "public_key"} ==>
         WgKey(ext, Get(Get(protocols, s, Obj(map[])), k, Null)) {
      assert WgKey(ext, Get(Get(protocols, "amneziawg", Obj(map[])), "private_key", Null));
      assert WgKey(ext, Get(Get(protocols, "amneziawg", Obj(map[])), "public_key", Null));
      assert WgKey(ext, Get(Get(protocols, "wireguard", Obj(map[])), "private_key", Null));
      assert WgKey(ext, Get(Get(protocols, "wireguard", Obj(map[])), "public_key", Null));
    }
  }

  /** A Reality identity is a private key and at least one short identifier, of up to 16 hex digits; a
      single one may stand outside the list. */
  lemma RealityExactly(ext: Ext, reality: Json)
    ensures RealityComplete(ext, reality) <==>
              && Has(reality, "privateKey") && reality.fields["privateKey"].Str?
              && ext.isRealityKey(reality.fields["privateKey"].s)
              && if Truthy(Get(reality, "shortIds", Null)) then
                   reality.fields["shortIds"].Arr? && forall x :: x in reality.fields["shortIds"].items ==> ShortId(x)
                 else ShortId(Get(reality, "short_id", Null))
  {
    var id := Get(reality, "short_id", Null);
    assert id in [id];
  }

  // ---- the export ------------------------------------------------------------------------

  function Sections(state: Json): map<string, Json>
    requires state.Obj?
  {
    map name | name in PROTOCOL_FIELDS && name in state.fields :: state.fields[name]
  }

  /** The users with a selected name, in the state's order. */
  function Chosen(ext: Ext, users: seq<Json>, wanted: set<string>): seq<Json> {
    if users == [] then []
    else
      var rest := Chosen(ext, users[..|users| - 1], wanted);
      var u := users[|users| - 1];
      var name := Get(u, "name", Null);
      if name.Str? && ext.casefold(name.s) in wanted then rest + [u] else rest
  }

  function Wanted(ext: Ext, selected: seq<string>): set<string> {
    set i | 0 <= i < |selected| :: ext.casefold(selected[i])
  }

  predicate SelectionShape(ext: Ext, selected: seq<string>) {
    && 0 < |selected| <= MAX_USERS
    && (forall i :: 0 <= i < |selected| ==> 0 < |selected[i]| <= MAX_NAME)
    && |Wanted(ext, selected)| == |selected|
  }

  /** A selection leaves the separate Telemt accounts behind. */
  function WithoutExtraUsers(sections: map<string, Json>): map<string, Json> {
    if "telemt" in sections && sections["telemt"].Obj? then
      sections["telemt" := Obj(sections["telemt"].fields - {"extra_users"})]
    else
      sections
  }

  function Archive(state: Json, users: seq<Json>, sections: map<string, Json>): Json
    requires state.Obj?
  {
    Obj(map["format" := Str(FORMAT), "version" := Int(FORMAT_VERSION),
            "source_server" := Get(state, "server", Str("")),
            "users" := Arr(users), "protocols" := Obj(sections)])
  }

  ghost function Build(ext: Ext, state: Json, selected: Option<seq<string>>): Option<Json> {
    if !TargetShape(state) then None
    else
      var users := UsersOf(state);
      var chosen := if selected.Some? then Chosen(ext, users, Wanted(ext, selected.value)) else users;
      var sections := if selected.Some? then WithoutExtraUsers(Sections(state)) else Sections(state);
      var archive := Archive(state, chosen, sections);
      if selected.Some? && !(SelectionShape(ext, selected.value) && |chosen| == |selected.value|) then None
      else if !IdentityComplete(ext, archive) || ext.encodedSize(archive) > MAX_JSON_BYTES then None
      else Some(archive)
  }

  /** A full export is the state's users and sections, and fails exactly if the state has no list of
      users, lacks a key, is no valid archive or is too big. */
  lemma BuildsExactly(ext: Ext, state: Json)
    ensures Build(ext, state, None).Some? <==>
              && state.Obj? && Get(state, "users", Arr([])).Arr?
              && var archive := Archive(state, UsersOf(state), Sections(state));
                 IdentityComplete(ext, archive) && ext.encodedSize(archive) <= 4 * 1024 * 1024
    ensures Build(ext, state, None).Some? ==>
              Build(ext, state, None).value == Archive(state, UsersOf(state), Sections(state))
  {
  }

  // ---- the round trip --------------------------------------------------------------------

  /** Same section, except for an `enabled` flag the target had already set. */
  predicate SameSection(target: Json, name: string, exported: Json, restored: Json) {
    if name in KEEPS_ENABLED && Has(Get(target, name, Null), "enabled") then
      && exported.Obj? && restored.Obj?
      && restored.fields == exported.fields["enabled" := Get(target, name, Null).fields["enabled"]]
    else
      restored == exported
  }

  lemma SectionIsObject(protocols: Json, name: string)
    requires ProtocolsShape(protocols) && name in protocols.fields && name in KEEPS_ENABLED
    ensures protocols.fields[name].Obj?
  {
    assert SectionShape(name, protocols.fields[name]);
  }

  lemma BuiltArchive(ext: Ext, state: Json)
    requires Build(ext, state, None).Some?
    ensures state.Obj? && Build(ext, state, None).value == Archive(state, UsersOf(state), Sections(state))
    ensures ProtocolsShape(Obj(Sections(state)))
    ensures Valid(ext, Archive(state, UsersOf(state), Sections(state)))
  {
  }

  lemma RestorePlan(ext: Ext, target: Json, archive: Json)
    requires Plan(ext, target, archive, Restore).Planned?
    ensures target.Obj? && archive.Obj? && "users" in archive.fields && Get(archive, "protocols", Null).Obj?
    ensures Plan(ext, target, archive, Restore).state
         == RestoredState(target, archive.fields["protocols"].fields, archive.fields["users"])
  {
  }

  lemma RestoredIsSame(target: Json, sections: map<string, Json>, name: string)
    requires ProtocolsShape(Obj(sections)) && name in sections
    ensures SameSection(target, name, sections[name], RestoredSection(target, name, sections[name]))
  {
    if name in KEEPS_ENABLED {
      SectionIsObject(Obj(sections), name);
    }
  }

  /** The restored state carries the exported users and sections and the rest of the target. */
  ghost predicate CarriedOver(state: Json, target: Json, restored: Json)
    requires state.Obj? && target.Obj?
  {
    && restored.Obj? && UsersOf(restored) == UsersOf(state)
    && (forall name :: name in PROTOCOL_FIELDS && name in state.fields ==>
          name in restored.fields && SameSection(target, name, state.fields[name], restored.fields[name]))
    && (forall k :: k != "users" && !(k in PROTOCOL_FIELDS && k in state.fields) ==>
          (k in restored.fields <==> k in target.fields)
          && (k in target.fields ==> restored.fields[k] == target.fields[k]))
  }

  lemma RestoredCarriesOver(state: Json, target: Json)
    requires state.Obj? && target.Obj? && ProtocolsShape(Obj(Sections(state)))
    ensures CarriedOver(state, target, RestoredState(target, Sections(state), Arr(UsersOf(state))))
  {
    var sections := Sections(state);
    assert "users" !in PROTOCOL_FIELDS;
    forall name | name in sections
      ensures SameSection(target, name, sections[name], RestoredSection(target, name, sections[name]))
    {
      RestoredIsSame(target, sections, name);
    }
  }

  /** Exporting everything and restoring it onto a target without users gives back the users and
      the sections, and leaves the target's other entries as they were. */
  lemma ExportRestoreRoundTrip(ext: Ext, state: Json, target: Json)
    requires Build(ext, state, None).Some?
    requires Plan(ext, target, Build(ext, state, None).value, Restore).Planned?
    ensures state.Obj? && target.Obj?
    ensures CarriedOver(state, target, Plan(ext, target, Build(ext, state, None).value, Restore).state)
  {
    BuiltArchive(ext, state);
    RestorePlan(ext, target, Archive(state, UsersOf(state), Sections(state)));
    RestoredCarriesOver(state, target);
  }

  /** A portal set up without any of the sections, whose server name an archive could carry. */
  predicate Fresh(target: Json) {
    && TargetShape(target) && UsersOf(target) == []
    && (forall name :: name in PROTOCOL_FIELDS ==> name !in target.fields)
    && LegalNode(Get(target, "server", Str("")), 1) && Get(target, "server", Str("")).Str?
  }

  /** Only the source server changes in an archive: it stays as small and as legal as it was. */
  lemma BoundedRename(v: Json, w: Json)
    requires v.Obj? && "source_server" in v.fields && v.fields["source_server"].Str? && Bounded(v)
    requires w.Obj? && w.fields == v.fields["source_server" := Get(w, "source_server", Null)]
    requires Get(w, "source_server", Null).Str? && LegalNode(Get(w, "source_server", Null), 1)
    ensures Bounded(w)
  {
    assert w.fields.Keys == v.fields.Keys;
    FieldsAnyOrder(v, v.fields.Keys, "source_server");
    FieldsAnyOrder(w, w.fields.Keys, "source_server");
    FieldsAgree(v, w, v.fields.Keys - {"source_server"});
    assert |w.fields| == |w.fields.Keys| == |v.fields.Keys| == |v.fields|;
    forall k | k in w.fields
      ensures Legal(w.fields[k], 1)
    {
      if k != "source_server" {
        assert w.fields[k] == v.fields[k];
        assert Legal(v.fields[k], 1);
      }
    }
  }

  lemma FreshSections(state: Json, target: Json)
    requires state.Obj? && Fresh(target)
    ensures Sections(RestoredState(target, Sections(state), Arr(UsersOf(state)))) == Sections(state)
  {
    var restored := RestoredState(target, Sections(state), Arr(UsersOf(state)));
    assert "users" !in PROTOCOL_FIELDS;
    forall name | name in Sections(state)
      ensures name in restored.fields && restored.fields[name] == state.fields[name]
    {
      assert RestoredSection(target, name, state.fields[name]) == state.fields[name];
    }
  }

  lemma FreshCandidate(ext: Ext, state: Json, target: Json)
    requires state.Obj? && Fresh(target)
    ensures Candidate(ext, RestoredState(target, Sections(state), Arr(UsersOf(state)))).fields
         == Archive(state, UsersOf(state), Sections(state)).fields["source_server" := Get(target, "server", Str(""))]
  {
    var restored := RestoredState(target, Sections(state), Arr(UsersOf(state)));
    FreshSections(state, target);
    assert "server" !in PROTOCOL_FIELDS && "server" != "users";
    assert ServerText(ext, restored) == Get(target, "server", Str("")).s;
    assert Candidate(ext, restored).fields["protocols"] == Obj(Sections(restored));
  }

  lemma RestoreIsRecheck(ext: Ext, target: Json, archive: Json)
    requires Valid(ext, archive) && TargetShape(target) && UsersOf(target) == []
    ensures Plan(ext, target, archive, Restore)
         == Recheck(ext, RestoredState(target, archive.fields["protocols"].fields, archive.fields["users"]))
  {
  }

  lemma RecheckValid(ext: Ext, state: Json)
    requires state.Obj? && "users" in state.fields && Valid(ext, Candidate(ext, state))
    ensures Recheck(ext, state).Planned? <==>
              && NetworkVerdict(ext, state, UsersOf(state), "amneziawg", AWG_NETWORK).Fits?
              && NetworkVerdict(ext, state, UsersOf(state), "wireguard", WG_NETWORK).Fits?
  {
  }

  /** Restoring an exported archive on a fresh target cannot conflict: it succeeds if and only if
      the two networks parse and hold every peer. */
  lemma FreshRestoreSucceeds(ext: Ext, state: Json, target: Json)
    requires Build(ext, state, None).Some? && Fresh(target)
    ensures state.Obj?
    ensures var restored := RestoredState(target, Sections(state), Arr(UsersOf(state)));
            Plan(ext, target, Build(ext, state, None).value, Restore).Planned? <==>
              && NetworkVerdict(ext, restored, UsersOf(state), "amneziawg", AWG_NETWORK).Fits?
              && NetworkVerdict(ext, restored, UsersOf(state), "wireguard", WG_NETWORK).Fits?
  {
    BuiltArchive(ext, state);
    var archive := Archive(state, UsersOf(state), Sections(state));
    FreshValid(ext, state, target, archive);
    RestoreIsRecheck(ext, target, archive);
    RecheckValid(ext, RestoredState(target, Sections(state), Arr(UsersOf(state))));
  }

  lemma FreshValid(ext: Ext, state: Json, target: Json, archive: Json)
    requires state.Obj? && Fresh(target)
    requires archive == Archive(state, UsersOf(state), Sections(state)) && Valid(ext, archive)
    ensures Valid(ext, Candidate(ext, RestoredState(target, Sections(state), Arr(UsersOf(state)))))
  {
    var candidate := Candidate(ext, RestoredState(target, Sections(state), Arr(UsersOf(state))));
    FreshCandidate(ext, state, target);
    BoundedRename(archive, candidate);
    RenamedIsValid(ext, archive, candidate);
  }

  lemma RenamedIsValid(ext: Ext, v: Json, w: Json)
    requires Valid(ext, v) && Bounded(w) && w.Obj?
    requires w.fields == v.fields["source_server" := Get(w, "source_server", Null)]
    requires Get(w, "source_server", Null).Str?
    ensures Valid(ext, w)
  {
  }

  /** A selection takes exactly the users with a selected name, and a valid one takes each name once. */
  lemma {:induction false} ChosenExact(ext: Ext, users: seq<Json>, wanted: set<string>, u: Json)
    ensures u in Chosen(ext, users, wanted) <==>
              u in users && Get(u, "name", Null).Str? && ext.casefold(Get(u, "name", Null).s) in wanted
    ensures Within(Chosen(ext, users, wanted), users)
  {
    if users != [] {
      var rest := users[..|users| - 1];
      ChosenExact(ext, rest, wanted, u);
      assert users == rest + [users[|users| - 1]];
    }
  }

  // ---- exporting a selection -------------------------------------------------------------

  function FoldedName(ext: Ext, u: Json): string {
    ext.casefold(Text(u, "name"))
  }

  ghost function FoldedNames(ext: Ext, users: seq<Json>): set<string> {
    set i | 0 <= i < |users| :: FoldedName(ext, users[i])
  }

  lemma {:induction false} DistinctSize(names: seq<string>, all: set<string>)
    requires forall i, j :: 0 <= i < j < |names| ==> names[i] != names[j]
    requires forall n :: n in all <==> n in names
    ensures |all| == |names|
  {
    if names != [] {
      var last := names[|names| - 1];
      DistinctSize(names[..|names| - 1], all - {last});
      assert all == (all - {last}) + {last};
    } else {
      assert all == {};
    }
  }

  lemma DistinctNames(ext: Ext, users: seq<Json>)
    requires forall i, j :: 0 <= i < j < |users| ==> FoldedName(ext, users[i]) != FoldedName(ext, users[j])
    ensures |FoldedNames(ext, users)| == |users|
  {
    var names := seq(|users|, i requires 0 <= i < |users| => FoldedName(ext, users[i]));
    forall n
      ensures n in FoldedNames(ext, users) <==> n in names
    {
      if n in FoldedNames(ext, users) {
        var i :| 0 <= i < |users| && FoldedName(ext, users[i]) == n;
        assert names[i] == n;
      }
    }
    DistinctSize(names, FoldedNames(ext, users));
  }

  lemma {:induction false} WholeSubset(a: set<string>, b: set<string>)
    requires a <= b && |a| == |b|
    ensures a == b
  {
    if a != {} {
      var x :| x in a;
      WholeSubset(a - {x}, b - {x});
    }
  }

  lemma ValidNamesDiffer(ext: Ext, protocols: Json, users: seq<Json>)
    requires UsersValid(ext, protocols, users)
    ensures forall i, j :: 0 <= i < j < |users| ==> FoldedName(ext, users[i]) != FoldedName(ext, users[j])
  {
    UsersValidExactly(ext, protocols, users);
  }

  lemma BuiltSelection(ext: Ext, state: Json, selected: seq<string>)
    requires Build(ext, state, Some(selected)).Some?
    ensures state.Obj? && SelectionShape(ext, selected)
    ensures var users := Chosen(ext, UsersOf(state), Wanted(ext, selected));
            var sections := WithoutExtraUsers(Sections(state));
            && Build(ext, state, Some(selected)).value == Archive(state, users, sections)
            && |users| == |selected| && UsersValid(ext, Obj(sections), users)
  {
  }

  lemma SelectedAreFound(ext: Ext, users: seq<Json>, chosen: seq<Json>, selected: seq<string>, protocols: Json, i: nat)
    requires chosen == Chosen(ext, users, Wanted(ext, selected)) && UsersValid(ext, protocols, chosen)
    requires |chosen| == |selected| == |Wanted(ext, selected)| && i < |selected|
    ensures exists u :: u in chosen && FoldedName(ext, u) == ext.casefold(selected[i])
  {
    ValidNamesDiffer(ext, protocols, chosen);
    DistinctNames(ext, chosen);
    forall j | 0 <= j < |chosen|
      ensures FoldedName(ext, chosen[j]) in Wanted(ext, selected)
    {
      ChosenExact(ext, users, Wanted(ext, selected), chosen[j]);
    }
    WholeSubset(FoldedNames(ext, chosen), Wanted(ext, selected));
    assert ext.casefold(selected[i]) in FoldedNames(ext, chosen);
    var j :| 0 <= j < |chosen| && FoldedName(ext, chosen[j]) == ext.casefold(selected[i]);
    assert chosen[j] in chosen;
  }

  lemma ChosenAreSelected(ext: Ext, users: seq<Json>, selected: seq<string>, u: Json)
    requires u in Chosen(ext, users, Wanted(ext, selected))
    ensures u in users && exists j :: 0 <= j < |selected| && ext.casefold(selected[j]) == FoldedName(ext, u)
  {
    ChosenExact(ext, users, Wanted(ext, selected), u);
  }

  lemma ArchiveParts(state: Json, users: seq<Json>, sections: map<string, Json>)
    requires state.Obj?
    ensures UsersOf(Archive(state, users, sections)) == users
    ensures Get(Archive(state, users, sections), "protocols", Null) == Obj(sections)
  {
  }

  /** A selection exports for each selected name the one user of that name and nobody else; */
  lemma SelectedUsersExported(ext: Ext, state: Json, selected: seq<string>, archive: Json, i: nat, u: Json)
    requires Build(ext, state, Some(selected)) == Some(archive) && i < |selected|
    ensures |UsersOf(archive)| == |selected|
    ensures exists w :: w in UsersOf(archive) && FoldedName(ext, w) == ext.casefold(selected[i])
    ensures u in UsersOf(archive) ==>
              u in UsersOf(state) && exists j :: 0 <= j < |selected| && ext.casefold(selected[j]) == FoldedName(ext, u)
  {
    BuiltSelection(ext, state, selected);
    var users, sections := Chosen(ext, UsersOf(state), Wanted(ext, selected)), WithoutExtraUsers(Sections(state));
    ArchiveParts(state, users, sections);
    SelectedAreFound(ext, UsersOf(state), users, selected, Obj(sections), i);
    if u in users {
      ChosenAreSelected(ext, UsersOf(state), selected, u);
    }
  }

  lemma SelectedSections(state: Json, s: string)
    requires state.Obj?
    ensures var sections := WithoutExtraUsers(Sections(state));
            && (s in sections <==> s in PROTOCOL_FIELDS && s in state.fields)
            && (s in sections ==>
                  sections[s] == if s == "telemt" && state.fields[s].Obj?
                                 then Obj(state.fields[s].fields - {"extra_users"})
                                 else state.fields[s])
  {
  }

  /** and no separate Telemt accounts; otherwise the sections go as they are. */
  lemma SelectedSectionsExported(ext: Ext, state: Json, selected: seq<string>, archive: Json, s: string)
    requires Build(ext, state, Some(selected)) == Some(archive)
    ensures state.Obj? && Get(archive, "protocols", Null).Obj?
    ensures var sections := Get(archive, "protocols", Null).fields;
            && (s in sections <==> s in PROTOCOL_FIELDS && s in state.fields)
            && (s in sections ==>
                  sections[s] == if s == "telemt" && state.fields[s].Obj?
                                 then Obj(state.fields[s].fields - {"extra_users"})
                                 else state.fields[s])
  {
    BuiltSelection(ext, state, selected);
    ArchiveParts(state, Chosen(ext, UsersOf(state), Wanted(ext, selected)), WithoutExtraUsers(Sections(state)));
    SelectedSections(state, s);
  }
}
