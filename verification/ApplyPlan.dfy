/** Which services a change of generated files concerns and how hard they must be hit
    (tools/kvnlib/runtime/plan.py). */
module ApplyPlan {
  import opened Bytes
  import opened Ordering

  datatype Action = NoOp | HotUpdate | Reload | Restart

  function Priority(a: Action): int {
    match a
    case NoOp => 0
    case HotUpdate => 1
    case Reload => 2
    case Restart => 3
  }

  /** A restart outranks everything else, a reload a hot update, and anything doing nothing. */
  predicate Outranks(a: Action, b: Action) {
    || (a.Restart? && !b.Restart?)
    || (a.Reload? && (b.HotUpdate? || b.NoOp?))
    || (a.HotUpdate? && b.NoOp?)
  }

  lemma PriorityExactly(a: Action, b: Action)
    ensures Priority(a) > Priority(b) <==> Outranks(a, b)
  {
  }

  const KNOWN: set<string> :=
    {"nginx", "xray", "hysteria", "telemt", "mtg", "ocserv", "amneziawg", "wireguard"}

  datatype ServiceChange = ServiceChange(service: string, action: Action, reason: string, paths: seq<string>)

  type Services = map<string, ServiceChange>

  datatype Rule = Rule(expected: string, service: string, action: Action, reason: string)

  const RULES: seq<Rule> := [
    Rule(".env", "nginx", Restart, "compose-network-alias"),
    Rule("nginx/nginx.conf", "nginx", Reload, "nginx-config"),
    Rule("xray/config.json", "xray", Restart, "xray-structure"),
    Rule("hy2/config.yaml", "hysteria", Restart, "hysteria-config"),
    Rule("telemt/config.toml", "telemt", HotUpdate, "telemt-watcher"),
    Rule("mtg/config.toml", "mtg", Restart, "mtg-config"),
    Rule("amneziawg/awg0.conf", "amneziawg", HotUpdate, "awg-syncconf"),
    Rule("wireguard/wg0.conf", "wireguard", HotUpdate, "wg-syncconf"),
    Rule("ocserv/users.txt", "ocserv", HotUpdate, "ocserv-users"),
    Rule("ocserv/ocserv.conf", "ocserv", Reload, "ocserv-config"),
    Rule("ocserv/ocserv.env", "ocserv", Restart, "ocserv-environment")
  ]

  // ---- merging one request after another -------------------------------------------------

  datatype Request = Request(service: string, action: Action, reason: string, path: string)

  function Effective(r: Request): Request {
    if r.service in KNOWN then r else r.(action := Restart, reason := "unknown-capability")
  }

  /** `merge_service_change`. */
  method MergeServiceChange(services: Services, r: Request) returns (merged: Services)
    ensures merged == Merge(services, r)
    ensures r.service in merged && merged - {r.service} == services - {r.service}
    ensures var (action, reason) :=
              if r.service in {"nginx", "xray", "hysteria", "telemt", "mtg", "ocserv", "amneziawg", "wireguard"}
              then (r.action, r.reason) else (Restart, "unknown-capability");
            merged[r.service]
            == if r.service !in services then ServiceChange(r.service, action, reason, [r.path])
               else
                 var (before, paths) := (services[r.service], Inserted(services[r.service].paths, r.path));
                 if Outranks(action, before.action) then ServiceChange(r.service, action, reason, paths)
                 else ServiceChange(r.service, before.action, before.reason, paths)
  {
    var action, reason := r.action, r.reason;
    if r.service !in KNOWN {
      action, reason := Restart, "unknown-capability";
    }
    if r.service in services {
      var previous := services[r.service];
      var paths := Inserted(previous.paths, r.path);
      if Priority(action) > Priority(previous.action) {
        merged := services[r.service := ServiceChange(r.service, action, reason, paths)];
      } else {
        merged := services[r.service := ServiceChange(r.service, previous.action, previous.reason, paths)];
      }
    } else {
      merged := services[r.service := ServiceChange(r.service, action, reason, [r.path])];
    }
  }

  function Merge(services: Services, r: Request): Services {
    var e := Effective(r);
    var s := r.service;
    if s !in services then services[s := ServiceChange(s, e.action, e.reason, [r.path])]
    else if Priority(e.action) > Priority(services[s].action) then
      services[s := ServiceChange(s, e.action, e.reason, Inserted(services[s].paths, r.path))]
    else
      services[s := ServiceChange(s, services[s].action, services[s].reason, Inserted(services[s].paths, r.path))]
  }

  function MergeAll(requests: seq<Request>): Services
    decreases |requests|
  {
    if requests == [] then map[] else Merge(MergeAll(requests[..|requests| - 1]), requests[|requests| - 1])
  }

  function PathsOf(requests: seq<Request>, service: string): set<string> {
    set r | r in requests && r.service == service :: r.path
  }

  /** Request `i` is the first for the service to ask for as much as `change` does. */
  predicate Decisive(requests: seq<Request>, i: nat, change: ServiceChange) {
    && i < |requests| && requests[i].service == change.service
    && Effective(requests[i]).action == change.action && Effective(requests[i]).reason == change.reason
    && forall j :: 0 <= j < i && requests[j].service == change.service ==>
         Priority(Effective(requests[j]).action) < Priority(change.action)
  }

  /** `change` is right for the requests: their paths, the most anyone asked for, and the reason of
      the first to ask for that much. */
  ghost predicate Maximal(requests: seq<Request>, change: ServiceChange) {
    && Lists(change.paths, PathsOf(requests, change.service))
    && (forall r :: r in requests && r.service == change.service ==>
          Priority(Effective(r).action) <= Priority(change.action))
    && exists i :: 0 <= i < |requests| && Decisive(requests, i, change)
  }

  /** After any requests at all: a service is there exactly if one named it, with exactly the paths
      of its requests, the highest action among them and the reason of the first that needed it. */
  lemma {:induction false} MergedIsMaximal(requests: seq<Request>, service: string)
    ensures service in MergeAll(requests) <==> exists r :: r in requests && r.service == service
    ensures service in MergeAll(requests) ==>
              MergeAll(requests)[service].service == service && Maximal(requests, MergeAll(requests)[service])
    decreases |requests|
  {
    if requests != [] {
      var front, r := requests[..|requests| - 1], requests[|requests| - 1];
      assert requests == front + [r];
      MergedIsMaximal(front, service);
      if r.service != service {
        MergedOther(front, r, service);
      } else {
        MergedLast(front, r);
      }
    }
  }

  lemma MergedOther(front: seq<Request>, r: Request, service: string)
    requires r.service != service
    requires var before := MergeAll(front);
             && (service in before <==> exists q :: q in front && q.service == service)
             && (service in before ==> before[service].service == service && Maximal(front, before[service]))
    ensures var after := Merge(MergeAll(front), r);
            && (service in after <==> exists q :: q in front + [r] && q.service == service)
            && (service in after ==> after[service].service == service && Maximal(front + [r], after[service]))
  {
    OthersUnchanged(front, r, service);
    if service in MergeAll(front) {
      StaysMaximal(front, r, MergeAll(front)[service]);
    }
  }

  lemma OthersUnchanged(front: seq<Request>, r: Request, service: string)
    requires r.service != service
    ensures (exists q :: q in front + [r] && q.service == service) <==> (exists q :: q in front && q.service == service)
    ensures PathsOf(front + [r], service) == PathsOf(front, service)
  {
  }

  lemma StaysMaximal(front: seq<Request>, r: Request, change: ServiceChange)
    requires r.service != change.service && Maximal(front, change)
    ensures Maximal(front + [r], change)
  {
    OthersUnchanged(front, r, change.service);
    var i :| 0 <= i < |front| && Decisive(front, i, change);
    assert Decisive(front + [r], i, change);
  }

  lemma MergedLast(front: seq<Request>, r: Request)
    requires var before := MergeAll(front);
             && (r.service in before <==> exists q :: q in front && q.service == r.service)
             && (r.service in before ==> before[r.service].service == r.service && Maximal(front, before[r.service]))
    ensures var after := Merge(MergeAll(front), r);
            && r.service in after && after[r.service].service == r.service && Maximal(front + [r], after[r.service])
  {
    var before := MergeAll(front);
    var change := Merge(before, r)[r.service];
    if r.service !in before {
      RaisedIsMaximal(front, r, [], change);
    } else if Priority(Effective(r).action) > Priority(before[r.service].action) {
      RaisedIsMaximal(front, r, before[r.service].paths, change);
    } else {
      KeptIsMaximal(front, r, before[r.service], change);
    }
  }

  /** The new request asks for more than every earlier one. */
  lemma RaisedIsMaximal(front: seq<Request>, r: Request, paths: seq<string>, change: ServiceChange)
    requires Lists(paths, PathsOf(front, r.service))
    requires forall q :: q in front && q.service == r.service ==>
               Priority(Effective(q).action) < Priority(Effective(r).action)
    requires change == ServiceChange(r.service, Effective(r).action, Effective(r).reason, Inserted(paths, r.path))
    ensures Maximal(front + [r], change)
  {
    var requests := front + [r];
    assert requests[|front|] == r;
    assert forall j :: 0 <= j < |front| ==> requests[j] == front[j] && front[j] in front;
    InsertedLists(paths, PathsOf(front, r.service), r.path);
    assert PathsOf(requests, r.service) == PathsOf(front, r.service) + {r.path};
    assert Decisive(requests, |front|, change);
  }

  /** The new request asks for no more than an earlier one. */
  lemma KeptIsMaximal(front: seq<Request>, r: Request, before: ServiceChange, change: ServiceChange)
    requires before.service == r.service && Maximal(front, before)
    requires Priority(Effective(r).action) <= Priority(before.action)
    requires change == ServiceChange(r.service, before.action, before.reason, Inserted(before.paths, r.path))
    ensures Maximal(front + [r], change)
  {
    var requests := front + [r];
    assert requests[|front|] == r;
    InsertedLists(before.paths, PathsOf(front, r.service), r.path);
    assert PathsOf(requests, r.service) == PathsOf(front, r.service) + {r.path};
    var i :| 0 <= i < |front| && Decisive(front, i, before);
    assert Decisive(requests, i, change);
  }

  /** Order and repetition of the requests matter to neither the services, the actions nor the paths. */
  lemma OrderIndependent(requests: seq<Request>, others: seq<Request>, service: string)
    requires forall r :: r in requests <==> r in others
    ensures service in MergeAll(requests) <==> service in MergeAll(others)
    ensures service in MergeAll(requests) ==>
              && MergeAll(requests)[service].action == MergeAll(others)[service].action
              && MergeAll(requests)[service].paths == MergeAll(others)[service].paths
  {
    MergedIsMaximal(requests, service);
    MergedIsMaximal(others, service);
    if service in MergeAll(requests) {
      var (a, b) := (MergeAll(requests)[service], MergeAll(others)[service]);
      var i :| 0 <= i < |requests| && Decisive(requests, i, a);
      var j :| 0 <= j < |others| && Decisive(others, j, b);
      assert requests[i] in others && others[j] in requests;
      assert PathsOf(requests, service) == PathsOf(others, service);
      ListIsUnique(a.paths, b.paths);
      assert Priority(a.action) == Priority(b.action);
    }
  }

  // ---- the plan of a change --------------------------------------------------------------

  predicate Covers(rule: Rule, path: string) {
    path == rule.expected || rule.expected + "/" <= path
  }

  function FirstRule(rules: seq<Rule>, path: string): (r: Option<Rule>)
    ensures r.Some? ==> r.value in rules && Covers(r.value, path)
    ensures r.None? ==> forall rule :: rule in rules ==> !Covers(rule, path)
  {
    if rules == [] then None
    else if Covers(rules[0], path) then Some(rules[0])
    else FirstRule(rules[1..], path)
  }

  predicate Concerns(rules: seq<Rule>, path: string, service: string) {
    FirstRule(rules, path).Some? && FirstRule(rules, path).value.service == service
  }

  /** A table whose services are known and in which service and action determine the reason. */
  predicate Consistent(rules: seq<Rule>) {
    && (forall i :: 0 <= i < |rules| ==> rules[i].service in KNOWN)
    && (forall i, j :: 0 <= i < |rules| && 0 <= j < |rules|
                       && rules[i].service == rules[j].service && rules[i].action == rules[j].action ==>
          rules[i].reason == rules[j].reason)
  }

  lemma RulesAreConsistent()
    ensures Consistent(RULES)
  {
    assert forall i :: 0 <= i < |RULES| ==> RULES[i].service in KNOWN;
    forall i, j | 0 <= i < |RULES| && 0 <= j < |RULES|
                  && RULES[i].service == RULES[j].service && RULES[i].action == RULES[j].action
      ensures RULES[i].reason == RULES[j].reason
    {
      ReasonsAreFixed(i);
      ReasonsAreFixed(j);
    }
  }

  /** The content of the path differs, or only one side has it. */
  predicate Differs(before: map<string, string>, after: map<string, string>, path: string) {
    (path in before) != (path in after) || (path in before && path in after && before[path] != after[path])
  }

  function Changed(before: map<string, string>, after: map<string, string>): set<string> {
    set path | path in before.Keys + after.Keys && Differs(before, after, path)
  }

  /** The plan a set of changed paths calls for. */
  ghost predicate Plans(rules: seq<Rule>, changed: set<string>, services: Services) {
    && (forall s :: s in services <==> exists p :: p in changed && Concerns(rules, p, s))
    && (forall s :: s in services ==> Suits(rules, changed, s, services[s]))
  }

  ghost predicate Suits(rules: seq<Rule>, changed: set<string>, s: string, change: ServiceChange) {
    && change.service == s
    && Lists(change.paths, set p | p in changed && Concerns(rules, p, s))
    && (forall p :: p in change.paths ==> Priority(FirstRule(rules, p).value.action) <= Priority(change.action))
    && exists p :: p in change.paths
                   && FirstRule(rules, p).value.action == change.action
                   && FirstRule(rules, p).value.reason == change.reason
  }

  function RequestFor(rules: seq<Rule>, path: string): Request
    requires FirstRule(rules, path).Some?
  {
    var rule := FirstRule(rules, path).value;
    Request(rule.service, rule.action, rule.reason, path)
  }

  lemma RulesAreKnown(rules: seq<Rule>, path: string)
    requires Consistent(rules) && FirstRule(rules, path).Some?
    ensures Effective(RequestFor(rules, path)) == RequestFor(rules, path)
  {
  }

  /** The requests are those of the paths that a rule covers. */
  ghost predicate Requested(rules: seq<Rule>, paths: seq<string>, requests: seq<Request>) {
    && (forall r :: r in requests ==>
          r.path in paths && FirstRule(rules, r.path).Some? && r == RequestFor(rules, r.path))
    && (forall p :: p in paths && FirstRule(rules, p).Some? ==> RequestFor(rules, p) in requests)
  }

  lemma RequestedMore(rules: seq<Rule>, paths: seq<string>, requests: seq<Request>, path: string)
    requires Requested(rules, paths, requests)
    ensures FirstRule(rules, path).Some? ==> Requested(rules, paths + [path], requests + [RequestFor(rules, path)])
    ensures FirstRule(rules, path).None? ==> Requested(rules, paths + [path], requests)
  {
  }

  /** `build_change_set`. */
  method BuildChangeSet(before: map<string, string>, after: map<string, string>)
    returns (changed: seq<string>, services: Services)
    ensures Lists(changed, Changed(before, after))
    ensures forall p :: p in changed <==>
              (p in before.Keys + after.Keys) && !(p in before && p in after && before[p] == after[p])
    ensures Plans(RULES, Changed(before, after), services)
  {
    changed := SortedStrings(Changed(before, after));
    RulesAreConsistent();
    services := PlanAll(RULES, changed, Changed(before, after));
  }

  /** The loop over the changed paths, in order. */
  method PlanAll(rules: seq<Rule>, paths: seq<string>, ghost changed: set<string>) returns (services: Services)
    requires Consistent(rules) && Lists(paths, changed)
    ensures Plans(rules, changed, services)
  {
    services := map[];
    ghost var requests: seq<Request> := [];
    for i := 0 to |paths|
      invariant services == MergeAll(requests) && Requested(rules, paths[..i], requests)
    {
      assert paths[..i + 1] == paths[..i] + [paths[i]];
      services, requests := PlanPath(rules, services, paths[..i], requests, paths[i]);
    }
    assert paths[..|paths|] == paths;
    MergedPlans(rules, changed, requests);
  }

  /** One turn of the loop. */
  method PlanPath(rules: seq<Rule>, services: Services, ghost done: seq<string>, ghost requests: seq<Request>,
                  path: string)
    returns (planned: Services, ghost more: seq<Request>)
    requires services == MergeAll(requests) && Requested(rules, done, requests)
    ensures planned == MergeAll(more) && Requested(rules, done + [path], more)
  {
    planned, more := services, requests;
    RequestedMore(rules, done, requests, path);
    var rule := FindRule(rules, path);
    if rule.Some? {
      var request := Request(rule.value.service, rule.value.action, rule.value.reason, path);
      planned := MergeServiceChange(services, request);
      more := requests + [request];
      assert more[..|requests|] == requests;
    }
  }

  /** The first rule whose path is the changed path or a directory above it. */
  lemma {:induction false} FirstRuleExactly(rules: seq<Rule>, path: string)
    ensures FirstRule(rules, path).None? <==>
              forall i :: 0 <= i < |rules| ==> path != rules[i].expected && !(rules[i].expected + "/" <= path)
    ensures FirstRule(rules, path).Some? ==>
              exists i :: 0 <= i < |rules| && FirstCovering(rules, i, path) && rules[i] == FirstRule(rules, path).value
  {
    if rules == [] {
    } else if Covers(rules[0], path) {
      assert FirstCovering(rules, 0, path);
    } else {
      FirstRuleExactly(rules[1..], path);
      assert forall i :: 0 < i < |rules| ==> rules[i] == rules[1..][i - 1];
      if FirstRule(rules, path).Some? {
        var i :| 0 <= i < |rules[1..]| && FirstCovering(rules[1..], i, path)
                 && rules[1..][i] == FirstRule(rules, path).value;
        assert FirstCovering(rules, i + 1, path);
      }
    }
  }

  predicate FirstCovering(rules: seq<Rule>, i: int, path: string) {
    && 0 <= i < |rules| && (path == rules[i].expected || rules[i].expected + "/" <= path)
    && forall j :: 0 <= j < i ==> path != rules[j].expected && !(rules[j].expected + "/" <= path)
  }

  method FindRule(rules: seq<Rule>, path: string) returns (r: Option<Rule>)
    ensures r == FirstRule(rules, path)
    ensures r.None? ==>
              forall i :: 0 <= i < |rules| ==> path != rules[i].expected && !(rules[i].expected + "/" <= path)
    ensures r.Some? ==> exists i :: 0 <= i < |rules| && FirstCovering(rules, i, path) && rules[i] == r.value
  {
    FirstRuleExactly(rules, path);
    for i := 0 to |rules|
      invariant FirstRule(rules, path) == FirstRule(rules[i..], path)
    {
      assert rules[i..][1..] == rules[i + 1..];
      if path == rules[i].expected || rules[i].expected + "/" <= path {
        return Some(rules[i]);
      }
    }
    return None;
  }

  /** The requests are those a set of changed paths makes. */
  ghost predicate Makes(rules: seq<Rule>, changed: set<string>, requests: seq<Request>) {
    && (forall r :: r in requests ==>
          r.path in changed && FirstRule(rules, r.path).Some? && r == RequestFor(rules, r.path))
    && (forall p :: p in changed && FirstRule(rules, p).Some? ==> RequestFor(rules, p) in requests)
  }

  lemma MergedPlans(rules: seq<Rule>, changed: set<string>, requests: seq<Request>)
    requires Consistent(rules)
    requires Makes(rules, changed, requests)
    ensures Plans(rules, changed, MergeAll(requests))
  {
    var services := MergeAll(requests);
    forall s
      ensures s in services <==> exists p :: p in changed && Concerns(rules, p, s)
      ensures s in services ==> Suits(rules, changed, s, services[s])
    {
      MergedIsMaximal(requests, s);
      if p :| p in changed && Concerns(rules, p, s) {
        assert RequestFor(rules, p) in requests && RequestFor(rules, p).service == s;
      }
      if s in services {
        MaximalSuits(rules, changed, requests, s, services[s]);
        var r :| r in requests && r.service == s;
        assert Concerns(rules, r.path, s);
      }
    }
  }

  lemma MaximalSuits(rules: seq<Rule>, changed: set<string>, requests: seq<Request>, s: string, change: ServiceChange)
    requires Consistent(rules)
    requires Makes(rules, changed, requests)
    requires change.service == s && Maximal(requests, change)
    ensures Suits(rules, changed, s, change)
  {
    forall p
      ensures p in change.paths <==> p in changed && Concerns(rules, p, s)
    {
      if p in changed && Concerns(rules, p, s) {
        assert RequestFor(rules, p).path == p && RequestFor(rules, p) in requests;
      }
    }
    forall p | p in change.paths
      ensures Priority(FirstRule(rules, p).value.action) <= Priority(change.action)
    {
      RulesAreKnown(rules, p);
      assert RequestFor(rules, p) in requests;
    }
    var i :| 0 <= i < |requests| && Decisive(requests, i, change);
    var p := requests[i].path;
    RulesAreKnown(rules, p);
    assert requests[i] in requests && requests[i] == RequestFor(rules, p);
    assert p in change.paths;
  }

  // ---- what the plan depends on ----------------------------------------------------------

  /** In the table, service and action determine the reason. */
  function ReasonFor(service: string, action: Action): string {
    match action
    case NoOp => ""
    case Reload => if service == "nginx" then "nginx-config" else "ocserv-config"
    case HotUpdate =>
      if service == "telemt" then "telemt-watcher"
      else if service == "ocserv" then "ocserv-users"
      else if service == "wireguard" then "wg-syncconf"
      else "awg-syncconf"
    case Restart =>
      if service == "mtg" then "mtg-config"
      else if service == "xray" then "xray-structure"
      else if service == "nginx" then "compose-network-alias"
      else if service == "ocserv" then "ocserv-environment"
      else "hysteria-config"
  }

  lemma ReasonsAreFixed(i: nat)
    requires i < |RULES|
    ensures RULES[i].reason == ReasonFor(RULES[i].service, RULES[i].action)
  {
  }

  lemma SameReason(rules: seq<Rule>, p: string, q: string)
    requires Consistent(rules) && FirstRule(rules, p).Some? && FirstRule(rules, q).Some?
    requires FirstRule(rules, p).value.service == FirstRule(rules, q).value.service
    requires FirstRule(rules, p).value.action == FirstRule(rules, q).value.action
    ensures FirstRule(rules, p).value.reason == FirstRule(rules, q).value.reason
  {
  }

  lemma SameAction(rules: seq<Rule>, changed: set<string>, s: string, a: ServiceChange, b: ServiceChange)
    requires Suits(rules, changed, s, a) && Suits(rules, changed, s, b)
    ensures a.paths == b.paths && a.action == b.action
  {
    ListIsUnique(a.paths, b.paths);
    var p :| p in a.paths && FirstRule(rules, p).value.action == a.action;
    var q :| q in b.paths && FirstRule(rules, q).value.action == b.action;
    assert Priority(FirstRule(rules, q).value.action) <= Priority(a.action);
    assert Priority(FirstRule(rules, p).value.action) <= Priority(b.action);
  }

  lemma SuitsUnique(rules: seq<Rule>, changed: set<string>, s: string, a: ServiceChange, b: ServiceChange)
    requires Consistent(rules) && Suits(rules, changed, s, a) && Suits(rules, changed, s, b)
    ensures a == b
  {
    SameAction(rules, changed, s, a, b);
    var p :| p in a.paths
             && FirstRule(rules, p).value.action == a.action && FirstRule(rules, p).value.reason == a.reason;
    var q :| q in b.paths
             && FirstRule(rules, q).value.action == b.action && FirstRule(rules, q).value.reason == b.reason;
    SameReason(rules, p, q);
  }

  lemma SameServices(rules: seq<Rule>, changed: set<string>, a: Services, b: Services)
    requires Plans(rules, changed, a) && Plans(rules, changed, b)
    ensures a.Keys == b.Keys
  {
    assert forall s :: s in a <==> s in b;
  }

  lemma PlansAgree(rules: seq<Rule>, changed: set<string>, a: Services, b: Services, s: string)
    requires Consistent(rules) && Plans(rules, changed, a) && Plans(rules, changed, b)
    requires s in a && s in b
    ensures a[s] == b[s]
  {
    SuitsUnique(rules, changed, s, a[s], b[s]);
  }

  /** The plan is determined by the changed paths: no order of visiting them can give another one. */
  lemma PlanIsUnique(rules: seq<Rule>, changed: set<string>, a: Services, b: Services)
    requires Consistent(rules) && Plans(rules, changed, a) && Plans(rules, changed, b)
    ensures a == b
  {
    SameServices(rules, changed, a, b);
    if s :| s in a.Keys && s in b.Keys && a[s] != b[s] {
      PlansAgree(rules, changed, a, b, s);
      assert false;
    }
  }

  /** What a plan asks of a service: something exactly if a changed path concerns it, no less than any
      of its paths needs, no more than one of them needs, and for all of them in order. */
  lemma PlanMeans(rules: seq<Rule>, changed: set<string>, services: Services, s: string)
    requires Plans(rules, changed, services)
    ensures s in services <==> exists p :: p in changed && Concerns(rules, p, s)
    ensures s in services ==>
              var change := services[s];
              && change.service == s
              && (forall p :: p in change.paths <==> p in changed && Concerns(rules, p, s))
              && (forall i, j :: 0 <= i < j < |change.paths| ==> Below(change.paths[i], change.paths[j]))
              && (forall p :: p in change.paths ==> !Outranks(FirstRule(rules, p).value.action, change.action))
              && exists p :: p in change.paths && FirstRule(rules, p).value.action == change.action
                             && FirstRule(rules, p).value.reason == change.reason
  {
    if s in services {
      assert Suits(rules, changed, s, services[s]);
      forall p | p in services[s].paths
        ensures !Outranks(FirstRule(rules, p).value.action, services[s].action)
      {
        PriorityExactly(FirstRule(rules, p).value.action, services[s].action);
      }
    }
  }

  /** Going from `a` to `c` directly asks no more of any service than going through `b`, for paths
      that one of the two legs lists as well. */
  lemma PlansCompose(rules: seq<Rule>, a: map<string, string>, b: map<string, string>, c: map<string, string>,
                     direct: Services, first: Services, second: Services, s: string)
    requires Plans(rules, Changed(a, c), direct)
    requires Plans(rules, Changed(a, b), first) && Plans(rules, Changed(b, c), second)
    requires s in direct
    ensures s in first || s in second
    ensures forall p :: p in direct[s].paths ==>
              (s in first && p in first[s].paths) || (s in second && p in second[s].paths)
    ensures (s in first && Priority(direct[s].action) <= Priority(first[s].action))
            || (s in second && Priority(direct[s].action) <= Priority(second[s].action))
  {
    assert Suits(rules, Changed(a, c), s, direct[s]);
    assert s in first ==> Suits(rules, Changed(a, b), s, first[s]);
    assert s in second ==> Suits(rules, Changed(b, c), s, second[s]);
    forall p | p in direct[s].paths
      ensures (s in first && p in first[s].paths) || (s in second && p in second[s].paths)
    {
      assert Differs(a, c, p) && Concerns(rules, p, s);
      if Differs(a, b, p) {
        assert p in Changed(a, b);
      } else {
        assert p in Changed(b, c);
      }
    }
    var p :| p in direct[s].paths && FirstRule(rules, p).value.action == direct[s].action;
  }

  /** Undoing a change asks exactly what the change asked. */
  lemma UndoingAsksTheSame(rules: seq<Rule>, a: map<string, string>, b: map<string, string>,
                           there: Services, back: Services)
    requires Consistent(rules) && Plans(rules, Changed(a, b), there) && Plans(rules, Changed(b, a), back)
    ensures there == back
  {
    assert Changed(a, b) == Changed(b, a);
    PlanIsUnique(rules, Changed(a, b), there, back);
  }
}
