/** The host agent's background cache of dashboard sources, `DashboardSnapshotCache`
    (portal/agent_handlers/dispatcher.py): one locked section per operation. */
module DashboardCache {
  import opened Bytes
  import opened Json

  const SOURCES: seq<string> :=
    ["host", "metrics", "containers", "protocols", "certificates", "health_summary", "ssh_sessions"]

  const TTLS: map<string, int> :=
    map["host" := 45, "metrics" := 30, "containers" := 60, "protocols" := 60, "certificates" := 900,
        "health_summary" := 60, "ssh_sessions" := 30]

  const RETRY_SECONDS := 15

  const UNAVAILABLE := "unavailable"

  datatype Item = Item(data: Json, collectedAt: int, error: string, nextRefresh: int)

  datatype Cache = Cache(
    items: map<string, Item>,
    refreshing: bool,
    sources: set<string>,
    generations: map<string, nat>,
    done: bool)

  datatype SourceView = SourceView(data: Json, collectedAt: int, age: Option<int>, stale: bool, error: string)

  datatype Status = Loading | Stale | Fresh

  datatype Snapshot = Snapshot(
    sources: map<string, SourceView>,
    generatedAt: int,
    refreshing: bool,
    stale: bool,
    status: Status)

  // ---- what each locked section does -----------------------------------------------------

  const EMPTY := Cache(map[], false, {}, map[], true)

  predicate Due(c: Cache, name: string, now: int) {
    name !in c.items || now >= c.items[name].nextRefresh
  }

  function DueAmong(c: Cache, names: seq<string>, now: int): (r: seq<string>)
    ensures forall x :: x in r <==> x in names && Due(c, x, now)
    ensures |r| <= |names|
  {
    if names == [] then []
    else (if Due(c, names[0], now) then [names[0]] else []) + DueAmong(c, names[1..], now)
  }

  lemma {:induction false} DueAmongSnoc(c: Cache, names: seq<string>, x: string, now: int)
    ensures DueAmong(c, names + [x], now) == DueAmong(c, names, now) + (if Due(c, x, now) then [x] else [])
  {
    if names == [] {
      assert names + [x] == [x];
    } else {
      assert (names + [x])[1..] == names[1..] + [x];
      DueAmongSnoc(c, names[1..], x, now);
    }
  }

  /** Where a source stands in the order of refreshing: what `health_summary` needs comes before it. */
  function Place(name: string): nat {
    match name
    case "host" => 0
    case "metrics" => 1
    case "containers" => 2
    case "protocols" => 3
    case "certificates" => 4
    case "health_summary" => 5
    case _ => 6
  }

  /** The names come in that order, each once. */
  predicate InOrder(names: seq<string>) {
    forall i, j :: 0 <= i < j < |names| ==> Place(names[i]) < Place(names[j])
  }

  lemma PlaceOf(i: nat)
    requires i < |SOURCES|
    ensures Place(SOURCES[i]) == i
  {
  }

  lemma OrderSnoc(names: seq<string>, x: string, n: nat)
    requires InOrder(names) && (forall y :: y in names ==> Place(y) < n) && Place(x) == n
    ensures InOrder(names + [x]) && forall y :: y in names + [x] ==> Place(y) < n + 1
  {
  }

  lemma {:induction false} DueInOrder(c: Cache, i: nat, now: int)
    requires i <= |SOURCES|
    ensures InOrder(DueAmong(c, SOURCES[..i], now))
    ensures forall x :: x in DueAmong(c, SOURCES[..i], now) ==> Place(x) < i
  {
    if i == 0 {
      assert SOURCES[..0] == [];
    } else {
      DueInOrder(c, i - 1, now);
      PlaceOf(i - 1);
      var front, last := SOURCES[..i - 1], SOURCES[i - 1];
      assert SOURCES[..i] == front + [last];
      DueAmongSnoc(c, front, last, now);
      OrderSnoc(DueAmong(c, front, now), last, i - 1);
      assert DueAmong(c, front, now) + [] == DueAmong(c, front, now);
    }
  }

  /** The names the refresh started by `get` works through, if it starts one. */
  function Starts(c: Cache, now: int): Option<seq<string>> {
    var due := DueAmong(c, SOURCES, now);
    if due != [] && !c.refreshing then Some(due) else None
  }

  function AfterGet(c: Cache, now: int): Cache {
    match Starts(c, now)
    case None => c
    case Some(due) => c.(refreshing := true, sources := (set x | x in due), done := false)
  }

  function Generation(c: Cache, name: string): nat {
    if name in c.generations then c.generations[name] else 0
  }

  function InvalidateOne(c: Cache, name: string): Cache {
    if name !in TTLS then c
    else c.(generations := c.generations[name := Generation(c, name) + 1],
            items := if name in c.items then c.items[name := c.items[name].(nextRefresh := 0)] else c.items)
  }

  /** Invalidation by name: unknown names are skipped, a repeated name counts twice. */
  function AfterInvalidate(c: Cache, names: seq<string>): Cache
    decreases |names|
  {
    if names == [] then c
    else InvalidateOne(AfterInvalidate(c, names[..|names| - 1]), names[|names| - 1])
  }

  lemma InvalidateOneMeans(c: Cache, name: string)
    ensures var d := InvalidateOne(c, name);
            && d.refreshing == c.refreshing && d.done == c.done && d.sources == c.sources
            && d.items.Keys == c.items.Keys
            && (forall x :: Generation(d, x) == Generation(c, x) + if x == name && x in TTLS then 1 else 0)
            && (forall x :: x in c.items ==>
                  d.items[x] == if x == name && x in TTLS then c.items[x].(nextRefresh := 0) else c.items[x])
  {
  }

  /** Invalidating leaves everything but the generations, which grow for exactly the known names, and
      the deadlines of those sources. */
  lemma {:induction false} InvalidateMeans(c: Cache, names: seq<string>)
    ensures var d := AfterInvalidate(c, names);
            && d.refreshing == c.refreshing && d.done == c.done && d.sources == c.sources
            && d.items.Keys == c.items.Keys
            && (forall x :: x !in names || x !in TTLS ==> Generation(d, x) == Generation(c, x))
            && (forall x :: x in names && x in TTLS ==> Generation(d, x) > Generation(c, x))
            && (forall x :: x in c.items ==>
                  d.items[x] == if x in names && x in TTLS then c.items[x].(nextRefresh := 0) else c.items[x])
    decreases |names|
  {
    if names != [] {
      var front := names[..|names| - 1];
      var last := names[|names| - 1];
      assert names == front + [last];
      InvalidateMeans(c, front);
      InvalidateOneMeans(AfterInvalidate(c, front), last);
    }
  }

  function Context(c: Cache): map<string, Json> {
    map k | k in c.items && c.items[k].data != Null :: c.items[k].data
  }

  function AfterFailure(c: Cache, name: string, generation: nat, collectedAt: int): Cache {
    var (data, at) := if name in c.items then (c.items[name].data, c.items[name].collectedAt) else (Null, 0);
    c.(items := c.items[name := Item(data, at, UNAVAILABLE,
                                     if Generation(c, name) != generation then 0 else collectedAt + RETRY_SECONDS)])
  }

  function AfterSuccess(c: Cache, name: string, generation: nat, collectedAt: int, data: Json): Cache
    requires name in TTLS
  {
    c.(items := c.items[name := Item(data, collectedAt, "",
                                     if Generation(c, name) != generation then 0 else collectedAt + TTLS[name])])
  }

  function AfterFinish(c: Cache): Cache {
    c.(refreshing := false, sources := {}, done := true)
  }

  // ---- what a reader is shown ------------------------------------------------------------

  function ViewOf(c: Cache, name: string, now: int): SourceView
    requires name in TTLS
  {
    var item := if name in c.items then c.items[name] else Item(Null, 0, "", 0);
    var at := item.collectedAt;
    var expired := at != 0 && now - at >= TTLS[name];
    SourceView(item.data, at, if at == 0 then None else Some(if now >= at then now - at else 0),
               item.error != "" || at == 0 || (expired && name !in c.sources), item.error)
  }

  function View(c: Cache, now: int): Snapshot {
    var sources := map name | name in TTLS :: ViewOf(c, name, now);
    var hasData := exists name :: name in TTLS && ViewOf(c, name, now).data != Null;
    var stale := exists name :: name in TTLS && ViewOf(c, name, now).stale;
    Snapshot(sources, now, c.refreshing, stale, if !hasData then Loading else if stale then Stale else Fresh)
  }

  /** What a reader is shown of a source: the data and age of its last load, and that it is stale if
      it failed, was never loaded, or has reached its lifetime without being refreshed right now. */
  lemma ViewMeans(c: Cache, name: string, now: int)
    requires name in TTLS
    ensures name in View(c, now).sources
    ensures var v := View(c, now).sources[name];
            var loaded := name in c.items && c.items[name].collectedAt != 0;
            && v.data == (if name in c.items then c.items[name].data else Null)
            && v.error == (if name in c.items then c.items[name].error else "")
            && (v.age.Some? <==> loaded)
            && (loaded ==> v.collectedAt == c.items[name].collectedAt)
            && (loaded ==> v.age == Some(if now < v.collectedAt then 0 else now - v.collectedAt))
            && (v.stale <==>
                  || v.error != "" || !loaded
                  || (now >= v.collectedAt + TTLS[name] && name !in c.sources))
  {
  }

  // ---- the object ------------------------------------------------------------------------

  class DashboardSnapshotCache {
    var items: map<string, Item>
    var refreshing: bool
    var refreshingSources: set<string>
    var generations: map<string, nat>
    var refreshDone: bool

    function Value(): Cache
      reads this
    {
      Cache(items, refreshing, refreshingSources, generations, refreshDone)
    }

    constructor ()
      ensures Value() == EMPTY
    {
      items, refreshing, refreshingSources, generations, refreshDone := map[], false, {}, map[], true;
    }

    method Expired(now: int) returns (expired: seq<string>)
      ensures expired == DueAmong(Value(), SOURCES, now)
      ensures forall x :: x in expired <==> x in SOURCES && (x !in items || items[x].nextRefresh <= now)
      ensures InOrder(expired)
    {
      DueInOrder(Value(), |SOURCES|, now);
      expired := [];
      for i := 0 to |SOURCES|
        invariant expired == DueAmong(Value(), SOURCES[..i], now)
      {
        var name := SOURCES[i];
        DueAmongSnoc(Value(), SOURCES[..i], name, now);
        assert SOURCES[..i + 1] == SOURCES[..i] + [name];
        if name !in items || now >= items[name].nextRefresh {
          expired := expired + [name];
        }
      }
      assert SOURCES[..|SOURCES|] == SOURCES;
    }

    /** The locked section of `get`; `started` is the work of the thread it starts. */
    method Get(now: int) returns (started: Option<seq<string>>, view: Snapshot)
      modifies this
      ensures started == Starts(old(Value()), now)
      ensures Value() == AfterGet(old(Value()), now)
      ensures view == View(Value(), now)
      ensures items == old(items) && generations == old(generations)
      ensures started.Some? <==>
                !old(refreshing) && exists x :: x in SOURCES && (x !in items || items[x].nextRefresh <= now)
      ensures started.Some? ==>
                && refreshing && !refreshDone && InOrder(started.value)
                && (forall x :: x in started.value <==> x in SOURCES && (x !in items || items[x].nextRefresh <= now))
                && (forall x :: x in refreshingSources <==> x in started.value)
      ensures started.None? ==> Value() == old(Value())
      ensures started.None? && !refreshing ==> forall x :: x in SOURCES ==> now < items[x].nextRefresh
    {
      var expired := Expired(now);
      assert expired != [] ==> expired[0] in expired;
      started := None;
      if expired != [] && !refreshing {
        refreshing, refreshingSources, refreshDone := true, (set x | x in expired), false;
        started := Some(expired);
      }
      view := SnapshotLocked(now);
    }

    method SnapshotLocked(now: int) returns (view: Snapshot)
      ensures view == View(Value(), now)
      ensures view.sources.Keys == TTLS.Keys && view.refreshing == refreshing && view.generatedAt == now
      ensures view.stale <==> exists name :: name in view.sources && view.sources[name].stale
      ensures view.status.Fresh? ==> forall name :: name in view.sources ==> !view.sources[name].stale
      ensures view.status.Stale? ==> view.stale
      ensures view.status.Loading? <==> forall name :: name in view.sources ==> view.sources[name].data == Null
    {
      var sources: map<string, SourceView> := map[];
      var hasData, stale := false, false;
      var rest := TTLS.Keys;
      while rest != {}
        invariant rest <= TTLS.Keys
        invariant sources.Keys == TTLS.Keys - rest
        invariant forall name :: name in sources ==> sources[name] == ViewOf(Value(), name, now)
        invariant hasData <==> exists name :: name in sources && ViewOf(Value(), name, now).data != Null
        invariant stale <==> exists name :: name in sources && ViewOf(Value(), name, now).stale
        decreases rest
      {
        var name :| name in rest;
        var source := ViewOf(Value(), name, now);
        sources, rest := sources[name := source], rest - {name};
        hasData, stale := hasData || source.data != Null, stale || source.stale;
      }
      assert sources == map name | name in TTLS :: ViewOf(Value(), name, now);
      view := Snapshot(sources, now, refreshing, stale, if !hasData then Loading else if stale then Stale else Fresh);
    }

    method Invalidate(names: seq<string>)
      modifies this
      ensures Value() == AfterInvalidate(old(Value()), names)
      ensures forall x, now :: x in names && x in TTLS && now >= 0 ==> Due(Value(), x, now)
      ensures forall x :: x in old(items) ==> x in items && items[x].data == old(items)[x].data
      ensures forall x :: x in old(items) ==>
                items[x].nextRefresh == if x in names && x in TTLS then 0 else old(items)[x].nextRefresh
      ensures forall x :: x in names && x in TTLS ==> Generation(old(Value()), x) < Generation(Value(), x)
      ensures forall x :: x !in names || x !in TTLS ==> Generation(Value(), x) == Generation(old(Value()), x)
    {
      for i := 0 to |names|
        invariant Value() == AfterInvalidate(old(Value()), names[..i])
      {
        var name := names[i];
        assert names[..i + 1][..i] == names[..i];
        if name !in TTLS {
          continue;
        }
        generations := generations[name := (if name in generations then generations[name] else 0) + 1];
        if name in items {
          items := items[name := items[name].(nextRefresh := 0)];
        }
      }
      assert names[..|names|] == names;
      InvalidateMeans(old(Value()), names);
    }

    method StoreFailure(name: string, generation: nat, collectedAt: int)
      modifies this
      ensures Value() == AfterFailure(old(Value()), name, generation, collectedAt)
      ensures name in items && items[name].error == "unavailable"
      ensures name in old(items) ==>
                items[name].data == old(items)[name].data && items[name].collectedAt == old(items)[name].collectedAt
      ensures name !in old(items) ==> items[name].data == Null && items[name].collectedAt == 0
      ensures items[name].nextRefresh
              == if generation == Generation(old(Value()), name) then collectedAt + 15 else 0
      ensures items - {name} == old(items) - {name} && Value() == old(Value()).(items := items)
    {
      var previous := if name in items then items[name] else Item(Null, 0, "", 0);
      var current := if name in generations then generations[name] else 0;
      items := items[name := Item(previous.data, previous.collectedAt, UNAVAILABLE,
                                  if current != generation then 0 else collectedAt + RETRY_SECONDS)];
    }

    method StoreSuccess(name: string, generation: nat, collectedAt: int, data: Json)
      requires name in TTLS
      modifies this
      ensures Value() == AfterSuccess(old(Value()), name, generation, collectedAt, data)
      ensures name in items && items[name].data == data && items[name].error == ""
      ensures items[name].collectedAt == collectedAt
      ensures items[name].nextRefresh
              == if generation == Generation(old(Value()), name) then collectedAt + TTLS[name] else 0
      ensures items - {name} == old(items) - {name} && Value() == old(Value()).(items := items)
    {
      var current := if name in generations then generations[name] else 0;
      items := items[name := Item(data, collectedAt, "",
                                  if current != generation then 0 else collectedAt + TTLS[name])];
    }

    method Finish()
      modifies this
      ensures Value() == AfterFinish(old(Value()))
      ensures refreshDone && !refreshing && refreshingSources == {}
      ensures items == old(items) && generations == old(generations)
    {
      refreshing, refreshingSources, refreshDone := false, {}, true;
    }
  }
}
