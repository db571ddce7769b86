/**
 Cluster routing of the OpenAI proxy: which routes exist (local workloads first, then peers that are
 fresh, unpressured and well addressed), which one a model name is sent to, and which models are listed.
 Strings compared with localeCompare are compared through `rank`; since there are countably many strings,
 every total preorder on them is the order of some such function.
 */
module Routing {
  import opened Prelude

  type ModelId = string
  type PeerId = string

  const PEER_ROUTE_STALE_MS := 30000

  datatype Kind = ModelRun | ModelHost

  /** What `new URL` makes of a valid endpoint; `port` is absent when the text names none. */
  datatype Url = Url(hostname: string, port: Option<nat>, https: bool)

  datatype Peer = Peer(
    id: PeerId,
    endpoint: string,
    url: Option<Url>,
    certificate: Option<string>,
    tlsServerName: Option<string>,
    token: Option<string>)

  datatype PeerWorkload = PeerWorkload(modelId: ModelId, revision: Option<string>)

  datatype Pressure = NORMAL | HIGH

  datatype Snapshot = Snapshot(workloads: seq<PeerWorkload>, pressure: Pressure, fetchedAt: int)

  datatype Via = Via(
    endpoint: string,
    certificate: Option<string>,
    tlsServerName: Option<string>,
    token: Option<string>,
    target: PeerId,
    revision: Option<string>)

  datatype Route = Route(workload: string, model: ModelId, host: string, port: nat, engine: string, kind: Kind,
                         via: Option<Via>)

  type LocalRoute = r: Route | r.via.None? witness Route("", "", "", 0, "", ModelRun, None)

  type Rank = string -> real

  // ---- Listing the routes ---------------------------------------------------------------------

  function EndpointPort(url: Url): nat {
    if url.port.Some? && url.port.value > 0 then url.port.value else if url.https then 443 else 80
  }

  /** The route a peer offers for one of its workloads. */
  function Offer(peer: Peer, url: Url, w: PeerWorkload): Route {
    Route(peer.id + ":" + w.modelId, w.modelId, url.hostname, EndpointPort(url), "llamacpp", ModelRun,
          Some(Via(peer.endpoint, peer.certificate, peer.tlsServerName, peer.token, peer.id, w.revision)))
  }

  function Offers(peer: Peer, url: Url, ws: seq<PeerWorkload>): seq<Route> {
    seq(|ws|, i requires 0 <= i < |ws| => Offer(peer, url, ws[i]))
  }

  /** A peer takes part when its snapshot is there, unpressured and fresh, and its endpoint parses. */
  predicate Usable(peer: Peer, snapshots: map<PeerId, Snapshot>, now: int) {
    && peer.id in snapshots
    && snapshots[peer.id].pressure != HIGH
    && now - snapshots[peer.id].fetchedAt <= PEER_ROUTE_STALE_MS
    && peer.url.Some?
  }

  function OffersOf(peer: Peer, snapshots: map<PeerId, Snapshot>, now: int): seq<Route> {
    if Usable(peer, snapshots, now) then Offers(peer, peer.url.value, snapshots[peer.id].workloads) else []
  }

  function AllOffers(peers: seq<Peer>, snapshots: map<PeerId, Snapshot>, now: int): seq<Route> {
    if peers == [] then [] else OffersOf(peers[0], snapshots, now) + AllOffers(peers[1..], snapshots, now)
  }

  function Models(routes: seq<Route>): set<ModelId> {
    set r | r in routes :: r.model
  }

  /** The first route of each model not yet seen. */
  function FirstOfEach(routes: seq<Route>, seen: set<ModelId>): seq<Route> {
    if routes == [] then []
    else if routes[0].model in seen then FirstOfEach(routes[1..], seen)
    else [routes[0]] + FirstOfEach(routes[1..], seen + {routes[0].model})
  }

  function ClusterRoutes(local: seq<LocalRoute>, peers: seq<Peer>, snapshots: map<PeerId, Snapshot>,
                         now: int): seq<Route>
  {
    local + FirstOfEach(AllOffers(peers, snapshots, now), Models(local))
  }

  lemma {:induction false} FirstOfEachConcat(a: seq<Route>, b: seq<Route>, seen: set<ModelId>)
    ensures FirstOfEach(a + b, seen) == FirstOfEach(a, seen) + FirstOfEach(b, seen + Models(a))
  {
    if a == [] {
      assert a + b == b && seen + Models(a) == seen;
    } else {
      assert (a + b)[0] == a[0] && (a + b)[1..] == a[1..] + b;
      assert Models(a) == {a[0].model} + Models(a[1..]) by { ModelsOfCons(a); }
      if a[0].model in seen {
        FirstOfEachConcat(a[1..], b, seen);
        assert seen + Models(a[1..]) == seen + Models(a);
      } else {
        FirstOfEachConcat(a[1..], b, seen + {a[0].model});
        assert seen + {a[0].model} + Models(a[1..]) == seen + Models(a);
      }
    }
  }

  lemma {:induction false} ModelsOfCons(a: seq<Route>)
    requires a != []
    ensures Models(a) == {a[0].model} + Models(a[1..])
  {
    assert a == [a[0]] + a[1..];
  }

  lemma {:induction false} ModelsOfConcat(a: seq<Route>, b: seq<Route>)
    ensures Models(a + b) == Models(a) + Models(b)
  {
    forall m | m in Models(a) + Models(b) ensures m in Models(a + b) {
      if m in Models(a) {
        var r :| r in a && r.model == m;
        assert r in a + b;
      } else {
        var r :| r in b && r.model == m;
        assert r in a + b;
      }
    }
  }

  lemma NoOffers(seen: set<ModelId>)
    ensures FirstOfEach([], seen) == [] && Models([]) == {}
  {}

  lemma {:induction false} NextOffer(before: seq<Route>, offer: Route, seen: set<ModelId>)
    ensures var kept := if offer.model in seen + Models(before) then [] else [offer];
            FirstOfEach(before + [offer], seen) == FirstOfEach(before, seen) + kept
    ensures Models(before + [offer]) == Models(before) + {offer.model}
  {
    FirstOfEachConcat(before, [offer], seen);
    ModelsOfConcat(before, [offer]);
  }

  lemma {:induction false} AllOffersConcat(a: seq<Peer>, b: seq<Peer>, snapshots: map<PeerId, Snapshot>, now: int)
    ensures AllOffers(a + b, snapshots, now) == AllOffers(a, snapshots, now) + AllOffers(b, snapshots, now)
  {
    if a == [] {
      assert a + b == b;
    } else {
      assert (a + b)[0] == a[0] && (a + b)[1..] == a[1..] + b;
      AllOffersConcat(a[1..], b, snapshots, now);
    }
  }

  /** The route list under construction: `routes` and `seenModels` of listClusterRoutes. */
  class RouteList {
    var routes: seq<Route>
    var seenModels: set<ModelId>

    constructor (local: seq<LocalRoute>)
      ensures routes == local && seenModels == Models(local)
    {
      routes := local;
      seenModels := set r | r in local :: r.model;
    }

    method AppendPeerRoutes(peer: Peer, snapshot: Snapshot)
      modifies this
      ensures var offers := if peer.url.Some? then Offers(peer, peer.url.value, snapshot.workloads) else [];
              && routes == old(routes) + FirstOfEach(offers, old(seenModels))
              && seenModels == old(seenModels) + Models(offers)
    {
      hide FirstOfEach, Models, EndpointPort;
      NoOffers(seenModels);
      if peer.url == None {
        return;
      }
      var url := peer.url.value;
      ghost var offers := Offers(peer, url, snapshot.workloads);
      var i := 0;
      while i < |snapshot.workloads|
        invariant 0 <= i <= |snapshot.workloads| == |offers|
        invariant routes == old(routes) + FirstOfEach(offers[..i], old(seenModels))
        invariant seenModels == old(seenModels) + Models(offers[..i])
      {
        assert offers[..i + 1] == offers[..i] + [offers[i]];
        NextOffer(offers[..i], offers[i], old(seenModels));
        var workload := snapshot.workloads[i];
        i := i + 1;
        if workload.modelId in seenModels {
          continue;
        }
        seenModels := seenModels + {workload.modelId};
        routes := routes + [Offer(peer, url, workload)];
      }
      assert offers[..i] == offers;
    }
  }

  lemma NothingListed(local: seq<LocalRoute>, peers: seq<Peer>, snapshots: map<PeerId, Snapshot>, now: int)
    ensures local + FirstOfEach(AllOffers(peers[..0], snapshots, now), Models(local)) == local
    ensures Models(local) + Models(AllOffers(peers[..0], snapshots, now)) == Models(local)
  {}

  method ListClusterRoutes(local: seq<LocalRoute>, snapshots: map<PeerId, Snapshot>, peers: seq<Peer>, now: int)
    returns (routes: seq<Route>)
    ensures routes == ClusterRoutes(local, peers, snapshots, now)
  {
    hide Models, FirstOfEach, AllOffers, Offers;
    var list := new RouteList(local);
    var i := 0;
    NothingListed(local, peers, snapshots, now);
    while i < |peers|
      invariant 0 <= i <= |peers|
      invariant list.routes == local + FirstOfEach(AllOffers(peers[..i], snapshots, now), Models(local))
      invariant list.seenModels == Models(local) + Models(AllOffers(peers[..i], snapshots, now))
    {
      var peer := peers[i];
      PeerListed(local, peers, i, snapshots, now);
      i := i + 1;
      if peer.id !in snapshots {
        continue;
      }
      var snapshot := snapshots[peer.id];
      if snapshot.pressure == HIGH {
        continue;
      }
      if now - snapshot.fetchedAt > PEER_ROUTE_STALE_MS {
        continue;
      }
      list.AppendPeerRoutes(peer, snapshot);
    }
    assert peers[..i] == peers;
    routes := list.routes;
  }

  lemma {:induction false} PeerListed(local: seq<LocalRoute>, peers: seq<Peer>, i: nat,
                                      snapshots: map<PeerId, Snapshot>, now: int)
    requires i < |peers|
    ensures var before := AllOffers(peers[..i], snapshots, now);
            var offers := OffersOf(peers[i], snapshots, now);
            && AllOffers(peers[..i + 1], snapshots, now) == before + offers
            && FirstOfEach(before + offers, Models(local)) ==
               FirstOfEach(before, Models(local)) + FirstOfEach(offers, Models(local) + Models(before))
            && Models(before + offers) == Models(before) + Models(offers)
            && FirstOfEach([], Models(local) + Models(before)) == [] && Models([]) == {}
  {
    hide OffersOf;
    var before := AllOffers(peers[..i], snapshots, now);
    assert peers[..i + 1] == peers[..i] + [peers[i]];
    AllOffersConcat(peers[..i], [peers[i]], snapshots, now);
    assert AllOffers([peers[i]], snapshots, now) == OffersOf(peers[i], snapshots, now) + [];
    FirstOfEachConcat(before, OffersOf(peers[i], snapshots, now), Models(local));
    ModelsOfConcat(before, OffersOf(peers[i], snapshots, now));
  }

  // ---- The order of routes -----------------------------------------------------------------------

  predicate AtMost(a: Route, b: Route, rank: Rank) {
    if a.kind != b.kind then a.kind == ModelRun else rank(a.workload) <= rank(b.workload)
  }

  ghost predicate Ordered(routes: seq<Route>, rank: Rank) {
    forall i, j :: 0 <= i < j < |routes| ==> AtMost(routes[i], routes[j], rank)
  }

  function Insert(x: Route, sorted: seq<Route>, rank: Rank): seq<Route> {
    if sorted == [] || AtMost(x, sorted[0], rank) then [x] + sorted else [sorted[0]] + Insert(x, sorted[1..], rank)
  }

  /** The stable sort by kind, then workload. */
  function Sort(routes: seq<Route>, rank: Rank): seq<Route> {
    if routes == [] then [] else Insert(routes[0], Sort(routes[1..], rank), rank)
  }

  lemma {:induction false} InsertIsOrdered(x: Route, sorted: seq<Route>, rank: Rank)
    requires Ordered(sorted, rank)
    ensures Ordered(Insert(x, sorted, rank), rank)
    ensures multiset(Insert(x, sorted, rank)) == multiset(sorted) + multiset{x}
  {
    if sorted == [] || AtMost(x, sorted[0], rank) {
    } else {
      InsertIsOrdered(x, sorted[1..], rank);
      var rest := Insert(x, sorted[1..], rank);
      assert sorted == [sorted[0]] + sorted[1..];
      hide Insert;
      forall r | r in rest ensures AtMost(sorted[0], r, rank) {
        assert r in multiset(rest);
        assert r == x || r in sorted[1..];
      }
      forall j | 0 <= j < |rest| ensures AtMost(sorted[0], rest[j], rank) {
        assert rest[j] in rest;
      }
    }
  }

  lemma {:induction false} SortIsOrdered(routes: seq<Route>, rank: Rank)
    ensures Ordered(Sort(routes, rank), rank) && multiset(Sort(routes, rank)) == multiset(routes)
  {
    if routes != [] {
      SortIsOrdered(routes[1..], rank);
      InsertIsOrdered(routes[0], Sort(routes[1..], rank), rank);
      assert routes == [routes[0]] + routes[1..];
    }
  }

  /** The routes level with `x` in the order, as they stand. */
  function LevelWith(routes: seq<Route>, x: Route, rank: Rank): seq<Route> {
    if routes == [] then []
    else
      var level := AtMost(routes[0], x, rank) && AtMost(x, routes[0], rank);
      (if level then [routes[0]] else []) + LevelWith(routes[1..], x, rank)
  }

  lemma {:induction false} InsertAmongLevel(y: Route, sorted: seq<Route>, x: Route, rank: Rank)
    ensures LevelWith(Insert(y, sorted, rank), x, rank)
         == (if AtMost(y, x, rank) && AtMost(x, y, rank) then [y] else []) + LevelWith(sorted, x, rank)
  {
    if sorted == [] || AtMost(y, sorted[0], rank) {
      assert ([y] + sorted)[1..] == sorted;
    } else {
      var rest := Insert(y, sorted[1..], rank);
      assert ([sorted[0]] + rest)[1..] == rest;
      InsertAmongLevel(y, sorted[1..], x, rank);
    }
  }

  /** Routes level with each other keep their order. */
  lemma {:induction false} SortIsStable(routes: seq<Route>, x: Route, rank: Rank)
    ensures LevelWith(Sort(routes, rank), x, rank) == LevelWith(routes, x, rank)
  {
    if routes != [] {
      SortIsStable(routes[1..], x, rank);
      InsertAmongLevel(routes[0], Sort(routes[1..], rank), x, rank);
    }
  }

  // ---- Which route serves a model ------------------------------------------------------------------

  /** The first route of the list that serves the model. */
  function FirstServing(routes: seq<Route>, m: ModelId): Option<Route> {
    if routes == [] then None else if routes[0].model == m then Some(routes[0]) else FirstServing(routes[1..], m)
  }

  /** The least route serving the model, the earliest among equals. */
  function Best(routes: seq<Route>, m: ModelId, rank: Rank): Option<Route> {
    if routes == [] then None
    else
      var later := Best(routes[1..], m, rank);
      if routes[0].model == m && (later.None? || AtMost(routes[0], later.value, rank)) then Some(routes[0]) else later
  }

  /** A position that wins its model: before every other one in the order, or level with it and earlier. */
  ghost predicate Wins(routes: seq<Route>, i: nat, rank: Rank) {
    && i < |routes|
    && forall j :: 0 <= j < |routes| && routes[j].model == routes[i].model ==>
         !AtMost(routes[j], routes[i], rank) || (i <= j && AtMost(routes[i], routes[j], rank))
  }

  lemma {:induction false} BestWins(routes: seq<Route>, m: ModelId, rank: Rank) returns (i: nat)
    requires m in Models(routes)
    ensures Wins(routes, i, rank) && routes[i].model == m && Best(routes, m, rank) == Some(routes[i])
  {
    ModelsOfCons(routes);
    var later := Best(routes[1..], m, rank);
    if m in Models(routes[1..]) {
      var k := BestWins(routes[1..], m, rank);
      i := if routes[0].model == m && AtMost(routes[0], later.value, rank) then 0 else k + 1;
      forall j | 0 <= j < |routes| && routes[j].model == routes[i].model
        ensures !AtMost(routes[j], routes[i], rank) || (i <= j && AtMost(routes[i], routes[j], rank))
      {
        if j > 0 {
          assert routes[j] == routes[1..][j - 1];
        }
      }
    } else {
      i := 0;
      BestOfNone(routes[1..], m, rank);
      forall j | 0 < j < |routes| ensures routes[j].model != m {
        assert routes[j] in routes[1..];
      }
    }
  }

  lemma {:induction false} BestOfNone(routes: seq<Route>, m: ModelId, rank: Rank)
    ensures m !in Models(routes) <==> Best(routes, m, rank) == None
    ensures m !in Models(routes) <==> FirstServing(routes, m) == None
  {
    if routes != [] {
      ModelsOfCons(routes);
      BestOfNone(routes[1..], m, rank);
    }
  }

  lemma {:induction false} FirstOfInsert(x: Route, sorted: seq<Route>, m: ModelId, rank: Rank)
    requires Ordered(sorted, rank)
    ensures var first := FirstServing(sorted, m);
            FirstServing(Insert(x, sorted, rank), m) ==
            if x.model == m && (first.None? || AtMost(x, first.value, rank)) then Some(x) else first
  {
    if sorted == [] {
      assert Insert(x, sorted, rank) == [x];
      assert FirstServing([x], m) == if x.model == m then Some(x) else FirstServing([], m);
    } else if AtMost(x, sorted[0], rank) {
      assert ([x] + sorted)[1..] == sorted;
      if FirstServing(sorted, m).Some? {
        FirstIsAboveHead(sorted, m, rank);
      }
    } else {
      var rest := Insert(x, sorted[1..], rank);
      assert ([sorted[0]] + rest)[1..] == rest;
      FirstOfInsert(x, sorted[1..], m, rank);
    }
  }

  lemma {:induction false} FirstIsAboveHead(sorted: seq<Route>, m: ModelId, rank: Rank)
    requires sorted != [] && Ordered(sorted, rank) && FirstServing(sorted, m).Some?
    ensures AtMost(sorted[0], FirstServing(sorted, m).value, rank)
  {
    FirstServingIsMember(sorted, m);
  }

  lemma {:induction false} FirstServingIsMember(routes: seq<Route>, m: ModelId)
    requires FirstServing(routes, m).Some?
    ensures var first := FirstServing(routes, m).value;
            first.model == m && first in routes
  {
    if routes[0].model != m {
      FirstServingIsMember(routes[1..], m);
    }
  }

  lemma {:induction false} FirstSortedIsBest(routes: seq<Route>, m: ModelId, rank: Rank)
    ensures FirstServing(Sort(routes, rank), m) == Best(routes, m, rank)
  {
    if routes != [] {
      FirstSortedIsBest(routes[1..], m, rank);
      SortIsOrdered(routes[1..], rank);
      FirstOfInsert(routes[0], Sort(routes[1..], rank), m, rank);
    }
  }

  lemma {:induction false} FirstOfEachServes(routes: seq<Route>, seen: set<ModelId>, m: ModelId)
    ensures FirstServing(FirstOfEach(routes, seen), m) == if m in seen then None else FirstServing(routes, m)
  {
    if routes != [] {
      if routes[0].model in seen {
        FirstOfEachServes(routes[1..], seen, m);
      } else {
        var rest := FirstOfEach(routes[1..], seen + {routes[0].model});
        assert ([routes[0]] + rest)[1..] == rest;
        FirstOfEachServes(routes[1..], seen + {routes[0].model}, m);
      }
    }
  }

  lemma {:induction false} FirstOfEachIsDistinct(routes: seq<Route>, seen: set<ModelId>)
    ensures var out := FirstOfEach(routes, seen);
            && Models(out) == Models(routes) - seen
            && forall i, j :: 0 <= i < j < |out| ==> out[i].model != out[j].model
  {
    if routes != [] {
      ModelsOfCons(routes);
      if routes[0].model in seen {
        FirstOfEachIsDistinct(routes[1..], seen);
      } else {
        var rest := FirstOfEach(routes[1..], seen + {routes[0].model});
        FirstOfEachIsDistinct(routes[1..], seen + {routes[0].model});
        ModelsOfCons([routes[0]] + rest);
        assert ([routes[0]] + rest)[1..] == rest;
        forall j | 0 <= j < |rest| ensures rest[j].model != routes[0].model {
          assert rest[j] in rest && rest[j].model in Models(rest);
        }
      }
    }
  }

  // ---- The route map and the model list ----------------------------------------------------------------

  function Keys(routes: seq<Route>): seq<ModelId> {
    seq(|routes|, i requires 0 <= i < |routes| => routes[i].model)
  }

  /** A Map that remembers insertion order. */
  class RouteMap {
    var entries: map<ModelId, Route>
    var order: seq<ModelId>

    constructor ()
      ensures entries == map[] && order == []
    {
      entries := map[];
      order := [];
    }

    method Set(route: Route)
      modifies this
      ensures entries == old(entries)[route.model := route]
      ensures order == if route.model in old(entries) then old(order) else old(order) + [route.model]
    {
      if route.model !in entries {
        order := order + [route.model];
      }
      entries := entries[route.model := route];
    }
  }

  /** The winners, in the order in which they enter the map. */
  function Winners(routes: seq<Route>, rank: Rank): seq<Route> {
    FirstOfEach(Sort(routes, rank), {})
  }

  method BuildRouteMap(routes: seq<Route>, rank: Rank) returns (out: RouteMap)
    ensures fresh(out)
    ensures out.order == Keys(Winners(routes, rank))
    ensures forall m :: m in out.entries <==> m in Models(routes)
    ensures forall m :: m in out.entries ==> Some(out.entries[m]) == Best(routes, m, rank)
  {
    hide Built, Sort, Models, FirstOfEach, Best, Keys;
    var sorted := Sort(routes, rank);
    out := new RouteMap();
    NothingBuilt(sorted);
    var i := 0;
    while i < |sorted|
      invariant 0 <= i <= |sorted| && fresh(out)
      invariant Built(out.entries, out.order, sorted[..i])
    {
      var route := sorted[i];
      BuiltStep(out.entries, out.order, sorted, i);
      i := i + 1;
      if route.model in out.entries {
        continue;
      }
      out.Set(route);
    }
    assert sorted[..i] == sorted;
    AllBuilt(out.entries, out.order, routes, rank);
  }

  /** The map holds the first route of each model among those read, keyed in that order. */
  ghost predicate Built(entries: map<ModelId, Route>, order: seq<ModelId>, read: seq<Route>) {
    && order == Keys(FirstOfEach(read, {}))
    && (forall m :: m in entries <==> m in Models(read))
    && (forall m :: m in entries ==> Some(entries[m]) == FirstServing(read, m))
  }

  lemma NothingBuilt(sorted: seq<Route>)
    ensures Built(map[], [], sorted[..0])
  {}

  lemma {:induction false} BuiltStep(entries: map<ModelId, Route>, order: seq<ModelId>, sorted: seq<Route>, i: nat)
    requires i < |sorted| && Built(entries, order, sorted[..i])
    ensures var route := sorted[i];
            if route.model in entries then Built(entries, order, sorted[..i + 1])
            else Built(entries[route.model := route], order + [route.model], sorted[..i + 1])
  {
    hide FirstOfEach, Models, FirstServing;
    NextRoute(sorted, i);
  }

  lemma {:induction false} AllBuilt(entries: map<ModelId, Route>, order: seq<ModelId>, routes: seq<Route>, rank: Rank)
    requires Built(entries, order, Sort(routes, rank))
    ensures order == Keys(Winners(routes, rank))
    ensures forall m :: m in entries <==> m in Models(routes)
    ensures forall m :: m in entries ==> Some(entries[m]) == Best(routes, m, rank)
  {
    hide Sort, FirstOfEach, Models, FirstServing, Best;
    SortedServesTheSame(routes, rank);
  }

  datatype ModelInfo = ModelInfo(id: ModelId, ownedBy: string)

  function InfoOf(route: Route): ModelInfo {
    ModelInfo(route.model, if route.kind == ModelHost then "llamactl-host" else "llamactl-agent")
  }

  method BuildListOpenAIModels(routes: seq<Route>, rank: Rank) returns (data: seq<ModelInfo>)
    ensures |data| == |Winners(routes, rank)|
    ensures forall k :: 0 <= k < |data| ==>
              var r := Winners(routes, rank)[k];
              && data[k].id == r.model
              && data[k].ownedBy == if r.kind == ModelRun then "llamactl-agent" else "llamactl-host"
  {
    var sorted := Sort(routes, rank);
    var winners: set<ModelId> := {};
    data := [];
    var i := 0;
    while i < |sorted|
      invariant 0 <= i <= |sorted|
      invariant winners == Models(sorted[..i])
      invariant |data| == |FirstOfEach(sorted[..i], {})|
      invariant forall k :: 0 <= k < |data| ==> data[k] == InfoOf(FirstOfEach(sorted[..i], {})[k])
    {
      var route := sorted[i];
      NextRoute(sorted, i);
      i := i + 1;
      if route.model in winners {
        continue;
      }
      winners := winners + {route.model};
      data := data + [InfoOf(route)];
    }
    assert sorted[..i] == sorted;
  }

  lemma {:induction false} NextRoute(sorted: seq<Route>, i: nat)
    requires i < |sorted|
    ensures var before := sorted[..i];
            var after := sorted[..i + 1];
            var kept := if sorted[i].model in Models(before) then [] else [sorted[i]];
            && FirstOfEach(after, {}) == FirstOfEach(before, {}) + kept
            && Models(after) == Models(before) + {sorted[i].model}
            && forall m :: FirstServing(after, m) == if m in Models(before) then FirstServing(before, m)
                                                     else if m == sorted[i].model then Some(sorted[i]) else None
  {
    var before := sorted[..i];
    assert sorted[..i + 1] == before + [sorted[i]];
    FirstOfEachConcat(before, [sorted[i]], {});
    assert {} + Models(before) == Models(before);
    ModelsOfConcat(before, [sorted[i]]);
    forall m | true
      ensures FirstServing(sorted[..i + 1], m) == if m in Models(before) then FirstServing(before, m)
                                                  else if m == sorted[i].model then Some(sorted[i]) else None
    {
      FirstServingConcat(before, [sorted[i]], m);
      BestOfNone(before, m, _ => 0.0);
    }
  }

  lemma {:induction false} FirstServingConcat(a: seq<Route>, b: seq<Route>, m: ModelId)
    ensures FirstServing(a + b, m) == if FirstServing(a, m).Some? then FirstServing(a, m) else FirstServing(b, m)
  {
    if a == [] {
      assert a + b == b;
    } else {
      assert (a + b)[0] == a[0] && (a + b)[1..] == a[1..] + b;
      FirstServingConcat(a[1..], b, m);
    }
  }

  lemma {:induction false} SortedServesTheSame(routes: seq<Route>, rank: Rank)
    ensures Models(Sort(routes, rank)) == Models(routes)
    ensures forall m :: FirstServing(Sort(routes, rank), m) == Best(routes, m, rank)
  {
    forall m | true
      ensures FirstServing(Sort(routes, rank), m) == Best(routes, m, rank)
      ensures m in Models(Sort(routes, rank)) <==> m in Models(routes)
    {
      FirstSortedIsBest(routes, m, rank);
      BestOfNone(routes, m, rank);
      BestOfNone(Sort(routes, rank), m, rank);
    }
  }

  // ---- Main results --------------------------------------------------------------------------------------

  /** The advertised models are the route map's keys, in its order, each once. */
  lemma {:induction false} ListedIsRouted(routes: seq<Route>, rank: Rank)
    ensures var keys := Keys(Winners(routes, rank));
            && (forall m :: m in keys <==> m in Models(routes))
            && (forall i, j :: 0 <= i < j < |keys| ==> keys[i] != keys[j])
            && (forall k :: 0 <= k < |keys| ==> keys[k] == InfoOf(Winners(routes, rank)[k]).id)
  {
    hide FirstOfEach, Sort;
    FirstOfEachIsDistinct(Sort(routes, rank), {});
    SortedServesTheSame(routes, rank);
    var winners := Winners(routes, rank);
    forall m | m in Models(routes) ensures m in Keys(winners) {
      assert m in Models(winners);
      var r :| r in winners && r.model == m;
      var k :| 0 <= k < |winners| && winners[k] == r;
      assert Keys(winners)[k] == m;
    }
    forall m | m in Keys(winners) ensures m in Models(routes) {
      var k :| 0 <= k < |winners| && Keys(winners)[k] == m;
      assert winners[k] in winners && m in Models(winners);
    }
  }

  /** The first configured usable peer that serves the model offers its route. */
  function FirstOffer(peers: seq<Peer>, snapshots: map<PeerId, Snapshot>, now: int, m: ModelId): Option<Route> {
    FirstServing(AllOffers(peers, snapshots, now), m)
  }

  /** What makes a peer count: a snapshot at most half a minute old, no pressure, an endpoint that parses. */
  predicate Counts(peer: Peer, snapshots: map<PeerId, Snapshot>, now: int) {
    && peer.id in snapshots && snapshots[peer.id].pressure == NORMAL
    && now - snapshots[peer.id].fetchedAt <= 30000 && peer.url != None
  }

  predicate ServesModel(peer: Peer, snapshots: map<PeerId, Snapshot>, now: int, m: ModelId) {
    && Counts(peer, snapshots, now)
    && exists k :: 0 <= k < |snapshots[peer.id].workloads| && snapshots[peer.id].workloads[k].modelId == m
  }

  lemma {:induction false} FirstOfferIsFirstPeer(peers: seq<Peer>, snapshots: map<PeerId, Snapshot>, now: int,
                                                 m: ModelId)
    ensures match FirstOffer(peers, snapshots, now, m)
            case None => forall p :: p in peers ==> !ServesModel(p, snapshots, now, m)
            case Some(r) =>
              exists k: nat ::
                && k < |peers| && IsOfferOf(peers[k], snapshots, now, m, r)
                && forall j :: 0 <= j < k ==> !ServesModel(peers[j], snapshots, now, m)
  {
    hide ServesModel, IsOfferOf, OffersOf, FirstServing;
    if peers == [] {
      assert FirstServing([], m) == None by { BestOfNone([], m, _ => 0.0); }
    } else {
      var rest := AllOffers(peers[1..], snapshots, now);
      var mine := OffersOf(peers[0], snapshots, now);
      FirstServingConcat(mine, rest, m);
      OffersServe(peers[0], snapshots, now, m);
      FirstOfferIsFirstPeer(peers[1..], snapshots, now, m);
      assert peers == [peers[0]] + peers[1..];
      if FirstServing(mine, m).Some? {
        assert IsOfferOf(peers[0], snapshots, now, m, FirstServing(mine, m).value);
      } else if FirstServing(rest, m).Some? {
        LaterPeer(peers, snapshots, now, m, FirstServing(rest, m).value);
      }
    }
  }

  lemma {:induction false} LaterPeer(peers: seq<Peer>, snapshots: map<PeerId, Snapshot>, now: int, m: ModelId, r: Route)
    requires peers != [] && !ServesModel(peers[0], snapshots, now, m)
    requires exists k: nat :: k < |peers[1..]| && IsOfferOf(peers[1..][k], snapshots, now, m, r)
                              && forall j :: 0 <= j < k ==> !ServesModel(peers[1..][j], snapshots, now, m)
    ensures exists k: nat :: k < |peers| && IsOfferOf(peers[k], snapshots, now, m, r)
                             && forall j :: 0 <= j < k ==> !ServesModel(peers[j], snapshots, now, m)
  {
    hide ServesModel, IsOfferOf;
    var k: nat :| k < |peers[1..]| && IsOfferOf(peers[1..][k], snapshots, now, m, r)
                  && forall j :: 0 <= j < k ==> !ServesModel(peers[1..][j], snapshots, now, m);
    assert peers[k + 1] == peers[1..][k];
    forall j | 0 <= j < k + 1 ensures !ServesModel(peers[j], snapshots, now, m) {
      if j > 0 {
        assert peers[j] == peers[1..][j - 1];
      }
    }
  }

  /** The peer's route for a workload: a ModelRun at the peer's address, named after both, reached via the peer. */
  predicate IsRouteTo(r: Route, peer: Peer, url: Url, w: PeerWorkload) {
    && r.workload == peer.id + ":" + w.modelId && r.model == w.modelId && r.engine == "llamacpp" && r.kind == ModelRun
    && r.host == url.hostname
    && (match url.port
        case Some(n) => if n != 0 then r.port == n else r.port == if url.https then 443 else 80
        case None => r.port == if url.https then 443 else 80)
    && r.via.Some?
    && var via := r.via.value;
       && via.endpoint == peer.endpoint && via.certificate == peer.certificate
       && via.tlsServerName == peer.tlsServerName && via.token == peer.token && via.target == peer.id
       && via.revision == w.revision
  }

  /** `r` is the peer's route for the first of its workloads that is the model. */
  predicate IsOfferOf(peer: Peer, snapshots: map<PeerId, Snapshot>, now: int, m: ModelId, r: Route) {
    && Counts(peer, snapshots, now)
    && var ws := snapshots[peer.id].workloads;
       exists k :: 0 <= k < |ws| && ws[k].modelId == m && IsRouteTo(r, peer, peer.url.value, ws[k])
                   && forall j :: 0 <= j < k ==> ws[j].modelId != m
  }

  lemma {:induction false} FirstServingAt(routes: seq<Route>, m: ModelId)
    ensures match FirstServing(routes, m)
            case None => forall j :: 0 <= j < |routes| ==> routes[j].model != m
            case Some(r) =>
              exists k :: 0 <= k < |routes| && routes[k] == r && r.model == m
                          && forall j :: 0 <= j < k ==> routes[j].model != m
  {
    if routes != [] && routes[0].model != m {
      var rest := routes[1..];
      assert forall j :: 0 < j < |routes| ==> routes[j] == rest[j - 1];
      FirstServingAt(rest, m);
      if FirstServing(rest, m).Some? {
        var k :| 0 <= k < |rest| && rest[k] == FirstServing(rest, m).value &&
                 forall j :: 0 <= j < k ==> rest[j].model != m;
        assert routes[k + 1] == rest[k];
      }
    }
  }

  lemma OfferIsRoute(peer: Peer, url: Url, w: PeerWorkload)
    ensures IsRouteTo(Offer(peer, url, w), peer, url, w)
  {}

  lemma {:induction false} OffersServe(peer: Peer, snapshots: map<PeerId, Snapshot>, now: int, m: ModelId)
    ensures ServesModel(peer, snapshots, now, m) <==> FirstServing(OffersOf(peer, snapshots, now), m).Some?
    ensures ServesModel(peer, snapshots, now, m) ==>
              IsOfferOf(peer, snapshots, now, m, FirstServing(OffersOf(peer, snapshots, now), m).value)
  {
    hide FirstServing, IsRouteTo;
    var offers := OffersOf(peer, snapshots, now);
    FirstServingAt(offers, m);
    if Usable(peer, snapshots, now) {
      var ws := snapshots[peer.id].workloads;
      forall k | 0 <= k < |ws|
        ensures offers[k].model == ws[k].modelId && IsRouteTo(offers[k], peer, peer.url.value, ws[k])
      {
        OfferIsRoute(peer, peer.url.value, ws[k]);
      }
    }
  }

  /**
   A model that any local route serves goes to the local route that comes first by (kind, workload), even
   though a peer's route would sort before a local ModelHost; any other model goes to the first configured
   usable peer that serves it; a model nobody serves has no route.
   */
  lemma {:induction false} LocalRoutesHavePriority(local: seq<LocalRoute>, peers: seq<Peer>,
                                                   snapshots: map<PeerId, Snapshot>, now: int, m: ModelId, rank: Rank)
    ensures Best(ClusterRoutes(local, peers, snapshots, now), m, rank)
         == if m in Models(local) then Best(local, m, rank) else FirstOffer(peers, snapshots, now, m)
    ensures m in Models(local) ==>
              var best := Best(local, m, rank);
              best.Some? && best.value in local && best.value.via == None
  {
    var offers := AllOffers(peers, snapshots, now);
    var remote := FirstOfEach(offers, Models(local));
    FirstOfEachServes(offers, Models(local), m);
    FirstOfEachIsDistinct(offers, Models(local));
    BestOfNone(local, m, rank);
    BestOfNone(remote, m, rank);
    BestOfDistinct(remote, m, rank);
    BestOfConcat(local, remote, m, rank);
    if m in Models(local) {
      var i := BestWins(local, m, rank);
      assert local[i] in local;
    }
  }

  lemma {:induction false} BestOfDistinct(routes: seq<Route>, m: ModelId, rank: Rank)
    requires forall i, j :: 0 <= i < j < |routes| ==> routes[i].model != routes[j].model
    ensures Best(routes, m, rank) == FirstServing(routes, m)
  {
    if routes != [] {
      BestOfDistinct(routes[1..], m, rank);
      if routes[0].model == m {
        forall r | r in routes[1..] ensures r.model != m {}
        BestOfNone(routes[1..], m, rank);
      }
    }
  }

  /** A tail that does not serve the model has no say in who serves it. */
  lemma {:induction false} BestOfConcat(a: seq<Route>, b: seq<Route>, m: ModelId, rank: Rank)
    requires m in Models(a) ==> m !in Models(b)
    ensures Best(a + b, m, rank) == if m in Models(a) then Best(a, m, rank) else Best(b, m, rank)
  {
    if a == [] {
      assert a + b == b;
    } else {
      assert (a + b)[0] == a[0] && (a + b)[1..] == a[1..] + b;
      ModelsOfCons(a);
      BestOfConcat(a[1..], b, m, rank);
      BestOfNone(a[1..], m, rank);
      BestOfNone(b, m, rank);
    }
  }
}
