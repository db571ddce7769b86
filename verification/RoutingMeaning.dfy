/**
 What the routes mean, told by their fields: which one a model is sent to, what a peer's route says and
 when a peer counts, and in which order routes and models are listed.
 */
module RoutingMeaning {
  import opened Prelude
  import opened Routing

  /** A ModelRun goes before a ModelHost; within a kind the lesser workload name goes first. */
  predicate Precedes(a: Route, b: Route, rank: Rank) {
    || (a.kind == ModelRun && b.kind == ModelHost)
    || (a.kind == b.kind && rank(a.workload) < rank(b.workload))
  }

  predicate Serves(routes: seq<Route>, m: ModelId) {
    exists k :: 0 <= k < |routes| && routes[k].model == m
  }

  /** No route of the model goes before the one at `i`, and every earlier one goes behind it. */
  ghost predicate IsWinner(routes: seq<Route>, i: int, m: ModelId, rank: Rank) {
    && 0 <= i < |routes| && routes[i].model == m
    && forall j :: 0 <= j < |routes| && routes[j].model == m ==>
         !Precedes(routes[j], routes[i], rank) && (j < i ==> Precedes(routes[i], routes[j], rank))
  }

  ghost predicate IsWinningRoute(routes: seq<Route>, r: Route, rank: Rank) {
    exists i :: IsWinner(routes, i, r.model, rank) && r == routes[i]
  }

  lemma {:induction false} ServedModels(routes: seq<Route>, m: ModelId)
    ensures m in Models(routes) <==> Serves(routes, m)
  {
    if Serves(routes, m) {
      var k :| 0 <= k < |routes| && routes[k].model == m;
      assert routes[k] in routes;
    }
    if m in Models(routes) {
      var r :| r in routes && r.model == m;
      var k :| 0 <= k < |routes| && routes[k] == r;
    }
  }

  /** A model nobody serves has no route; any other has the route of its winner. */
  lemma {:induction false} BestMeaning(routes: seq<Route>, m: ModelId, rank: Rank)
    ensures match Best(routes, m, rank)
            case None => !Serves(routes, m)
            case Some(r) => r.model == m && IsWinningRoute(routes, r, rank)
  {
    hide Best, Models;
    ServedModels(routes, m);
    BestOfNone(routes, m, rank);
    if Serves(routes, m) {
      var i := BestWins(routes, m, rank);
      assert IsWinner(routes, i, m, rank) && Best(routes, m, rank) == Some(routes[i]);
    }
  }

  /** Sorting puts no route behind one that it precedes, and loses none. */
  lemma {:induction false} SortMeaning(routes: seq<Route>, rank: Rank)
    ensures var sorted := Sort(routes, rank);
            && multiset(sorted) == multiset(routes)
            && forall i, j :: 0 <= i < j < |sorted| ==> !Precedes(sorted[j], sorted[i], rank)
  {
    hide Sort;
    SortIsOrdered(routes, rank);
  }

  // ---- First of each -----------------------------------------------------------------------------

  /** The positions the kept routes come from: ascending, and nowhere before is the model served. */
  ghost predicate ComesFrom(out: seq<Route>, routes: seq<Route>, at: seq<int>) {
    && |at| == |out|
    && (forall k :: 0 <= k < |out| ==> 0 <= at[k] < |routes| && routes[at[k]] == out[k])
    && (forall k, l :: 0 <= k < l < |out| ==> at[k] < at[l])
    && (forall k, j :: 0 <= k < |out| && 0 <= j < at[k] ==> routes[j].model != out[k].model)
  }

  /** Of every model not seen before, its first route is kept, and the kept ones stand in their order. */
  lemma {:induction false} FirstOfEachMeaning(routes: seq<Route>, seen: set<ModelId>) returns (at: seq<int>)
    ensures var out := FirstOfEach(routes, seen);
            && ComesFrom(out, routes, at)
            && forall m :: Serves(out, m) <==> Serves(routes, m) && m !in seen
  {
    var out := FirstOfEach(routes, seen);
    if routes == [] {
      at := [];
    } else {
      var head := routes[0];
      var seen' := seen + {head.model};
      assert routes == [head] + routes[1..];
      if head.model in seen {
        var rest := FirstOfEachMeaning(routes[1..], seen);
        at := seq(|rest|, k requires 0 <= k < |rest| => rest[k] + 1);
        KeptLater(out, routes, seen, rest, at);
      } else {
        var rest := FirstOfEachMeaning(routes[1..], seen');
        at := [0] + seq(|rest|, k requires 0 <= k < |rest| => rest[k] + 1);
        assert out[1..] == FirstOfEach(routes[1..], seen');
        KeptFirst(out, routes, rest, at);
      }
      forall m | true ensures Serves(out, m) <==> Serves(routes, m) && m !in seen {
        ServedModels(out, m);
        ServedModels(routes, m);
        FirstOfEachIsDistinct(routes, seen);
      }
    }
  }

  lemma {:induction false} KeptLater(out: seq<Route>, routes: seq<Route>, seen: set<ModelId>, rest: seq<int>,
                                     at: seq<int>)
    requires routes != [] && routes[0].model in seen && ComesFrom(out, routes[1..], rest)
    requires |at| == |rest| && forall k :: 0 <= k < |rest| ==> at[k] == rest[k] + 1
    requires forall k :: 0 <= k < |out| ==> out[k].model !in seen
    ensures ComesFrom(out, routes, at)
  {
    assert forall j :: 0 < j < |routes| ==> routes[j] == routes[1..][j - 1];
  }

  lemma {:induction false} KeptFirst(out: seq<Route>, routes: seq<Route>, rest: seq<int>, at: seq<int>)
    requires routes != [] && out != [] && out[0] == routes[0] && ComesFrom(out[1..], routes[1..], rest)
    requires |at| == |rest| + 1 && at[0] == 0 && forall k :: 0 < k < |at| ==> at[k] == rest[k - 1] + 1
    requires forall k :: 0 < k < |out| ==> out[k].model != routes[0].model
    ensures ComesFrom(out, routes, at)
  {
    assert forall j :: 0 < j < |routes| ==> routes[j] == routes[1..][j - 1];
    assert forall k :: 0 < k < |out| ==> out[k] == out[1..][k - 1];
  }

  // ---- What is advertised ------------------------------------------------------------------------------

  lemma {:induction false} WinnerWins(routes: seq<Route>, rank: Rank, r: Route, at: int)
    requires 0 <= at < |Sort(routes, rank)| && Sort(routes, rank)[at] == r
    requires forall j :: 0 <= j < at ==> Sort(routes, rank)[j].model != r.model
    ensures IsWinningRoute(routes, r, rank)
  {
    hide Sort, Best, FirstServing, Precedes;
    FirstServingAt(Sort(routes, rank), r.model);
    assert FirstServing(Sort(routes, rank), r.model) == Some(r);
    FirstSortedIsBest(routes, r.model, rank);
    BestMeaning(routes, r.model, rank);
  }

  /**
   The routes behind the advertised models, in the order of the list: each is its model's winner, and none
   stands behind one that it precedes. Every model that is served is advertised once.
   */
  lemma {:induction false} WinnersMeaning(routes: seq<Route>, rank: Rank)
    ensures var winners := Winners(routes, rank);
            && (forall k :: 0 <= k < |winners| ==> IsWinningRoute(routes, winners[k], rank))
            && (forall k, l :: 0 <= k < l < |winners| ==>
                  !Precedes(winners[l], winners[k], rank) && winners[k].model != winners[l].model)
            && forall m :: Serves(winners, m) <==> Serves(routes, m)
  {
    hide Sort, FirstOfEach, Best, FirstServing, Precedes;
    var sorted := Sort(routes, rank);
    var winners := Winners(routes, rank);
    var at := FirstOfEachMeaning(sorted, {});
    SortMeaning(routes, rank);
    forall k | 0 <= k < |winners|
      ensures IsWinningRoute(routes, winners[k], rank)
    {
      WinnerWins(routes, rank, winners[k], at[k]);
    }
    forall m | true ensures Serves(winners, m) <==> Serves(routes, m) {
      SortedServesTheSame(routes, rank);
      ServedModels(sorted, m);
      ServedModels(routes, m);
    }
  }
}
