/** Nearest-rank quantiles, and the probe timeout the supervisor derives from one. */
module Quantiles {
  import opened Prelude

  function Insert(x: real, sorted: seq<real>): seq<real> {
    if sorted == [] || x <= sorted[0] then [x] + sorted else [sorted[0]] + Insert(x, sorted[1..])
  }

  function Sort(values: seq<real>): seq<real> {
    if values == [] then [] else Insert(values[0], Sort(values[1..]))
  }

  ghost predicate Ascending(s: seq<real>) {
    forall i, j :: 0 <= i <= j < |s| ==> s[i] <= s[j]
  }

  lemma {:induction false} InsertAscends(x: real, s: seq<real>)
    requires Ascending(s)
    ensures Ascending(Insert(x, s)) && multiset(Insert(x, s)) == multiset(s) + multiset{x}
  {
    if s != [] && x > s[0] {
      InsertAscends(x, s[1..]);
      var rest := Insert(x, s[1..]);
      assert s == [s[0]] + s[1..];
      hide Insert;
      forall j | 0 <= j < |rest| ensures s[0] <= rest[j] {
        assert rest[j] in multiset(rest);
        assert rest[j] == x || rest[j] in s[1..];
      }
    }
  }

  lemma {:induction false} SortAscends(values: seq<real>)
    ensures Ascending(Sort(values)) && multiset(Sort(values)) == multiset(values) && |Sort(values)| == |values|
  {
    if values != [] {
      SortAscends(values[1..]);
      InsertAscends(values[0], Sort(values[1..]));
      assert values == [values[0]] + values[1..];
      assert |Sort(values)| == |multiset(Sort(values))|;
    }
  }

  function Ceil(x: real): int {
    -((-x).Floor)
  }

  /** rankValue on a sorted sequence: clamped on both sides, 0 for no samples. */
  function RankValue(sorted: seq<real>, quantile: real): real {
    var rank := Ceil(quantile * |sorted| as real) - 1;
    var k := Min(|sorted| - 1, Max(0, rank));
    if 0 <= k < |sorted| then sorted[k] else 0.0
  }

  function Percentile(samples: seq<real>, p: real): real {
    if samples == [] then 0.0 else RankValue(Sort(samples), p)
  }

  /** How many of the values are at most `v`. */
  function CountAtMost(values: seq<real>, v: real): nat {
    if values == [] then 0 else (if values[0] <= v then 1 else 0) + CountAtMost(values[1..], v)
  }

  /** The nearest-rank quantile: the least sample that at least a share `q` of the samples do not exceed. */
  ghost predicate IsQuantile(values: seq<real>, q: real, v: real) {
    && v in values
    && CountAtMost(values, v) as real >= q * |values| as real
    && forall x :: x in values && CountAtMost(values, x) as real >= q * |values| as real ==> v <= x
  }

  lemma {:induction false} CountInsert(x: real, s: seq<real>, v: real)
    ensures CountAtMost(Insert(x, s), v) == (if x <= v then 1 else 0) + CountAtMost(s, v)
  {
    if s == [] || x <= s[0] {
      assert ([x] + s)[1..] == s;
    } else {
      CountInsert(x, s[1..], v);
      assert ([s[0]] + Insert(x, s[1..]))[1..] == Insert(x, s[1..]);
    }
  }

  lemma {:induction false} CountSorted(values: seq<real>, v: real)
    ensures CountAtMost(Sort(values), v) == CountAtMost(values, v)
  {
    if values != [] {
      CountSorted(values[1..], v);
      CountInsert(values[0], Sort(values[1..]), v);
    }
  }

  lemma {:induction false} CountOfAscending(s: seq<real>, k: nat, v: real)
    requires Ascending(s) && k < |s|
    ensures s[k] <= v ==> CountAtMost(s, v) >= k + 1
    ensures s[k] > v ==> CountAtMost(s, v) <= k
  {
    if k > 0 {
      CountOfAscending(s[1..], k - 1, v);
    } else if s[0] > v {
      NoneAtMost(s, v);
    }
  }

  lemma {:induction false} NoneAtMost(s: seq<real>, v: real)
    requires forall i :: 0 <= i < |s| ==> s[i] > v
    ensures CountAtMost(s, v) == 0
  {
    if s != [] {
      NoneAtMost(s[1..], v);
    }
  }

  lemma {:induction false} RankInRange(s: seq<real>, q: real) returns (k: nat)
    requires s != [] && 0.0 < q <= 1.0
    ensures k < |s| && RankValue(s, q) == s[k] && k as real < q * |s| as real <= (k + 1) as real
  {
    assert 0.0 < q * |s| as real <= |s| as real;
    k := Ceil(q * |s| as real) - 1;
  }

  /** The value picked by rank is the nearest-rank quantile of the unsorted samples. */
  lemma {:induction false} PercentileIsQuantile(samples: seq<real>, q: real)
    requires samples != [] && 0.0 < q <= 1.0
    ensures IsQuantile(samples, q, Percentile(samples, q))
  {
    hide Sort, CountAtMost, RankValue;
    var s := Sort(samples);
    SortAscends(samples);
    var k := RankInRange(s, q);
    var v := s[k];
    CountOfAscending(s, k, v);
    CountSorted(samples, v);
    assert v in multiset(samples);
    var share := q * |s| as real;
    assert share == q * |samples| as real;
    forall x | x in samples && CountAtMost(samples, x) as real >= share ensures v <= x {
      CountOfAscending(s, k, x);
      CountSorted(samples, x);
    }
  }

  /** A larger share never gives a smaller quantile. */
  lemma {:induction false} QuantilesAscend(values: seq<real>, p: real, q: real, a: real, b: real)
    requires IsQuantile(values, p, a) && IsQuantile(values, q, b) && p <= q
    ensures a <= b
  {
    assert p * |values| as real <= q * |values| as real;
  }

  /** Quantiles are unique, so IsQuantile says everything about the value. */
  lemma QuantileIsUnique(values: seq<real>, q: real, a: real, b: real)
    requires IsQuantile(values, q, a) && IsQuantile(values, q, b)
    ensures a == b
  {}

  // ---- The adaptive probe timeout -------------------------------------------------------------

  function MaxReal(a: real, b: real): real {
    if a < b then b else a
  }

  function MinReal(a: real, b: real): real {
    if a < b then a else b
  }

  function EffectiveTimeout(samples: seq<real>, base: real, k: real, max: real, minSamples: int): real {
    if |samples| < minSamples then base else MaxReal(base, MinReal(max, Percentile(samples, 0.95) * k))
  }

  /**
   The timeout never falls below its base, even if the base exceeds the cap, and never rises above the larger of
   the two. It is the base while samples are few; once enough are in and the cap does not bind, it leaves room
   for k times the latency that at least 95% of the samples stay within.
   */
  lemma {:induction false} EffectiveTimeoutCovers(samples: seq<real>, base: real, k: real, max: real, minSamples: int)
    ensures var t := EffectiveTimeout(samples, base, k, max, minSamples);
            && base <= t && (t <= base || t <= max)
            && (|samples| < minSamples ==> t == base)
            && (t < max && samples != [] && |samples| >= minSamples ==>
                  exists v :: IsQuantile(samples, 0.95, v) && v * k <= t && (t == base || t == v * k))
  {
    if samples != [] {
      PercentileIsQuantile(samples, 0.95);
    }
  }

  /** A bounded ring of latency samples. */
  class Ring {
    var items: seq<real>

    constructor ()
      ensures items == []
    {
      items := [];
    }

    /** pushLatencySample: push, then shift while over the cap. */
    method Push(value: real, cap: nat)
      modifies this
      ensures items == LastOf(old(items) + [value], cap)
    {
      items := items + [value];
      ghost var all := items;
      while |items| > cap
        invariant |items| <= |all| && items == all[|all| - |items|..]
        invariant |all| >= cap ==> |items| >= cap
        invariant |all| <= cap ==> items == all
      {
        items := items[1..];
      }
    }
  }

  function LastOf<T>(s: seq<T>, n: nat): seq<T> {
    if |s| <= n then s else s[|s| - n..]
  }

  /** What is kept is the end of the sequence: everything while it fits, then the newest. */
  lemma {:induction false} LastOfMeaning<T>(older: seq<T>, newest: seq<T>, n: nat)
    ensures |newest| <= n && (older == [] || |newest| == n) ==> LastOf(older + newest, n) == newest
  {
    assert (older + newest)[|older|..] == newest;
  }

  /** Keeping the last n after each push is the same as keeping the last n of everything pushed. */
  lemma LastOfLast<T>(s: seq<T>, x: T, n: nat)
    ensures LastOf(LastOf(s, n) + [x], n) == LastOf(s + [x], n)
  {}
}
