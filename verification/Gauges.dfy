/** Means, maxima and shares over a window in which some readings are unknown. */
module Gauges {
  import opened Prelude

  /** The known readings, in order. */
  function Known<T>(items: seq<T>, read: T -> Option<real>): seq<real> {
    if items == [] then []
    else
      var n := |items| - 1;
      Known(items[..n], read) + if read(items[n]).Some? then [read(items[n]).value] else []
  }

  /** Each item adds its reading, if it has one, at its place. */
  lemma {:induction false} KnownMeaning<T>(a: seq<T>, x: T, b: seq<T>, read: T -> Option<real>)
    ensures Known(a + [x] + b, read) ==
            Known(a, read) + (match read(x) case Some(v) => [v] case None => []) + Known(b, read)
  {
    if b == [] {
      assert a + [x] + b == a + [x] && (a + [x])[..|a|] == a;
    } else {
      assert (a + [x] + b)[..|a + [x] + b| - 1] == a + [x] + b[..|b| - 1];
      KnownMeaning(a, x, b[..|b| - 1], read);
    }
  }

  method DefinedValues<T>(items: seq<T>, read: T -> Option<real>) returns (out: seq<real>)
    ensures out == Known(items, read)
  {
    out := [];
    var i := 0;
    while i < |items|
      invariant 0 <= i <= |items|
      invariant out == Known(items[..i], read)
    {
      assert items[..i + 1][..i] == items[..i];
      if read(items[i]).Some? {
        out := out + [read(items[i]).value];
      }
      i := i + 1;
    }
    assert items[..i] == items;
  }

  function Sum(values: seq<real>): real {
    if values == [] then 0.0 else Sum(values[..|values| - 1]) + values[|values| - 1]
  }

  /** `m` is the mean: as many copies of it add up to the values; None when there are none. */
  predicate IsMean(m: Option<real>, values: seq<real>) {
    if values == [] then m.None? else m.Some? && m.value * |values| as real == Sum(values)
  }

  method MeanOf(values: seq<real>) returns (m: Option<real>)
    ensures IsMean(m, values)
  {
    if values == [] {
      return None;
    }
    var sum := 0.0;
    var i := 0;
    while i < |values|
      invariant 0 <= i <= |values|
      invariant sum == Sum(values[..i])
    {
      assert values[..i + 1][..i] == values[..i];
      sum := sum + values[i];
      i := i + 1;
    }
    assert values[..i] == values;
    m := Some(sum / |values| as real);
  }

  predicate IsMax(m: Option<real>, values: seq<real>) {
    if values == [] then m.None?
    else m.Some? && m.value in values && forall v :: v in values ==> v <= m.value
  }

  method MaxOf(values: seq<real>) returns (m: Option<real>)
    ensures IsMax(m, values)
  {
    if values == [] {
      return None;
    }
    var max := values[0];
    var i := 0;
    while i < |values|
      invariant 0 <= i <= |values|
      invariant max in values && forall k :: 0 <= k < i ==> values[k] <= max
    {
      if values[i] > max {
        max := values[i];
      }
      i := i + 1;
    }
    m := Some(max);
  }

  lemma {:induction false} SumBounds(values: seq<real>, low: real, high: real)
    requires forall v :: v in values ==> low <= v <= high
    ensures low * |values| as real <= Sum(values) <= high * |values| as real
  {
    if values != [] {
      var n := |values| - 1;
      assert values[n] in values;
      forall v | v in values[..n] ensures low <= v <= high {
        assert v in values;
      }
      SumBounds(values[..n], low, high);
      assert low * |values| as real == low * n as real + low;
      assert high * |values| as real == high * n as real + high;
    }
  }

  /** A mean lies between any bounds of its values, in particular below their maximum. */
  lemma {:induction false} MeanBetween(m: Option<real>, values: seq<real>, low: real, high: real)
    requires values != [] && IsMean(m, values) && forall v :: v in values ==> low <= v <= high
    ensures low <= m.value <= high
  {
    SumBounds(values, low, high);
    Cancel(low, m.value, |values| as real);
    Cancel(m.value, high, |values| as real);
  }

  lemma Cancel(x: real, y: real, n: real)
    requires n > 0.0 && x * n <= y * n
    ensures x <= y
  {}

  function CountAbove(values: seq<real>, bound: real): nat {
    if values == [] then 0
    else CountAbove(values[..|values| - 1], bound) + if values[|values| - 1] > bound then 1 else 0
  }

  /** Each value counts once when it is above the bound. */
  lemma {:induction false} CountMeaning(a: seq<real>, x: real, b: seq<real>, bound: real)
    ensures CountAbove(a + [x] + b, bound) == CountAbove(a, bound) + (if bound < x then 1 else 0) + CountAbove(b, bound)
  {
    if b == [] {
      assert a + [x] + b == a + [x] && (a + [x])[..|a|] == a;
    } else {
      assert (a + [x] + b)[..|a + [x] + b| - 1] == a + [x] + b[..|b| - 1];
      CountMeaning(a, x, b[..|b| - 1], bound);
    }
  }

  /** The share of the values above zero; None when there are none. */
  predicate IsPositiveShare(share: Option<real>, values: seq<real>) {
    if values == [] then share.None?
    else share.Some? && share.value * |values| as real == CountAbove(values, 0.0) as real
  }

  /** deferredShareOf: count the known readings and those above zero. */
  method PositiveShare<T>(items: seq<T>, read: T -> Option<real>) returns (share: Option<real>)
    ensures IsPositiveShare(share, Known(items, read))
  {
    hide Known, CountAbove;
    NothingKnown(items, read);
    var known, positive := 0, 0;
    var i := 0;
    while i < |items|
      invariant 0 <= i <= |items|
      invariant known == |Known(items[..i], read)|
      invariant positive == CountAbove(Known(items[..i], read), 0.0)
    {
      OneMoreKnown(items, i, read);
      if read(items[i]).Some? {
        OneMoreCounted(Known(items[..i], read), read(items[i]).value, 0.0);
        known := known + 1;
        if read(items[i]).value > 0.0 {
          positive := positive + 1;
        }
      }
      i := i + 1;
    }
    assert items[..i] == items;
    share := if known == 0 then None else Some(positive as real / known as real);
  }

  lemma NothingKnown<T>(items: seq<T>, read: T -> Option<real>)
    ensures Known(items[..0], read) == [] && CountAbove([], 0.0) == 0
  {}

  lemma {:induction false} OneMoreKnown<T>(items: seq<T>, i: nat, read: T -> Option<real>)
    requires i < |items|
    ensures Known(items[..i + 1], read) ==
            if read(items[i]).Some? then Known(items[..i], read) + [read(items[i]).value] else Known(items[..i], read)
  {
    assert items[..i + 1][..i] == items[..i];
  }

  lemma {:induction false} OneMoreCounted(values: seq<real>, v: real, bound: real)
    ensures CountAbove(values + [v], bound) == CountAbove(values, bound) + if v > bound then 1 else 0
  {
    assert (values + [v])[..|values|] == values;
  }

  lemma {:induction false} CountAboveFits(values: seq<real>, bound: real)
    ensures CountAbove(values, bound) <= |values|
  {
    if values != [] {
      CountAboveFits(values[..|values| - 1], bound);
    }
  }

  /** A share is between 0 and 1, 0 exactly when nothing is above zero. */
  lemma {:induction false} ShareIsAShare(share: Option<real>, values: seq<real>)
    requires values != [] && IsPositiveShare(share, values)
    ensures 0.0 <= share.value <= 1.0 && (share.value == 0.0 <==> CountAbove(values, 0.0) == 0)
  {
    CountAboveFits(values, 0.0);
    Cancel(0.0, share.value, |values| as real);
    Cancel(share.value, 1.0, |values| as real);
  }

  /** Two counts of one completion: prompt tokens taken from the cache, and evaluated. */
  datatype CacheCounts = CacheCounts(cached: Option<real>, prompt: Option<real>)

  predicate Usable(c: CacheCounts) {
    c.cached.Some? && c.prompt.Some? && c.cached.value + c.prompt.value > 0.0
  }

  function CachedTokens(cs: seq<CacheCounts>): real {
    if cs == [] then 0.0
    else CachedTokens(cs[..|cs| - 1]) + if Usable(cs[|cs| - 1]) then cs[|cs| - 1].cached.value else 0.0
  }

  function PromptTokens(cs: seq<CacheCounts>): real {
    if cs == [] then 0.0
    else PromptTokens(cs[..|cs| - 1]) + if Usable(cs[|cs| - 1]) then cs[|cs| - 1].prompt.value else 0.0
  }

  /** A completion with both counts and at least one token adds each to its sum; any other adds nothing. */
  lemma {:induction false} TokensMeaning(a: seq<CacheCounts>, c: CacheCounts, b: seq<CacheCounts>)
    ensures var (cached, prompt) :=
              (match c
               case CacheCounts(Some(x), Some(y)) => if x + y > 0.0 then (x, y) else (0.0, 0.0)
               case _ => (0.0, 0.0));
            && CachedTokens(a + [c] + b) == CachedTokens(a) + cached + CachedTokens(b)
            && PromptTokens(a + [c] + b) == PromptTokens(a) + prompt + PromptTokens(b)
  {
    if b == [] {
      assert a + [c] + b == a + [c] && (a + [c])[..|a|] == a;
    } else {
      assert (a + [c] + b)[..|a + [c] + b| - 1] == a + [c] + b[..|b| - 1];
      TokensMeaning(a, c, b[..|b| - 1]);
    }
  }

  /** The cached share of all prompt tokens of the usable completions; None when there are no tokens. */
  predicate IsCachedShare(share: Option<real>, cs: seq<CacheCounts>) {
    var total := CachedTokens(cs) + PromptTokens(cs);
    if total > 0.0 then share.Some? && share.value * total == CachedTokens(cs) else share.None?
  }

  method CachedShareOf(cs: seq<CacheCounts>) returns (share: Option<real>)
    ensures IsCachedShare(share, cs)
  {
    var cached, uncached := 0.0, 0.0;
    var i := 0;
    while i < |cs|
      invariant 0 <= i <= |cs|
      invariant cached == CachedTokens(cs[..i]) && uncached == PromptTokens(cs[..i])
    {
      assert cs[..i + 1][..i] == cs[..i];
      if Usable(cs[i]) {
        cached := cached + cs[i].cached.value;
        uncached := uncached + cs[i].prompt.value;
      }
      i := i + 1;
    }
    assert cs[..i] == cs;
    var total := cached + uncached;
    share := if total > 0.0 then Some(cached / total) else None;
  }

  lemma {:induction false} TokensNonNegative(cs: seq<CacheCounts>)
    requires forall c :: c in cs ==>
               (c.cached.Some? ==> c.cached.value >= 0.0) && (c.prompt.Some? ==> c.prompt.value >= 0.0)
    ensures CachedTokens(cs) >= 0.0 && PromptTokens(cs) >= 0.0
    ensures CachedTokens(cs) + PromptTokens(cs) > 0.0 <==> exists i :: 0 <= i < |cs| && Usable(cs[i])
  {
    if cs != [] {
      var n := |cs| - 1;
      assert cs[n] in cs;
      forall c | c in cs[..n] ensures c in cs {}
      TokensNonNegative(cs[..n]);
      assert forall i :: 0 <= i < n ==> cs[..n][i] == cs[i];
    }
  }

  /**
   With counts that are never negative, as parsed, the share is between 0 and 1 and known whenever some
   completion is usable.
   */
  lemma {:induction false} CachedShareIsAShare(share: Option<real>, cs: seq<CacheCounts>)
    requires IsCachedShare(share, cs)
    requires forall c :: c in cs ==>
               (c.cached.Some? ==> c.cached.value >= 0.0) && (c.prompt.Some? ==> c.prompt.value >= 0.0)
    ensures share.Some? <==> exists i :: 0 <= i < |cs| && Usable(cs[i])
    ensures share.Some? ==> 0.0 <= share.value <= 1.0
  {
    TokensNonNegative(cs);
    var total := CachedTokens(cs) + PromptTokens(cs);
    if share.Some? {
      Cancel(0.0, share.value, total);
      Cancel(share.value, 1.0, total);
    }
  }
}
