/** The per-workload throughput recorder: bounded sample windows and the token rates measured over them. */
module EngineThroughput {
  import opened Prelude
  import opened Quantiles
  import opened Gauges

  type Workload = string

  datatype Counters = Counters(
    promptTokens: Option<real>,
    predictedTokens: Option<real>,
    requestsProcessing: Option<real>,
    requestsDeferred: Option<real>)

  datatype Sample = Sample(atMs: int, counters: Counters, busySlots: Option<nat>, revision: Option<string>)

  datatype Timings = Timings(promptPerSecond: Option<real>, predictedPerSecond: Option<real>, cache: CacheCounts)

  // ---- One pair of neighbouring samples ----------------------------------------------------------

  predicate Decreased(prev: Option<real>, next: Option<real>) {
    prev.Some? && next.Some? && next.value < prev.value
  }

  predicate IsCounterReset(a: Sample, b: Sample) {
    || (a.revision.Some? && b.revision.Some? && a.revision != b.revision)
    || Decreased(a.counters.promptTokens, b.counters.promptTokens)
    || Decreased(a.counters.predictedTokens, b.counters.predictedTokens)
  }

  function PositiveDelta(prev: Option<real>, next: Option<real>, dtSec: real): Option<real>
    requires dtSec > 0.0
  {
    if prev.None? || next.None? then None
    else
      var rate := (next.value - prev.value) / dtSec;
      if rate > 0.0 then Some(rate) else None
  }

  /** What a pair of neighbouring samples says. */
  datatype Interval =
    | Skipped
    | Reset
    | Rates(dtSec: real, decode: Option<real>, prefill: Option<real>, slots: Option<nat>)

  function Measure(a: Sample, b: Sample): Interval {
    var dtSec := (b.atMs - a.atMs) as real / 1000.0;
    if dtSec <= 0.0 then Skipped
    else if IsCounterReset(a, b) then Reset
    else Rates(dtSec,
               PositiveDelta(a.counters.predictedTokens, b.counters.predictedTokens, dtSec),
               PositiveDelta(a.counters.promptTokens, b.counters.promptTokens, dtSec),
               if a.busySlots == b.busySlots then a.busySlots else None)
  }

  function Intervals(samples: seq<Sample>): seq<Interval> {
    if |samples| < 2 then []
    else Intervals(samples[..|samples| - 1]) + [Measure(samples[|samples| - 2], samples[|samples| - 1])]
  }

  datatype Meter = Decode | Prefill

  function RateOf(i: Interval, m: Meter): Option<real> {
    if i.Rates? then (if m == Decode then i.decode else i.prefill) else None
  }

  function SlotRateOf(i: Interval, k: nat): Option<real> {
    if i.Rates? && i.slots == Some(k) then i.decode else None
  }

  function AsSeq<T>(o: Option<T>): seq<T> {
    if o.Some? then [o.value] else []
  }

  /** All rates of one meter, in order. */
  function MeterRates(ivs: seq<Interval>, m: Meter): seq<real> {
    if ivs == [] then [] else MeterRates(ivs[..|ivs| - 1], m) + AsSeq(RateOf(ivs[|ivs| - 1], m))
  }

  /** The decode rates seen while exactly `k` slots were busy at both ends. */
  function SlotRates(ivs: seq<Interval>, k: nat): seq<real> {
    if ivs == [] then [] else SlotRates(ivs[..|ivs| - 1], k) + AsSeq(SlotRateOf(ivs[|ivs| - 1], k))
  }

  function Resets(ivs: seq<Interval>): nat {
    if ivs == [] then 0 else Resets(ivs[..|ivs| - 1]) + if ivs[|ivs| - 1].Reset? then 1 else 0
  }

  predicate Moved(i: Interval) {
    RateOf(i, Decode).Some? || RateOf(i, Prefill).Some?
  }

  function Moves(ivs: seq<Interval>): nat {
    if ivs == [] then 0 else Moves(ivs[..|ivs| - 1]) + if Moved(ivs[|ivs| - 1]) then 1 else 0
  }

  lemma {:induction false} AppendInterval(ivs: seq<Interval>, i: Interval)
    ensures forall m :: MeterRates(ivs + [i], m) == MeterRates(ivs, m) + AsSeq(RateOf(i, m))
    ensures forall k :: SlotRates(ivs + [i], k) == SlotRates(ivs, k) + AsSeq(SlotRateOf(i, k))
    ensures Moves(ivs + [i]) == Moves(ivs) + if Moved(i) then 1 else 0
    ensures Resets(ivs + [i]) == Resets(ivs) + if i.Reset? then 1 else 0
  {
    hide RateOf, SlotRateOf, AsSeq, Moved;
    assert (ivs + [i])[..|ivs|] == ivs;
    forall k: nat | true ensures SlotRates(ivs + [i], k) == SlotRates(ivs, k) + AsSeq(SlotRateOf(i, k)) {}
  }

  // ---- Collecting the window ------------------------------------------------------------------------

  class IntervalRates {
    var decode: seq<real>
    var prefill: seq<real>
    var bySlots: map<nat, seq<real>>
    var intervalCount: nat
    var resets: nat

    constructor ()
      ensures Collects([])
    {
      decode := [];
      prefill := [];
      bySlots := map[];
      intervalCount := 0;
      resets := 0;
    }

    /** The fields hold exactly what the intervals say. */
    ghost predicate Collects(ivs: seq<Interval>)
      reads this
    {
      && decode == MeterRates(ivs, Decode)
      && prefill == MeterRates(ivs, Prefill)
      && (forall k :: k in bySlots <==> SlotRates(ivs, k) != [])
      && (forall k :: k in bySlots ==> bySlots[k] == SlotRates(ivs, k))
      && intervalCount == Moves(ivs)
      && resets == Resets(ivs)
    }

    method PushGroup(key: nat, value: real)
      modifies this`bySlots
      ensures bySlots == old(bySlots)[key := if key in old(bySlots) then old(bySlots)[key] + [value] else [value]]
    {
      if key !in bySlots {
        bySlots := bySlots[key := [value]];
        return;
      }
      bySlots := bySlots[key := bySlots[key] + [value]];
    }

    method AbsorbPair(a: Sample, b: Sample, ghost ivs: seq<Interval>)
      requires Collects(ivs)
      modifies this
      ensures Collects(ivs + [Measure(a, b)])
    {
      hide MeterRates, SlotRates, Moves, Resets, IsCounterReset, PositiveDelta;
      AppendInterval(ivs, Measure(a, b));
      var dtSec := (b.atMs - a.atMs) as real / 1000.0;
      if dtSec <= 0.0 {
        return;
      }
      if IsCounterReset(a, b) {
        resets := resets + 1;
        return;
      }
      var newDecode := PositiveDelta(a.counters.predictedTokens, b.counters.predictedTokens, dtSec);
      var newPrefill := PositiveDelta(a.counters.promptTokens, b.counters.promptTokens, dtSec);
      if newDecode.Some? {
        decode := decode + [newDecode.value];
      }
      if newPrefill.Some? {
        prefill := prefill + [newPrefill.value];
      }
      if newDecode.Some? || newPrefill.Some? {
        intervalCount := intervalCount + 1;
      }
      if newDecode.Some? && a.busySlots.Some? && a.busySlots == b.busySlots {
        PushGroup(a.busySlots.value, newDecode.value);
      }
    }
  }

  method CollectIntervals(samples: seq<Sample>) returns (rates: IntervalRates)
    ensures fresh(rates) && rates.Collects(Intervals(samples))
  {
    rates := new IntervalRates();
    var index := 0;
    while index < |samples|
      invariant 0 <= index <= |samples| && fresh(rates)
      invariant rates.Collects(Intervals(samples[..index]))
    {
      ghost var next := samples[..index + 1];
      assert next[..|next| - 1] == samples[..index];
      if index > 0 {
        rates.AbsorbPair(samples[index - 1], samples[index], Intervals(samples[..index]));
      }
      index := index + 1;
    }
    assert samples[..index] == samples;
  }

  // ---- What a new sample adds -----------------------------------------------------------------------------

  /** The engine restarted between the samples: another revision, or a counter that went back. */
  predicate Restarted(a: Sample, b: Sample) {
    || (a.revision != None && b.revision != None && a.revision.value != b.revision.value)
    || WentBack(a.counters.promptTokens, b.counters.promptTokens)
    || WentBack(a.counters.predictedTokens, b.counters.predictedTokens)
  }

  predicate WentBack(was: Option<real>, now: Option<real>) {
    was != None && now != None && now.value < was.value
  }

  /** The rate a growing counter adds to the list: per second, so `ms` milliseconds of it are the growth. */
  predicate Adds(before: seq<real>, after: seq<real>, was: Option<real>, now: Option<real>, ms: int) {
    if was != None && now != None && now.value > was.value then
      && |after| == |before| + 1 && after[..|before|] == before
      && after[|before|] * ms as real == (now.value - was.value) * 1000.0
    else after == before
  }

  /**
   A sample at the end of a window adds nothing if the clock did not move on, one reset if the engine restarted,
   and otherwise the rates of the counters that grew, the decode rate also to the group of the slots that were
   busy at both ends.
   */
  lemma {:induction false} NextSampleMeaning(samples: seq<Sample>, b: Sample)
    requires samples != []
    ensures var a := samples[|samples| - 1];
            var (ivs, ivs') := (Intervals(samples), Intervals(samples + [b]));
            var measured := a.atMs < b.atMs && !Restarted(a, b);
            && Resets(ivs') == Resets(ivs) + (if a.atMs < b.atMs && Restarted(a, b) then 1 else 0)
            && (!measured ==> Moves(ivs') == Moves(ivs) && forall m :: MeterRates(ivs', m) == MeterRates(ivs, m))
            && (!measured ==> forall k: nat :: SlotRates(ivs', k) == SlotRates(ivs, k))
            && (measured ==>
                  var (decode, prefill) := (MeterRates(ivs, Decode), MeterRates(ivs, Prefill));
                  var (decode', prefill') := (MeterRates(ivs', Decode), MeterRates(ivs', Prefill));
                  var ms := b.atMs - a.atMs;
                  && Adds(decode, decode', a.counters.predictedTokens, b.counters.predictedTokens, ms)
                  && Adds(prefill, prefill', a.counters.promptTokens, b.counters.promptTokens, ms)
                  && Moves(ivs') == Moves(ivs) + (if decode' != decode || prefill' != prefill then 1 else 0)
                  && forall k: nat ::
                       SlotRates(ivs', k) ==
                       if decode' != decode && a.busySlots == Some(k) && b.busySlots == Some(k) then
                         SlotRates(ivs, k) + [decode'[|decode|]]
                       else SlotRates(ivs, k))
  {
    hide MeterRates, SlotRates, Moves, Resets, Restarted, Adds;
    var a := samples[|samples| - 1];
    assert (samples + [b])[..|samples|] == samples;
    AppendInterval(Intervals(samples), Measure(a, b));
    RestartedIsReset(a, b);
    if a.atMs < b.atMs && !Restarted(a, b) {
      var i := Measure(a, b);
      var (decode, prefill) := (MeterRates(Intervals(samples), Decode), MeterRates(Intervals(samples), Prefill));
      RateAdds(decode, a.counters.predictedTokens, b.counters.predictedTokens, b.atMs - a.atMs);
      RateAdds(prefill, a.counters.promptTokens, b.counters.promptTokens, b.atMs - a.atMs);
    }
  }

  lemma RestartedIsReset(a: Sample, b: Sample)
    ensures Restarted(a, b) <==> IsCounterReset(a, b)
  {}

  lemma {:induction false} RateAdds(before: seq<real>, was: Option<real>, now: Option<real>, ms: int)
    requires ms > 0
    ensures Adds(before, before + AsSeq(PositiveDelta(was, now, ms as real / 1000.0)), was, now, ms)
  {
    if was.Some? && now.Some? {
      RateTimesTime(now.value - was.value, ms as real / 1000.0);
    }
  }

  // ---- What the rates mean -----------------------------------------------------------------------------

  function Counter(s: Sample, m: Meter): Option<real> {
    if m == Decode then s.counters.predictedTokens else s.counters.promptTokens
  }

  /** Tokens accounted for: each rate times the time it was measured over. */
  function Tokens(ivs: seq<Interval>, m: Meter): real {
    if ivs == [] then 0.0
    else
      var last := ivs[|ivs| - 1];
      Tokens(ivs[..|ivs| - 1], m) + if RateOf(last, m).Some? then RateOf(last, m).value * last.dtSec else 0.0
  }

  /**
   No rate can be measured across this pair: the clock did not advance, the engine restarted, or a counter is
   unknown.
   */
  predicate Breaks(a: Sample, b: Sample, m: Meter) {
    b.atMs <= a.atMs || IsCounterReset(a, b) || Counter(a, m).None? || Counter(b, m).None?
  }

  /** No break anywhere inside. */
  ghost predicate Unbroken(samples: seq<Sample>, m: Meter) {
    forall i :: 0 <= i < |samples| - 1 ==> !Breaks(samples[i], samples[i + 1], m)
  }

  /** Cut the samples at every break. */
  function Stretches(samples: seq<Sample>, m: Meter): seq<seq<Sample>> {
    if samples == [] then []
    else
      var n := |samples| - 1;
      var before := Stretches(samples[..n], m);
      if n == 0 || Breaks(samples[n - 1], samples[n], m) || before == [] then before + [[samples[n]]]
      else before[..|before| - 1] + [before[|before| - 1] + [samples[n]]]
  }

  function Flatten<T>(ss: seq<seq<T>>): seq<T> {
    if ss == [] then [] else Flatten(ss[..|ss| - 1]) + ss[|ss| - 1]
  }

  /** No break inside a piece, a break between any two neighbouring pieces. */
  ghost predicate CutAtBreaks(cut: seq<seq<Sample>>, m: Meter) {
    && (forall k :: 0 <= k < |cut| ==> cut[k] != [] && Unbroken(cut[k], m))
    && (forall k :: 0 <= k < |cut| - 1 ==> Breaks(cut[k][|cut[k]| - 1], cut[k + 1][0], m))
  }

  lemma {:induction false} NewStretch(cut: seq<seq<Sample>>, x: Sample, m: Meter)
    requires CutAtBreaks(cut, m) && (cut == [] || Breaks(cut[|cut| - 1][|cut[|cut| - 1]| - 1], x, m))
    ensures CutAtBreaks(cut + [[x]], m) && Flatten(cut + [[x]]) == Flatten(cut) + [x]
  {
    hide Breaks;
    assert (cut + [[x]])[..|cut|] == cut;
  }

  lemma {:induction false} LongerStretch(cut: seq<seq<Sample>>, x: Sample, m: Meter)
    requires CutAtBreaks(cut, m) && cut != [] && !Breaks(cut[|cut| - 1][|cut[|cut| - 1]| - 1], x, m)
    ensures var n := |cut| - 1;
            CutAtBreaks(cut[..n] + [cut[n] + [x]], m) && Flatten(cut[..n] + [cut[n] + [x]]) == Flatten(cut) + [x]
  {
    hide Breaks;
    var n := |cut| - 1;
    var longer := cut[..n] + [cut[n] + [x]];
    assert longer[..n] == cut[..n];
  }

  lemma {:induction false} StretchesStep(samples: seq<Sample>, m: Meter)
    ensures samples == [] ==> Stretches(samples, m) == []
    ensures samples != [] ==>
              var n := |samples| - 1;
              var before := Stretches(samples[..n], m);
              && (n == 0 ==> before == [])
              && Stretches(samples, m) ==
                 if n == 0 || Breaks(samples[n - 1], samples[n], m) || before == [] then before + [[samples[n]]]
                                          else before[..|before| - 1] + [before[|before| - 1] + [samples[n]]]
  {
    hide Breaks;
    assert Stretches([], m) == [];
  }

  lemma {:induction false} StretchesAreMaximal(samples: seq<Sample>, m: Meter)
    ensures var cut := Stretches(samples, m);
            CutAtBreaks(cut, m) && Flatten(cut) == samples && (samples != [] ==> cut != [])
  {
    hide Breaks, CutAtBreaks, Flatten, Stretches;
    StretchesStep(samples, m);
    if samples == [] {
      NoStretch(m);
    } else {
      var n := |samples| - 1;
      var before := Stretches(samples[..n], m);
      StretchesAreMaximal(samples[..n], m);
      assert samples == samples[..n] + [samples[n]];
      if n > 0 {
        LastStretch(before, m);
      }
      if n == 0 || Breaks(samples[n - 1], samples[n], m) {
        NewStretch(before, samples[n], m);
      } else {
        LongerStretch(before, samples[n], m);
      }
    }
  }

  lemma NoStretch(m: Meter)
    ensures CutAtBreaks([], m) && Flatten<Sample>([]) == []
  {}

  lemma {:induction false} LastStretch(cut: seq<seq<Sample>>, m: Meter)
    requires CutAtBreaks(cut, m) && cut != []
    ensures cut[|cut| - 1] != []
    ensures Flatten(cut) != [] && Flatten(cut)[|Flatten(cut)| - 1] == cut[|cut| - 1][|cut[|cut| - 1]| - 1]
  {
    hide Unbroken, Breaks;
    EndOfFlatten(cut);
  }

  lemma EndOfFlatten(ss: seq<seq<Sample>>)
    requires ss != [] && ss[|ss| - 1] != []
    ensures Flatten(ss) != [] && Flatten(ss)[|Flatten(ss)| - 1] == ss[|ss| - 1][|ss[|ss| - 1]| - 1]
  {}

  /** How far the counter moved from the first to the last sample of a stretch. */
  function Growth(stretch: seq<Sample>, m: Meter): real
    requires stretch != []
  {
    Counter(stretch[|stretch| - 1], m).GetOr(0.0) - Counter(stretch[0], m).GetOr(0.0)
  }

  function TotalGrowth(stretches: seq<seq<Sample>>, m: Meter): real
    requires forall k :: 0 <= k < |stretches| ==> stretches[k] != []
  {
    if stretches == [] then 0.0
    else TotalGrowth(stretches[..|stretches| - 1], m) + Growth(stretches[|stretches| - 1], m)
  }

  lemma RateTimesTime(delta: real, dt: real)
    requires dt > 0.0
    ensures (delta / dt) * dt == delta && (delta > 0.0 <==> delta / dt > 0.0)
  {}

  lemma {:induction false} MeasuredTokens(a: Sample, b: Sample, m: Meter)
    ensures var i := Measure(a, b);
            && (Breaks(a, b, m) ==> RateOf(i, m).None?)
            && (!Breaks(a, b, m) ==>
                  Counter(a, m).Some? && Counter(b, m).Some? && i.Rates? &&
                    (if RateOf(i, m).Some? then RateOf(i, m).value * i.dtSec else 0.0) ==
                      Counter(b, m).value - Counter(a, m).value)
  {
    if !Breaks(a, b, m) {
      RateTimesTime(Counter(b, m).value - Counter(a, m).value, (b.atMs - a.atMs) as real / 1000.0);
    }
  }

  /**
   For every window: the measured rates, each times its own interval, add up to exactly what the counter grew
   over the stretches between breaks, each taken from its first to its last sample.
   */
  lemma {:induction false} RatesConserveTokens(samples: seq<Sample>, m: Meter)
    ensures forall k :: 0 <= k < |Stretches(samples, m)| ==> Stretches(samples, m)[k] != []
    ensures Tokens(Intervals(samples), m) == TotalGrowth(Stretches(samples, m), m)
  {
    hide Breaks, Measure, RateOf, Counter, CutAtBreaks, Flatten, Tokens, TotalGrowth;
    StretchesAreMaximal(samples, m);
    PiecesNonEmpty(Stretches(samples, m), m);
    if |samples| < 2 {
      SmallWindow(samples, m);
      NoGrowth(samples, m);
    } else {
      var n := |samples| - 1;
      var before := Stretches(samples[..n], m);
      RatesConserveTokens(samples[..n], m);
      StretchesAreMaximal(samples[..n], m);
      var a, b := samples[n - 1], samples[n];
      assert samples[..n][n - 1] == a;
      MeasuredTokens(a, b, m);
      TokensStep(Intervals(samples[..n]), Measure(a, b), m);
      LastStretch(before, m);
      if Breaks(a, b, m) {
        GrowthOfNew(before, b, m);
      } else {
        GrowthOfLonger(before, b, m);
      }
    }
  }

  lemma {:induction false} SmallWindow(samples: seq<Sample>, m: Meter)
    requires |samples| < 2
    ensures Stretches(samples, m) == if samples == [] then [] else [samples]
  {
    hide Breaks;
    if samples != [] {
      assert Stretches(samples[..0], m) == [];
      assert samples == [samples[0]];
    }
  }

  lemma {:induction false} NoGrowth(samples: seq<Sample>, m: Meter)
    requires |samples| < 2
    ensures Tokens([], m) == 0.0 && TotalGrowth(if samples == [] then [] else [samples], m) == 0.0
  {
    if samples != [] {
      assert [samples][..0] == [];
    }
  }

  lemma PiecesNonEmpty(cut: seq<seq<Sample>>, m: Meter)
    requires CutAtBreaks(cut, m)
    ensures forall k :: 0 <= k < |cut| ==> cut[k] != []
  {}

  lemma {:induction false} TokensStep(ivs: seq<Interval>, i: Interval, m: Meter)
    ensures Tokens(ivs + [i], m) == Tokens(ivs, m) + if RateOf(i, m).Some? then RateOf(i, m).value * i.dtSec else 0.0
  {
    hide RateOf;
    assert (ivs + [i])[..|ivs|] == ivs;
  }

  lemma {:induction false} GrowthOfNew(cut: seq<seq<Sample>>, x: Sample, m: Meter)
    requires forall k :: 0 <= k < |cut| ==> cut[k] != []
    ensures TotalGrowth(cut + [[x]], m) == TotalGrowth(cut, m)
  {
    assert (cut + [[x]])[..|cut|] == cut;
  }

  lemma {:induction false} GrowthOfLonger(cut: seq<seq<Sample>>, x: Sample, m: Meter)
    requires cut != [] && forall k :: 0 <= k < |cut| ==> cut[k] != []
    ensures var n := |cut| - 1;
            var end := cut[n][|cut[n]| - 1];
            TotalGrowth(cut[..n] + [cut[n] + [x]], m) ==
              TotalGrowth(cut, m) + (Counter(x, m).GetOr(0.0) - Counter(end, m).GetOr(0.0))
  {
    var n := |cut| - 1;
    assert (cut[..n] + [cut[n] + [x]])[..n] == cut[..n];
  }

  /** With known counters, a running clock and no restart, the rates account for the whole movement of the counter. */
  lemma {:induction false} UnbrokenWindow(samples: seq<Sample>, m: Meter)
    requires samples != [] && Unbroken(samples, m)
    ensures Stretches(samples, m) == [samples]
    ensures Tokens(Intervals(samples), m) ==
            Counter(samples[|samples| - 1], m).GetOr(0.0) - Counter(samples[0], m).GetOr(0.0)
  {
    OneStretch(samples, m);
    RatesConserveTokens(samples, m);
    assert Stretches(samples, m)[..0] == [];
  }

  lemma {:induction false} OneStretch(samples: seq<Sample>, m: Meter)
    requires samples != [] && Unbroken(samples, m)
    ensures Stretches(samples, m) == [samples]
  {
    var n := |samples| - 1;
    assert samples == samples[..n] + [samples[n]];
    if n > 0 {
      OneStretch(samples[..n], m);
      assert !Breaks(samples[n - 1], samples[n], m) by { assert samples[n] == samples[n - 1 + 1]; }
    }
  }

  lemma {:induction false} IntervalsAreTheNeighbours(samples: seq<Sample>)
    ensures |Intervals(samples)| == Max(0, |samples| - 1)
    ensures forall i :: 0 <= i < |Intervals(samples)| ==> Intervals(samples)[i] == Measure(samples[i], samples[i + 1])
  {
    if |samples| >= 2 {
      IntervalsAreTheNeighbours(samples[..|samples| - 1]);
    }
  }

  /** Every pair is used at most once: as a counted interval, as a reset, or not at all. */
  lemma {:induction false} IntervalsAndResetsFit(ivs: seq<Interval>)
    ensures Moves(ivs) + Resets(ivs) <= |ivs|
    ensures Moves(ivs) + Resets(ivs) == |ivs| <==> forall i :: 0 <= i < |ivs| ==> ivs[i].Reset? || Moved(ivs[i])
  {
    if ivs != [] {
      var n := |ivs| - 1;
      IntervalsAndResetsFit(ivs[..n]);
      assert forall i :: 0 <= i < n ==> ivs[..n][i] == ivs[i];
    }
  }

  /** The samples in the groups for fewer than `bound` busy slots. */
  function GroupedBelow(ivs: seq<Interval>, bound: nat): nat {
    if bound == 0 then 0 else GroupedBelow(ivs, bound - 1) + |SlotRates(ivs, bound - 1)|
  }

  lemma {:induction false} GroupedBelowStep(ivs: seq<Interval>, bound: nat)
    requires ivs != []
    ensures var last := ivs[|ivs| - 1];
            GroupedBelow(ivs, bound) == GroupedBelow(ivs[..|ivs| - 1], bound)
            + if last.Rates? && last.decode.Some? && last.slots.Some? && last.slots.value < bound then 1 else 0
  {
    if bound > 0 {
      GroupedBelowStep(ivs, bound - 1);
    }
  }

  /** Each decode rate lands in at most one slot group. */
  lemma {:induction false} GroupsFitDecode(ivs: seq<Interval>, bound: nat)
    ensures GroupedBelow(ivs, bound) <= |MeterRates(ivs, Decode)|
  {
    if ivs == [] {
      NothingGrouped(bound);
    } else {
      GroupsFitDecode(ivs[..|ivs| - 1], bound);
      GroupedBelowStep(ivs, bound);
    }
  }

  lemma {:induction false} GroupFitsDecode(ivs: seq<Interval>, k: nat)
    ensures |SlotRates(ivs, k)| <= |MeterRates(ivs, Decode)|
  {
    GroupsFitDecode(ivs, k + 1);
  }

  lemma {:induction false} NothingGrouped(bound: nat)
    ensures GroupedBelow([], bound) == 0
  {
    if bound > 0 {
      NothingGrouped(bound - 1);
    }
  }

  // ---- The statistics handed out -------------------------------------------------------------------------

  datatype Distribution = Distribution(median: real, p10: real, p90: real, count: nat)

  function DistributionOf(values: seq<real>): Option<Distribution> {
    if values == [] then None
    else
      var sorted := Sort(values);
      Some(Distribution(RankValue(sorted, 0.5), RankValue(sorted, 0.1), RankValue(sorted, 0.9), |sorted|))
  }

  /** The three summary values are the nearest-rank quantiles of the values, hence samples, and in order. */
  lemma {:induction false} DistributionSummarises(values: seq<real>)
    requires values != []
    ensures var d := DistributionOf(values).value;
            && IsQuantile(values, 0.1, d.p10) && IsQuantile(values, 0.5, d.median) && IsQuantile(values, 0.9, d.p90)
            && d.p10 <= d.median <= d.p90
            && d.count == |values|
  {
    hide Sort, RankValue, IsQuantile;
    var d := DistributionOf(values).value;
    PercentileIsQuantile(values, 0.1);
    PercentileIsQuantile(values, 0.5);
    PercentileIsQuantile(values, 0.9);
    QuantilesAscend(values, 0.1, 0.5, d.p10, d.median);
    QuantilesAscend(values, 0.5, 0.9, d.median, d.p90);
    SortAscends(values);
  }

  datatype Stats = Stats(
    revision: Option<string>,
    sampleCount: nat,
    intervalCount: nat,
    counterResets: nat,
    decode: Option<Distribution>,
    prefill: Option<Distribution>,
    bySlots: map<nat, Distribution>,
    requestCount: nat,
    firstSampleAt: Option<int>,
    lastSampleAt: Option<int>,
    load: Load)

  /** The gauges of a window: occupancy, queueing, and what completions reported. */
  datatype Load = Load(
    meanBusySlots: Option<real>,
    maxBusySlots: Option<real>,
    meanRequestsProcessing: Option<real>,
    deferredShare: Option<real>,
    requestDecode: Option<Distribution>,
    requestPrefill: Option<Distribution>,
    cachedPromptShare: Option<real>)

  function BusyOf(s: Sample): Option<real> {
    if s.busySlots.Some? then Some(s.busySlots.value as real) else None
  }

  function ProcessingOf(s: Sample): Option<real> {
    s.counters.requestsProcessing
  }

  function DeferredOf(s: Sample): Option<real> {
    s.counters.requestsDeferred
  }

  function DecodeRateOf(t: Timings): Option<real> {
    t.predictedPerSecond
  }

  function PrefillRateOf(t: Timings): Option<real> {
    t.promptPerSecond
  }

  function CacheCountsOf(completions: seq<Timings>): seq<CacheCounts> {
    seq(|completions|, i requires 0 <= i < |completions| => completions[i].cache)
  }

  /** What may be read off the statistics of a window. */
  ghost predicate Summarises(stats: Stats, samples: seq<Sample>, completions: seq<Timings>) {
    var ivs := Intervals(samples);
    && stats.sampleCount == |samples|
    && stats.intervalCount == Moves(ivs)
    && stats.counterResets == Resets(ivs)
    && stats.decode == DistributionOf(MeterRates(ivs, Decode))
    && stats.prefill == DistributionOf(MeterRates(ivs, Prefill))
    && (forall k :: k in stats.bySlots <==> SlotRates(ivs, k) != [])
    && (forall k :: k in stats.bySlots ==> Some(stats.bySlots[k]) == DistributionOf(SlotRates(ivs, k)))
    && stats.requestCount == |completions|
    && stats.revision == (if samples == [] then None else samples[|samples| - 1].revision)
    && stats.firstSampleAt == (if samples == [] then None else Some(samples[0].atMs))
    && stats.lastSampleAt == (if samples == [] then None else Some(samples[|samples| - 1].atMs))
    && SummarisesLoad(stats.load, samples, completions)
  }

  ghost predicate SummarisesLoad(load: Load, samples: seq<Sample>, completions: seq<Timings>) {
    && IsMean(load.meanBusySlots, Known(samples, BusyOf))
    && IsMax(load.maxBusySlots, Known(samples, BusyOf))
    && IsMean(load.meanRequestsProcessing, Known(samples, ProcessingOf))
    && IsPositiveShare(load.deferredShare, Known(samples, DeferredOf))
    && load.requestDecode == DistributionOf(Known(completions, DecodeRateOf))
    && load.requestPrefill == DistributionOf(Known(completions, PrefillRateOf))
    && IsCachedShare(load.cachedPromptShare, CacheCountsOf(completions))
  }

  /** The mean occupancy is at most the maximal one; one is known exactly when the other is. */
  lemma {:induction false} MeanWithinMax(load: Load, samples: seq<Sample>, completions: seq<Timings>)
    requires SummarisesLoad(load, samples, completions)
    ensures load.meanBusySlots.Some? <==> load.maxBusySlots.Some?
    ensures load.meanBusySlots.Some? ==> 0.0 <= load.meanBusySlots.value <= load.maxBusySlots.value
  {
    var busy := Known(samples, BusyOf);
    if busy != [] {
      BusyIsNonNegative(samples);
      MeanBetween(load.meanBusySlots, busy, 0.0, load.maxBusySlots.value);
    }
  }

  lemma {:induction false} BusyIsNonNegative(samples: seq<Sample>)
    ensures forall v :: v in Known(samples, BusyOf) ==> v >= 0.0
  {
    if samples != [] {
      BusyIsNonNegative(samples[..|samples| - 1]);
    }
  }

  lemma {:induction false} SummaryBounds(stats: Stats, samples: seq<Sample>, completions: seq<Timings>)
    requires Summarises(stats, samples, completions) && samples != []
    ensures stats.intervalCount + stats.counterResets <= stats.sampleCount - 1
    ensures stats.decode.Some? ==> stats.decode.value.count <= stats.intervalCount
    ensures forall k :: k in stats.bySlots ==> stats.decode.Some? && stats.bySlots[k].count <= stats.decode.value.count
  {
    hide Sort, RankValue, IsQuantile, Intervals, MeterRates, SlotRates, Moves, Resets, GroupedBelow;
    var ivs := Intervals(samples);
    IntervalsAreTheNeighbours(samples);
    IntervalsAndResetsFit(ivs);
    MovesCoverDecode(ivs);
    if stats.decode.Some? {
      DistributionSummarises(MeterRates(ivs, Decode));
    }
    forall k | k in stats.bySlots ensures stats.decode.Some? && stats.bySlots[k].count <= stats.decode.value.count {
      GroupFitsDecode(ivs, k);
      DistributionSummarises(SlotRates(ivs, k));
    }
  }

  lemma {:induction false} MovesCoverDecode(ivs: seq<Interval>)
    ensures |MeterRates(ivs, Decode)| <= Moves(ivs)
  {
    if ivs != [] {
      MovesCoverDecode(ivs[..|ivs| - 1]);
    }
  }

  // ---- The recorder ------------------------------------------------------------------------------------------

  class WorkloadBuffer {
    var samples: seq<Sample>
    var completions: seq<Timings>

    constructor ()
      ensures samples == [] && completions == []
    {
      samples := [];
      completions := [];
    }

    method PushSample(sample: Sample, cap: nat)
      modifies this`samples
      ensures samples == LastOf(old(samples) + [sample], cap)
    {
      samples := samples + [sample];
      ghost var all := samples;
      while |samples| > cap
        invariant |samples| <= |all| && samples == all[|all| - |samples|..]
        invariant if |all| <= cap then samples == all else |samples| >= cap
      {
        samples := samples[1..];
      }
    }

    method PushCompletion(timings: Timings, cap: nat)
      modifies this`completions
      ensures completions == LastOf(old(completions) + [timings], cap)
    {
      completions := completions + [timings];
      ghost var all := completions;
      while |completions| > cap
        invariant |completions| <= |all| && completions == all[|all| - |completions|..]
        invariant if |all| <= cap then completions == all else |completions| >= cap
      {
        completions := completions[1..];
      }
    }
  }

  datatype Window = Window(samples: seq<Sample>, completions: seq<Timings>)

  class Recorder {
    const maxSamples: nat
    const maxRequests: nat
    var buffers: map<Workload, WorkloadBuffer>

    constructor (maxSamples: nat, maxRequests: nat)
      requires maxSamples >= 2 && maxRequests >= 1
      ensures Valid() && Windows() == map[] && this.maxSamples == maxSamples && this.maxRequests == maxRequests
    {
      this.maxSamples := maxSamples;
      this.maxRequests := maxRequests;
      buffers := map[];
    }

    /** No buffer serves two workloads. */
    ghost predicate Valid()
      reads this
    {
      && maxSamples >= 2 && maxRequests >= 1
      && forall v, w :: v in buffers && w in buffers && buffers[v] == buffers[w] ==> v == w
    }

    ghost function Windows(): map<Workload, Window>
      reads this, buffers.Values
    {
      map w | w in buffers :: Window(buffers[w].samples, buffers[w].completions)
    }

    ghost function WindowOf(w: Workload): Window
      reads this, buffers.Values
    {
      if w in Windows() then Windows()[w] else Window([], [])
    }

    method BufferFor(w: Workload) returns (buffer: WorkloadBuffer)
      requires Valid()
      modifies this`buffers
      ensures Valid() && w in buffers && buffers[w] == buffer
      ensures buffers.Values <= old(buffers.Values) + {buffer} && (buffer in old(buffers.Values) || fresh(buffer))
      ensures Windows() == old(Windows())[w := old(WindowOf(w))]
    {
      if w in buffers {
        buffer := buffers[w];
        assert Windows() == old(Windows());
        return;
      }
      buffer := new WorkloadBuffer();
      assert forall v :: v in buffers ==> buffers[v] in buffers.Values;
      buffers := buffers[w := buffer];
    }

    method RecordCounters(w: Workload, sample: Sample)
      requires Valid()
      modifies this, buffers.Values
      ensures Valid()
      ensures var was := old(WindowOf(w));
              Windows() == old(Windows())[w := was.(samples := LastOf(was.samples + [sample], maxSamples))]
    {
      hide LastOf;
      var buffer := BufferFor(w);
      ghost var mid := Windows();
      buffer.PushSample(sample, maxSamples);
      OnlyThisBuffer(w, mid);
    }

    method RecordCompletion(w: Workload, timings: Timings)
      requires Valid()
      modifies this, buffers.Values
      ensures Valid()
      ensures var was := old(WindowOf(w));
              Windows() == old(Windows())[w := was.(completions := LastOf(was.completions + [timings], maxRequests))]
    {
      hide LastOf;
      var buffer := BufferFor(w);
      ghost var mid := Windows();
      buffer.PushCompletion(timings, maxRequests);
      OnlyThisBuffer(w, mid);
    }

    /** Changing one buffer changes one window. */
    lemma OnlyThisBuffer(w: Workload, before: map<Workload, Window>)
      requires w in buffers && before.Keys == buffers.Keys
      requires forall v :: v in buffers && v != w ==> before[v] == Window(buffers[v].samples, buffers[v].completions)
      ensures Windows() == before[w := Window(buffers[w].samples, buffers[w].completions)]
    {}

    method Forget(w: Workload)
      requires Valid()
      modifies this
      ensures Valid() && Windows() == old(Windows()) - {w}
    {
      buffers := buffers - {w};
    }

    method Get(w: Workload) returns (stats: Option<Stats>)
      requires Valid()
      ensures stats.Some? <==> w in Windows()
      ensures stats.Some? ==> Summarises(stats.value, Windows()[w].samples, Windows()[w].completions)
    {
      if w !in buffers {
        return None;
      }
      var buffer := buffers[w];
      var summary := Summary(buffer.samples, buffer.completions);
      stats := Some(summary);
    }
  }

  /** One distribution per group; no group is empty. */
  function DistributionsByGroup(groups: map<nat, seq<real>>): (out: map<nat, Distribution>)
    requires forall k :: k in groups ==> groups[k] != []
    ensures out.Keys == groups.Keys
    ensures forall k :: k in groups ==> Some(out[k]) == DistributionOf(groups[k])
  {
    map k | k in groups :: DistributionOf(groups[k]).value
  }

  /** What `get` computes from a buffer. */
  method Summary(samples: seq<Sample>, completions: seq<Timings>) returns (stats: Stats)
    ensures Summarises(stats, samples, completions)
  {
    hide Intervals, MeterRates, SlotRates, Moves, Resets, SummarisesLoad, DistributionOf;
    var rates := CollectIntervals(samples);
    var bySlots := DistributionsByGroup(rates.bySlots);
    var load := LoadOf(samples, completions);
    var first := if samples == [] then None else Some(samples[0].atMs);
    var last := if samples == [] then None else Some(samples[|samples| - 1].atMs);
    var revision := if samples == [] then None else samples[|samples| - 1].revision;
    stats := Stats(revision, |samples|, rates.intervalCount, rates.resets,
                   DistributionOf(rates.decode), DistributionOf(rates.prefill), bySlots,
                   |completions|, first, last, load);
  }

  method LoadOf(samples: seq<Sample>, completions: seq<Timings>) returns (load: Load)
    ensures SummarisesLoad(load, samples, completions)
  {
    hide IsMean, IsMax, IsPositiveShare, IsCachedShare, Known, DistributionOf, BusyOf, ProcessingOf, DeferredOf,
      DecodeRateOf, PrefillRateOf;
    var busy := DefinedValues(samples, BusyOf);
    var processing := DefinedValues(samples, ProcessingOf);
    var requestDecode := DefinedValues(completions, DecodeRateOf);
    var requestPrefill := DefinedValues(completions, PrefillRateOf);
    var meanBusy := MeanOf(busy);
    var maxBusy := MaxOf(busy);
    var meanProcessing := MeanOf(processing);
    var deferredShare := PositiveShare(samples, DeferredOf);
    var cachedShare := CachedShareOf(CacheCountsOf(completions));
    load := Load(meanBusy, maxBusy, meanProcessing, deferredShare, DistributionOf(requestDecode),
                 DistributionOf(requestPrefill), cachedShare);
  }

  /** The recorder refuses windows of fewer than two samples or fewer than one request. */
  method NewRecorder(maxSamples: int, maxRequests: int) returns (recorder: Option<Recorder>)
    ensures recorder.Some? <==> maxSamples >= 2 && maxRequests >= 1
    ensures recorder.Some? ==> fresh(recorder.value) && recorder.value.Valid() && recorder.value.Windows() == map[]
    ensures recorder.Some? ==> recorder.value.maxSamples == maxSamples && recorder.value.maxRequests == maxRequests
  {
    if maxSamples < 2 || maxRequests < 1 {
      return None;
    }
    var created := new Recorder(maxSamples, maxRequests);
    recorder := Some(created);
  }

  // ---- Whole histories ---------------------------------------------------------------------------------------

  datatype Event =
    | Sampled(w: Workload, sample: Sample)
    | Completed(w: Workload, timings: Timings)
    | Forgotten(w: Workload)

  function Existing(windows: map<Workload, Window>, w: Workload): Window {
    if w in windows then windows[w] else Window([], [])
  }

  /** The effect of one recorder call on its windows, as the methods' contracts state it. */
  function Record(windows: map<Workload, Window>, e: Event, maxSamples: nat, maxRequests: nat): map<Workload, Window> {
    var was := Existing(windows, e.w);
    match e
    case Sampled(w, sample) => windows[w := was.(samples := LastOf(was.samples + [sample], maxSamples))]
    case Completed(w, timings) => windows[w := was.(completions := LastOf(was.completions + [timings], maxRequests))]
    case Forgotten(w) => windows - {w}
  }

  function RecordAll(events: seq<Event>, maxSamples: nat, maxRequests: nat): map<Workload, Window> {
    if events == [] then map[]
    else
      var before := RecordAll(events[..|events| - 1], maxSamples, maxRequests);
      Record(before, events[|events| - 1], maxSamples, maxRequests)
  }

  /** Everything recorded for a workload since it was last forgotten; None when nothing was. */
  function Since(events: seq<Event>, w: Workload): Option<Window> {
    if events == [] then None
    else
      var before := Since(events[..|events| - 1], w);
      var was := before.GetOr(Window([], []));
      var e := events[|events| - 1];
      if e.w != w then before
      else match e
           case Sampled(_, sample) => Some(was.(samples := was.samples + [sample]))
           case Completed(_, timings) => Some(was.(completions := was.completions + [timings]))
           case Forgotten(_) => None
  }

  /** After any sequence of calls a workload's buffer is exactly the last `maxSamples` samples of its history. */
  lemma {:induction false} WindowIsLastOfHistory(events: seq<Event>, w: Workload, maxSamples: nat, maxRequests: nat)
    ensures var windows := RecordAll(events, maxSamples, maxRequests);
            && (w in windows <==> Since(events, w).Some?)
            && (w in windows ==> windows[w] == Window(LastOf(Since(events, w).value.samples, maxSamples),
                                                      LastOf(Since(events, w).value.completions, maxRequests)))
  {
    if events != [] {
      WindowIsLastOfHistory(events[..|events| - 1], w, maxSamples, maxRequests);
    }
  }
}
