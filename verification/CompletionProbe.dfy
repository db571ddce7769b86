/**
 The busy guard of the completion probe: decides whether a failed completion on a processing server is
 slow progress or a wedge. Its answers over any run of probes are proved to match a definition that
 looks only at the history of readings.
 */
module CompletionProbe {
  import opened Prelude

  datatype Classification = Ok | Wedge | Misconfigured

  datatype Slot = Slot(processing: Option<bool>, nPast: Option<int>, nDecoded: Option<int>)

  datatype Reading = Reading(available: bool, slots: seq<Slot>)

  datatype Counters = Counters(nPast: Option<int>, nDecoded: Option<int>)

  datatype Progress = Progress(processing: bool, ambiguousProcessing: bool, counters: Counters)

  datatype BusyProgress = BusyProgress(counters: Counters, stallChecks: int, lastAdvanceAt: int)

  datatype Reason = Busy | StallBelowThreshold | GenuineWedge | IdleWedge

  datatype Config = Config(busyStallChecks: int, minStallIntervalMs: int)

  datatype Probe = Probe(classification: Classification, reading: Reading, now: int)

  datatype Guarded = Guarded(failures: int, reason: Option<Reason>, progress: Option<BusyProgress>)

  // ---- maxProgress --------------------------------------------------------------------

  function Raise(m: Option<int>, v: Option<int>): Option<int> {
    if v.None? then m else if m.None? then v else Some(Max(m.value, v.value))
  }

  function ProgressOf(slots: seq<Slot>): Progress {
    if slots == [] then Progress(false, false, Counters(None, None))
    else
      var p := ProgressOf(slots[..|slots| - 1]);
      var s := slots[|slots| - 1];
      Progress(p.processing || s.processing == Some(true),
               p.ambiguousProcessing || s.processing.None?,
               if s.processing == Some(true)
               then Counters(Raise(p.counters.nPast, s.nPast), Raise(p.counters.nDecoded, s.nDecoded))
               else p.counters)
  }

  /** `m` is the greatest value `read` reports on a processing slot; None when no such slot reports one. */
  ghost predicate IsGreatest(m: Option<int>, slots: seq<Slot>, read: Slot -> Option<int>) {
    && (m.None? <==> forall i :: 0 <= i < |slots| && slots[i].processing == Some(true) ==> read(slots[i]).None?)
    && (m.Some? ==>
          && (exists i :: 0 <= i < |slots| && slots[i].processing == Some(true) && read(slots[i]) == m)
          && (forall i :: 0 <= i < |slots| && slots[i].processing == Some(true) && read(slots[i]).Some? ==>
                read(slots[i]).value <= m.value))
  }

  method MaxProgress(reading: Reading) returns (p: Progress)
    ensures p == ProgressOf(reading.slots)
    ensures p.processing <==> exists i :: 0 <= i < |reading.slots| && reading.slots[i].processing == Some(true)
    ensures p.ambiguousProcessing <==> exists i :: 0 <= i < |reading.slots| && reading.slots[i].processing.None?
    ensures IsGreatest(p.counters.nPast, reading.slots, (s: Slot) => s.nPast)
    ensures IsGreatest(p.counters.nDecoded, reading.slots, (s: Slot) => s.nDecoded)
  {
    var processing, ambiguousProcessing := false, false;
    var nPast, nDecoded: Option<int> := None, None;
    var i := 0;
    while i < |reading.slots|
      invariant 0 <= i <= |reading.slots|
      invariant Progress(processing, ambiguousProcessing, Counters(nPast, nDecoded)) == ProgressOf(reading.slots[..i])
    {
      var slot := reading.slots[i];
      assert reading.slots[..i + 1][..i] == reading.slots[..i];
      i := i + 1;
      if slot.processing.None? { ambiguousProcessing := true; }
      if slot.processing != Some(true) { continue; }
      processing := true;
      if slot.nPast.Some? { nPast := Some(Max(nPast.GetOr(slot.nPast.value), slot.nPast.value)); }
      if slot.nDecoded.Some? { nDecoded := Some(Max(nDecoded.GetOr(slot.nDecoded.value), slot.nDecoded.value)); }
    }
    assert reading.slots[..i] == reading.slots;
    p := Progress(processing, ambiguousProcessing, Counters(nPast, nDecoded));
    ProgressMeaning(reading.slots);
  }

  lemma {:induction false} ProgressMeaning(slots: seq<Slot>)
    ensures var p := ProgressOf(slots);
            && (p.processing <==> exists i :: 0 <= i < |slots| && slots[i].processing == Some(true))
            && (p.ambiguousProcessing <==> exists i :: 0 <= i < |slots| && slots[i].processing.None?)
            && IsGreatest(p.counters.nPast, slots, (s: Slot) => s.nPast)
            && IsGreatest(p.counters.nDecoded, slots, (s: Slot) => s.nDecoded)
  {
    if slots != [] {
      var init, s := slots[..|slots| - 1], slots[|slots| - 1];
      ProgressMeaning(init);
      var p := ProgressOf(init);
      assert forall i :: 0 <= i < |init| ==> slots[i] == init[i];
      GreatestOfOneMore(p.counters.nPast, slots, (t: Slot) => t.nPast);
      GreatestOfOneMore(p.counters.nDecoded, slots, (t: Slot) => t.nDecoded);
    }
  }

  lemma {:induction false} GreatestOfOneMore(m: Option<int>, slots: seq<Slot>, read: Slot -> Option<int>)
    requires slots != [] && IsGreatest(m, slots[..|slots| - 1], read)
    ensures var s := slots[|slots| - 1];
            IsGreatest(if s.processing == Some(true) then Raise(m, read(s)) else m, slots, read)
  {
    var init, s := slots[..|slots| - 1], slots[|slots| - 1];
    assert forall i :: 0 <= i < |init| ==> slots[i] == init[i];
    if m.Some? {
      var i :| 0 <= i < |init| && init[i].processing == Some(true) && read(init[i]) == m;
      assert slots[i].processing == Some(true) && read(slots[i]) == m;
    }
    if s.processing == Some(true) {
      assert read(slots[|slots| - 1]) == read(s);
    }
  }

  // ---- The guard ----------------------------------------------------------------------------

  predicate Greater(a: Option<int>, b: Option<int>) {
    a.Some? && b.Some? && a.value > b.value
  }

  predicate Advanced(current: Counters, last: Counters) {
    Greater(current.nPast, last.nPast) || Greater(current.nDecoded, last.nDecoded)
  }

  predicate Lowered(current: Counters, last: Counters) {
    Greater(last.nPast, current.nPast) || Greater(last.nDecoded, current.nDecoded)
  }

  predicate Ambiguous(current: Counters, last: Counters) {
    (current.nPast.None? && last.nPast.Some?) || (current.nDecoded.None? && last.nDecoded.Some?)
  }

  function ApplyBusyGuard(cfg: Config, prior: int, last: Option<BusyProgress>, p: Probe): Guarded {
    if p.classification != Wedge || !p.reading.available then Guarded(prior, None, last)
    else
      var progress := ProgressOf(p.reading.slots);
      if !progress.processing then
        if progress.ambiguousProcessing then Guarded(prior, None, last)
        else Guarded(prior + 1, Some(IdleWedge), last)
      else
        var observed := progress.counters;
        if last.None? || Advanced(observed, last.value.counters) || Lowered(observed, last.value.counters) then
          Guarded(prior, Some(Busy), Some(BusyProgress(observed, 0, p.now)))
        else if Ambiguous(observed, last.value.counters) then
          Guarded(prior, Some(Busy), Some(last.value.(counters := observed)))
        else if p.now - last.value.lastAdvanceAt < cfg.minStallIntervalMs then
          Guarded(prior, Some(StallBelowThreshold), Some(last.value.(counters := observed)))
        else
          var stallChecks := last.value.stallChecks + 1;
          var next := Some(BusyProgress(observed, stallChecks, last.value.lastAdvanceAt));
          if stallChecks < cfg.busyStallChecks then Guarded(prior, Some(StallBelowThreshold), next)
          else Guarded(prior + 1, Some(GenuineWedge), next)
  }

  /** The guard folded over a run of probes, each result feeding the next call. */
  function Fold(cfg: Config, failures: int, h: seq<Probe>): Guarded {
    if h == [] then Guarded(failures, None, None)
    else
      var before := Fold(cfg, failures, h[..|h| - 1]);
      ApplyBusyGuard(cfg, before.failures, before.progress, h[|h| - 1])
  }

  // ---- What the history alone says ---------------------------------------------------------------

  /** The counters a probe observed, if it failed while the server was visibly processing. */
  ghost function Observed(p: Probe): Option<Counters> {
    if p.classification == Wedge && p.reading.available && ProgressOf(p.reading.slots).processing
    then Some(ProgressOf(p.reading.slots).counters) else None
  }

  ghost function LastObserved(h: seq<Probe>): Option<Counters> {
    if h == [] then None
    else if Observed(h[|h| - 1]).Some? then Observed(h[|h| - 1])
    else LastObserved(h[..|h| - 1])
  }

  /** Probe `i` is the first observation, or saw a counter move either way since the previous one. */
  ghost predicate ResetsAt(h: seq<Probe>, i: int) {
    && 0 <= i < |h| && Observed(h[i]).Some?
    && var last := LastObserved(h[..i]);
       last.None? || Advanced(Observed(h[i]).value, last.value) || Lowered(Observed(h[i]).value, last.value)
  }

  /** Probe `i` saw the server processing with no counter moved and none gone missing. */
  ghost predicate FlatAt(h: seq<Probe>, i: int) {
    && 0 <= i < |h| && Observed(h[i]).Some? && !ResetsAt(h, i)
    && !Ambiguous(Observed(h[i]).value, LastObserved(h[..i]).value)
  }

  /** `r` is the last reset of the history. */
  ghost predicate IsLastReset(h: seq<Probe>, r: int) {
    ResetsAt(h, r) && forall i :: r < i < |h| ==> !ResetsAt(h, i)
  }

  /** The stalls that count: flat probes at least the minimum interval after reset `r`. */
  ghost function Stalls(cfg: Config, h: seq<Probe>, r: int): set<int>
    requires 0 <= r < |h|
  {
    set i | r < i < |h| && FlatAt(h, i) && h[i].now - h[r].now >= cfg.minStallIntervalMs
  }

  lemma {:induction false} HistoryPrefix(h: seq<Probe>, p: Probe)
    ensures forall i :: 0 <= i < |h| ==>
              (ResetsAt(h + [p], i) <==> ResetsAt(h, i)) && (FlatAt(h + [p], i) <==> FlatAt(h, i))
  {
    forall i | 0 <= i < |h| ensures (h + [p])[i] == h[i] && (h + [p])[..i] == h[..i] {}
  }

  /** The carried state is determined by the history: last counters, time of the last reset, counted stalls since. */
  ghost predicate StateMatches(cfg: Config, progress: Option<BusyProgress>, h: seq<Probe>, r: int) {
    if progress.None? then LastObserved(h).None? && forall i :: 0 <= i < |h| ==> !ResetsAt(h, i)
    else
      && LastObserved(h) == Some(progress.value.counters)
      && IsLastReset(h, r)
      && progress.value.lastAdvanceAt == h[r].now
      && progress.value.stallChecks == |Stalls(cfg, h, r)|
  }

  lemma {:induction false} GuardStateIsHistory(cfg: Config, failures: int, h: seq<Probe>) returns (r: int)
    ensures StateMatches(cfg, Fold(cfg, failures, h).progress, h, r)
  {
    r := 0;
    if h != [] {
      var init, p := h[..|h| - 1], h[|h| - 1];
      r := GuardStateIsHistory(cfg, failures, init);
      r := OneMoreProbe(cfg, Fold(cfg, failures, init), init, p, r);
      assert h == init + [p];
    }
  }

  /** The step in terms of what was observed: unobserved probes keep the state, resets restart it, the rest carry it. */
  lemma StepOnObservation(cfg: Config, before: Guarded, p: Probe)
    ensures var g := ApplyBusyGuard(cfg, before.failures, before.progress, p);
            && (Observed(p).None? ==> g.progress == before.progress && g.reason != Some(GenuineWedge))
            && (Observed(p).Some? ==>
                  var c, last := Observed(p).value, before.progress;
                  if last.None? || Advanced(c, last.value.counters) || Lowered(c, last.value.counters)
                  then g.progress == Some(BusyProgress(c, 0, p.now)) && g.reason != Some(GenuineWedge)
                  else
                    var counts := !Ambiguous(c, last.value.counters) &&
                        p.now - last.value.lastAdvanceAt >= cfg.minStallIntervalMs;
                    var checks := last.value.stallChecks + if counts then 1 else 0;
                    && g.progress == Some(BusyProgress(c, checks, last.value.lastAdvanceAt))
                    && (g.reason == Some(GenuineWedge) <==> counts && checks >= cfg.busyStallChecks))
            && g.failures == before.failures + if g.reason in {Some(GenuineWedge), Some(IdleWedge)} then 1 else 0
  {}

  lemma {:induction false} OneMoreProbe(cfg: Config, before: Guarded, h: seq<Probe>, p: Probe, r: int) returns (r': int)
    requires StateMatches(cfg, before.progress, h, r)
    ensures StateMatches(cfg, ApplyBusyGuard(cfg, before.failures, before.progress, p).progress, h + [p], r')
  {
    hide ApplyBusyGuard, Observed, Advanced, Lowered, Ambiguous;
    var all := h + [p];
    StepOnObservation(cfg, before, p);
    HistoryPrefix(h, p);
    assert all[..|h|] == h && all[|h|] == p;
    r' := if ResetsAt(all, |h|) then |h| else r;
    if ResetsAt(all, |h|) {
      assert Stalls(cfg, all, r') == {};
    } else if before.progress.Some? {
      StallsOfOneMore(cfg, h, p, r);
    }
  }

  lemma {:induction false} StallsOfOneMore(cfg: Config, h: seq<Probe>, p: Probe, r: int)
    requires 0 <= r < |h|
    ensures Stalls(cfg, h + [p], r) ==
            Stalls(cfg, h, r) + if FlatAt(h + [p], |h|) && p.now - h[r].now >= cfg.minStallIntervalMs then {|h|} else {}
  {
    hide ResetsAt, FlatAt;
    HistoryPrefix(h, p);
  }

  // ---- Main results -----------------------------------------------------------------------------------

  /**
   A wedge is declared exactly when the probe is itself a counted stall and, since the last first /
   advancing / lowering reading, at least `busyStallChecks` stalled probes were each taken at least
   `minStallIntervalMs` after it.
   */
  lemma {:induction false} WedgeNeedsEvidence(cfg: Config, failures: int, h: seq<Probe>)
    requires h != []
    ensures Fold(cfg, failures, h).reason == Some(GenuineWedge) <==>
            exists r :: IsLastReset(h, r) && |h| - 1 in Stalls(cfg, h, r) && |Stalls(cfg, h, r)| >= cfg.busyStallChecks
  {
    hide ApplyBusyGuard, Observed, Advanced, Lowered, Ambiguous;
    var init, p := h[..|h| - 1], h[|h| - 1];
    var r := GuardStateIsHistory(cfg, failures, init);
    var before := Fold(cfg, failures, init);
    assert h == init + [p];
    StepOnObservation(cfg, before, p);
    HistoryPrefix(init, p);
    if before.progress.Some? && !ResetsAt(h, |init|) {
      assert IsLastReset(h, r);
      StallsOfOneMore(cfg, init, p, r);
      forall q | IsLastReset(h, q) ensures q == r {}
    }
  }

  /** Probe `i` raised the failure count. */
  ghost predicate RaisesAt(cfg: Config, failures: int, h: seq<Probe>, i: int) {
    0 <= i < |h| && Fold(cfg, failures, h[..i + 1]).reason in {Some(GenuineWedge), Some(IdleWedge)}
  }

  /** The failure count is the number of wedge and idle-wedge verdicts, nothing else. */
  lemma {:induction false} FailuresCountWedges(cfg: Config, failures: int, h: seq<Probe>)
    ensures Fold(cfg, failures, h).failures == failures + |set i | 0 <= i < |h| && RaisesAt(cfg, failures, h, i)|
  {
    hide ApplyBusyGuard;
    var raised := set i | 0 <= i < |h| && RaisesAt(cfg, failures, h, i);
    if h == [] {
      assert raised == {};
    } else {
      var init := h[..|h| - 1];
      FailuresCountWedges(cfg, failures, init);
      var earlier := set i | 0 <= i < |init| && RaisesAt(cfg, failures, init, i);
      forall i | 0 <= i < |init| ensures RaisesAt(cfg, failures, h, i) <==> RaisesAt(cfg, failures, init, i) {
        assert h[..i + 1] == init[..i + 1];
      }
      assert h[..|h|] == h;
      StepOnObservation(cfg, Fold(cfg, failures, init), h[|init|]);
      assert raised == earlier + if RaisesAt(cfg, failures, h, |init|) then {|init|} else {};
    }
  }

  /**
   Only a reset lowers `stallChecks` or moves `lastAdvanceAt`: readings that are unavailable, ambiguous or have
   lost a counter do neither.
   */
  lemma {:induction false} OnlyResetsForgive(cfg: Config, failures: int, h: seq<Probe>, p: Probe)
    requires Fold(cfg, failures, h).progress.Some? && !ResetsAt(h + [p], |h|)
    ensures var before, after := Fold(cfg, failures, h).progress.value, Fold(cfg, failures, h + [p]).progress;
            after.Some? && after.value.lastAdvanceAt == before.lastAdvanceAt &&
              after.value.stallChecks >= before.stallChecks
  {
    assert (h + [p])[..|h|] == h;
    var r := GuardStateIsHistory(cfg, failures, h);
  }

  /** Every probe of `run` is processing, flat against the one before, and past the stall window. */
  ghost predicate FlatRun(cfg: Config, last: BusyProgress, run: seq<Probe>)
    decreases |run|
  {
    run != [] ==>
      && Observed(run[0]).Some?
      && var c := Observed(run[0]).value;
         && !Advanced(c, last.counters) && !Lowered(c, last.counters) && !Ambiguous(c, last.counters)
         && run[0].now - last.lastAdvanceAt >= cfg.minStallIntervalMs
         && FlatRun(cfg, last.(counters := c, stallChecks := last.stallChecks + 1), run[1..])
  }

  ghost function FoldFrom(cfg: Config, g: Guarded, run: seq<Probe>): Guarded
    decreases |run|
  {
    if run == [] then g else FoldFrom(cfg, ApplyBusyGuard(cfg, g.failures, g.progress, run[0]), run[1..])
  }

  /**
   n flat probes after the window opens raise failures by exactly the number of checks at or beyond the
   threshold; from zero stall checks that is max(0, n - busyStallChecks + 1) when busyStallChecks >= 1.
   */
  lemma {:induction false} FlatRunRaisesExactly(cfg: Config, g: Guarded, run: seq<Probe>)
    requires g.progress.Some? && FlatRun(cfg, g.progress.value, run)
    ensures FoldFrom(cfg, g, run).failures ==
            g.failures + Max(0, Min(|run|, g.progress.value.stallChecks + |run| - cfg.busyStallChecks + 1))
    ensures g.progress.value.stallChecks == 0 && cfg.busyStallChecks >= 1 ==>
              FoldFrom(cfg, g, run).failures == g.failures + Max(0, |run| - cfg.busyStallChecks + 1)
    decreases |run|
  {
    if run != [] {
      FlatRunRaisesExactly(cfg, ApplyBusyGuard(cfg, g.failures, g.progress, run[0]), run[1..]);
    }
  }

  lemma {:induction false} FoldSplits(cfg: Config, failures: int, h: seq<Probe>, run: seq<Probe>)
    ensures Fold(cfg, failures, h + run).failures == FoldFrom(cfg, Fold(cfg, failures, h), run).failures
    decreases |run|
  {
    if run == [] {
      assert h + run == h;
    } else {
      assert h + run == (h + [run[0]]) + run[1..];
      assert (h + [run[0]])[..|h|] == h;
      FoldSplits(cfg, failures, h + [run[0]], run[1..]);
    }
  }

  // ---- The same in terms of the slots alone ----------------------------------------------------------

  /** The completion failed on an idle server: every slot is known not to be processing. */
  ghost predicate IdleFailure(p: Probe) {
    && p.classification == Wedge && p.reading.available
    && forall i :: 0 <= i < |p.reading.slots| ==> p.reading.slots[i].processing == Some(false)
  }

  /** The completion failed while some slot was processing. */
  ghost predicate BusyFailure(p: Probe) {
    && p.classification == Wedge && p.reading.available
    && exists i :: 0 <= i < |p.reading.slots| && p.reading.slots[i].processing == Some(true)
  }

  lemma {:induction false} ObservedIsBusyFailure(p: Probe)
    ensures Observed(p).Some? <==> BusyFailure(p)
    ensures Observed(p).Some? ==>
              && IsGreatest(Observed(p).value.nPast, p.reading.slots, (s: Slot) => s.nPast)
              && IsGreatest(Observed(p).value.nDecoded, p.reading.slots, (s: Slot) => s.nDecoded)
  {
    ProgressMeaning(p.reading.slots);
  }

  /** A counter known on both sides differs. */
  ghost predicate Differs(a: Option<int>, b: Option<int>) {
    a.Some? && b.Some? && a.value != b.value
  }

  /** A reset is the first reading of a busy failure, or one where a counter known both times has changed. */
  lemma {:induction false} ResetMeaning(h: seq<Probe>, i: int)
    requires 0 <= i < |h|
    ensures ResetsAt(h, i) <==>
              && Observed(h[i]).Some?
              && var last := LastObserved(h[..i]);
                 || last.None?
                 || Differs(Observed(h[i]).value.nPast, last.value.nPast)
                 || Differs(Observed(h[i]).value.nDecoded, last.value.nDecoded)
  {
    hide Observed;
  }

  /** A flat reading follows another one, changes no counter known both times, and loses none. */
  lemma {:induction false} FlatMeaning(h: seq<Probe>, i: int)
    requires 0 <= i < |h|
    ensures FlatAt(h, i) <==>
              && Observed(h[i]).Some? && LastObserved(h[..i]).Some?
              && var now, last := Observed(h[i]).value, LastObserved(h[..i]).value;
                 && (last.nPast.Some? ==> now.nPast == last.nPast)
                 && (last.nDecoded.Some? ==> now.nDecoded == last.nDecoded)
  {
    hide Observed;
  }

  /** What each verdict means: idle wedge, nothing to say, or one of the verdicts on a busy server. */
  lemma {:induction false} VerdictMeaning(cfg: Config, failures: int, h: seq<Probe>)
    requires h != []
    ensures var g, p, before := Fold(cfg, failures, h), h[|h| - 1], Fold(cfg, failures, h[..|h| - 1]);
            && (g.reason == Some(IdleWedge) <==> IdleFailure(p))
            && (g.reason == None <==> !IdleFailure(p) && !BusyFailure(p))
            && (g.reason == Some(Busy) <==> BusyFailure(p) && !FlatAt(h, |h| - 1))
            && (g.reason in {Some(StallBelowThreshold), Some(GenuineWedge)} <==> FlatAt(h, |h| - 1))
            && g.failures == before.failures + (if g.reason in {Some(IdleWedge), Some(GenuineWedge)} then 1 else 0)
  {
    hide Observed, Advanced, Lowered, Ambiguous, BusyFailure, IdleFailure;
    var init, p := h[..|h| - 1], h[|h| - 1];
    var r := GuardStateIsHistory(cfg, failures, init);
    var before := Fold(cfg, failures, init);
    assert h == init + [p];
    GuardVerdict(cfg, before, p);
    ObservedIsBusyFailure(p);
  }

  lemma {:induction false} GuardVerdict(cfg: Config, before: Guarded, p: Probe)
    ensures var g := ApplyBusyGuard(cfg, before.failures, before.progress, p);
            && (g.reason == Some(IdleWedge) <==> IdleFailure(p))
            && (g.reason == None <==> !IdleFailure(p) && Observed(p).None?)
            && (Observed(p).Some? ==>
                  var c, last := Observed(p).value, before.progress;
                  var resets := last.None? || Advanced(c, last.value.counters) || Lowered(c, last.value.counters);
                  g.reason == Some(Busy) <==> resets || Ambiguous(c, last.value.counters))
            && (g.reason in {Some(Busy), Some(StallBelowThreshold), Some(GenuineWedge)} <==> Observed(p).Some?)
            && g.failures == before.failures + (if g.reason in {Some(IdleWedge), Some(GenuineWedge)} then 1 else 0)
  {
    hide Advanced, Lowered, Ambiguous, ProgressOf, IsGreatest;
    ProgressMeaning(p.reading.slots);
    forall i | 0 <= i < |p.reading.slots|
      ensures p.reading.slots[i].processing in {None, Some(true), Some(false)}
    {
      assert p.reading.slots[i].processing.Some? ==> p.reading.slots[i].processing.value in {true, false};
    }
  }

  /** Probe `i` completes the evidence of a wedge. */
  ghost predicate WedgeAt(cfg: Config, h: seq<Probe>, i: int) {
    && 0 <= i < |h|
    && var upTo := h[..i + 1];
       exists r :: IsLastReset(upTo, r) && i in Stalls(cfg, upTo, r) && |Stalls(cfg, upTo, r)| >= cfg.busyStallChecks
  }

  /** The failures of a run are its probes that failed on an idle server or completed the evidence of a wedge. */
  lemma {:induction false} FailuresAreHistory(cfg: Config, failures: int, h: seq<Probe>)
    ensures Fold(cfg, failures, h).failures ==
            failures + |set i | 0 <= i < |h| && (IdleFailure(h[i]) || WedgeAt(cfg, h, i))|
  {
    hide IdleFailure, WedgeAt, IsLastReset, Stalls, ApplyBusyGuard;
    FailuresCountWedges(cfg, failures, h);
    var counted := set i | 0 <= i < |h| && RaisesAt(cfg, failures, h, i);
    var meant := set i | 0 <= i < |h| && (IdleFailure(h[i]) || WedgeAt(cfg, h, i));
    forall i | 0 <= i < |h| ensures i in counted <==> i in meant {
      RaiseMeaning(cfg, failures, h, i);
    }
    assert counted == meant;
  }

  lemma {:induction false} RaiseMeaning(cfg: Config, failures: int, h: seq<Probe>, i: int)
    requires 0 <= i < |h|
    ensures RaisesAt(cfg, failures, h, i) <==> IdleFailure(h[i]) || WedgeAt(cfg, h, i)
  {
    hide Fold, IdleFailure, IsLastReset, Stalls;
    var upTo := h[..i + 1];
    assert upTo[|upTo| - 1] == h[i];
    VerdictMeaning(cfg, failures, upTo);
    WedgeNeedsEvidence(cfg, failures, upTo);
  }
}
