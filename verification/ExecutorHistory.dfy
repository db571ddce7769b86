/**
 Whole-life properties of the fleet executor, over any history of runs with other journal appends in
 between. First, replaying the whole journal on every run is proved to act exactly like keeping one
 summary per proposal in memory, whatever the journal holds. Then the life of a proposal that only
 this executor acts on is bounded: how often it is tried, when, and what is done to its workload.
 */
module ExecutorHistory {
  import opened Prelude
  import opened Executor

  // ---- An executor that remembers instead of replaying ----------------------------

  /** All that is ever needed of a proposal's execution entries, updated one entry at a time. */
  datatype Summary = Summary(closed: bool, latest: Option<RetryState>)

  type Memory = map<string, Summary>

  ghost function Lookup(mem: Memory, id: string): Summary {
    if id in mem then mem[id] else Summary(false, None)
  }

  ghost function Absorb(s: Summary, e: Execution): Summary {
    var c := if e.status.Failed? then ParseFailureAttemptState(e) else None;
    Summary(s.closed || ClosesProposal(e),
            if c.Some? && (s.latest.None? || c.value.attempt > s.latest.value.attempt) then c else s.latest)
  }

  ghost function Remember(mem: Memory, entries: seq<Entry>): Memory
    decreases |entries|
  {
    if entries == [] then mem
    else if entries[0].Recorded? then
      var id := entries[0].execution.proposalId;
      Remember(mem[id := Absorb(Lookup(mem, id), entries[0].execution)], entries[1..])
    else Remember(mem, entries[1..])
  }

  ghost function SummaryState(s: Summary, nowMs: int): RetryState {
    if s.closed then RetryState(true, false, 0, 3, None)
    else if s.latest.None? then RetryState(false, true, 0, 3, None)
    else
      var r := s.latest.value;
      if r.terminal then RetryState(true, false, r.attempt, r.maxAttempts, None)
      else if r.blockedUntilMs.Some? && r.blockedUntilMs.value > nowMs then
        RetryState(false, false, r.attempt, r.maxAttempts, r.blockedUntilMs)
      else RetryState(false, true, r.attempt, r.maxAttempts, None)
  }

  /** One run that reads each proposal's state from memory; the journal is not consulted. */
  ghost function MemoryTurns(ps: seq<Proposal>, mem: Memory, opts: Options, answers: nat -> Outcome, k: nat): seq<Turn>
  {
    if ps == [] then []
    else
      match ProposalTurn(ps[0], opts, SummaryState(Lookup(mem, ps[0].proposalId), opts.nowMs), answers, k)
      case None => MemoryTurns(ps[1..], mem, opts, answers, k)
      case Some(t) => [t] + MemoryTurns(ps[1..], mem, opts, answers, k + |t.calls|)
  }

  ghost function SummaryOf(s: Summary, es: seq<Execution>): Summary
    decreases |es|
  {
    if es == [] then s else SummaryOf(Absorb(s, es[0]), es[1..])
  }

  /** Memory holds, for every proposal id, the summary of its journaled executions. */
  ghost predicate Remembers(mem: Memory, journal: seq<Entry>) {
    forall id :: Lookup(mem, id) == SummaryOf(Summary(false, None), ExecutionsOf(id, journal))
  }

  // ---- Replay and memory agree --------------------------------------------------------

  lemma {:induction false} LatestOfSplit(a: seq<RetryState>, b: seq<RetryState>)
    requires a != [] && b != []
    ensures LatestCandidate(a + b) ==
            if LatestCandidate(b).attempt > LatestCandidate(a).attempt then LatestCandidate(b) else LatestCandidate(a)
  {
    assert (a + b)[1..] == a[1..] + b;
    if |a| == 1 {
      assert a[1..] + b == b;
    } else {
      LatestOfSplit(a[1..], b);
    }
  }

  /** The incremental summary finds the same closing entry and latest attempt as sorting the whole list. */
  lemma {:induction false} SummaryIsReplay(s: Summary, es: seq<Execution>)
    ensures SummaryOf(s, es).closed <==> s.closed || exists i :: 0 <= i < |es| && ClosesProposal(es[i])
    ensures var cs := RetryCandidates(es);
            SummaryOf(s, es).latest ==
            if cs == [] || (s.latest.Some? && s.latest.value.attempt >= LatestCandidate(cs).attempt) then s.latest
            else Some(LatestCandidate(cs))
    decreases |es|
  {
    if es != [] {
      var e, rest := es[0], es[1..];
      SummaryIsReplay(Absorb(s, e), rest);
      assert forall i :: 0 <= i < |rest| ==> rest[i] == es[i + 1];
      if exists i :: 0 <= i < |es| && ClosesProposal(es[i]) {
        var i :| 0 <= i < |es| && ClosesProposal(es[i]);
        assert i > 0 ==> ClosesProposal(rest[i - 1]);
      }
      if e.status.Failed? && ParseFailureAttemptState(e).Some? && RetryCandidates(rest) != [] {
        LatestOfSplit([ParseFailureAttemptState(e).value], RetryCandidates(rest));
      }
    }
  }

  lemma {:induction false} CandidateShape(es: seq<Execution>)
    ensures forall i :: 0 <= i < |RetryCandidates(es)| ==>
            RetryCandidates(es)[i].pending == !RetryCandidates(es)[i].terminal
  {
    if es != [] {
      CandidateShape(es[1..]);
    }
  }

  lemma {:induction false} LatestIsMember(cs: seq<RetryState>)
    requires cs != []
    ensures LatestCandidate(cs) in cs
  {
    if |cs| > 1 {
      LatestIsMember(cs[1..]);
    }
  }

  /** Replaying any journal gives the state that the remembered summary gives. */
  lemma {:induction false} ReplayIsMemory(id: string, journal: seq<Entry>, mem: Memory, nowMs: int)
    requires Remembers(mem, journal)
    ensures GetExecutionRetryState(id, journal, nowMs) == SummaryState(Lookup(mem, id), nowMs)
  {
    var es := ExecutionsOf(id, journal);
    SummaryIsReplay(Summary(false, None), es);
    CandidateShape(es);
    if RetryCandidates(es) != [] {
      LatestIsMember(RetryCandidates(es));
    }
  }

  lemma {:induction false} MemoryRunIsReplayRun(ps: seq<Proposal>, journal: seq<Entry>, mem: Memory, opts: Options,
                                                answers: nat -> Outcome, k: nat)
    requires Remembers(mem, journal)
    ensures MemoryTurns(ps, mem, opts, answers, k) == RunTurns(ps, journal, opts, answers, k)
  {
    hide ProposalTurn, GetExecutionRetryState, SummaryState, Remembers;
    if ps != [] {
      ReplayIsMemory(ps[0].proposalId, journal, mem, opts.nowMs);
      var here := ProposalTurn(ps[0], opts, GetExecutionRetryState(ps[0].proposalId, journal, opts.nowMs), answers, k);
      MemoryRunIsReplayRun(ps[1..], journal, mem, opts, answers, if here.Some? then k + |here.value.calls| else k);
    }
  }

  lemma {:induction false} ExecutionsOfConcat(id: string, a: seq<Entry>, b: seq<Entry>)
    ensures ExecutionsOf(id, a + b) == ExecutionsOf(id, a) + ExecutionsOf(id, b)
  {
    if a == [] {
      assert a + b == b;
    } else {
      assert (a + b)[0] == a[0] && (a + b)[1..] == a[1..] + b;
      ExecutionsOfConcat(id, a[1..], b);
    }
  }

  lemma {:induction false} SummaryOfConcat(s: Summary, a: seq<Execution>, b: seq<Execution>)
    ensures SummaryOf(s, a + b) == SummaryOf(SummaryOf(s, a), b)
    decreases |a|
  {
    if a == [] {
      assert a + b == b;
    } else {
      SummaryOfConcat(Absorb(s, a[0]), a[1..], b);
      assert (a + b)[1..] == a[1..] + b;
    }
  }

  lemma {:induction false} RememberedSummary(mem: Memory, entries: seq<Entry>, id: string)
    ensures Lookup(Remember(mem, entries), id) == SummaryOf(Lookup(mem, id), ExecutionsOf(id, entries))
    decreases |entries|
  {
    if entries != [] {
      var e := entries[0];
      var next := mem;
      if e.Recorded? {
        next := mem[e.execution.proposalId := Absorb(Lookup(mem, e.execution.proposalId), e.execution)];
      }
      RememberedSummary(next, entries[1..], id);
    }
  }

  lemma {:induction false} RememberAppended(mem: Memory, journal: seq<Entry>, entries: seq<Entry>)
    requires Remembers(mem, journal)
    ensures Remembers(Remember(mem, entries), journal + entries)
  {
    forall id
      ensures Lookup(Remember(mem, entries), id) == SummaryOf(Summary(false, None), ExecutionsOf(id, journal + entries))
    {
      RememberedSummary(mem, entries, id);
      ExecutionsOfConcat(id, journal, entries);
      SummaryOfConcat(Summary(false, None), ExecutionsOf(id, journal), ExecutionsOf(id, entries));
    }
  }

  // ---- Histories ---------------------------------------------------------------------------

  /** A run of this executor, or entries appended to the journal by anyone else. */
  datatype Event = Run(opts: Options) | Append(entries: seq<Entry>)

  datatype World = World(journal: seq<Entry>, turns: seq<Turn>)

  ghost function Step(w: World, ev: Event, answers: nat -> Outcome): World {
    match ev
    case Append(entries) => w.(journal := w.journal + entries)
    case Run(opts) =>
      var turns := RunTurns(ProposalsFor(opts.node, w.journal), w.journal, opts, answers, |CallsOf(w.turns)|);
      World(w.journal + AsEntries(EntriesOf(turns)), w.turns + turns)
  }

  ghost function After(w: World, events: seq<Event>, answers: nat -> Outcome): World
    decreases |events|
  {
    if events == [] then w else After(Step(w, events[0], answers), events[1..], answers)
  }

  /** The same history for the remembering executor: journal for output only, decisions from `mem`. */
  ghost function MemoryAfter(w: World, mem: Memory, events: seq<Event>, answers: nat -> Outcome): World
    decreases |events|
  {
    if events == [] then w
    else
      match events[0]
      case Append(entries) =>
        MemoryAfter(w.(journal := w.journal + entries), Remember(mem, entries), events[1..], answers)
      case Run(opts) =>
        var turns := MemoryTurns(ProposalsFor(opts.node, w.journal), mem, opts, answers, |CallsOf(w.turns)|);
        var entries := AsEntries(EntriesOf(turns));
        MemoryAfter(World(w.journal + entries, w.turns + turns), Remember(mem, entries), events[1..], answers)
  }

  /** Over every history, from every journal, replaying and remembering append and do exactly the same. */
  lemma {:induction false} ReplayRefinesMemory(w: World, mem: Memory, events: seq<Event>, answers: nat -> Outcome)
    requires Remembers(mem, w.journal)
    ensures After(w, events, answers) == MemoryAfter(w, mem, events, answers)
    decreases |events|
  {
    hide RunTurns, MemoryTurns, Remembers;
    if events != [] {
      match events[0]
      case Append(entries) =>
        RememberAppended(mem, w.journal, entries);
        ReplayRefinesMemory(w.(journal := w.journal + entries), Remember(mem, entries), events[1..], answers);
      case Run(opts) =>
        var ps, k := ProposalsFor(opts.node, w.journal), |CallsOf(w.turns)|;
        MemoryRunIsReplayRun(ps, w.journal, mem, opts, answers, k);
        var turns := RunTurns(ps, w.journal, opts, answers, k);
        var entries := AsEntries(EntriesOf(turns));
        RememberAppended(mem, w.journal, entries);
        ReplayRefinesMemory(World(w.journal + entries, w.turns + turns), Remember(mem, entries), events[1..], answers);
    }
  }

  // ---- The life of one proposal ---------------------------------------------------------------

  datatype Phase = Fresh | Waiting(failures: nat, until: int) | Done | GivenUp

  ghost function StateOf(ph: Phase, nowMs: int): RetryState {
    match ph
    case Fresh => RetryState(false, true, 0, 3, None)
    case Waiting(n, until) =>
      if until > nowMs then RetryState(false, false, n, 3, Some(until)) else RetryState(false, true, n, 3, None)
    case Done => RetryState(true, false, 0, 3, None)
    case GivenUp => RetryState(true, false, 3, 3, None)
  }

  // ---- What a proposal's execution entries may look like --------------------------

  /** `e` is the n-th failed attempt: numbered n of 3, with a retry time unless it is the last. */
  ghost predicate FailedAttempt(e: Execution, n: nat) {
    e.status.Failed? && e.attempt == AttemptNumber(n) && e.maxAttempts == AttemptLimit(3) &&
    (n < 3 ==> e.nextAttemptAt.Some?)
  }

  ghost predicate Closing(e: Execution) {
    e.status.Executed? || e.status.Skipped?
  }

  /** Failed attempts 1, 2, ..., then possibly one executed/skipped entry: at most three entries in all. */
  ghost predicate ValidTrace(es: seq<Execution>) {
    && |es| <= 3
    && (forall i :: 0 <= i < |es| - 1 ==> FailedAttempt(es[i], i + 1))
    && (es != [] ==> Closing(es[|es| - 1]) || FailedAttempt(es[|es| - 1], |es|))
  }

  ghost function PhaseOf(es: seq<Execution>): Phase {
    if es == [] then Fresh
    else if !es[|es| - 1].status.Failed? then Done
    else if |es| >= 3 then GivenUp
    else Waiting(|es|, es[|es| - 1].nextAttemptAt.GetOr(0))
  }

  // ---- Replay agrees with the phase -------------------------------------------------

  lemma {:induction false} CandidatesOfFailures(es: seq<Execution>, base: nat)
    requires base + |es| <= 3
    requires forall i :: 0 <= i < |es| ==> FailedAttempt(es[i], base + i + 1)
    ensures |RetryCandidates(es)| == |es|
    ensures es != [] ==>
              var last := es[|es| - 1];
              LatestCandidate(RetryCandidates(es)) ==
              RetryState(base + |es| >= 3, base + |es| < 3, base + |es|, 3, last.nextAttemptAt)
  {
    if es != [] {
      CandidatesOfFailures(es[1..], base + 1);
    }
  }

  /** The state recomputed from the journal is the state of the phase the entries spell out. */
  lemma {:induction false} ReplayedStateIsPhase(id: string, journal: seq<Entry>, nowMs: int)
    requires ValidTrace(ExecutionsOf(id, journal))
    ensures GetExecutionRetryState(id, journal, nowMs) == StateOf(PhaseOf(ExecutionsOf(id, journal)), nowMs)
  {
    var es := ExecutionsOf(id, journal);
    if es != [] {
      if Closing(es[|es| - 1]) {
        assert ClosesProposal(es[|es| - 1]);
      } else {
        CandidatesOfFailures(es, 0);
      }
    }
  }

  // ---- One turn -------------------------------------------------------------------------

  ghost function Count(verb: Verb, calls: seq<Call>): nat {
    if calls == [] then 0 else (if calls[0].verb == verb then 1 else 0) + Count(verb, calls[1..])
  }

  lemma {:induction false} CountConcat(verb: Verb, a: seq<Call>, b: seq<Call>)
    ensures Count(verb, a + b) == Count(verb, a) + Count(verb, b)
  {
    if a == [] {
      assert a + b == b;
    } else {
      CountConcat(verb, a[1..], b);
      assert (a + b)[1..] == a[1..] + b;
    }
  }

  lemma {:induction false} CountUpToThree(verb: Verb, a: Call, b: Call, c: Call)
    ensures Count(verb, [a]) == if a.verb == verb then 1 else 0
    ensures Count(verb, [a, b]) == Count(verb, [a]) + Count(verb, [b])
    ensures Count(verb, [a, b, c]) == Count(verb, [a, b]) + Count(verb, [c])
  {
    CountConcat(verb, [a], [b]);
    CountConcat(verb, [a, b], [c]);
    assert [a] + [b] == [a, b] && [a, b] + [c] == [a, b, c];
  }

  /** A turn calls an actuator only for an unexpired, selected evict/restart whose policy is not "Never". */
  ghost predicate Permitted(t: Turn) {
    var p := t.proposal;
    && !IsExpired(p, t.opts.nowMs)
    && ShouldExecute(p, t.opts)
    && (p.action.Evict? || p.action.Restart?)
    && !t.opts.policyNever(p)
    && (forall i :: 0 <= i < |t.calls| ==> t.calls[i].workload == p.action.workload)
  }

  /** `executed` is recorded exactly when the action's last call is the success that completes it. */
  ghost predicate OutcomeMatchesCalls(t: Turn) {
    var p := t.proposal;
    var done := if p.action.Evict? then Disable else Enable;
    p.action.Evict? || p.action.Restart? ==>
      (t.entry.status.Executed? <==>
       t.calls != [] && t.calls[|t.calls| - 1] == Call(done, p.action.workload, Exit(0)))
  }

  ghost predicate LawfulTurn(t: Turn) {
    && t.entry.proposalId == t.proposal.proposalId
    && (t.calls != [] ==> Permitted(t))
    && OutcomeMatchesCalls(t)
    && Count(Disable, t.calls) <= 1
    && Count(Enable, t.calls) <= (if t.proposal.action.Restart? then 2 else 0)
  }

  lemma {:induction false} RestartTurnIsLawful(p: Proposal, opts: Options, answers: nat -> Outcome, k: nat)
    requires p.action.Restart? && !IsExpired(p, opts.nowMs) && ShouldExecute(p, opts) && !opts.policyNever(p)
    ensures LawfulTurn(RestartTurn(p, p.action.workload, opts, answers, k))
  {
    hide Count, IsExpired, ShouldExecute;
    var w := p.action.workload;
    var a, b, c := Call(Disable, w, answers(k)), Call(Enable, w, answers(k + 1)), Call(Enable, w, answers(k + 2));
    CountUpToThree(Disable, a, b, c);
    CountUpToThree(Enable, a, b, c);
    CountUpToThree(Disable, b, c, c);
    CountUpToThree(Enable, b, c, c);
    CountUpToThree(Disable, c, c, c);
    CountUpToThree(Enable, c, c, c);
  }

  lemma {:induction false} ActionTurnIsLawful(p: Proposal, opts: Options, answers: nat -> Outcome, k: nat)
    requires !IsExpired(p, opts.nowMs) && ShouldExecute(p, opts)
    ensures LawfulTurn(ActionTurn(p, opts, answers, k))
  {
    if p.action.Restart? && !opts.policyNever(p) {
      RestartTurnIsLawful(p, opts, answers, k);
    } else if p.action.Evict? && !opts.policyNever(p) {
      var a := Call(Disable, p.action.workload, answers(k));
      CountUpToThree(Disable, a, a, a);
      CountUpToThree(Enable, a, a, a);
    }
  }

  /** The retry entry after `n` failures, stamped at `nowMs`; the delay doubles from 30 s. */
  ghost predicate StampedFailure(e: Execution, n: nat, nowMs: int) {
    FailedAttempt(e, n) && (n < 3 ==> e.nextAttemptAt == Some(nowMs + RetryDelayMs(n)))
  }

  ghost function Failures(ph: Phase): nat {
    if ph.Waiting? then ph.failures else 0
  }

  /** What a turn taken from phase `ph` looks like: due, lawful, and closing or the next failed attempt. */
  lemma {:induction false} TurnFromPhase(p: Proposal, opts: Options, ph: Phase, answers: nat -> Outcome, k: nat)
    requires ph.Waiting? ==> 1 <= ph.failures <= 2
    ensures ProposalTurn(p, opts, StateOf(ph, opts.nowMs), answers, k).None? <==>
            ph.Done? || ph.GivenUp? || (ph.Waiting? && ph.until > opts.nowMs)
    ensures match ProposalTurn(p, opts, StateOf(ph, opts.nowMs), answers, k)
            case None => true
            case Some(t) =>
              && t.proposal == p && t.opts == opts && LawfulTurn(t)
              && (Closing(t.entry) || StampedFailure(t.entry, Failures(ph) + 1, opts.nowMs))
  {
    hide LawfulTurn, ActionTurn, IsExpired, ShouldExecute, MakeRetryFailureEntry;
    if ph.Done? || ph.GivenUp? || (ph.Waiting? && ph.until > opts.nowMs) {
    } else if !IsExpired(p, opts.nowMs) && ShouldExecute(p, opts) {
      ActionTurnIsLawful(p, opts, answers, k);
      FromAction(p, opts, StateOf(ph, opts.nowMs), answers, k);
    } else {
      IdleTurnIsLawful(p, opts, BareEntry(p, opts, Skipped, Some(Expired), None));
      IdleTurnIsLawful(p, opts, BareEntry(p, opts, Skipped, Some(AutoNotSet), None));
      IdleTurnIsLawful(p, opts, BareEntry(p, opts, Skipped, Some(TierExceedsThreshold), None));
    }
  }

  lemma IdleTurnIsLawful(p: Proposal, opts: Options, e: Execution)
    requires e.proposalId == p.proposalId && e.status.Skipped?
    ensures LawfulTurn(Turn(p, opts, e, []))
  {}

  lemma ActionTurnShape(p: Proposal, opts: Options, answers: nat -> Outcome, k: nat)
    ensures var t := ActionTurn(p, opts, answers, k);
            && t.proposal == p && t.opts == opts && t.entry.action == p.action
            && (IsRetryableFailure(t.entry) || Closing(t.entry))
            && (t.entry.status.Failed? ==> t.entry.nextAttemptAt.None?)
  {}

  /** A failed action becomes the next numbered attempt; anything else closes the proposal. */
  lemma {:induction false} FromAction(p: Proposal, opts: Options, st: RetryState, answers: nat -> Outcome, k: nat)
    requires LawfulTurn(ActionTurn(p, opts, answers, k)) && 0 <= st.attempt <= 2 && st.maxAttempts == 3
    requires ShouldExecute(p, opts)
    ensures var t := ExecuteOneTurn(p, opts, st, answers, k);
            && t.proposal == p && t.opts == opts && LawfulTurn(t)
            && (Closing(t.entry) || StampedFailure(t.entry, st.attempt + 1, opts.nowMs))
  {
    hide Count, IsExpired, ShouldExecute, ActionTurn;
    var t := ActionTurn(p, opts, answers, k);
    ActionTurnShape(p, opts, answers, k);
    if IsRetryableFailure(t.entry) {
      assert !t.entry.status.Executed? &&
             !MakeRetryFailureEntry(t.entry, st.attempt + 1, st.maxAttempts, opts.nowMs).status.Executed?;
    }
  }

  // ---- The whole life ------------------------------------------------------------------------

  ghost function TurnsFor(id: string, turns: seq<Turn>): seq<Turn> {
    if turns == [] then []
    else if turns[0].proposal.proposalId == id then [turns[0]] + TurnsFor(id, turns[1..])
    else TurnsFor(id, turns[1..])
  }

  /**
   The turns ever taken for one proposal: failed attempts 1, 2, ... each waiting out the doubled delay
   before the next, then at most one executed/skipped turn; three turns at most, all lawful.
   */
  ghost predicate Life(ts: seq<Turn>) {
    && |ts| <= 3
    && (forall i :: 0 <= i < |ts| ==> LawfulTurn(ts[i]))
    && (forall i :: 0 <= i < |ts| - 1 ==>
          StampedFailure(ts[i].entry, i + 1, ts[i].opts.nowMs) &&
          ts[i + 1].opts.nowMs >= ts[i].opts.nowMs + EXECUTION_RETRY_DELAY_MS * Pow2(i))
    && (ts != [] ==> var last := ts[|ts| - 1];
          Closing(last.entry) || StampedFailure(last.entry, |ts|, last.opts.nowMs))
  }

  ghost predicate Proposes(e: Entry, id: string) {
    e.Proposed? && e.proposal.proposalId == id
  }

  ghost predicate ProposedOnce(id: string, journal: seq<Entry>) {
    forall i, j :: 0 <= i < |journal| && 0 <= j < |journal| &&
                   Proposes(journal[i], id) && Proposes(journal[j], id) ==>
      i == j
  }

  /** `id` is proposed at most once and, besides this executor, nobody records executions of it. */
  ghost predicate OwnedThroughout(id: string, w: World, events: seq<Event>, answers: nat -> Outcome)
    decreases |events|
  {
    && ProposedOnce(id, w.journal)
    && (events != [] ==>
          && (events[0].Append? ==> ExecutionsOf(id, events[0].entries) == [])
          && OwnedThroughout(id, Step(w, events[0], answers), events[1..], answers))
  }

  /** What the journal says about `id` is exactly the record of the turns taken for it, and they are a Life. */
  ghost predicate Accounted(id: string, w: World) {
    ExecutionsOf(id, w.journal) == EntriesOf(TurnsFor(id, w.turns)) && Life(TurnsFor(id, w.turns))
  }

  lemma {:induction false} TurnsForConcat(id: string, a: seq<Turn>, b: seq<Turn>)
    ensures TurnsFor(id, a + b) == TurnsFor(id, a) + TurnsFor(id, b)
  {
    if a == [] {
      assert a + b == b;
    } else {
      assert (a + b)[0] == a[0] && (a + b)[1..] == a[1..] + b;
      TurnsForConcat(id, a[1..], b);
    }
  }

  lemma {:induction false} EntriesOfShape(turns: seq<Turn>)
    ensures |EntriesOf(turns)| == |turns|
    ensures forall i :: 0 <= i < |turns| ==> EntriesOf(turns)[i] == turns[i].entry
  {
    if turns != [] {
      EntriesOfShape(turns[1..]);
    }
  }

  /** Journaling a run's turns adds, for `id`, exactly the entries of the turns taken for `id`. */
  lemma {:induction false} JournaledTurns(id: string, turns: seq<Turn>)
    requires forall i :: 0 <= i < |turns| ==> turns[i].entry.proposalId == turns[i].proposal.proposalId
    ensures ExecutionsOf(id, AsEntries(EntriesOf(turns))) == EntriesOf(TurnsFor(id, turns))
  {
    if turns != [] {
      assert EntriesOf(turns)[1..] == EntriesOf(turns[1..]);
      assert AsEntries(EntriesOf(turns))[1..] == AsEntries(EntriesOf(turns[1..]));
      JournaledTurns(id, turns[1..]);
      if turns[0].proposal.proposalId == id {
        assert TurnsFor(id, turns)[1..] == TurnsFor(id, turns[1..]);
      }
    }
  }

  lemma TurnNamesItsProposal(p: Proposal, opts: Options, st: RetryState, answers: nat -> Outcome, k: nat)
    ensures var here := ProposalTurn(p, opts, st, answers, k);
            here.Some? ==> here.value.proposal == p && here.value.entry.proposalId == p.proposalId
  {}

  ghost predicate AtMostOnce(id: string, ps: seq<Proposal>) {
    forall i, j :: 0 <= i < |ps| && 0 <= j < |ps| && ps[i].proposalId == id && ps[j].proposalId == id ==> i == j
  }

  /** In one run `id` gets at most one turn, decided by its replayed state. */
  lemma {:induction false} TurnInRun(id: string, ps: seq<Proposal>, journal: seq<Entry>, opts: Options,
                                     answers: nat -> Outcome, k: nat)
    returns (p: Proposal, here: Option<Turn>, k': nat)
    requires AtMostOnce(id, ps)
    ensures var turns := RunTurns(ps, journal, opts, answers, k);
            && (forall i :: 0 <= i < |turns| ==> turns[i].entry.proposalId == turns[i].proposal.proposalId)
            && TurnsFor(id, turns) == if here.Some? then [here.value] else []
    ensures here.Some? ==>
              p in ps && p.proposalId == id &&
                here == ProposalTurn(p, opts, GetExecutionRetryState(id, journal, opts.nowMs), answers, k')
    ensures forall i :: 0 <= i < |ps| && ps[i].proposalId == id ==>
              here == ProposalTurn(ps[i], opts, GetExecutionRetryState(id, journal, opts.nowMs), answers, k')
  {
    hide ProposalTurn, GetExecutionRetryState;
    p, here, k' := Proposal("", "", Drain(""), None), None, k;
    if ps != [] {
      var q := ps[0];
      var first := ProposalTurn(q, opts, GetExecutionRetryState(q.proposalId, journal, opts.nowMs), answers, k);
      TurnNamesItsProposal(q, opts, GetExecutionRetryState(q.proposalId, journal, opts.nowMs), answers, k);
      var next := if first.Some? then k + |first.value.calls| else k;
      assert forall i :: 0 <= i < |ps[1..]| ==> ps[1..][i] == ps[i + 1];
      p, here, k' := TurnInRun(id, ps[1..], journal, opts, answers, next);
      if q.proposalId == id {
        forall i | 0 <= i < |ps[1..]| ensures ps[1..][i].proposalId != id {
          assert ps[1..][i] == ps[i + 1];
        }
        p, here, k' := q, first, k;
      }
    }
  }

  lemma {:induction false} LifeIsValidTrace(ts: seq<Turn>)
    requires Life(ts)
    ensures ValidTrace(EntriesOf(ts))
  {
    EntriesOfShape(ts);
  }

  /** A turn prescribed by the phase the life so far has reached extends it to a life. */
  lemma {:induction false} LifeExtends(ts: seq<Turn>, p: Proposal, opts: Options, answers: nat -> Outcome, k: nat)
    requires Life(ts)
    ensures var here := ProposalTurn(p, opts, StateOf(PhaseOf(EntriesOf(ts)), opts.nowMs), answers, k);
            here.Some? ==> Life(ts + [here.value])
  {
    hide ProposalTurn, LawfulTurn;
    EntriesOfShape(ts);
    var ph := PhaseOf(EntriesOf(ts));
    TurnFromPhase(p, opts, ph, answers, k);
    var here := ProposalTurn(p, opts, StateOf(ph, opts.nowMs), answers, k);
    if here.Some? {
      var all := ts + [here.value];
      assert forall i :: 0 <= i < |ts| ==> all[i] == ts[i];
      if ts != [] {
        assert RetryDelayMs(|ts|) == EXECUTION_RETRY_DELAY_MS * Pow2(|ts| - 1);
      }
    }
  }

  lemma {:induction false} ProposalsAreJournaled(node: string, journal: seq<Entry>, p: Proposal)
    requires p in ProposalsFor(node, journal)
    ensures Proposed(p) in journal
  {
    if p in ProposalsFor(node, journal[1..]) {
      ProposalsAreJournaled(node, journal[1..], p);
    }
  }

  lemma {:induction false} UniqueAmongProposals(id: string, node: string, journal: seq<Entry>)
    requires ProposedOnce(id, journal)
    ensures AtMostOnce(id, ProposalsFor(node, journal))
  {
    if journal != [] {
      var rest := journal[1..];
      var tail := ProposalsFor(node, rest);
      assert forall i :: 0 <= i < |rest| ==> rest[i] == journal[i + 1];
      UniqueAmongProposals(id, node, rest);
      if Proposes(journal[0], id) {
        forall i | 0 <= i < |tail| ensures tail[i].proposalId != id {
          ProposalsAreJournaled(node, rest, tail[i]);
          var j :| 0 <= j < |rest| && rest[j] == Proposed(tail[i]);
          assert !Proposes(journal[j + 1], id);
        }
      }
    }
  }

  lemma {:induction false} EntriesOfConcat(a: seq<Turn>, b: seq<Turn>)
    ensures EntriesOf(a + b) == EntriesOf(a) + EntriesOf(b)
  {
    EntriesOfShape(a);
    EntriesOfShape(b);
    EntriesOfShape(a + b);
  }

  lemma {:induction false} StepKeepsAccounted(id: string, w: World, ev: Event, answers: nat -> Outcome)
    requires Accounted(id, w) && ProposedOnce(id, w.journal)
    requires ev.Append? ==> ExecutionsOf(id, ev.entries) == []
    ensures Accounted(id, Step(w, ev, answers))
  {
    hide ProposalTurn, GetExecutionRetryState, Life, RunTurns;
    match ev
    case Append(entries) =>
      ExecutionsOfConcat(id, w.journal, entries);
    case Run(opts) =>
      var ps, k := ProposalsFor(opts.node, w.journal), |CallsOf(w.turns)|;
      var turns := RunTurns(ps, w.journal, opts, answers, k);
      var mine := TurnsFor(id, w.turns);
      UniqueAmongProposals(id, opts.node, w.journal);
      var p, here, k' := TurnInRun(id, ps, w.journal, opts, answers, k);
      LifeIsValidTrace(mine);
      ReplayedStateIsPhase(id, w.journal, opts.nowMs);
      LifeExtends(mine, p, opts, answers, k');
      JournaledTurns(id, turns);
      TurnsForConcat(id, w.turns, turns);
      EntriesOfConcat(mine, TurnsFor(id, turns));
      ExecutionsOfConcat(id, w.journal, AsEntries(EntriesOf(turns)));
      assert mine + [] == mine;
  }

  // ---- Main results ---------------------------------------------------------------------------

  /**
   Over every history: a proposal owned by this executor and not yet acted on lives a Life, and the
   journal's execution entries for it are exactly that life's entries.
   */
  lemma {:induction false} EveryProposalLivesOnce(id: string, w: World, events: seq<Event>, answers: nat -> Outcome)
    requires OwnedThroughout(id, w, events, answers) && Accounted(id, w)
    ensures Accounted(id, After(w, events, answers))
    decreases |events|
  {
    hide Step, Accounted;
    if events != [] {
      StepKeepsAccounted(id, w, events[0], answers);
      EveryProposalLivesOnce(id, Step(w, events[0], answers), events[1..], answers);
    }
  }

  /**
   From a journal without executions of `id`: its entries form a valid trace, and the replayed state is the
   phase's.
   */
  lemma {:induction false} JournalTraceOverAnyHistory(id: string, journal: seq<Entry>, events: seq<Event>,
                                                      answers: nat -> Outcome, nowMs: int)
    requires OwnedThroughout(id, World(journal, []), events, answers) && ExecutionsOf(id, journal) == []
    ensures var j := After(World(journal, []), events, answers).journal;
            && ValidTrace(ExecutionsOf(id, j))
            && GetExecutionRetryState(id, j, nowMs) == StateOf(PhaseOf(ExecutionsOf(id, j)), nowMs)
  {
    var w := After(World(journal, []), events, answers);
    EveryProposalLivesOnce(id, World(journal, []), events, answers);
    LifeIsValidTrace(TurnsFor(id, w.turns));
    ReplayedStateIsPhase(id, w.journal, nowMs);
  }

  lemma {:induction false} CallsOfLife(ts: seq<Turn>)
    requires forall i :: 0 <= i < |ts| ==> LawfulTurn(ts[i])
    ensures Count(Disable, CallsOf(ts)) <= |ts|
    ensures Count(Enable, CallsOf(ts)) <= 2 * |ts|
  {
    if ts != [] {
      CallsOfLife(ts[1..]);
      CountConcat(Disable, ts[0].calls, CallsOf(ts[1..]));
      CountConcat(Enable, ts[0].calls, CallsOf(ts[1..]));
    }
  }

  /** Over its whole life a proposal causes at most 3 disables and 6 enables, whatever the history. */
  lemma {:induction false} ActuationIsBounded(id: string, journal: seq<Entry>, events: seq<Event>,
                                              answers: nat -> Outcome)
    requires OwnedThroughout(id, World(journal, []), events, answers) && ExecutionsOf(id, journal) == []
    ensures var mine := TurnsFor(id, After(World(journal, []), events, answers).turns);
            && Count(Disable, CallsOf(mine)) <= 3
            && Count(Enable, CallsOf(mine)) <= 6
            && (forall i :: 0 <= i < |mine| && mine[i].calls != [] ==> Permitted(mine[i]))
            && (forall i :: 0 <= i < |mine| ==> OutcomeMatchesCalls(mine[i]))
            && (forall i :: 0 <= i < |mine| - 1 ==>
                  mine[i + 1].opts.nowMs >= mine[i].opts.nowMs + EXECUTION_RETRY_DELAY_MS * Pow2(i))
  {
    hide Count, CallsOf, After, Permitted, OutcomeMatchesCalls, StampedFailure;
    var w := After(World(journal, []), events, answers);
    EveryProposalLivesOnce(id, World(journal, []), events, answers);
    CallsOfLife(TurnsFor(id, w.turns));
  }

  /** A run acts on `id` exactly when it is proposed on that node and its replayed phase is due. */
  lemma {:induction false} RunActsExactlyWhenDue(id: string, w: World, opts: Options, answers: nat -> Outcome)
    requires Accounted(id, w) && ProposedOnce(id, w.journal)
    ensures var ph := PhaseOf(ExecutionsOf(id, w.journal));
            var run := RunTurns(ProposalsFor(opts.node, w.journal), w.journal, opts, answers, |CallsOf(w.turns)|);
            var turns := TurnsFor(id, run);
            |turns| == if (exists p :: p in ProposalsFor(opts.node, w.journal) && p.proposalId == id) &&
                          (ph.Fresh? || (ph.Waiting? && ph.until <= opts.nowMs)) then 1 else 0
  {
    hide ProposalTurn, GetExecutionRetryState, RunTurns, LawfulTurn, StateOf;
    var ps, k := ProposalsFor(opts.node, w.journal), |CallsOf(w.turns)|;
    UniqueAmongProposals(id, opts.node, w.journal);
    var q, here, k' := TurnInRun(id, ps, w.journal, opts, answers, k);
    LifeIsValidTrace(TurnsFor(id, w.turns));
    ReplayedStateIsPhase(id, w.journal, opts.nowMs);
    var ph := PhaseOf(ExecutionsOf(id, w.journal));
    forall p | p in ps && p.proposalId == id
      ensures here.Some? <==> ph.Fresh? || (ph.Waiting? && ph.until <= opts.nowMs)
    {
      TurnFromPhase(p, opts, ph, answers, k');
    }
  }
}
