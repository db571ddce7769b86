/**
 What the executor's decisions mean, stated over the journal's entries, the calls made and their outcomes alone:
 when a proposal's state is what, when a call is made, and what is recorded about it.
 */
module ExecutorMeaning {
  import opened Prelude
  import opened Executor
  import opened ExecutorHistory

  // ---- The state replayed from the journal ----------------------------------------------------

  lemma {:induction false} ExecutionsAreTheProposals(id: string, journal: seq<Entry>, e: Execution)
    ensures e in ExecutionsOf(id, journal) <==> Recorded(e) in journal && e.proposalId == id
  {
    if journal != [] {
      ExecutionsAreTheProposals(id, journal[1..], e);
    }
  }

  lemma {:induction false} ProposalsAreTheNodes(node: string, journal: seq<Entry>, p: Proposal)
    ensures p in ProposalsFor(node, journal) <==> Proposed(p) in journal && p.node == node
  {
    if journal != [] {
      ProposalsAreTheNodes(node, journal[1..], p);
    }
  }

  /** The entry closes its proposal: an outcome that is no failure, or a failure without an attempt number. */
  ghost predicate Closes(e: Execution) {
    e.status != Failed || e.attempt == NoAttempt
  }

  /** A failure numbered `n` out of `limit`; anything malformed or not positive does not count. */
  ghost predicate CountsAs(e: Execution, n: int, limit: int) {
    && e.status == Failed && e.attempt == AttemptNumber(n) && n > 0 && limit > 0
    && (e.maxAttempts == AttemptLimit(limit) || (e.maxAttempts == DefaultLimit && limit == 3))
  }

  ghost predicate Counts(e: Execution) {
    exists n, limit :: CountsAs(e, n, limit)
  }

  /** Entry `i` leads: it counts, no entry has a greater number, and no earlier one has the same. */
  ghost predicate Leads(es: seq<Execution>, i: int, n: int, limit: int) {
    && 0 <= i < |es| && CountsAs(es[i], n, limit)
    && (forall j, m, l :: 0 <= j < |es| && CountsAs(es[j], m, l) ==> m <= n)
    && (forall j, m, l :: 0 <= j < i && CountsAs(es[j], m, l) ==> m < n)
  }

  lemma {:induction false} ParsedIffCounts(e: Execution)
    requires e.status == Failed
    ensures ParseFailureAttemptState(e).Some? <==> Counts(e)
    ensures forall n, limit :: CountsAs(e, n, limit) ==>
              ParseFailureAttemptState(e) == Some(RetryState(n >= limit, n < limit, n, limit, e.nextAttemptAt))
  {
    var limit := if e.maxAttempts.AttemptLimit? then e.maxAttempts.n else 3;
    if ParseFailureAttemptState(e).Some? {
      assert CountsAs(e, e.attempt.n, limit);
    }
  }

  lemma {:induction false} NoCandidates(es: seq<Execution>)
    ensures RetryCandidates(es) == [] <==> forall i :: 0 <= i < |es| ==> !Counts(es[i])
  {
    if es != [] {
      NoCandidates(es[1..]);
      assert es == [es[0]] + es[1..];
      if es[0].status == Failed {
        ParsedIffCounts(es[0]);
      }
    }
  }

  lemma {:induction false} LeaderIsLatest(es: seq<Execution>) returns (i: int, n: int, limit: int)
    requires RetryCandidates(es) != []
    ensures Leads(es, i, n, limit)
    ensures LatestCandidate(RetryCandidates(es)) == RetryState(n >= limit, n < limit, n, limit, es[i].nextAttemptAt)
  {
    var rest := es[1..];
    var first := if es[0].status == Failed then ParseFailureAttemptState(es[0]) else None;
    if es[0].status == Failed {
      ParsedIffCounts(es[0]);
    }
    if RetryCandidates(rest) == [] {
      NoCandidates(rest);
      i, n, limit := 0, first.value.attempt, first.value.maxAttempts;
      assert CountsAs(es[0], n, limit);
      forall j | 0 < j < |es| ensures !Counts(es[j]) {
        assert es[j] == rest[j - 1];
      }
    } else {
      var i', n', limit' := LeaderIsLatest(rest);
      assert es[i' + 1] == rest[i'];
      if first.Some? && first.value.attempt >= n' {
        i, n, limit := 0, first.value.attempt, first.value.maxAttempts;
        assert CountsAs(es[0], n, limit);
      } else {
        i, n, limit := i' + 1, n', limit';
      }
      forall j, m, l | 0 <= j < |es| && CountsAs(es[j], m, l) ensures m <= n && (j < i ==> m < n) {
        if j > 0 {
          assert es[j] == rest[j - 1];
        }
      }
    }
  }

  /** A closing entry ends the proposal for good, whatever else is recorded. */
  lemma {:induction false} ClosedStays(id: string, journal: seq<Entry>, nowMs: int, i: int)
    requires 0 <= i < |ExecutionsOf(id, journal)| && Closes(ExecutionsOf(id, journal)[i])
    ensures var st := GetExecutionRetryState(id, journal, nowMs);
            st.terminal && !st.pending
  {
    assert ClosesProposal(ExecutionsOf(id, journal)[i]);
  }

  /** Without a closing entry or a failure that counts, it is as good as new. */
  lemma {:induction false} FreshMeaning(id: string, journal: seq<Entry>, nowMs: int)
    requires forall e :: e in ExecutionsOf(id, journal) ==> !Closes(e) && !Counts(e)
    ensures var st := GetExecutionRetryState(id, journal, nowMs);
            !st.terminal && st.pending && st.attempt == 0 && st.maxAttempts == 3
  {
    hide Counts;
    var es := ExecutionsOf(id, journal);
    NoCandidates(es);
    forall i | 0 <= i < |es| ensures !ClosesProposal(es[i]) && !Counts(es[i]) {
      assert es[i] in es;
    }
  }

  /** Else the leading failure decides: it gives up at its limit, and waits until its retry time. */
  lemma {:induction false} WaitingMeaning(id: string, journal: seq<Entry>, nowMs: int)
    returns (i: int, n: int, limit: int)
    requires forall e :: e in ExecutionsOf(id, journal) ==> !Closes(e)
    requires exists e :: e in ExecutionsOf(id, journal) && Counts(e)
    ensures var es := ExecutionsOf(id, journal);
            var st := GetExecutionRetryState(id, journal, nowMs);
            && Leads(es, i, n, limit) && 0 <= i < |es|
            && st.attempt == n && st.maxAttempts == limit && st.terminal == (n >= limit)
            && (st.pending <==> n < limit && (es[i].nextAttemptAt.None? || es[i].nextAttemptAt.value <= nowMs))
  {
    hide Leads, Counts;
    var es := ExecutionsOf(id, journal);
    NoCandidates(es);
    forall j | 0 <= j < |es| ensures !ClosesProposal(es[j]) {
      assert es[j] in es;
    }
    var e :| e in es && Counts(e);
    var j :| 0 <= j < |es| && es[j] == e;
    i, n, limit := LeaderIsLatest(es);
    LeaderBounds(es, i, n, limit);
  }

  lemma LeaderBounds(es: seq<Execution>, i: int, n: int, limit: int)
    requires Leads(es, i, n, limit)
    ensures 0 <= i < |es| && n > 0 && limit > 0 && Counts(es[i])
  {}

  // ---- One turn ---------------------------------------------------------------------------------

  ghost predicate Due(p: Proposal, nowMs: int) {
    p.expiresAt == None || p.expiresAt.value > nowMs
  }

  /** Named by hand, or automatic and mild enough: placing is tier 1, moving, draining and marking 2, the rest 3. */
  ghost predicate Selected(p: Proposal, opts: Options) {
    || opts.executeId == Some(p.proposalId)
    || (opts.auto && match p.action
                     case Place(_, _) => 1 <= opts.severityThreshold
                     case MarkDegraded(_) => 2 <= opts.severityThreshold
                     case Move(_, _, _) => 2 <= opts.severityThreshold
                     case Drain(_) => 2 <= opts.severityThreshold
                     case Evict(_) => 3 <= opts.severityThreshold
                     case Restart(_) => 3 <= opts.severityThreshold)
  }

  /** Actuators are called exactly for a due, selected evict or restart that its policy allows. */
  ghost predicate CallsWhenAllowed(t: Turn) {
    var p := t.proposal;
    t.calls != [] <==>
    Due(p, t.opts.nowMs) && Selected(p, t.opts) && (p.action.Evict? || p.action.Restart?) && !t.opts.policyNever(p)
  }

  /** Without a call the entry says why nothing was done, or that nothing had to be. */
  ghost predicate IdleReason(t: Turn) {
    var p, e := t.proposal, t.entry;
    t.calls == [] ==>
      && e.exitCode == None
      && if !Due(p, t.opts.nowMs) then e.status == Skipped && e.reason == Some(Expired)
         else if !Selected(p, t.opts) then
           e.status == Skipped && e.reason == Some(if t.opts.auto then TierExceedsThreshold else AutoNotSet)
         else if p.action.MarkDegraded? then e.status == Executed && e.reason == None
         else if p.action.Evict? || p.action.Restart? then e.status == Skipped && e.reason == Some(RestartPolicyNever)
         else e.status == Skipped && e.reason == Some(UnknownAction)
  }

  /** An evict makes one disable, and is executed exactly when that exits 0. */
  ghost predicate EvictCalls(t: Turn) {
    t.proposal.action.Evict? && t.calls != [] ==>
      && |t.calls| == 1 && t.calls[0].verb == Disable && t.calls[0].workload == t.proposal.action.workload
      && (t.entry.status == Executed <==> t.calls[0].outcome == Exit(0))
      && (t.entry.status == Executed || t.entry.status == Failed)
      && match t.calls[0].outcome
         case Throws => t.entry.reason == Some(ActuatorThrew) && t.entry.exitCode == None
         case Exit(code) => t.entry.reason == None && t.entry.exitCode == Some(code)
  }

  /** A restart disables first; it goes on to enable only after that exits 0, and again only after a nonzero exit. */
  ghost predicate RestartCalls(t: Turn) {
    t.proposal.action.Restart? && t.calls != [] ==>
      && 1 <= |t.calls| <= 3
      && (forall i :: 0 <= i < |t.calls| ==> t.calls[i].workload == t.proposal.action.workload)
      && t.calls[0].verb == Disable && (forall i :: 0 < i < |t.calls| ==> t.calls[i].verb == Enable)
      && (|t.calls| >= 2 <==> t.calls[0].outcome == Exit(0))
      && (|t.calls| == 3 <==> |t.calls| >= 2 && t.calls[1].outcome.Exit? && t.calls[1].outcome.code != 0)
  }

  /** It is executed exactly when the disable and the last enable exit 0; else the last call says what failed. */
  ghost predicate RestartOutcome(t: Turn) {
    t.proposal.action.Restart? && t.calls != [] ==>
      var w, e, last := t.proposal.action.workload, t.entry, t.calls[|t.calls| - 1];
      && (e.status == Executed <==> t.calls[0] == Call(Disable, w, Exit(0)) && last == Call(Enable, w, Exit(0)))
      && (e.status == Executed || e.status == Failed)
      && match last.outcome
         case Throws => e.reason == Some(ActuatorThrew) && e.exitCode == None
         case Exit(code) =>
           && e.exitCode == Some(code)
           && e.reason == (if e.status == Executed then None
                           else if last.verb == Disable then Some(DisablePhaseFailed)
                           else Some(EnablePhaseFailed))
  }

  /** A failure is stamped as an attempt; nothing else carries retry fields. */
  ghost predicate RetryFields(t: Turn, st: RetryState) {
    var e, n := t.entry, st.attempt + 1;
    if e.status == Failed then
      && e.attempt == AttemptNumber(n) && e.maxAttempts == AttemptLimit(st.maxAttempts)
      && (n >= st.maxAttempts ==> e.nextAttemptAt == None)
      && (n < st.maxAttempts ==> e.nextAttemptAt == Some(t.opts.nowMs + 30000 * Pow2(Max(0, n - 1))))
    else e.attempt == NoAttempt && e.maxAttempts == DefaultLimit && e.nextAttemptAt == None
  }

  /** All of it, and that the entry is about this proposal on this node. */
  ghost predicate Meant(t: Turn) {
    && t.entry.proposalId == t.proposal.proposalId && t.entry.action == t.proposal.action && t.entry.node == t.opts.node
    && CallsWhenAllowed(t) && IdleReason(t) && EvictCalls(t) && RestartCalls(t) && RestartOutcome(t)
  }

  lemma RestartIsMeant(p: Proposal, opts: Options, answers: nat -> Outcome, k: nat)
    requires p.action.Restart?
    ensures var t := RestartTurn(p, p.action.workload, opts, answers, k);
            && t.calls != [] && RestartCalls(t) && RestartOutcome(t)
            && t.proposal == p && t.opts == opts && t.entry.action == p.action && t.entry.node == opts.node
            && t.entry.proposalId == p.proposalId
            && t.entry.attempt == NoAttempt && t.entry.maxAttempts == DefaultLimit && t.entry.nextAttemptAt == None
            && forall i :: 0 <= i < |t.calls| ==> t.calls[i].outcome == answers(k + i)
  {}

  lemma {:induction false} ActionIsMeant(p: Proposal, opts: Options, answers: nat -> Outcome, k: nat)
    requires Due(p, opts.nowMs) && Selected(p, opts)
    ensures var t := ActionTurn(p, opts, answers, k);
            && Meant(t) && t.proposal == p && t.opts == opts
            && t.entry.attempt == NoAttempt && t.entry.maxAttempts == DefaultLimit && t.entry.nextAttemptAt == None
            && forall i :: 0 <= i < |t.calls| ==> t.calls[i].outcome == answers(k + i)
  {
    hide RestartTurn, RestartCalls, RestartOutcome;
    if p.action.Restart? && !opts.policyNever(p) {
      RestartIsMeant(p, opts, answers, k);
    } else {
      NoRestartCalls(ActionTurn(p, opts, answers, k));
    }
  }

  lemma NoRestartCalls(t: Turn)
    ensures t.calls == [] || !t.proposal.action.Restart? ==> RestartCalls(t) && RestartOutcome(t)
  {}

  lemma SelectedIsShouldExecute(p: Proposal, opts: Options)
    ensures ShouldExecute(p, opts) <==> Selected(p, opts)
    ensures IsExpired(p, opts.nowMs) <==> !Due(p, opts.nowMs)
  {}

  /** The retry stamp touches nothing the laws speak of. */
  lemma {:induction false} StampKeepsMeaning(t: Turn, attempt: int, maxAttempts: int)
    requires Meant(t)
    ensures Meant(t.(entry := MakeRetryFailureEntry(t.entry, attempt, maxAttempts, t.opts.nowMs)))
  {
    hide Selected, Due, RetryDelayMs;
  }

  /** A turn is taken exactly from a state that is pending and not terminal, and is as stated. */
  lemma {:induction false} TurnMeaning(p: Proposal, opts: Options, st: RetryState, answers: nat -> Outcome, k: nat)
    ensures var t := ProposalTurn(p, opts, st, answers, k);
            && (t.Some? <==> st.pending && !st.terminal)
            && (t.Some? ==>
                  && t.value.proposal == p && t.value.opts == opts && Meant(t.value) && RetryFields(t.value, st)
                  && forall i :: 0 <= i < |t.value.calls| ==> t.value.calls[i].outcome == answers(k + i))
  {
    hide ActionTurn, Meant, ShouldExecute, IsExpired, Selected, Due;
    SelectedIsShouldExecute(p, opts);
    if st.pending && !st.terminal {
      if IsExpired(p, opts.nowMs) {
        IdleIsMeant(p, opts, Some(Expired));
      } else if !ShouldExecute(p, opts) {
        IdleIsMeant(p, opts, Some(if !opts.auto then AutoNotSet else TierExceedsThreshold));
      } else {
        var t := ActionTurn(p, opts, answers, k);
        ActionIsMeant(p, opts, answers, k);
        StampKeepsMeaning(t, st.attempt + 1, st.maxAttempts);
        StampIsRetryFields(t, st);
        FailuresAreRetryable(t);
      }
    }
  }

  lemma {:induction false} IdleIsMeant(p: Proposal, opts: Options, reason: Option<Reason>)
    requires !Due(p, opts.nowMs) ==> reason == Some(Expired)
    requires Due(p, opts.nowMs) ==>
               !Selected(p, opts) && reason == Some(if !opts.auto then AutoNotSet else TierExceedsThreshold)
    ensures Meant(Turn(p, opts, BareEntry(p, opts, Skipped, reason, None), []))
  {
    hide Selected, Due;
  }

  lemma StampIsRetryFields(t: Turn, st: RetryState)
    requires t.entry.attempt == NoAttempt && t.entry.maxAttempts == DefaultLimit && t.entry.nextAttemptAt == None
    ensures var stamped := t.(entry := MakeRetryFailureEntry(t.entry, st.attempt + 1, st.maxAttempts, t.opts.nowMs));
            t.entry.status == Failed ==> RetryFields(stamped, st)
    ensures t.entry.status != Failed ==> RetryFields(t, st)
  {}

  lemma {:induction false} FailuresAreRetryable(t: Turn)
    requires Meant(t)
    ensures IsRetryableFailure(t.entry) <==> t.entry.status == Failed
  {
    hide Selected, Due;
  }

  // ---- Whole runs and histories -------------------------------------------------------------------

  /** The run takes a turn exactly for each proposal whose replayed state is pending, in order, each as stated. */
  lemma {:induction false} RunMeaning(ps: seq<Proposal>, entries: seq<Entry>, opts: Options, answers: nat -> Outcome,
                                      k: nat)
    ensures var turns := RunTurns(ps, entries, opts, answers, k);
            && ProposalsOf(turns) == PendingOf(ps, entries, opts.nowMs)
            && (forall i :: 0 <= i < |turns| ==>
                  && turns[i].opts == opts && Meant(turns[i])
                  && RetryFields(turns[i], GetExecutionRetryState(turns[i].proposal.proposalId, entries, opts.nowMs)))
            && (forall i :: 0 <= i < |CallsOf(turns)| ==> CallsOf(turns)[i].outcome == answers(k + i))
  {
    hide ProposalTurn, GetExecutionRetryState, Meant, RetryFields;
    if ps != [] {
      var st := GetExecutionRetryState(ps[0].proposalId, entries, opts.nowMs);
      var here := ProposalTurn(ps[0], opts, st, answers, k);
      TurnMeaning(ps[0], opts, st, answers, k);
      var k' := if here.Some? then k + |here.value.calls| else k;
      RunMeaning(ps[1..], entries, opts, answers, k');
      if here.Some? {
        var rest := RunTurns(ps[1..], entries, opts, answers, k');
        assert ([here.value] + rest)[1..] == rest;
      }
    }
  }

  ghost function ProposalsOf(turns: seq<Turn>): seq<Proposal> {
    if turns == [] then [] else [turns[0].proposal] + ProposalsOf(turns[1..])
  }

  /** The proposals whose state is pending and not terminal, in order. */
  ghost function PendingOf(ps: seq<Proposal>, entries: seq<Entry>, nowMs: int): seq<Proposal> {
    if ps == [] then []
    else
      var st := GetExecutionRetryState(ps[0].proposalId, entries, nowMs);
      (if st.pending && !st.terminal then [ps[0]] else []) + PendingOf(ps[1..], entries, nowMs)
  }

  ghost predicate AllMeant(turns: seq<Turn>) {
    forall t :: t in turns ==> Meant(t)
  }

  lemma {:induction false} StepIsMeant(w: World, event: Event, answers: nat -> Outcome)
    requires AllMeant(w.turns)
    ensures AllMeant(Step(w, event, answers).turns)
  {
    hide Meant, RunTurns, RetryFields;
    if event.Run? {
      var ps, k := ProposalsFor(event.opts.node, w.journal), |CallsOf(w.turns)|;
      RunMeaning(ps, w.journal, event.opts, answers, k);
    }
  }

  /** Every turn of every history, from every journal, is as stated. */
  lemma {:induction false} EveryTurnIsMeant(w: World, events: seq<Event>, answers: nat -> Outcome)
    requires AllMeant(w.turns)
    ensures AllMeant(After(w, events, answers).turns)
    decreases |events|
  {
    hide AllMeant, Step;
    if events != [] {
      StepIsMeant(w, events[0], answers);
      EveryTurnIsMeant(Step(w, events[0], answers), events[1..], answers);
    }
  }
}
