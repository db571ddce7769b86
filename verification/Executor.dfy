/**
 The fleet executor. Its only memory is an append-only journal: each run re-reads the whole
 journal, recomputes every proposal's retry state from it, acts, and appends what happened.
 */
module Executor {
  import opened Prelude

  const DEFAULT_MAX_EXECUTION_ATTEMPTS := 3
  const EXECUTION_RETRY_DELAY_MS := 30000

  // ---- Journal entries ---------------------------------------------------

  datatype Action =
    | Evict(workload: string)
    | Restart(workload: string)
    | MarkDegraded(workload: string)
    | Place(workload: string, toNode: string)
    | Move(workload: string, fromNode: string, toNode: string)
    | Drain(node: string)

  datatype Status = Executed | Skipped | Failed

  /** The optional `attempt` field; anything present that is not an integer is malformed. */
  datatype AttemptField = NoAttempt | MalformedAttempt | AttemptNumber(n: int)

  /** The optional `maxAttempts` field; absent means the default, a non-number is malformed. */
  datatype LimitField = DefaultLimit | MalformedLimit | AttemptLimit(n: int)

  datatype Reason =
    | Expired | AutoNotSet | TierExceedsThreshold | RestartPolicyNever
    | DisablePhaseFailed | EnablePhaseFailed | ActuatorThrew | UnknownAction

  datatype Execution = Execution(
    node: string,
    proposalId: string,
    action: Action,
    status: Status,
    reason: Option<Reason>,
    exitCode: Option<int>,
    attempt: AttemptField,
    maxAttempts: LimitField,
    nextAttemptAt: Option<int>)  // None: absent or not a parseable date

  datatype Proposal = Proposal(
    node: string,
    proposalId: string,
    action: Action,
    expiresAt: Option<int>)      // None: absent or not a parseable date

  datatype Entry = Proposed(proposal: Proposal) | Recorded(execution: Execution) | OtherEntry

  // ---- Options and the outside world --------------------------------------

  datatype Options = Options(
    node: string,
    auto: bool,
    severityThreshold: int,
    executeId: Option<string>,
    nowMs: int,
    policyNever: Proposal -> bool)  // loadRestartPolicy answered "Never" (false if it threw or is absent)

  datatype Verb = Disable | Enable

  /** What one actuator call did: returned an exit code, or threw. */
  datatype Outcome = Exit(code: int) | Throws

  datatype Call = Call(verb: Verb, workload: string, outcome: Outcome)

  /** What a run did for one proposal: the entry it journaled and the calls it made for it. */
  datatype Turn = Turn(proposal: Proposal, opts: Options, entry: Execution, calls: seq<Call>)

  // ---- Retry state replayed from the journal -------------------------------

  datatype RetryState = RetryState(
    terminal: bool,
    pending: bool,
    attempt: int,
    maxAttempts: int,
    blockedUntilMs: Option<int>)

  function ExecutionsOf(id: string, entries: seq<Entry>): seq<Execution> {
    if entries == [] then []
    else if entries[0].Recorded? && entries[0].execution.proposalId == id then
      [entries[0].execution] + ExecutionsOf(id, entries[1..])
    else ExecutionsOf(id, entries[1..])
  }

  function ParseFailureAttemptState(e: Execution): Option<RetryState> {
    var limit := if e.maxAttempts.AttemptLimit? then e.maxAttempts.n else DEFAULT_MAX_EXECUTION_ATTEMPTS;
    if !e.attempt.AttemptNumber? || e.attempt.n <= 0 || e.maxAttempts.MalformedLimit? || limit <= 0 then None
    else Some(RetryState(e.attempt.n >= limit, e.attempt.n < limit, e.attempt.n, limit, e.nextAttemptAt))
  }

  function RetryCandidates(es: seq<Execution>): seq<RetryState> {
    if es == [] then []
    else
      var rest := RetryCandidates(es[1..]);
      if es[0].status.Failed? && ParseFailureAttemptState(es[0]).Some?
      then [ParseFailureAttemptState(es[0]).value] + rest
      else rest
  }

  /** Head of the list after the stable descending sort by attempt: the leftmost greatest attempt. */
  function LatestCandidate(cs: seq<RetryState>): RetryState
    requires cs != []
  {
    if |cs| == 1 then cs[0]
    else
      var later := LatestCandidate(cs[1..]);
      if cs[0].attempt >= later.attempt then cs[0] else later
  }

  predicate ClosesProposal(e: Execution) {
    e.status.Executed? || e.status.Skipped? || e.attempt.NoAttempt?
  }

  function GetExecutionRetryState(id: string, entries: seq<Entry>, nowMs: int): RetryState {
    var es := ExecutionsOf(id, entries);
    if exists i :: 0 <= i < |es| && ClosesProposal(es[i]) then
      RetryState(true, false, 0, DEFAULT_MAX_EXECUTION_ATTEMPTS, None)
    else
      var cs := RetryCandidates(es);
      if cs == [] then RetryState(false, true, 0, DEFAULT_MAX_EXECUTION_ATTEMPTS, None)
      else
        var latest := LatestCandidate(cs);
        if latest.terminal then latest.(pending := false, blockedUntilMs := None)
        else if latest.blockedUntilMs.Some? && latest.blockedUntilMs.value > nowMs then
          latest.(terminal := false, pending := false)
        else latest.(terminal := false, pending := true, blockedUntilMs := None)
  }

  function Pow2(n: nat): nat {
    if n == 0 then 1 else 2 * Pow2(n - 1)
  }

  function RetryDelayMs(attempt: int): int {
    EXECUTION_RETRY_DELAY_MS * Pow2(Max(0, attempt - 1))
  }

  function MakeRetryFailureEntry(e: Execution, attempt: int, maxAttempts: int, nowMs: int): Execution {
    var stamped := e.(attempt := AttemptNumber(attempt), maxAttempts := AttemptLimit(maxAttempts));
    if attempt >= maxAttempts then stamped
    else stamped.(nextAttemptAt := Some(nowMs + RetryDelayMs(attempt)))
  }

  // ---- One proposal's turn, as a function of the outside world's answers ----

  function ActionTier(a: Action): int {
    match a
    case MarkDegraded(_) => 2
    case Place(_, _) => 1
    case Move(_, _, _) => 2
    case Drain(_) => 2
    case _ => 3
  }

  predicate IsExpired(p: Proposal, nowMs: int) {
    p.expiresAt.Some? && p.expiresAt.value <= nowMs
  }

  predicate ShouldExecute(p: Proposal, opts: Options) {
    opts.executeId == Some(p.proposalId) || (opts.auto && ActionTier(p.action) <= opts.severityThreshold)
  }

  /** An entry for `p` with the given status and no retry metadata. */
  function BareEntry(p: Proposal, opts: Options, status: Status, reason: Option<Reason>, code: Option<int>): Execution {
    Execution(opts.node, p.proposalId, p.action, status, reason, code, NoAttempt, DefaultLimit, None)
  }

  /** Disable, then enable, with one bounded recovery enable. `k` is the index of the next call. */
  function RestartTurn(p: Proposal, w: string, opts: Options, answers: nat -> Outcome, k: nat): Turn {
    var down := Call(Disable, w, answers(k));
    if down.outcome.Throws? then
      Turn(p, opts, BareEntry(p, opts, Failed, Some(ActuatorThrew), None), [down])
    else if down.outcome.code != 0 then
      Turn(p, opts, BareEntry(p, opts, Failed, Some(DisablePhaseFailed), Some(down.outcome.code)), [down])
    else
      var up := Call(Enable, w, answers(k + 1));
      if up.outcome.Throws? then
        Turn(p, opts, BareEntry(p, opts, Failed, Some(ActuatorThrew), None), [down, up])
      else if up.outcome.code == 0 then
        Turn(p, opts, BareEntry(p, opts, Executed, None, Some(0)), [down, up])
      else
        var again := Call(Enable, w, answers(k + 2));
        if again.outcome.Throws? then
          Turn(p, opts, BareEntry(p, opts, Failed, Some(ActuatorThrew), None), [down, up, again])
        else if again.outcome.code == 0 then
          Turn(p, opts, BareEntry(p, opts, Executed, None, Some(0)), [down, up, again])
        else
          Turn(p, opts, BareEntry(p, opts, Failed, Some(EnablePhaseFailed), Some(again.outcome.code)),
               [down, up, again])
  }

  function ActionTurn(p: Proposal, opts: Options, answers: nat -> Outcome, k: nat): Turn {
    match p.action
    case MarkDegraded(_) => Turn(p, opts, BareEntry(p, opts, Executed, None, None), [])
    case Evict(w) =>
      if opts.policyNever(p) then Turn(p, opts, BareEntry(p, opts, Skipped, Some(RestartPolicyNever), None), [])
      else
        var down := Call(Disable, w, answers(k));
        Turn(p, opts,
             match down.outcome
             case Throws => BareEntry(p, opts, Failed, Some(ActuatorThrew), None)
             case Exit(code) => BareEntry(p, opts, if code == 0 then Executed else Failed, None, Some(code)),
             [down])
    case Restart(w) =>
      if opts.policyNever(p) then Turn(p, opts, BareEntry(p, opts, Skipped, Some(RestartPolicyNever), None), [])
      else RestartTurn(p, w, opts, answers, k)
    case _ => Turn(p, opts, BareEntry(p, opts, Skipped, Some(UnknownAction), None), [])
  }

  predicate IsRetryableFailure(e: Execution) {
    e.status.Failed? && (e.action.Evict? || e.action.Restart?)
  }

  function ExecuteOneTurn(p: Proposal, opts: Options, st: RetryState, answers: nat -> Outcome, k: nat): Turn {
    if !ShouldExecute(p, opts) then
      Turn(p, opts, BareEntry(p, opts, Skipped, Some(if !opts.auto then AutoNotSet else TierExceedsThreshold), None),
           [])
    else
      var t := ActionTurn(p, opts, answers, k);
      if IsRetryableFailure(t.entry)
      then t.(entry := MakeRetryFailureEntry(t.entry, st.attempt + 1, st.maxAttempts, opts.nowMs))
      else t
  }

  function ProposalTurn(p: Proposal, opts: Options, st: RetryState, answers: nat -> Outcome, k: nat): Option<Turn> {
    if st.terminal || !st.pending then None
    else if IsExpired(p, opts.nowMs) then Some(Turn(p, opts, BareEntry(p, opts, Skipped, Some(Expired), None), []))
    else Some(ExecuteOneTurn(p, opts, st, answers, k))
  }

  function ProposalsFor(node: string, entries: seq<Entry>): seq<Proposal> {
    if entries == [] then []
    else if entries[0].Proposed? && entries[0].proposal.node == node then
      [entries[0].proposal] + ProposalsFor(node, entries[1..])
    else ProposalsFor(node, entries[1..])
  }

  /** The turns one run takes over `ps`; every state is replayed from the snapshot `entries`. */
  function RunTurns(ps: seq<Proposal>, entries: seq<Entry>, opts: Options, answers: nat -> Outcome, k: nat): seq<Turn> {
    if ps == [] then []
    else
      match ProposalTurn(ps[0], opts, GetExecutionRetryState(ps[0].proposalId, entries, opts.nowMs), answers, k)
      case None => RunTurns(ps[1..], entries, opts, answers, k)
      case Some(t) => [t] + RunTurns(ps[1..], entries, opts, answers, k + |t.calls|)
  }

  function CallsOf(turns: seq<Turn>): seq<Call> {
    if turns == [] then [] else turns[0].calls + CallsOf(turns[1..])
  }

  function EntriesOf(turns: seq<Turn>): seq<Execution> {
    if turns == [] then [] else [turns[0].entry] + EntriesOf(turns[1..])
  }

  function AsEntries(es: seq<Execution>): seq<Entry> {
    if es == [] then [] else [Recorded(es[0])] + AsEntries(es[1..])
  }

  // ---- The executor itself: it appends to the journal as it goes --------------

  class Supervisor {
    var journal: seq<Entry>
    var calls: seq<Call>
    const answers: nat -> Outcome  // the answer to the k-th actuator call

    constructor (journal: seq<Entry>, answers: nat -> Outcome)
      ensures this.journal == journal && calls == [] && this.answers == answers
    {
      this.journal, calls := journal, [];
      this.answers := answers;
    }

    /** `opts.disable` and `opts.enable`. */
    method Actuate(verb: Verb, w: string) returns (outcome: Outcome)
      modifies this`calls
      ensures outcome == answers(|old(calls)|)
      ensures calls == old(calls) + [Call(verb, w, outcome)]
    {
      outcome := answers(|calls|);
      calls := calls + [Call(verb, w, outcome)];
    }

    /** None when an actuator call threw: the caller's catch block turns that into a failure. */
    method ExecuteRestart(p: Proposal, w: string, opts: Options) returns (e: Option<Execution>)
      modifies this`calls
      ensures var t := RestartTurn(p, w, opts, answers, |old(calls)|);
              calls == old(calls) + t.calls &&
              (if e.Some? then e.value == t.entry
               else t.entry == BareEntry(p, opts, Failed, Some(ActuatorThrew), None))
    {
      var down := Actuate(Disable, w);
      if down.Throws? { return None; }
      if down.code != 0 {
        return Some(BareEntry(p, opts, Failed, Some(DisablePhaseFailed), Some(down.code)));
      }
      var up := Actuate(Enable, w);
      if up.Throws? { return None; }
      if up.code == 0 { return Some(BareEntry(p, opts, Executed, None, Some(up.code))); }
      var again := Actuate(Enable, w);
      if again.Throws? { return None; }
      if again.code == 0 { return Some(BareEntry(p, opts, Executed, None, Some(again.code))); }
      return Some(BareEntry(p, opts, Failed, Some(EnablePhaseFailed), Some(again.code)));
    }

    method ExecuteAction(p: Proposal, opts: Options) returns (e: Execution)
      modifies this`calls
      ensures var t := ActionTurn(p, opts, answers, |old(calls)|);
              e == t.entry && calls == old(calls) + t.calls
    {
      match p.action {
        case MarkDegraded(_) =>
          e := BareEntry(p, opts, Executed, None, None);
        case Evict(w) =>
          if opts.policyNever(p) {
            e := BareEntry(p, opts, Skipped, Some(RestartPolicyNever), None);
          } else {
            var down := Actuate(Disable, w);
            e := match down
              case Throws => BareEntry(p, opts, Failed, Some(ActuatorThrew), None)
              case Exit(code) => BareEntry(p, opts, if code == 0 then Executed else Failed, None, Some(code));
          }
        case Restart(w) =>
          if opts.policyNever(p) {
            e := BareEntry(p, opts, Skipped, Some(RestartPolicyNever), None);
          } else {
            var r := ExecuteRestart(p, w, opts);
            e := match r
              case None => BareEntry(p, opts, Failed, Some(ActuatorThrew), None)
              case Some(entry) => entry;
          }
        case _ =>
          e := BareEntry(p, opts, Skipped, Some(UnknownAction), None);
      }
    }

    method ExecuteOne(p: Proposal, opts: Options, st: RetryState) returns (e: Execution)
      modifies this
      ensures var t := ExecuteOneTurn(p, opts, st, answers, |old(calls)|);
              e == t.entry && calls == old(calls) + t.calls && journal == old(journal) + [Recorded(e)]
    {
      if !ShouldExecute(p, opts) {
        e := BareEntry(p, opts, Skipped, Some(if !opts.auto then AutoNotSet else TierExceedsThreshold), None);
        journal := journal + [Recorded(e)];
        return;
      }
      e := ExecuteAction(p, opts);
      if IsRetryableFailure(e) {
        e := MakeRetryFailureEntry(e, st.attempt + 1, st.maxAttempts, opts.nowMs);
      }
      journal := journal + [Recorded(e)];
    }

    /** One run: replay the journal, act on every pending proposal in order, append each outcome. */
    method RunExecutor(opts: Options) returns (results: seq<Execution>, ghost turns: seq<Turn>)
      modifies this
      ensures turns == RunTurns(ProposalsFor(opts.node, old(journal)), old(journal), opts, answers, |old(calls)|)
      ensures results == EntriesOf(turns)
      ensures journal == old(journal) + AsEntries(results)
      ensures calls == old(calls) + CallsOf(turns)
    {
      hide ProposalTurn, RunTurns, Progress, GetExecutionRetryState;
      var entries := journal;
      var proposals := ProposalsFor(opts.node, entries);
      results, turns := [], [];
      ghost var calls0 := calls;
      ghost var all := RunTurns(proposals, entries, opts, answers, |calls|);
      ghost var rest := all;
      var i := 0;
      assert proposals[0..] == proposals;
      ProgressStart(all, entries, calls0);
      while i < |proposals|
        invariant 0 <= i <= |proposals|
        invariant rest == RunTurns(proposals[i..], entries, opts, answers, |calls|)
        invariant Progress(all, rest, entries, calls0, turns, results, journal, calls)
      {
        ghost var turns0, results0, journal0, calls1 := turns, results, journal, calls;
        var e, t := TakeTurn(proposals[i], entries, opts);
        rest := RunTurnsAt(proposals, i, entries, opts, answers, |calls1|, t);
        if e.Some? {
          results := results + [e.value];
          turns := turns + [t.value];
          ProgressStep(all, t.value, rest, entries, calls0, turns0, results0, journal0, calls1);
        }
        i := i + 1;
      }
      assert proposals[i..] == [];
      ProgressEnd(all, entries, opts, answers, calls0, turns, results, journal, calls);
    }

    /** The loop body of a run: skip, expire or execute one proposal. */
    method TakeTurn(p: Proposal, entries: seq<Entry>, opts: Options)
      returns (e: Option<Execution>, ghost t: Option<Turn>)
      modifies this
      ensures t == ProposalTurn(p, opts, GetExecutionRetryState(p.proposalId, entries, opts.nowMs), answers,
                                |old(calls)|)
      ensures t.None? ==> e.None? && journal == old(journal) && calls == old(calls)
      ensures t.Some? ==>
                e == Some(t.value.entry) && journal == old(journal) + [Recorded(t.value.entry)] &&
                calls == old(calls) + t.value.calls
    {
      var st := GetExecutionRetryState(p.proposalId, entries, opts.nowMs);
      t := ProposalTurn(p, opts, st, answers, |calls|);
      if st.terminal || !st.pending {
        return None, t;
      }
      if IsExpired(p, opts.nowMs) {
        e := Some(BareEntry(p, opts, Skipped, Some(Expired), None));
        journal := journal + [Recorded(e.value)];
      } else {
        var done := ExecuteOne(p, opts, st);
        e := Some(done);
      }
    }
  }

  lemma {:induction false} RunTurnsAt(ps: seq<Proposal>, i: nat, entries: seq<Entry>, opts: Options,
                                      answers: nat -> Outcome, k: nat,
                   here: Option<Turn>)
    returns (rest: seq<Turn>)
    requires i < |ps|
    requires here == ProposalTurn(ps[i], opts, GetExecutionRetryState(ps[i].proposalId, entries, opts.nowMs), answers,
                                  k)
    ensures rest == RunTurns(ps[i + 1..], entries, opts, answers, if here.Some? then k + |here.value.calls| else k)
    ensures RunTurns(ps[i..], entries, opts, answers, k) == if here.Some? then [here.value] + rest else rest
  {
    assert ps[i..][0] == ps[i] && ps[i..][1..] == ps[i + 1..];
    rest := RunTurns(ps[i + 1..], entries, opts, answers, if here.Some? then k + |here.value.calls| else k);
  }

  /** Mid-run: the turns taken and still to come make up the whole run; everything taken so far is on record. */
  ghost predicate Progress(all: seq<Turn>, rest: seq<Turn>, entries: seq<Entry>, calls0: seq<Call>,
                           turns: seq<Turn>, results: seq<Execution>, journal: seq<Entry>, calls: seq<Call>)
  {
    && turns + rest == all
    && results == EntriesOf(turns)
    && journal == entries + AsEntries(results)
    && calls == calls0 + CallsOf(turns)
  }

  lemma ProgressStart(all: seq<Turn>, entries: seq<Entry>, calls: seq<Call>)
    ensures Progress(all, all, entries, calls, [], [], entries, calls)
  {}

  lemma {:induction false} ProgressEnd(all: seq<Turn>, entries: seq<Entry>, opts: Options, answers: nat -> Outcome,
                                       calls0: seq<Call>,
                    turns: seq<Turn>, results: seq<Execution>, journal: seq<Entry>, calls: seq<Call>)
    requires Progress(all, RunTurns([], entries, opts, answers, |calls|), entries, calls0, turns, results, journal,
                      calls)
    ensures turns == all && results == EntriesOf(turns) && journal == entries + AsEntries(results) &&
            calls == calls0 + CallsOf(turns)
  {
    hide GetExecutionRetryState;
    assert turns + [] == turns;
  }

  lemma {:induction false} ProgressStep(all: seq<Turn>, t: Turn, rest: seq<Turn>, entries: seq<Entry>,
                                        calls0: seq<Call>,
                     turns: seq<Turn>, results: seq<Execution>, journal: seq<Entry>, calls: seq<Call>)
    requires Progress(all, [t] + rest, entries, calls0, turns, results, journal, calls)
    ensures Progress(all, rest, entries, calls0, turns + [t], results + [t.entry],
                     journal + [Recorded(t.entry)], calls + t.calls)
  {
    assert turns + ([t] + rest) == (turns + [t]) + rest;
    TurnAppended(turns, t);
    AsEntriesAppend(results, t.entry);
  }

  lemma {:induction false} TurnAppended(turns: seq<Turn>, t: Turn)
    ensures CallsOf(turns + [t]) == CallsOf(turns) + t.calls
    ensures EntriesOf(turns + [t]) == EntriesOf(turns) + [t.entry]
  {
    if turns == [] {
      assert turns + [t] == [t];
    } else {
      TurnAppended(turns[1..], t);
      assert (turns + [t])[1..] == turns[1..] + [t];
    }
  }

  lemma {:induction false} AsEntriesAppend(es: seq<Execution>, e: Execution)
    ensures AsEntries(es + [e]) == AsEntries(es) + [Recorded(e)]
  {
    if es == [] {
      assert es + [e] == [e];
    } else {
      AsEntriesAppend(es[1..], e);
      assert (es + [e])[1..] == es[1..] + [e];
    }
  }
}
