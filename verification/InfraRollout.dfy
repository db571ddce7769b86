/**
 The staged infrastructure rollout: plan the groups, then install, activate and health-check one group after
 another. What each call to a peer answers is arbitrary; a call is answered by its position in the log, so
 every pattern of failures is covered. A rejected activate is taken to leave the peer's version alone.
 */
module InfraRollout {
  import opened Prelude

  datatype Peer = Peer(id: string)

  type Version = string

  datatype Strategy = OneAtATime | AllAtOnce

  // ---- Planning ---------------------------------------------------------------------------------

  function Others(peers: seq<Peer>, local: string): seq<Peer> {
    Filter((p: Peer) => p.id != local, peers)
  }

  function Locals(peers: seq<Peer>, local: string): seq<Peer> {
    Filter((p: Peer) => p.id == local, peers)
  }

  function Singletons(peers: seq<Peer>): seq<seq<Peer>> {
    seq(|peers|, i requires 0 <= i < |peers| => [peers[i]])
  }

  function PlanRollout(peers: seq<Peer>, local: string, strategy: Strategy): seq<seq<Peer>> {
    if strategy == AllAtOnce then Filter((g: seq<Peer>) => |g| > 0, [Others(peers, local), Locals(peers, local)])
    else Singletons(Others(peers, local)) + Singletons(Locals(peers, local))
  }

  function Flatten(groups: seq<seq<Peer>>): seq<Peer> {
    if groups == [] then [] else groups[0] + Flatten(groups[1..])
  }

  lemma {:induction false} FlattenConcat(a: seq<seq<Peer>>, b: seq<seq<Peer>>)
    ensures Flatten(a + b) == Flatten(a) + Flatten(b)
  {
    if a == [] {
      assert a + b == b;
    } else {
      assert (a + b)[0] == a[0] && (a + b)[1..] == a[1..] + b;
      FlattenConcat(a[1..], b);
    }
  }

  lemma {:induction false} FlattenSingletons(peers: seq<Peer>)
    ensures Flatten(Singletons(peers)) == peers
  {
    if peers != [] {
      assert Singletons(peers)[1..] == Singletons(peers[1..]);
      FlattenSingletons(peers[1..]);
    }
  }

  lemma {:induction false} SplitByLocal(peers: seq<Peer>, local: string)
    ensures multiset(Others(peers, local)) + multiset(Locals(peers, local)) == multiset(peers)
    ensures forall p :: p in Others(peers, local) ==> p.id != local
    ensures forall p :: p in Locals(peers, local) ==> p.id == local
  {
    if peers != [] {
      SplitByLocal(peers[1..], local);
      assert peers == [peers[0]] + peers[1..];
    }
  }

  /**
   The groups are a partition of the peers into non-empty groups, everyone else before the local node: once a
   group holds a local peer, it and all later groups hold only local peers.
   */
  lemma {:induction false} PlanIsPartition(peers: seq<Peer>, local: string, strategy: Strategy)
    ensures var plan := PlanRollout(peers, local, strategy);
            && Flatten(plan) == Others(peers, local) + Locals(peers, local)
            && multiset(Flatten(plan)) == multiset(peers)
            && (forall g :: g in plan ==> g != [])
            && (forall i, j, p, q :: 0 <= i <= j < |plan| && p in plan[i] && p.id == local && q in plan[j] ==>
                q.id == local)
            && (strategy == OneAtATime ==> forall g :: g in plan ==> |g| == 1)
            && (strategy == AllAtOnce ==>
                  |plan| == (if Others(peers, local) == [] then 0 else 1) + if Locals(peers, local) == [] then 0 else 1)
  {
    hide Filter, Singletons;
    hide Others, Locals, Flatten;
    var others, locals := Others(peers, local), Locals(peers, local);
    SplitByLocal(peers, local);
    if strategy == AllAtOnce {
      TwoGroups(others, locals);
    } else {
      SingletonGroups(others, locals);
    }
    LocalsLast(others, locals, local, PlanRollout(peers, local, strategy));
  }

  lemma LocalsLast(others: seq<Peer>, locals: seq<Peer>, local: string, plan: seq<seq<Peer>>)
    requires (forall p :: p in others ==> p.id != local) && forall p :: p in locals ==> p.id == local
    requires || plan == (if others == [] then [] else [others]) + (if locals == [] then [] else [locals])
             || (|plan| == |others| + |locals| && forall i :: 0 <= i < |plan| ==> plan[i] == [(others + locals)[i]])
    ensures forall i, j, p, q :: 0 <= i <= j < |plan| && p in plan[i] && p.id == local && q in plan[j] ==> q.id == local
  {}

  lemma {:induction false} TwoGroups(a: seq<Peer>, b: seq<Peer>)
    ensures Filter((g: seq<Peer>) => |g| > 0, [a, b]) == (if a == [] then [] else [a]) + (if b == [] then [] else [b])
    ensures Flatten(Filter((g: seq<Peer>) => |g| > 0, [a, b])) == a + b
  {
    var p := (g: seq<Peer>) => |g| > 0;
    assert [a, b][1..] == [b] && [b][1..] == [];
    assert Filter(p, [b]) == (if b == [] then [] else [b]) + Filter(p, []);
    assert Filter(p, [a, b]) == (if a == [] then [] else [a]) + Filter(p, [b]);
    FlattenConcat(if a == [] then [] else [a], if b == [] then [] else [b]);
    assert Flatten([]) == [];
    assert a != [] ==> [a][1..] == [] && Flatten([a]) == a + [];
    assert b != [] ==> [b][1..] == [] && Flatten([b]) == b + [];
  }

  lemma {:induction false} SingletonGroups(a: seq<Peer>, b: seq<Peer>)
    ensures var plan := Singletons(a) + Singletons(b);
            && Flatten(plan) == a + b
            && |plan| == |a| + |b|
            && forall i :: 0 <= i < |plan| ==> plan[i] == [(a + b)[i]]
  {
    FlattenConcat(Singletons(a), Singletons(b));
    FlattenSingletons(a);
    FlattenSingletons(b);
  }

  // ---- Calls and their log ------------------------------------------------------------------------

  datatype Action = Install(version: Version) | Activate(version: Version) | PollHealth

  /** For installs and activations anything but Rejected is a fulfilled promise; a health poll may also time out. */
  datatype Answer = Fulfilled | Rejected | TimedOut

  datatype Call = Call(action: Action, peer: Peer, answer: Answer)

  datatype Outcome = Ok | InstallFailed | ActivateFailed | HealthTimeout | Thrown

  type Oracle = nat -> Answer

  /** The same action on every peer of a group, with the answers found from position `at` on. */
  function Phase(action: Action, group: seq<Peer>, oracle: Oracle, at: nat): seq<Call> {
    seq(|group|, i requires 0 <= i < |group| => Call(action, group[i], oracle(at + i)))
  }

  predicate AnyAnswer(calls: seq<Call>, answer: Answer) {
    exists c :: c in calls && c.answer == answer
  }

  /** The peers whose call was not rejected, in order. */
  function Switched(calls: seq<Call>): seq<Peer> {
    if calls == [] then []
    else if calls[0].answer == Rejected then Switched(calls[1..])
    else [calls[0].peer] + Switched(calls[1..])
  }

  function GroupRun(group: seq<Peer>, version: Version, previous: Option<Version>, oracle: Oracle,
                    at: nat): (seq<Call>, Outcome)
  {
    var n := |group|;
    var installs := Phase(Install(version), group, oracle, at);
    if AnyAnswer(installs, Rejected) then (installs, InstallFailed)
    else
      var activates := Phase(Activate(version), group, oracle, at + n);
      if AnyAnswer(activates, Rejected) then
        var back := if previous.None? then []
                    else Phase(Activate(previous.value), Switched(activates), oracle, at + 2 * n);
        (installs + activates + back, ActivateFailed)
      else
        var polls := Phase(PollHealth, group, oracle, at + 2 * n);
        (installs + activates + polls,
         if AnyAnswer(polls, Rejected) then Thrown else if AnyAnswer(polls, TimedOut) then HealthTimeout else Ok)
  }

  function RolloutRun(groups: seq<seq<Peer>>, version: Version, previous: Option<Version>, oracle: Oracle,
                      at: nat): (seq<Call>, Outcome)
  {
    if groups == [] then ([], Ok)
    else
      var (calls, outcome) := GroupRun(groups[0], version, previous, oracle, at);
      if outcome != Ok then (calls, outcome)
      else
        var (rest, last) := RolloutRun(groups[1..], version, previous, oracle, at + |calls|);
        (calls + rest, last)
  }

  class Fleet {
    const oracle: Oracle
    var log: seq<Call>

    constructor (oracle: Oracle)
      ensures this.oracle == oracle && log == []
    {
      this.oracle := oracle;
      log := [];
    }

    method Perform(action: Action, peer: Peer) returns (answer: Answer)
      modifies this
      ensures answer == oracle(|old(log)|) && log == old(log) + [Call(action, peer, answer)]
    {
      answer := oracle(|log|);
      log := log + [Call(action, peer, answer)];
    }

    /** Promise.allSettled over a group: every call is made whatever the others answer. */
    method PerformAll(action: Action, group: seq<Peer>) returns (calls: seq<Call>)
      modifies this
      ensures calls == Phase(action, group, oracle, |old(log)|) && log == old(log) + calls && |calls| == |group|
    {
      calls := [];
      var i := 0;
      while i < |group|
        invariant 0 <= i <= |group|
        invariant calls == Phase(action, group[..i], oracle, |old(log)|) && log == old(log) + calls
      {
        var answer := Perform(action, group[i]);
        calls := calls + [Call(action, group[i], answer)];
        i := i + 1;
      }
      assert group[..i] == group;
    }

    method RunGroup(group: seq<Peer>, version: Version, previous: Option<Version>) returns (outcome: Outcome)
      modifies this
      ensures var (calls, result) := GroupRun(group, version, previous, oracle, |old(log)|);
              log == old(log) + calls && outcome == result
    {
      hide Phase, Switched, AnyAnswer, AnyAnswerIn;
      var installs := PerformAll(Install(version), group);
      if AnyAnswerIn(installs, Rejected) {
        return InstallFailed;
      }
      var activates := PerformAll(Activate(version), group);
      if AnyAnswerIn(activates, Rejected) {
        if previous.Some? {
          var back := PerformAll(Activate(previous.value), Switched(activates));
        }
        return ActivateFailed;
      }
      var polls := PerformAll(PollHealth, group);
      if AnyAnswerIn(polls, Rejected) {
        return Thrown;
      }
      outcome := if AnyAnswerIn(polls, TimedOut) then HealthTimeout else Ok;
    }

    method RunRollout(groups: seq<seq<Peer>>, version: Version, previous: Option<Version>) returns (outcome: Outcome)
      modifies this
      ensures var (calls, result) := RolloutRun(groups, version, previous, oracle, |old(log)|);
              log == old(log) + calls && outcome == result
    {
      hide GroupRun;
      ghost var all := RolloutRun(groups, version, previous, oracle, |log|);
      assert groups[0..] == groups;
      var i := 0;
      while i < |groups|
        invariant 0 <= i <= |groups|
        invariant var (calls, result) := RolloutRun(groups[i..], version, previous, oracle, |log|);
                  old(log) + all.0 == log + calls && all.1 == result
      {
        assert groups[i..][0] == groups[i] && groups[i..][1..] == groups[i + 1..];
        outcome := RunGroup(groups[i], version, previous);
        if outcome != Ok {
          return;
        }
        i := i + 1;
      }
      outcome := Ok;
    }
  }

  predicate AnyAnswerIn(calls: seq<Call>, answer: Answer)
    ensures AnyAnswerIn(calls, answer) <==> AnyAnswer(calls, answer)
  {
    calls != [] && (calls[0].answer == answer || AnyAnswerIn(calls[1..], answer))
  }

  // ---- What the answers decide ---------------------------------------------------------------------------

  /** From position `from` on the calls are this action on every peer of the group, in order. */
  predicate Made(calls: seq<Call>, from: nat, action: Action, group: seq<Peer>) {
    && from + |group| <= |calls|
    && forall i :: from <= i < from + |group| ==> calls[i].action == action && calls[i].peer == group[i - from]
  }

  predicate Answered(calls: seq<Call>, from: nat, to: nat, answer: Answer) {
    to <= |calls| && exists i :: from <= i < to && calls[i].answer == answer
  }

  /**
   A group installs on every peer, goes on to activate every peer only if no install was rejected, and to poll every
   peer only if no activation was; its outcome is what the answers in the log say.
   */
  lemma {:induction false} GroupMeaning(group: seq<Peer>, version: Version, previous: Option<Version>, oracle: Oracle,
                                        at: nat)
    ensures var (calls, outcome) := GroupRun(group, version, previous, oracle, at);
            var n := |group|;
            && Made(calls, 0, Install(version), group)
            && (outcome == InstallFailed <==> Answered(calls, 0, n, Rejected))
            && (outcome == InstallFailed ==> |calls| == n)
            && (outcome != InstallFailed ==>
                  && Made(calls, n, Activate(version), group)
                  && (outcome == ActivateFailed <==> Answered(calls, n, 2 * n, Rejected)))
            && (outcome != InstallFailed && outcome != ActivateFailed ==>
                  && Made(calls, 2 * n, PollHealth, group) && |calls| == 3 * n
                  && (outcome == Thrown <==> Answered(calls, 2 * n, 3 * n, Rejected))
                  && (outcome == Ok <==> forall i :: 2 * n <= i < 3 * n ==> calls[i].answer == Fulfilled))
            && forall i :: 0 <= i < |calls| ==> calls[i].answer == oracle(at + i)
  {
    hide Phase, Switched, AnyAnswer, Made, Answered;
    var n := |group|;
    var installs := Phase(Install(version), group, oracle, at);
    var activates := Phase(Activate(version), group, oracle, at + n);
    var polls := Phase(PollHealth, group, oracle, at + 2 * n);
    var calls := GroupRun(group, version, previous, oracle, at).0;
    PhaseMeaning([], Install(version), group, oracle, at, []);
    assert [] + installs + [] == installs;
    if !AnyAnswer(installs, Rejected) {
      var back := if previous.None? then []
                  else Phase(Activate(previous.value), Switched(activates), oracle, at + 2 * n);
      var last := if AnyAnswer(activates, Rejected) then back else polls;
      PhaseMeaning([], Install(version), group, oracle, at, activates + last);
      assert [] + installs + (activates + last) == calls;
      PhaseMeaning(installs, Activate(version), group, oracle, at, last);
      if !AnyAnswer(activates, Rejected) {
        PhaseMeaning(installs + activates, PollHealth, group, oracle, at, []);
        assert installs + activates + polls + [] == calls;
        AllPolled(calls, 2 * n, 3 * n);
      } else if previous.Some? {
        PhaseMeaning(installs + activates, Activate(previous.value), Switched(activates), oracle, at, []);
        assert installs + activates + back + [] == calls;
      }
    }
  }

  lemma {:induction false} AllPolled(calls: seq<Call>, from: nat, to: nat)
    requires to <= |calls|
    ensures !Answered(calls, from, to, Rejected) && !Answered(calls, from, to, TimedOut) <==>
            forall i :: from <= i < to ==> calls[i].answer == Fulfilled
  {}

  /** A phase inside the log, and the calls before it. */
  lemma {:induction false} PhaseMeaning(before: seq<Call>, action: Action, group: seq<Peer>, oracle: Oracle, at: nat,
                                        after: seq<Call>)
    ensures var phase := Phase(action, group, oracle, at + |before|);
            var calls := before + phase + after;
            var (from, to) := (|before|, |before| + |group|);
            && |phase| == |group| && Made(calls, from, action, group)
            && (forall i :: from <= i < to ==> calls[i].answer == oracle(at + i))
            && forall answer :: AnyAnswer(phase, answer) <==> Answered(calls, from, to, answer)
  {
    var phase := Phase(action, group, oracle, at + |before|);
    var calls := before + phase + after;
    assert forall i :: 0 <= i < |phase| ==> calls[|before| + i] == phase[i];
    forall answer | true
      ensures AnyAnswer(phase, answer) <==> Answered(calls, |before|, |before| + |group|, answer)
    {
      if AnyAnswer(phase, answer) {
        var c :| c in phase && c.answer == answer;
        var i :| 0 <= i < |phase| && phase[i] == c;
        assert calls[|before| + i].answer == answer;
      }
      if Answered(calls, |before|, |before| + |group|, answer) {
        var i :| |before| <= i < |before| + |group| && calls[i].answer == answer;
        assert phase[i - |before|] in phase;
      }
    }
  }

  /** After a rejected activation the peers that did not reject are activated back, if there is a version to go to. */
  lemma {:induction false} RollbackMeaning(group: seq<Peer>, version: Version, previous: Option<Version>,
                                           oracle: Oracle, at: nat)
    requires GroupRun(group, version, previous, oracle, at).1 == ActivateFailed
    ensures var calls := GroupRun(group, version, previous, oracle, at).0;
            var n := |group|;
            && |calls| >= 2 * n && (previous == None ==> |calls| == 2 * n)
            && (previous != None ==>
                  var back := Switched(calls[n..2 * n]);
                  |calls| == 2 * n + |back| && Made(calls, 2 * n, Activate(previous.value), back))
  {
    hide Phase, Switched, AnyAnswer, Made, Answered;
    var n := |group|;
    var installs := Phase(Install(version), group, oracle, at);
    var activates := Phase(Activate(version), group, oracle, at + n);
    var calls := GroupRun(group, version, previous, oracle, at).0;
    PhaseMeaning([], Install(version), group, oracle, at, []);
    PhaseMeaning(installs, Activate(version), group, oracle, at, []);
    assert calls[n..2 * n] == activates;
    if previous.Some? {
      PhaseMeaning(installs + activates, Activate(previous.value), Switched(activates), oracle, at, []);
      assert calls == installs + activates + calls[2 * n..] + [];
    }
  }

  /** Who is brought back: every peer whose call was not rejected, once for each such call, in their order. */
  lemma {:induction false} SwitchedMeaning(a: seq<Call>, c: Call, b: seq<Call>)
    ensures Switched(a + [c] + b) ==
            Switched(a) + (if c.answer == Fulfilled || c.answer == TimedOut then [c.peer] else []) + Switched(b)
  {
    if a == [] {
      assert (a + [c] + b)[1..] == b;
    } else {
      assert (a + [c] + b)[1..] == a[1..] + [c] + b;
      SwitchedMeaning(a[1..], c, b);
    }
  }

  // ---- Versions -----------------------------------------------------------------------------------------

  /** The version a peer runs after the calls: that of its last activation that was not rejected. */
  function VersionAfter(calls: seq<Call>, p: Peer, initial: Version): Version {
    if calls == [] then initial
    else
      var c := calls[|calls| - 1];
      if c.peer == p && c.action.Activate? && c.answer != Rejected then c.action.version
      else VersionAfter(calls[..|calls| - 1], p, initial)
  }

  lemma {:induction false} VersionConcat(a: seq<Call>, b: seq<Call>, p: Peer, initial: Version)
    ensures VersionAfter(a + b, p, initial) == VersionAfter(b, p, VersionAfter(a, p, initial))
  {
    if b == [] {
      assert a + b == a;
    } else {
      assert (a + b)[|a + b| - 1] == b[|b| - 1] && (a + b)[..|a + b| - 1] == a + b[..|b| - 1];
      VersionConcat(a, b[..|b| - 1], p, initial);
    }
  }

  lemma {:induction false} VersionUntouched(calls: seq<Call>, p: Peer, initial: Version)
    requires forall c :: c in calls && c.peer == p ==> !c.action.Activate?
    ensures VersionAfter(calls, p, initial) == initial
  {
    if calls != [] {
      VersionUntouched(calls[..|calls| - 1], p, initial);
    }
  }

  /** The call made to a peer of the group was not rejected. */
  predicate Accepted(calls: seq<Call>, p: Peer) {
    exists c :: c in calls && c.peer == p && c.answer != Rejected
  }

  /** One call per peer: activating a group moves exactly the peers that accepted. */
  lemma {:induction false} ActivationMoves(calls: seq<Call>, version: Version, p: Peer, initial: Version)
    requires forall c :: c in calls ==> c.action == Activate(version)
    ensures VersionAfter(calls, p, initial) == if Accepted(calls, p) then version else initial
  {
    if calls != [] {
      var n := |calls| - 1;
      assert calls == calls[..n] + [calls[n]];
      ActivationMoves(calls[..n], version, p, initial);
    }
  }

  lemma {:induction false} SwitchedAreAccepted(calls: seq<Call>, p: Peer)
    ensures p in Switched(calls) <==> Accepted(calls, p)
  {
    if calls != [] {
      assert calls == [calls[0]] + calls[1..];
      SwitchedAreAccepted(calls[1..], p);
    }
  }

  lemma {:induction false} PhaseCalls(action: Action, group: seq<Peer>, oracle: Oracle, at: nat)
    ensures var calls := Phase(action, group, oracle, at);
            && (forall c :: c in calls ==> c.action == action && c.peer in group)
            && (forall p :: p in group ==> exists c :: c in calls && c.peer == p)
            && (!AnyAnswer(calls, Rejected) ==> forall p :: p in group ==> Accepted(calls, p))
  {
    var calls := Phase(action, group, oracle, at);
    forall p | p in group ensures exists c :: c in calls && c.peer == p {
      var i :| 0 <= i < |group| && group[i] == p;
      assert calls[i].peer == p;
    }
  }

  lemma {:induction false} SwitchedAreCalled(calls: seq<Call>, group: seq<Peer>)
    requires forall c :: c in calls ==> c.peer in group
    ensures forall p :: p in Switched(calls) ==> p in group
  {
    forall p | p in Switched(calls) ensures p in group {
      SwitchedAreAccepted(calls, p);
    }
  }

  lemma {:induction false} InstallFailureLeaves(group: seq<Peer>, version: Version, previous: Option<Version>,
                                                oracle: Oracle, at: nat, p: Peer, initial: Version)
    requires GroupRun(group, version, previous, oracle, at).1 == InstallFailed
    ensures var calls := GroupRun(group, version, previous, oracle, at).0;
            && (forall c :: c in calls ==> c.peer in group && c.action == Install(version))
            && VersionAfter(calls, p, initial) == initial
  {
    hide Phase, VersionAfter, AnyAnswer;
    PhaseCalls(Install(version), group, oracle, at);
    VersionUntouched(Phase(Install(version), group, oracle, at), p, initial);
  }

  /**
   After an activation failure a peer is on the new version exactly when it accepted it and was not brought
   back: because there is no previous version, or because the second activation was rejected too. A peer that
   rejected the new version is where it was.
   */
  lemma {:induction false} ActivateFailureLeaves(group: seq<Peer>, version: Version, previous: Option<Version>,
                                                 oracle: Oracle, at: nat, p: Peer, initial: Version)
    requires GroupRun(group, version, previous, oracle, at).1 == ActivateFailed
    ensures var calls := GroupRun(group, version, previous, oracle, at).0;
            var activates := Phase(Activate(version), group, oracle, at + |group|);
            var back := if previous.None? then []
                        else Phase(Activate(previous.value), Switched(activates), oracle, at + 2 * |group|);
            && (forall c :: c in calls ==> c.peer in group)
            && calls == Phase(Install(version), group, oracle, at) + activates + back
            && (exists c :: c in activates && c.answer == Rejected)
            && VersionAfter(calls, p, initial) ==
               if Accepted(back, p) then previous.value else if Accepted(activates, p) then version else initial
  {
    hide Phase, VersionAfter, Switched, Accepted;
    var installs := Phase(Install(version), group, oracle, at);
    var activates := Phase(Activate(version), group, oracle, at + |group|);
    var back := if previous.None? then []
                else Phase(Activate(previous.value), Switched(activates), oracle, at + 2 * |group|);
    PhaseCalls(Install(version), group, oracle, at);
    PhaseCalls(Activate(version), group, oracle, at + |group|);
    VersionUntouched(installs, p, initial);
    VersionConcat(installs, activates, p, initial);
    ActivationMoves(activates, version, p, initial);
    SwitchedAreCalled(activates, group);
    VersionConcat(installs + activates, back, p, initial);
    if previous.Some? {
      PhaseCalls(Activate(previous.value), Switched(activates), oracle, at + 2 * |group|);
      ActivationMoves(back, previous.value, p, VersionAfter(activates, p, initial));
    } else {
      VersionUntouched(back, p, VersionAfter(activates, p, initial));
      NobodyAccepts(p);
    }
  }

  lemma NobodyAccepts(p: Peer)
    ensures !Accepted([], p)
  {}

  /** With a previous version and every second activation accepted, nobody in the group is left on the new version. */
  lemma {:induction false} RollbackIsComplete(group: seq<Peer>, version: Version, previous: Version, oracle: Oracle,
                                              at: nat, p: Peer, initial: Version)
    requires GroupRun(group, version, Some(previous), oracle, at).1 == ActivateFailed
    requires var activates := Phase(Activate(version), group, oracle, at + |group|);
             !AnyAnswer(Phase(Activate(previous), Switched(activates), oracle, at + 2 * |group|), Rejected)
    ensures var activates := Phase(Activate(version), group, oracle, at + |group|);
            VersionAfter(GroupRun(group, version, Some(previous), oracle, at).0, p, initial) ==
              if Accepted(activates, p) then previous else initial
  {
    hide GroupRun, Phase, VersionAfter, Switched, Accepted, AnyAnswer;
    var activates := Phase(Activate(version), group, oracle, at + |group|);
    ActivateFailureLeaves(group, version, Some(previous), oracle, at, p, initial);
    SwitchedAreAccepted(activates, p);
    PhaseCalls(Activate(previous), Switched(activates), oracle, at + 2 * |group|);
    if p !in Switched(activates) {
      var back := Phase(Activate(previous), Switched(activates), oracle, at + 2 * |group|);
      assert !Accepted(back, p) by { OnlyCalledAccept(back, p); }
    }
  }

  lemma OnlyCalledAccept(calls: seq<Call>, p: Peer)
    ensures Accepted(calls, p) ==> exists c :: c in calls && c.peer == p
  {}

  /**
   Once everyone has accepted, the whole group is on the new version, whatever the health polls say: they undo
   nothing.
   */
  lemma {:induction false} ActivatedGroupLeaves(group: seq<Peer>, version: Version, previous: Option<Version>,
                                                oracle: Oracle, at: nat, p: Peer, initial: Version)
    requires var outcome := GroupRun(group, version, previous, oracle, at).1;
             outcome == Ok || outcome == HealthTimeout || outcome == Thrown
    ensures var (calls, outcome) := GroupRun(group, version, previous, oracle, at);
            && (forall c :: c in calls ==> c.peer in group)
            && VersionAfter(calls, p, initial) == (if p in group then version else initial)
            && (outcome == Ok <==> forall q :: q in group ==> AllHealthy(calls, q))
  {
    hide Phase, VersionAfter, Accepted, AllHealthy;
    var n := |group|;
    var installs := Phase(Install(version), group, oracle, at);
    var activates := Phase(Activate(version), group, oracle, at + n);
    var polls := Phase(PollHealth, group, oracle, at + 2 * n);
    PhaseCalls(Install(version), group, oracle, at);
    PhaseCalls(Activate(version), group, oracle, at + n);
    PhaseCalls(PollHealth, group, oracle, at + 2 * n);
    VersionUntouched(installs, p, initial);
    VersionConcat(installs, activates, p, initial);
    ActivationMoves(activates, version, p, initial);
    VersionUntouched(polls, p, VersionAfter(activates, p, initial));
    VersionConcat(installs + activates, polls, p, initial);
    if p !in group {
      OnlyCalledAccept(activates, p);
    }
    PollsDecide(installs + activates, polls, group);
  }

  /** The peer was polled and every poll of it answered healthy. */
  ghost predicate AllHealthy(calls: seq<Call>, p: Peer) {
    && Call(PollHealth, p, Fulfilled) in calls
    && forall c :: c in calls && c.peer == p && c.action == PollHealth ==> c.answer == Fulfilled
  }

  lemma {:induction false} PollsDecide(others: seq<Call>, polls: seq<Call>, group: seq<Peer>)
    requires forall c :: c in others ==> c.action != PollHealth
    requires forall c :: c in polls ==> c.action == PollHealth && c.peer in group
    requires forall p :: p in group ==> exists c :: c in polls && c.peer == p
    ensures !AnyAnswer(polls, Rejected) && !AnyAnswer(polls, TimedOut) <==>
            forall q :: q in group ==> AllHealthy(others + polls, q)
  {
    if !AnyAnswer(polls, Rejected) && !AnyAnswer(polls, TimedOut) {
      forall c | c in polls ensures c.answer == Fulfilled {}
      forall q | q in group ensures AllHealthy(others + polls, q) {
        var c :| c in polls && c.peer == q;
        assert c == Call(PollHealth, q, Fulfilled);
      }
    }
    forall c | c in polls && AllHealthy(others + polls, c.peer) ensures c.answer == Fulfilled {
      assert c in others + polls;
    }
  }

  // ---- Whole rollouts ------------------------------------------------------------------------------------

  /** The number of groups that completed, and the calls made up to there. */
  function Completed(groups: seq<seq<Peer>>, version: Version, previous: Option<Version>, oracle: Oracle,
                     at: nat): (r: (nat, seq<Call>))
    ensures r.0 <= |groups|
  {
    if groups == [] || GroupRun(groups[0], version, previous, oracle, at).1 != Ok then (0, [])
    else
      var calls := GroupRun(groups[0], version, previous, oracle, at).0;
      var (k, rest) := Completed(groups[1..], version, previous, oracle, at + |calls|);
      (k + 1, calls + rest)
  }

  /** The run is the `done` calls of the first k groups, then the calls of the failing group k, if there is one. */
  ghost predicate StopsAt(groups: seq<seq<Peer>>, version: Version, previous: Option<Version>, oracle: Oracle, at: nat,
                          calls: seq<Call>, outcome: Outcome, k: nat, done: seq<Call>) {
    && k <= |groups|
    && (outcome == Ok <==> k == |groups|)
    && (k == |groups| ==> calls == done)
    && (k < |groups| ==>
          var last := GroupRun(groups[k], version, previous, oracle, at + |done|);
          calls == done + last.0 && outcome == last.1)
  }

  lemma {:induction false} StopsLater(groups: seq<seq<Peer>>, version: Version, previous: Option<Version>,
                                      oracle: Oracle, at: nat,
                   first: seq<Call>, calls: seq<Call>, outcome: Outcome, k: nat, done: seq<Call>)
    requires groups != [] && StopsAt(groups[1..], version, previous, oracle, at + |first|, calls, outcome, k, done)
    ensures StopsAt(groups, version, previous, oracle, at, first + calls, outcome, k + 1, first + done)
  {
    hide GroupRun;
    if k < |groups[1..]| {
      assert groups[1..][k] == groups[k + 1];
      assert at + |first + done| == at + |first| + |done|;
    }
  }

  /** A rollout is its completed groups, then the one group that failed, if any; nothing is called after that. */
  lemma {:induction false} RolloutStopsAtFailure(groups: seq<seq<Peer>>, version: Version, previous: Option<Version>,
                                                 oracle: Oracle, at: nat)
    ensures var (calls, outcome) := RolloutRun(groups, version, previous, oracle, at);
            var (k, done) := Completed(groups, version, previous, oracle, at);
            StopsAt(groups, version, previous, oracle, at, calls, outcome, k, done)
  {
    hide GroupRun;
    if groups != [] && GroupRun(groups[0], version, previous, oracle, at).1 == Ok {
      hide StopsAt;
      var first := GroupRun(groups[0], version, previous, oracle, at).0;
      RolloutStopsAtFailure(groups[1..], version, previous, oracle, at + |first|);
      var (calls, outcome) := RolloutRun(groups[1..], version, previous, oracle, at + |first|);
      var (k, done) := Completed(groups[1..], version, previous, oracle, at + |first|);
      StopsLater(groups, version, previous, oracle, at, first, calls, outcome, k, done);
    } else {
      StopsAtOnce(groups, version, previous, oracle, at);
    }
  }

  lemma {:induction false} StopsAtOnce(groups: seq<seq<Peer>>, version: Version, previous: Option<Version>,
                                       oracle: Oracle, at: nat)
    requires groups == [] || GroupRun(groups[0], version, previous, oracle, at).1 != Ok
    ensures var (calls, outcome) := RolloutRun(groups, version, previous, oracle, at);
            StopsAt(groups, version, previous, oracle, at, calls, outcome, 0, [])
  {
    hide GroupRun;
  }

  /** The completed groups are on the new version, found healthy by a poll, and nobody else was called. */
  lemma {:induction false} CompletedGroups(groups: seq<seq<Peer>>, version: Version, previous: Option<Version>,
                                           oracle: Oracle, at: nat, p: Peer, initial: Version)
    ensures var (k, done) := Completed(groups, version, previous, oracle, at);
            && k <= |groups|
            && (forall c :: c in done ==> c.peer in Flatten(groups[..k]))
            && VersionAfter(done, p, initial) == (if p in Flatten(groups[..k]) then version else initial)
            && (forall q :: q in Flatten(groups[..k]) ==> Call(PollHealth, q, Fulfilled) in done)
  {
    hide GroupRun, VersionAfter, AllHealthy;
    if groups == [] || GroupRun(groups[0], version, previous, oracle, at).1 != Ok {
      NothingDone(p, initial);
    } else {
      var calls := GroupRun(groups[0], version, previous, oracle, at).0;
      var after := VersionAfter(calls, p, initial);
      ActivatedGroupLeaves(groups[0], version, previous, oracle, at, p, initial);
      CompletedGroups(groups[1..], version, previous, oracle, at + |calls|, p, after);
      var (k, rest) := Completed(groups[1..], version, previous, oracle, at + |calls|);
      assert groups[..k + 1][0] == groups[0] && groups[..k + 1][1..] == groups[1..][..k];
      VersionConcat(calls, rest, p, initial);
      forall q | q in groups[0] ensures Call(PollHealth, q, Fulfilled) in calls {
        HealthyWasPolled(calls, q);
      }
    }
  }

  lemma HealthyWasPolled(calls: seq<Call>, q: Peer)
    requires AllHealthy(calls, q)
    ensures Call(PollHealth, q, Fulfilled) in calls
  {}

  lemma NothingDone(p: Peer, initial: Version)
    ensures VersionAfter([], p, initial) == initial
  {}

  /** An ok rollout has put every peer of every group on the new version and found it healthy. */
  lemma {:induction false} OkMeansEverywhere(groups: seq<seq<Peer>>, version: Version, previous: Option<Version>,
                                             oracle: Oracle, at: nat, p: Peer, initial: Version)
    requires RolloutRun(groups, version, previous, oracle, at).1 == Ok
    ensures var calls := RolloutRun(groups, version, previous, oracle, at).0;
            && VersionAfter(calls, p, initial) == (if p in Flatten(groups) then version else initial)
            && (p in Flatten(groups) ==> Call(PollHealth, p, Fulfilled) in calls)
  {
    RolloutStopsAtFailure(groups, version, previous, oracle, at);
    CompletedGroups(groups, version, previous, oracle, at, p, initial);
    assert groups[..|groups|] == groups;
  }

  /** What a failing rollout leaves is what its failing group leaves of what the completed groups left. */
  lemma {:induction false} FailureSplits(groups: seq<seq<Peer>>, version: Version, previous: Option<Version>,
                                         oracle: Oracle, at: nat, p: Peer, initial: Version)
    requires RolloutRun(groups, version, previous, oracle, at).1 != Ok
    ensures var (calls, outcome) := RolloutRun(groups, version, previous, oracle, at);
            var (k, done) := Completed(groups, version, previous, oracle, at);
            && k < |groups|
            && var last := GroupRun(groups[k], version, previous, oracle, at + |done|);
            && calls == done + last.0 && outcome == last.1
            && (forall c :: c in done ==> c.peer in Flatten(groups[..k]))
            && VersionAfter(calls, p, initial) ==
               VersionAfter(last.0, p, if p in Flatten(groups[..k]) then version else initial)
  {
    hide GroupRun, VersionAfter, RolloutRun, Completed, Flatten;
    RolloutStopsAtFailure(groups, version, previous, oracle, at);
    CompletedGroups(groups, version, previous, oracle, at, p, initial);
    var (k, done) := Completed(groups, version, previous, oracle, at);
    VersionConcat(done, GroupRun(groups[k], version, previous, oracle, at + |done|).0, p, initial);
  }

  /** The activations of a group whose run starts at `at`, and the second activations after one of them is rejected. */
  function Activations(group: seq<Peer>, version: Version, oracle: Oracle, at: nat): seq<Call> {
    Phase(Activate(version), group, oracle, at + |group|)
  }

  function Reactivations(group: seq<Peer>, version: Version, previous: Option<Version>, oracle: Oracle,
                         at: nat): seq<Call>
  {
    if previous.None? then []
    else Phase(Activate(previous.value), Switched(Activations(group, version, oracle, at)), oracle, at + 2 * |group|)
  }

  /**
   A rollout that fails in group k: nobody outside the first k + 1 groups is called, and the version every peer
   is left on is exactly this. Completed groups are on the new version; a failed install changes nothing in
   group k; after a failed activation a peer is back on the previous version if its second activation was
   accepted, else on the new one if its first was, else where it was; after a failed poll group k is on the new.
   */
  lemma {:induction false} FailureIsContained(groups: seq<seq<Peer>>, version: Version, previous: Option<Version>,
                                              oracle: Oracle, at: nat, p: Peer, initial: Version)
    requires RolloutRun(groups, version, previous, oracle, at).1 != Ok
    ensures var (calls, outcome) := RolloutRun(groups, version, previous, oracle, at);
            var (k, done) := Completed(groups, version, previous, oracle, at);
            var before := if p in Flatten(groups[..k]) then version else initial;
            && k < |groups|
            && (forall c :: c in calls ==> c.peer in Flatten(groups[..k]) + groups[k])
            && VersionAfter(calls, p, initial) ==
               if outcome == InstallFailed then before
               else if outcome == ActivateFailed then
                 if Accepted(Reactivations(groups[k], version, previous, oracle, at + |done|), p) then
                   previous.GetOr(version)
                 else if Accepted(Activations(groups[k], version, oracle, at + |done|), p) then version
                 else before
               else if p in groups[k] then version
               else before
  {
    hide GroupRun, VersionAfter, RolloutRun, Completed, Flatten, Phase, Accepted, Switched, AllHealthy;
    FailureSplits(groups, version, previous, oracle, at, p, initial);
    var outcome := RolloutRun(groups, version, previous, oracle, at).1;
    var (k, done) := Completed(groups, version, previous, oracle, at);
    var before := if p in Flatten(groups[..k]) then version else initial;
    if outcome == InstallFailed {
      InstallFailureLeaves(groups[k], version, previous, oracle, at + |done|, p, before);
    } else if outcome == ActivateFailed {
      ActivateFailureLeaves(groups[k], version, previous, oracle, at + |done|, p, before);
      NobodyAccepts(p);
    } else {
      ActivatedGroupLeaves(groups[k], version, previous, oracle, at + |done|, p, before);
    }
  }

  /** A failed install activates nobody: every call to a peer outside the completed groups is an install. */
  lemma {:induction false} FailedInstallActivatesNobody(groups: seq<seq<Peer>>, version: Version,
                                                        previous: Option<Version>, oracle: Oracle, at: nat, p: Peer)
    requires RolloutRun(groups, version, previous, oracle, at).1 == InstallFailed
    ensures var (k, done) := Completed(groups, version, previous, oracle, at);
            p !in Flatten(groups[..k]) ==>
              forall c :: c in RolloutRun(groups, version, previous, oracle, at).0 && c.peer == p ==>
                c.action == Install(version)
  {
    hide GroupRun, VersionAfter, RolloutRun, Completed, Flatten;
    FailureSplits(groups, version, previous, oracle, at, p, version);
    var (k, done) := Completed(groups, version, previous, oracle, at);
    InstallFailureLeaves(groups[k], version, previous, oracle, at + |done|, p, version);
  }

  /**
   Rollback of a whole rollout. A peer of no completed group is left on the new version exactly when it accepted
   it and no second activation of it was accepted; and with a previous version and no second activation
   rejected, whoever had accepted is on the previous version and everyone else where they were.
   */
  lemma {:induction false} RolloutRollsBack(groups: seq<seq<Peer>>, version: Version, previous: Option<Version>,
                                            oracle: Oracle, at: nat, p: Peer, initial: Version)
    requires RolloutRun(groups, version, previous, oracle, at).1 == ActivateFailed
    ensures var (calls, outcome) := RolloutRun(groups, version, previous, oracle, at);
            var (k, done) := Completed(groups, version, previous, oracle, at);
            k < |groups| &&
            var activates := Activations(groups[k], version, oracle, at + |done|);
            p !in Flatten(groups[..k]) && initial != version && previous != Some(version) ==>
              (VersionAfter(calls, p, initial) == version <==>
                 Accepted(activates, p) &&
                   !Accepted(Reactivations(groups[k], version, previous, oracle, at + |done|), p))
    ensures var (calls, outcome) := RolloutRun(groups, version, previous, oracle, at);
            var (k, done) := Completed(groups, version, previous, oracle, at);
            k < |groups| &&
            var activates := Activations(groups[k], version, oracle, at + |done|);
            var back := Reactivations(groups[k], version, previous, oracle, at + |done|);
            previous.Some? && !AnyAnswer(back, Rejected) && p !in Flatten(groups[..k]) ==>
              VersionAfter(calls, p, initial) == if Accepted(activates, p) then previous.value else initial
  {
    hide GroupRun, VersionAfter, RolloutRun, Completed, Flatten, Phase, Accepted, Switched, AnyAnswer;
    NobodyAccepts(p);
    FailureIsContained(groups, version, previous, oracle, at, p, initial);
    FailureSplits(groups, version, previous, oracle, at, p, initial);
    var (k, done) := Completed(groups, version, previous, oracle, at);
    if previous.Some? {
      if !AnyAnswer(Reactivations(groups[k], version, previous, oracle, at + |done|), Rejected) &&
         p !in Flatten(groups[..k]) {
        RollbackIsComplete(groups[k], version, previous.value, oracle, at + |done|, p, initial);
      }
    }
  }
}
