/**
 Pid identity: whether a pid read back from a tracking file still names the process it was recorded for,
 and the batched form of the same check.
 */
module PidIdentity {
  import opened Prelude

  const PID_START_SLACK_MS := 30000

  datatype Verdict = Alive | Dead | Reused | Unknown

  /** kill(pid, 0): it succeeded, or failed with this errno. */
  datatype ProbeResult = Held | NoSuchProcess | NotPermitted | OtherError

  /** What the operating system would answer at one moment. */
  datatype Oracles = Oracles(
    probe: int -> ProbeResult,
    startOf: int -> Option<int>,
    mtimeOf: string -> Option<int>,
    commandOf: int -> Option<string>)

  datatype PidRecord = PidRecord(path: string, pid: int)

  function ClassifyProbe(r: ProbeResult): Verdict
    requires r != Held
  {
    match r
    case NoSuchProcess => Dead
    case NotPermitted => Reused
    case OtherError => Unknown
  }

  function ClassifyStart(startedAt: Option<int>, recordedAt: int): Verdict {
    if startedAt.None? then Unknown
    else if startedAt.value > recordedAt + PID_START_SLACK_MS then Reused else Alive
  }

  /** `looks` is the command-line expectation, when the caller has one. */
  function VerifyRecordedPid(o: Oracles, pid: int, recordedAt: Option<int>, looks: Option<string -> bool>): Verdict {
    if o.probe(pid) != Held then ClassifyProbe(o.probe(pid))
    else if recordedAt.None? || o.startOf(pid).None? then Unknown
    else if o.startOf(pid).value > recordedAt.value + PID_START_SLACK_MS then Reused
    else if looks.Some? && (o.commandOf(pid).None? || !looks.value(o.commandOf(pid).value)) then Unknown
    else Alive
  }

  function VerifyPidFile(o: Oracles, r: PidRecord, looks: Option<string -> bool>): Verdict {
    VerifyRecordedPid(o, r.pid, o.mtimeOf(r.path), looks)
  }

  predicate IsRecordedPidGone(v: Verdict) {
    v == Dead || v == Reused
  }

  /** Every verdict means what it says: positive identity needs all the evidence, "gone" needs proof. */
  lemma VerdictMeaning(o: Oracles, r: PidRecord, looks: Option<string -> bool>)
    ensures var v := VerifyPidFile(o, r, looks);
            && (v == Alive <==>
                  && o.probe(r.pid) == Held
                  && o.mtimeOf(r.path).Some? && o.startOf(r.pid).Some?
                  && o.startOf(r.pid).value <= o.mtimeOf(r.path).value + 30000
                  && (looks.Some? ==> o.commandOf(r.pid).Some? && looks.value(o.commandOf(r.pid).value)))
            && (IsRecordedPidGone(v) <==>
                  || o.probe(r.pid) in {NoSuchProcess, NotPermitted}
                  || (o.probe(r.pid) == Held && o.mtimeOf(r.path).Some? && o.startOf(r.pid).Some? &&
                      o.startOf(r.pid).value > o.mtimeOf(r.path).value + 30000))
            && (v == Dead <==> o.probe(r.pid) == NoSuchProcess)
            && (o.probe(r.pid) == NotPermitted ==> v == Reused)
    ensures looks.Some? && VerifyPidFile(o, r, looks) != VerifyPidFile(o, r, None) ==>
              VerifyPidFile(o, r, looks) == Unknown && VerifyPidFile(o, r, None) == Alive
  {}

  // ---- The batch --------------------------------------------------------------------------

  /** The record survives probing and has a write time, so its start time is looked up in the shared call. */
  predicate IsPending(o: Oracles, r: PidRecord) {
    o.probe(r.pid) == Held && o.mtimeOf(r.path).Some?
  }

  /** Record `i` is the one whose verdict its path ends up with: pending records overrule, later ones win. */
  ghost predicate Decides(o: Oracles, rs: seq<PidRecord>, i: int) {
    && 0 <= i < |rs|
    && forall j :: 0 <= j < |rs| && j != i && rs[j].path == rs[i].path ==>
         (IsPending(o, rs[i]) && !IsPending(o, rs[j])) || (IsPending(o, rs[i]) == IsPending(o, rs[j]) && j < i)
  }

  /** One lookup for all pids. */
  function StartsOf(o: Oracles, pids: seq<int>): map<int, Option<int>> {
    map pid | pid in pids :: o.startOf(pid)
  }

  method VerifyPidFiles(o: Oracles, records: seq<PidRecord>) returns (verdicts: map<string, Verdict>)
    ensures forall p :: p in verdicts <==> exists i :: 0 <= i < |records| && records[i].path == p
    ensures forall i :: Decides(o, records, i) ==>
              records[i].path in verdicts && verdicts[records[i].path] == VerifyPidFile(o, records[i], None)
    ensures (forall i, j :: 0 <= i < j < |records| ==> records[i].path != records[j].path) ==>
              forall i :: 0 <= i < |records| ==>
                records[i].path in verdicts && verdicts[records[i].path] == VerifyPidFile(o, records[i], None)
  {
    hide PendingOf, EarlyVerdicts, LateVerdicts, IsPending, VerifyPidFile;
    ghost var early, origin;
    var pending;
    verdicts, pending, origin := ProbeAll(o, records);
    early := verdicts;
    verdicts := ResolveStarts(o, records, pending, origin, verdicts);
    BatchDecides(o, records, pending, origin, early, verdicts);
    if forall i, j :: 0 <= i < j < |records| ==> records[i].path != records[j].path {
      forall i | 0 <= i < |records| ensures Decides(o, records, i) {}
    }
  }

  /** First loop: probe every record; settle those that fail and collect the rest. */
  method ProbeAll(o: Oracles, records: seq<PidRecord>)
    returns (verdicts: map<string, Verdict>, pending: seq<PidRecord>, ghost origin: seq<int>)
    ensures PendingOf(o, records, |records|, pending, origin)
    ensures EarlyVerdicts(o, records, |records|, verdicts)
  {
    hide PendingOf, EarlyVerdicts, VerifyPidFile;
    verdicts, pending, origin := map[], [], [];
    NothingProbed(o, records);
    var i := 0;
    while i < |records|
      invariant 0 <= i <= |records|
      invariant PendingOf(o, records, i, pending, origin)
      invariant EarlyVerdicts(o, records, i, verdicts)
    {
      var rec := records[i];
      EarlyStep(o, records, i, verdicts);
      PendingStep(o, records, i, pending, origin);
      if !IsPending(o, rec) {
        FailedVerdict(o, rec);
      }
      i := i + 1;
      if o.probe(rec.pid) != Held {
        verdicts := verdicts[rec.path := ClassifyProbe(o.probe(rec.pid))];
        continue;
      }
      var recordedAt := o.mtimeOf(rec.path);
      if recordedAt.None? {
        verdicts := verdicts[rec.path := Unknown];
        continue;
      }
      pending := pending + [rec];
      origin := origin + [i - 1];
    }
  }

  /** Second loop: one shared lookup, then a verdict for each pending record. */
  method ResolveStarts(o: Oracles, ghost records: seq<PidRecord>, pending: seq<PidRecord>, ghost origin: seq<int>,
                       early: map<string, Verdict>)
    returns (verdicts: map<string, Verdict>)
    requires PendingOf(o, records, |records|, pending, origin)
    ensures LateVerdicts(o, pending, |pending|, early, verdicts)
  {
    hide LateVerdicts, VerifyPidFile, IsPending, ClassifyStart;
    verdicts := early;
    LateStart(o, pending, early);
    if pending == [] { return; }
    var pids := seq(|pending|, n requires 0 <= n < |pending| => pending[n].pid);
    var starts := StartsOf(o, pids);
    var n := 0;
    while n < |pending|
      invariant 0 <= n <= |pending|
      invariant LateVerdicts(o, pending, n, early, verdicts)
    {
      var rec := pending[n];
      assert pids[n] == rec.pid && IsPending(o, rec);
      LateStep(o, pending, n, early, verdicts);
      PendingVerdict(o, rec);
      verdicts := verdicts[rec.path := ClassifyStart(starts[rec.pid], o.mtimeOf(rec.path).value)];
      n := n + 1;
    }
  }

  ghost predicate HasEarly(o: Oracles, rs: seq<PidRecord>, i: nat, p: string)
    requires i <= |rs|
  {
    exists k :: 0 <= k < i && !IsPending(o, rs[k]) && rs[k].path == p
  }

  /** Record `k` is the last failed one for its path. */
  ghost predicate LastEarly(o: Oracles, rs: seq<PidRecord>, i: nat, k: int)
    requires i <= |rs|
  {
    0 <= k < i && !IsPending(o, rs[k]) && forall j :: k < j < i && !IsPending(o, rs[j]) ==> rs[j].path != rs[k].path
  }

  /** Of the first `i` records, the failed ones are settled, later ones overwriting earlier ones. */
  ghost predicate EarlyVerdicts(o: Oracles, rs: seq<PidRecord>, i: nat, verdicts: map<string, Verdict>)
    requires i <= |rs|
  {
    && (forall p :: p in verdicts <==> HasEarly(o, rs, i, p))
    && (forall k :: LastEarly(o, rs, i, k) ==>
        rs[k].path in verdicts && verdicts[rs[k].path] == VerifyPidFile(o, rs[k], None))
  }

  ghost predicate HasLate(pending: seq<PidRecord>, n: nat, p: string)
    requires n <= |pending|
  {
    exists k :: 0 <= k < n && pending[k].path == p
  }

  /** Pending record `k` is the last one for its path. */
  ghost predicate LastLate(pending: seq<PidRecord>, n: nat, k: int)
    requires n <= |pending|
  {
    0 <= k < n && forall j :: k < j < n ==> pending[j].path != pending[k].path
  }

  /** On top of `early`, the first `n` pending records are settled, later ones overwriting earlier ones. */
  ghost predicate LateVerdicts(o: Oracles, pending: seq<PidRecord>, n: nat, early: map<string, Verdict>,
                               verdicts: map<string, Verdict>)
    requires n <= |pending|
  {
    && (forall p :: p in verdicts <==> p in early || HasLate(pending, n, p))
    && (forall k :: LastLate(pending, n, k) ==>
          pending[k].path in verdicts && verdicts[pending[k].path] == VerifyPidFile(o, pending[k], None))
    && (forall p :: p in early && !HasLate(pending, n, p) ==> p in verdicts && verdicts[p] == early[p])
  }

  lemma NothingProbed(o: Oracles, rs: seq<PidRecord>)
    ensures PendingOf(o, rs, 0, [], []) && EarlyVerdicts(o, rs, 0, map[])
  {}

  lemma LateStart(o: Oracles, pending: seq<PidRecord>, early: map<string, Verdict>)
    ensures LateVerdicts(o, pending, 0, early, early)
  {}

  lemma {:induction false} LateStep(o: Oracles, pending: seq<PidRecord>, n: nat, early: map<string, Verdict>,
                                    verdicts: map<string, Verdict>)
    requires n < |pending| && IsPending(o, pending[n]) && LateVerdicts(o, pending, n, early, verdicts)
    ensures var rec := pending[n];
            LateVerdicts(o, pending, n + 1, early,
                         verdicts[rec.path := ClassifyStart(o.startOf(rec.pid), o.mtimeOf(rec.path).value)])
  {
    hide VerifyPidFile, IsPending, ClassifyStart, HasLate, LastLate;
    PendingVerdict(o, pending[n]);
    forall p | true ensures HasLate(pending, n + 1, p) <==> HasLate(pending, n, p) || pending[n].path == p {
      HasLateStep(pending, n, p);
    }
    forall k | LastLate(pending, n + 1, k)
      ensures 0 <= k <= n && (k < n ==> LastLate(pending, n, k) && pending[k].path != pending[n].path)
    {
      LastLateStep(pending, n, k);
    }
  }

  lemma HasLateStep(pending: seq<PidRecord>, n: nat, p: string)
    requires n < |pending|
    ensures HasLate(pending, n + 1, p) <==> HasLate(pending, n, p) || pending[n].path == p
  {}

  lemma LastLateStep(pending: seq<PidRecord>, n: nat, k: int)
    requires n < |pending| && LastLate(pending, n + 1, k)
    ensures 0 <= k <= n && (k < n ==> LastLate(pending, n, k) && pending[k].path != pending[n].path)
  {}

  lemma PendingVerdict(o: Oracles, r: PidRecord)
    requires IsPending(o, r)
    ensures o.mtimeOf(r.path).Some? &&
            VerifyPidFile(o, r, None) == ClassifyStart(o.startOf(r.pid), o.mtimeOf(r.path).value)
  {}

  lemma {:induction false} EarlyStep(o: Oracles, rs: seq<PidRecord>, i: nat, verdicts: map<string, Verdict>)
    requires i < |rs| && EarlyVerdicts(o, rs, i, verdicts)
    ensures if IsPending(o, rs[i]) then EarlyVerdicts(o, rs, i + 1, verdicts)
            else EarlyVerdicts(o, rs, i + 1, verdicts[rs[i].path := VerifyPidFile(o, rs[i], None)])
  {
    hide IsPending, VerifyPidFile, HasEarly, LastEarly;
    forall p | true
      ensures HasEarly(o, rs, i + 1, p) <==> HasEarly(o, rs, i, p) || (!IsPending(o, rs[i]) && rs[i].path == p)
    {
      HasEarlyStep(o, rs, i, p);
    }
    var next := if IsPending(o, rs[i]) then verdicts else verdicts[rs[i].path := VerifyPidFile(o, rs[i], None)];
    forall k | LastEarly(o, rs, i + 1, k)
      ensures 0 <= k < |rs| && rs[k].path in next && next[rs[k].path] == VerifyPidFile(o, rs[k], None)
    {
      LastEarlyStep(o, rs, i, k);
    }
  }

  lemma {:induction false} HasEarlyStep(o: Oracles, rs: seq<PidRecord>, i: nat, p: string)
    requires i < |rs|
    ensures HasEarly(o, rs, i + 1, p) <==> HasEarly(o, rs, i, p) || (!IsPending(o, rs[i]) && rs[i].path == p)
  {
    hide IsPending;
    if HasEarly(o, rs, i, p) {
      var k :| 0 <= k < i && !IsPending(o, rs[k]) && rs[k].path == p;
      assert k < i + 1;
    }
  }

  lemma {:induction false} LastEarlyStep(o: Oracles, rs: seq<PidRecord>, i: nat, k: int)
    requires i < |rs| && LastEarly(o, rs, i + 1, k)
    ensures 0 <= k <= i && (if k < i then LastEarly(o, rs, i, k) && (IsPending(o, rs[i]) || rs[k].path != rs[i].path)
                            else !IsPending(o, rs[i]))
  {
    hide IsPending;
    if k < i && !IsPending(o, rs[i]) {
      assert rs[i].path != rs[k].path;
    }
  }

  lemma {:induction false} PendingStep(o: Oracles, rs: seq<PidRecord>, i: nat, pending: seq<PidRecord>,
                                       origin: seq<int>)
    requires i < |rs| && PendingOf(o, rs, i, pending, origin)
    ensures if IsPending(o, rs[i]) then PendingOf(o, rs, i + 1, pending + [rs[i]], origin + [i])
            else PendingOf(o, rs, i + 1, pending, origin)
  {
    hide IsPending;
    assert i in origin + [i];
    forall k | 0 <= k < i && k in origin ensures k in origin + [i] {}
  }

  lemma FailedVerdict(o: Oracles, r: PidRecord)
    requires !IsPending(o, r)
    ensures VerifyPidFile(o, r, None) == if o.probe(r.pid) != Held then ClassifyProbe(o.probe(r.pid)) else Unknown
  {}

  ghost predicate PendingOf(o: Oracles, rs: seq<PidRecord>, i: nat, pending: seq<PidRecord>, origin: seq<int>)
    requires i <= |rs|
  {
    && |origin| == |pending|
    && (forall n :: 0 <= n < |pending| ==>
          0 <= origin[n] < i && rs[origin[n]] == pending[n] && IsPending(o, pending[n]))
    && (forall m, n :: 0 <= m < n < |pending| ==> origin[m] < origin[n])
    && (forall k :: 0 <= k < i && IsPending(o, rs[k]) ==> k in origin)
  }

  lemma {:induction false} BatchDecides(o: Oracles, rs: seq<PidRecord>, pending: seq<PidRecord>, origin: seq<int>,
                     early: map<string, Verdict>, verdicts: map<string, Verdict>)
    requires PendingOf(o, rs, |rs|, pending, origin)
    requires EarlyVerdicts(o, rs, |rs|, early) && LateVerdicts(o, pending, |pending|, early, verdicts)
    ensures forall p :: p in verdicts <==> exists i :: 0 <= i < |rs| && rs[i].path == p
    ensures forall i :: Decides(o, rs, i) ==>
            rs[i].path in verdicts && verdicts[rs[i].path] == VerifyPidFile(o, rs[i], None)
  {
    hide VerifyPidFile, IsPending, PendingOf, LastEarly, LastLate, HasEarly, HasLate;
    forall i | Decides(o, rs, i)
      ensures 0 <= i < |rs| && rs[i].path in verdicts && verdicts[rs[i].path] == VerifyPidFile(o, rs[i], None)
    {
      if IsPending(o, rs[i]) {
        var n := PendingDecides(o, rs, pending, origin, i);
      } else {
        FailedDecides(o, rs, pending, origin, i);
      }
    }
    forall p | true ensures p in verdicts <==> exists i :: 0 <= i < |rs| && rs[i].path == p {
      EveryPathDecided(o, rs, pending, origin, p);
    }
  }

  lemma {:induction false} PendingDecides(o: Oracles, rs: seq<PidRecord>, pending: seq<PidRecord>, origin: seq<int>,
                                          i: int) returns (n: nat)
    requires PendingOf(o, rs, |rs|, pending, origin) && Decides(o, rs, i) && IsPending(o, rs[i])
    ensures n < |pending| && LastLate(pending, |pending|, n) && pending[n] == rs[i]
  {
    hide IsPending;
    n :| 0 <= n < |origin| && origin[n] == i;
    forall j | n < j < |pending| ensures pending[j].path != pending[n].path {
      assert origin[n] < origin[j] && IsPending(o, rs[origin[j]]);
    }
  }

  lemma {:induction false} FailedDecides(o: Oracles, rs: seq<PidRecord>, pending: seq<PidRecord>, origin: seq<int>,
                                         i: int)
    requires PendingOf(o, rs, |rs|, pending, origin) && Decides(o, rs, i) && !IsPending(o, rs[i])
    ensures LastEarly(o, rs, |rs|, i) && !HasLate(pending, |pending|, rs[i].path)
  {
    hide IsPending;
    forall k | 0 <= k < |pending| ensures pending[k].path != rs[i].path {
      assert IsPending(o, rs[origin[k]]) && rs[origin[k]] == pending[k];
    }
  }

  lemma {:induction false} EveryPathDecided(o: Oracles, rs: seq<PidRecord>, pending: seq<PidRecord>, origin: seq<int>,
                                            p: string)
    requires PendingOf(o, rs, |rs|, pending, origin)
    ensures HasEarly(o, rs, |rs|, p) || HasLate(pending, |pending|, p) <==> exists i :: 0 <= i < |rs| && rs[i].path == p
  {
    hide IsPending;
    if i :| 0 <= i < |rs| && rs[i].path == p {
      if IsPending(o, rs[i]) {
        var n :| 0 <= n < |origin| && origin[n] == i;
        assert pending[n].path == p;
      }
    }
    if HasLate(pending, |pending|, p) {
      var k :| 0 <= k < |pending| && pending[k].path == p;
      assert rs[origin[k]].path == p;
    }
  }
}
