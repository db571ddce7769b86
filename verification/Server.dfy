/**
 Starting, aborting and stopping a tracked server. A call owns two tracking files and at most one armed
 pid; the caller's abort can fire at any await, and processes can die or be replaced between steps. The
 operating system answers arbitrarily; what is proved holds for every answer and every interleaving.
 */
module Server {
  import opened Prelude
  import opened PidIdentity

  /** Content of a tracking file: the pid file, or the pid recorded in the state sidecar. */
  datatype FileState = Absent | Malformed | Names(pid: int)

  datatype Signal = Term | Kill

  /** Which code path sent a signal. */
  datatype Sender = StopPath | AbortHandler | AbortedResult

  datatype PollOutcome = PollReady | PollExited | PollTimeout | PollAborted

  datatype Act =
    | Verified(pid: int, verdict: Verdict)
    | Vanished(pid: int)                       // kill(0) failed after the grace period
    | Signalled(pid: int, signal: Signal, sender: Sender)
    | FilesRemoved
    | FilesWritten(pid: int)
    | Launched(pid: int)
    | Retrying                                 // the first launch is handed to stopServer
    | Polled(outcome: PollOutcome)

  datatype StopResult = StopResult(stopped: bool, pid: Option<int>, killed: bool)

  datatype Outcome =
    | InvalidTarget | RefusedStop | Adopted | PortConflict | LaunchThrew
    | Ready | TimedOut | Exited | Aborted | RefusedRetry

  datatype StartResult = StartResult(outcome: Outcome, pid: Option<int>, retried: bool) {
    predicate Ok() { outcome.Ready? || outcome.Adopted? }
  }

  /** detectPortConflict, then tryAdoptExistingServer: free, taken by our own model, or foreign. */
  datatype Port = Free | Ours(pid: int) | Foreign

  datatype Health = Status(code: int) | NoAnswer

  /** kill(0) on a pid, and one health probe: what the endpoint answered, and whether the process was then alive. */
  datatype Look = Look(pid: int, alive: bool)

  datatype Probe = Probe(pid: int, answer: Health, alive: bool)

  // ---- What a stop may do -----------------------------------------------------------------

  function ReadServerPid(f: FileState): Option<int> {
    if f.Names? && f.pid > 0 then Some(f.pid) else None
  }

  /** Every allowed sequence of acts of one stop, with the result each leads to. */
  ghost predicate StopTrace(acts: seq<Act>, r: StopResult) {
    if r.pid.None? then acts == [FilesRemoved] && r == StopResult(true, None, false)
    else
      var p := r.pid.value;
      || (exists v :: IsRecordedPidGone(v) && acts == [Verified(p, v), FilesRemoved] && r.stopped && !r.killed)
      || (acts == [Verified(p, Unknown)] && !r.stopped && !r.killed)
      || (acts == [Verified(p, Alive), Signalled(p, Term, StopPath), Vanished(p), FilesRemoved] &&
          r.stopped && !r.killed)
      || (exists v :: IsRecordedPidGone(v) && r.stopped && !r.killed &&
                      acts == [Verified(p, Alive), Signalled(p, Term, StopPath), Verified(p, v), FilesRemoved])
      || (acts == [Verified(p, Alive), Signalled(p, Term, StopPath), Verified(p, Unknown)] && !r.stopped && !r.killed)
      || (r.stopped && r.killed &&
          acts == [Verified(p, Alive), Signalled(p, Term, StopPath), Verified(p, Alive), Signalled(p, Kill, StopPath),
                   FilesRemoved])
  }

  /** A stop signals only right after a positive identity, and deletes only on proof or completion. */
  lemma StopNeverActsOnUnprovenIdentity(acts: seq<Act>, r: StopResult)
    requires StopTrace(acts, r)
    ensures forall i :: 0 <= i < |acts| && acts[i].Signalled? ==>
              i > 0 && acts[i - 1] == Verified(acts[i].pid, Alive) && r.pid == Some(acts[i].pid)
    ensures forall i :: 0 <= i < |acts| && acts[i].Signalled? && acts[i].signal.Kill? ==>
              i >= 3 && acts[i - 2].Signalled? && acts[i - 2].signal.Term? &&
                acts[i - 3] == Verified(acts[i].pid, Alive)
    ensures r.stopped <==> acts != [] && acts[|acts| - 1] == FilesRemoved
    ensures forall i :: 0 <= i < |acts| && acts[i].Verified? && acts[i].verdict.Unknown? ==> FilesRemoved !in acts
    ensures r.killed ==> r.stopped
  {}

  // ---- Abort ownership ------------------------------------------------------------------------

  /** `p` was launched by this call and has not been handed to stopServer since. */
  ghost predicate Owned(trace: seq<Act>, p: int) {
    exists j :: 0 <= j < |trace| && trace[j] == Launched(p) && forall k :: j < k < |trace| ==> !trace[k].Retrying?
  }

  /**
   Outside a stop, the abort handler's signals and the aborted result's, only a pid owned at that moment is
   signalled.
   */
  ghost predicate AbortIsLawful(trace: seq<Act>) {
    forall i :: 0 <= i < |trace| && trace[i].Signalled? && !trace[i].sender.StopPath? ==>
           Owned(trace[..i], trace[i].pid)
  }

  lemma {:induction false} LawfulAppend(trace: seq<Act>, act: Act)
    requires AbortIsLawful(trace)
    requires act.Signalled? && !act.sender.StopPath? ==> Owned(trace, act.pid)
    ensures AbortIsLawful(trace + [act])
    ensures forall p :: Owned(trace, p) && !act.Retrying? ==> Owned(trace + [act], p)
    ensures act.Launched? ==> Owned(trace + [act], act.pid)
  {
    var all := trace + [act];
    forall i | 0 <= i < |all| && all[i].Signalled? && !all[i].sender.StopPath? ensures Owned(all[..i], all[i].pid) {
      assert all[..i] == if i < |trace| then trace[..i] else trace;
    }
    forall p | Owned(trace, p) && !act.Retrying? ensures Owned(all, p) {
      var j :| 0 <= j < |trace| && trace[j] == Launched(p) && forall k :: j < k < |trace| ==> !trace[k].Retrying?;
      assert all[j] == Launched(p);
    }
    if act.Launched? {
      assert all[|trace|] == Launched(act.pid);
    }
  }

  /** The looks of one termination: up to `grace` while waiting, ended early by a dead one, and one after that. */
  ghost predicate GraceLooks(looks: seq<Look>, pid: int, grace: int) {
    && looks != [] && (forall i :: 0 <= i < |looks| ==> looks[i].pid == pid)
    && (forall i :: 0 <= i < |looks| - 2 ==> looks[i].alive)
    && (|looks| == Max(0, grace) + 1 || (2 <= |looks| <= grace + 1 && !looks[|looks| - 2].alive))
  }

  /** A loading server, a process that is still there: reasons to go on polling. */
  ghost predicate KeepsWaiting(p: Probe) {
    p.answer != Status(200) && (p.answer == Status(503) || p.alive)
  }

  /** What the probes of one poll say about its outcome. */
  ghost predicate PollMeans(taken: seq<Probe>, pid: int, timeout: int, outcome: PollOutcome, last: Option<Look>) {
    && (forall i :: 0 <= i < |taken| ==> taken[i].pid == pid)
    && |taken| <= Max(0, timeout)
    && (forall i :: 0 <= i < |taken| - 1 ==> KeepsWaiting(taken[i]))
    && (outcome.PollReady? <==> taken != [] && taken[|taken| - 1].answer == Status(200))
    && (taken != [] && !KeepsWaiting(taken[|taken| - 1]) ==> outcome.PollReady? || outcome.PollExited?)
    && (outcome.PollTimeout? ==> |taken| == Max(0, timeout) && last == Some(Look(pid, true)))
    && (outcome.PollExited? ==>
          || (taken != [] && !KeepsWaiting(taken[|taken| - 1]))
          || (|taken| == Max(0, timeout) && last == Some(Look(pid, false))))
  }

  /** The port was last found free. */
  ghost predicate PortWasFree(ports: seq<Port>) {
    ports != [] && ports[|ports| - 1] == Free
  }

  /** The last health probe was of this process and answered 200. */
  ghost predicate SawReady(probes: seq<Probe>, pid: int) {
    probes != [] && probes[|probes| - 1].pid == pid && probes[|probes| - 1].answer == Status(200)
  }

  /** The process was last seen gone, by the probe that ended the poll or by the look after the last one. */
  ghost predicate SawGone(looks: seq<Look>, probes: seq<Probe>, pid: int) {
    || LastLook(looks) == Some(Look(pid, false))
    || (probes != [] && probes[|probes| - 1].pid == pid && !KeepsWaiting(probes[|probes| - 1]) &&
        probes[|probes| - 1].answer != Status(200))
  }

  ghost function LastLook(looks: seq<Look>): Option<Look> {
    if looks == [] then None else Some(looks[|looks| - 1])
  }

  class Host {
    var pidFile: FileState
    var stateFile: FileState
    const hasSignal: bool
    var aborted: bool           // the caller's signal
    var abortedJustNow: bool    // it fired during the latest await
    var listening: bool         // the abort listener is attached
    var targetPid: Option<int>  // the abort killer's current target
    ghost var trace: seq<Act>
    ghost var launches: seq<int>
    ghost var polls: seq<PollOutcome>
    ghost var looks: seq<Look>
    ghost var probes: seq<Probe>
    ghost var ports: seq<Port>  // what was found behind the configured port

    constructor (pidFile: FileState, stateFile: FileState, hasSignal: bool, aborted: bool)
      requires aborted ==> hasSignal
      ensures Sound() && Disarmed() && trace == [] && launches == [] && polls == []
      ensures this.pidFile == pidFile && this.stateFile == stateFile && this.hasSignal == hasSignal &&
              this.aborted == aborted
      ensures !listening && targetPid == None
    {
      this.pidFile, this.stateFile, this.hasSignal, this.aborted := pidFile, stateFile, hasSignal, aborted;
      abortedJustNow, listening, targetPid := false, false, None;
      trace, launches, polls, looks, probes, ports := [], [], [], [], [], [];
    }

    /** Both files are gone, or both name the same pid. */
    ghost predicate Consistent()
      reads this
    {
      (pidFile.Absent? && stateFile.Absent?) || (pidFile.Names? && stateFile == pidFile)
    }

    ghost predicate Sound()
      reads this
    {
      && AbortIsLawful(trace)
      && (aborted || listening ==> hasSignal)
      && (listening ==> !aborted)
      && (listening && targetPid.Some? ==> Owned(trace, targetPid.value))
    }

    /** Firing the abort now signals nothing. */
    ghost predicate Disarmed()
      reads this
    {
      !listening || targetPid.None?
    }

    // ---- The operating system, answering as it likes ----

    method IsProcessAlive(pid: int) returns (alive: bool)
      modifies this`looks
      ensures looks == old(looks) + [Look(pid, alive)]
    {
      alive := *;
      looks := looks + [Look(pid, alive)];
    }

    /** One health probe; the process is looked at when the answer does not settle it. */
    method ProbeHealth(pid: int) returns (answer: Health, alive: bool)
      modifies this`probes
      ensures probes == old(probes) + [Probe(pid, answer, alive)]
    {
      answer, alive := *, *;
      probes := probes + [Probe(pid, answer, alive)];
    }

    method VerifyPidFileNow(pid: int) returns (v: Verdict)
      modifies this`trace
      ensures trace == old(trace) + [Verified(pid, v)]
    {
      v := *;
      trace := trace + [Verified(pid, v)];
    }

    /** process.kill; a failure means the process is already gone and is ignored. */
    method SendSignal(pid: int, signal: Signal, ghost sender: Sender)
      modifies this`trace
      ensures trace == old(trace) + [Signalled(pid, signal, sender)]
    {
      trace := trace + [Signalled(pid, signal, sender)];
    }

    /** What the abort killer's `kill` does: SIGTERM to the target if there is one and it is just seen alive. */
    twostate predicate Killed()
      reads this
    {
      if targetPid.None? then trace == old(trace) && looks == old(looks)
      else
        exists alive :: looks == old(looks) + [Look(targetPid.value, alive)] &&
                        trace == old(trace) + if alive then [Signalled(targetPid.value, Term, AbortHandler)] else []
    }

    method KillTarget()
      requires Sound() && (targetPid.Some? ==> Owned(trace, targetPid.value))
      modifies this`trace, this`looks
      ensures Sound() && forall p :: Owned(old(trace), p) ==> Owned(trace, p)
      ensures Killed()
    {
      if targetPid.None? { return; }
      var alive := IsProcessAlive(targetPid.value);
      assert old(trace) + [] == old(trace);
      if alive {
        LawfulAppend(trace, Signalled(targetPid.value, Term, AbortHandler));
        SendSignal(targetPid.value, Term, AbortHandler);
      }
    }

    /** A suspension point: the caller's abort may fire, once; the listener then runs, once. */
    method Await()
      requires Sound()
      modifies this`aborted, this`abortedJustNow, this`listening, this`trace, this`looks
      ensures Sound() && targetPid == old(targetPid)
      ensures forall p :: Owned(old(trace), p) ==> Owned(trace, p)
      ensures old(aborted) ==> aborted
      ensures abortedJustNow <==> aborted && !old(aborted)
      ensures !abortedJustNow ==> listening == old(listening)
      ensures abortedJustNow ==> !listening
      ensures if abortedJustNow && old(listening) then Killed() else trace == old(trace) && looks == old(looks)
    {
      abortedJustNow := false;
      var fires := *;
      if fires && hasSignal && !aborted {
        var attached := listening;
        aborted, abortedJustNow, listening := true, true, false;
        if attached { KillTarget(); }
      }
    }

    method RemoveFiles()
      requires Sound()
      modifies this`pidFile, this`stateFile, this`trace
      ensures Sound() && pidFile == stateFile == Absent && trace == old(trace) + [FilesRemoved]
    {
      pidFile := Absent;
      stateFile := Absent;
      LawfulAppend(trace, FilesRemoved);
      trace := trace + [FilesRemoved];
    }

    method WriteFiles(pid: int)
      requires Sound()
      modifies this`pidFile, this`stateFile, this`trace
      ensures Sound() && pidFile == stateFile == Names(pid) && trace == old(trace) + [FilesWritten(pid)]
      ensures forall p :: Owned(old(trace), p) ==> Owned(trace, p)
    {
      pidFile := Names(pid);
      stateFile := Names(pid);
      LawfulAppend(trace, FilesWritten(pid));
      trace := trace + [FilesWritten(pid)];
    }

    // ---- Stop --------------------------------------------------------------------------------

    /** SIGTERM, grace polls, re-verification, SIGKILL. `acts` is what it did. */
    method TerminateVerifiedPid(pid: int, graceSeconds: int) returns (stopped: bool, killed: bool, ghost acts: seq<Act>)
      requires Sound() && Disarmed()
      modifies this`aborted, this`abortedJustNow, this`listening, this`trace, this`looks
      ensures Sound() && Disarmed() && (old(aborted) ==> aborted) && (listening ==> old(listening))
      ensures trace == old(trace) + acts
      ensures |old(looks)| <= |looks| && looks[..|old(looks)|] == old(looks)
      ensures GraceLooks(looks[|old(looks)|..], pid, graceSeconds)
      ensures |acts| >= 2 && (acts[1] == Vanished(pid) <==> !looks[|looks| - 1].alive)
      ensures || (acts == [Signalled(pid, Term, StopPath), Vanished(pid)] && stopped && !killed)
              || (stopped && !killed &&
                  exists v :: IsRecordedPidGone(v) && acts == [Signalled(pid, Term, StopPath), Verified(pid, v)])
              || (acts == [Signalled(pid, Term, StopPath), Verified(pid, Unknown)] && !stopped && !killed)
              || (acts == [Signalled(pid, Term, StopPath), Verified(pid, Alive), Signalled(pid, Kill, StopPath)] &&
                  stopped && killed)
    {
      LawfulAppend(trace, Signalled(pid, Term, StopPath));
      SendSignal(pid, Term, StopPath);
      ghost var seen: seq<Look> := [];
      var i := 0;
      var alive := true;
      while i < graceSeconds && alive
        invariant 0 <= i <= Max(0, graceSeconds)
        invariant Sound() && Disarmed() && (old(aborted) ==> aborted) && (listening ==> old(listening))
        invariant trace == old(trace) + [Signalled(pid, Term, StopPath)] && looks == old(looks) + seen
        invariant |seen| == if alive then i else i + 1
        invariant forall k :: 0 <= k < |seen| ==> seen[k] == Look(pid, alive || k < i)
        invariant !alive ==> i < graceSeconds
        decreases graceSeconds - i, alive
      {
        alive := IsProcessAlive(pid);
        seen := seen + [Look(pid, alive)];
        if alive {
          Await();
          i := i + 1;
        }
      }
      alive := IsProcessAlive(pid);
      assert looks[|old(looks)|..] == seen + [Look(pid, alive)];
      if !alive {
        LawfulAppend(trace, Vanished(pid));
        trace := trace + [Vanished(pid)];
        return true, false, [Signalled(pid, Term, StopPath), Vanished(pid)];
      }
      ghost var before := trace;
      var v := VerifyPidFileNow(pid);
      LawfulAppend(before, Verified(pid, v));
      acts := [Signalled(pid, Term, StopPath), Verified(pid, v)];
      if v == Unknown { return false, false, acts; }
      if v != Alive { return true, false, acts; }
      LawfulAppend(trace, Signalled(pid, Kill, StopPath));
      SendSignal(pid, Kill, StopPath);
      return true, true, acts + [Signalled(pid, Kill, StopPath)];
    }

    /** Stop the tracked server. Files go exactly when the result says stopped. */
    method StopServer(graceOption: Option<int>) returns (r: StopResult, ghost acts: seq<Act>)
      requires Sound() && Disarmed()
      modifies this`pidFile, this`stateFile, this`aborted, this`abortedJustNow, this`listening, this`trace, this`looks
      ensures Sound() && Disarmed() && (old(aborted) ==> aborted) && (listening ==> old(listening))
      ensures trace == old(trace) + acts && StopTrace(acts, r)
      ensures forall p :: r.pid == Some(p) <==> old(pidFile) == Names(p) && p > 0
      ensures |old(looks)| <= |looks| && looks[..|old(looks)|] == old(looks)
      ensures |acts| >= 2 && acts[1].Signalled? ==>
                GraceLooks(looks[|old(looks)|..], acts[1].pid, Max(1, graceOption.GetOr(5))) &&
                (acts[2].Vanished? <==> !looks[|looks| - 1].alive)
      ensures r.stopped ==> pidFile == stateFile == Absent
      ensures !r.stopped ==> pidFile == old(pidFile) && stateFile == old(stateFile)
    {
      hide GraceLooks;
      var grace := Max(1, graceOption.GetOr(5));
      var recorded := ReadServerPid(pidFile);
      if recorded.None? {
        RemoveFiles();
        return StopResult(true, None, false), [FilesRemoved];
      }
      var pid := recorded.value;
      ghost var before := trace;
      var verdict := VerifyPidFileNow(pid);
      LawfulAppend(before, Verified(pid, verdict));
      if IsRecordedPidGone(verdict) {
        RemoveFiles();
        return StopResult(true, Some(pid), false), [Verified(pid, verdict), FilesRemoved];
      }
      if verdict != Alive {
        return StopResult(false, Some(pid), false), [Verified(pid, verdict)];
      }
      var stopped, killed;
      ghost var rest;
      stopped, killed, rest := TerminateVerifiedPid(pid, grace);
      acts := [Verified(pid, Alive)] + rest;
      if !stopped {
        return StopResult(false, Some(pid), false), acts;
      }
      RemoveFiles();
      acts := acts + [FilesRemoved];
      r := StopResult(true, Some(pid), killed);
    }

    // ---- Start --------------------------------------------------------------------------------

    /** Spawn the process; None when launching throws. The caller may abort on either side of the spawn. */
    method LaunchBackground() returns (pid: Option<int>)
      requires Sound() && Disarmed()
      modifies this`aborted, this`abortedJustNow, this`listening, this`trace, this`launches, this`looks
      ensures Sound() && Disarmed() && targetPid == old(targetPid) && (old(aborted) ==> aborted) &&
              (listening ==> old(listening))
      ensures pid.None? ==> trace == old(trace) && launches == old(launches)
      ensures pid.Some? ==>
                Owned(trace, pid.value) && trace == old(trace) + [Launched(pid.value)] &&
                launches == old(launches) + [pid.value]
    {
      Await();
      var throws := *;
      if throws { return None; }
      var spawned: int := *;
      LawfulAppend(trace, Launched(spawned));
      trace, launches := trace + [Launched(spawned)], launches + [spawned];
      Await();
      pid := Some(spawned);
    }

    /** Point the abort killer at a pid just launched; one that is not positive is never signalled. */
    method Arm(pid: int)
      requires Sound() && Owned(trace, pid)
      modifies this`targetPid
      ensures Sound() && targetPid == if pid > 0 then Some(pid) else None
    {
      targetPid := if pid > 0 then Some(pid) else None;
    }

    /** removeEventListener. */
    method Detach()
      requires Sound()
      modifies this`listening
      ensures Sound() && Disarmed() && !listening
    {
      listening := false;
    }

    /** From here on the first launch belongs to stopServer: no target while it is being stopped. */
    method HandOver()
      requires Sound()
      modifies this`targetPid, this`trace
      ensures Sound() && Disarmed() && targetPid == None && trace == old(trace) + [Retrying]
    {
      targetPid := None;
      LawfulAppend(trace, Retrying);
      trace := trace + [Retrying];
    }

    /** wireAbortToKill: fire at once if already aborted, else listen. */
    method WireAbortToKill()
      requires Sound() && !listening && (targetPid.Some? ==> Owned(trace, targetPid.value))
      modifies this`listening, this`trace, this`looks
      ensures Sound() && (listening <==> hasSignal && !old(aborted))
      ensures forall p :: Owned(old(trace), p) ==> Owned(trace, p)
      ensures if aborted then Killed() else trace == old(trace) && looks == old(looks)
    {
      if !hasSignal { return; }
      if aborted { KillTarget(); } else { listening := true; }
    }

    /** Poll /health once a second; an abort is noticed at the top of each attempt and at the end. */
    method PollUntilReady(pid: int, timeoutSeconds: int) returns (outcome: PollOutcome)
      requires Sound()
      modifies this`aborted, this`abortedJustNow, this`listening, this`trace, this`polls, this`looks, this`probes
      ensures Sound() && (old(aborted) ==> aborted) && (listening ==> old(listening))
      ensures polls == old(polls) + [outcome]
      ensures forall p :: Owned(old(trace), p) ==> Owned(trace, p)
      ensures outcome.PollAborted? ==> aborted
      ensures outcome.PollReady? && aborted ==> abortedJustNow
      ensures outcome.PollTimeout? ==> !aborted
      ensures outcome.PollExited? && aborted ==> abortedJustNow
      ensures old(trace) < trace && trace[|trace| - 1] == Polled(outcome)
      ensures forall i :: |old(trace)| <= i < |trace| - 1 ==> trace[i].Signalled? && trace[i].sender.AbortHandler?
      ensures |old(probes)| <= |probes| && probes[..|old(probes)|] == old(probes)
      ensures PollMeans(probes[|old(probes)|..], pid, timeoutSeconds, outcome, LastLook(looks))
      ensures outcome.PollReady? ==> SawReady(probes, pid)
      ensures outcome.PollTimeout? ==> LastLook(looks) == Some(Look(pid, true))
      ensures outcome.PollExited? ==> SawGone(looks, probes, pid)
    {
      hide Owned, AbortIsLawful, Killed;
      var attempt := 0;
      outcome := PollAborted;
      var settled := false;
      ghost var taken: seq<Probe> := [];
      while attempt < timeoutSeconds && !settled
        invariant Sound() && (old(aborted) ==> aborted) && (listening ==> old(listening))
        invariant polls == old(polls) && probes == old(probes) + taken
        invariant forall p :: Owned(old(trace), p) ==> Owned(trace, p)
        invariant settled && outcome.PollAborted? ==> aborted
        invariant settled && !outcome.PollAborted? && aborted ==> abortedJustNow
        invariant 0 <= attempt <= Max(0, timeoutSeconds) && (settled ==> attempt < timeoutSeconds)
        invariant |taken| == if outcome.PollAborted? then attempt else attempt + 1
        invariant forall i :: 0 <= i < |taken| ==> taken[i].pid == pid
        invariant forall i :: 0 <= i < attempt ==> KeepsWaiting(taken[i])
        invariant !settled ==> outcome.PollAborted?
        invariant outcome.PollAborted? || outcome.PollReady? || outcome.PollExited?
        invariant outcome.PollReady? <==> |taken| == attempt + 1 && taken[attempt].answer == Status(200)
        invariant outcome.PollExited? ==> !KeepsWaiting(taken[attempt])
        invariant old(trace) <= trace
        invariant forall i :: |old(trace)| <= i < |trace| ==> trace[i].Signalled? && trace[i].sender.AbortHandler?
        decreases timeoutSeconds - attempt, if settled then 0 else 1
      {
        if aborted {
          settled := true;
        } else {
          Await();
          var answer, alive := ProbeHealth(pid);
          taken := taken + [Probe(pid, answer, alive)];
          if answer == Status(200) {
            outcome, settled := PollReady, true;
          } else if answer != Status(503) && !alive {
            outcome, settled := PollExited, true;
          } else {
            Await();
            attempt := attempt + 1;
          }
        }
      }
      if !settled && !aborted {
        var alive := IsProcessAlive(pid);
        outcome := if alive then PollTimeout else PollExited;
      }
      LawfulAppend(trace, Polled(outcome));
      trace, polls := trace + [Polled(outcome)], polls + [outcome];
      assert probes[|old(probes)|..] == taken;
    }

    /** Detach, disarm, terminate the given pid and drop both files. */
    method AbortedStartResult(retried: bool, pid: Option<int>) returns (r: StartResult)
      requires Sound() && (pid.Some? ==> Owned(trace, pid.value))
      modifies this`pidFile, this`stateFile, this`listening, this`targetPid, this`trace, this`looks
      ensures Sound() && Disarmed()
      ensures pidFile == stateFile == Absent && r == StartResult(Aborted, None, retried)
      ensures if pid.Some? && pid.value > 0
              then exists alive :: looks == old(looks) + [Look(pid.value, alive)] &&
                                   trace == old(trace) +
                                            (if alive then [Signalled(pid.value, Term, AbortedResult)] else []) +
                                            [FilesRemoved]
              else looks == old(looks) && trace == old(trace) + [FilesRemoved]
    {
      listening, targetPid := false, None;
      if pid.Some? && pid.value > 0 {
        var alive := IsProcessAlive(pid.value);
        assert old(trace) + [] == old(trace);
        if alive {
          LawfulAppend(trace, Signalled(pid.value, Term, AbortedResult));
          SendSignal(pid.value, Term, AbortedResult);
        }
      }
      RemoveFiles();
      r := StartResult(Aborted, None, retried);
    }

    /** First half of the retry: disarm and hand the first launch to stopServer; a result here is final. */
    method StopFirstLaunch() returns (r: Option<StartResult>)
      requires Sound() && Consistent() && PortWasFree(ports)
      requires polls != [] && polls[|polls| - 1] in {PollTimeout, PollExited}
      modifies this
      ensures ports == old(ports) && probes == old(probes)
      ensures Sound() && Disarmed() && launches == old(launches) && polls == old(polls)
      ensures r.Some? ==> Finished(r.value, true) && r.value.outcome in {RefusedRetry, Aborted}
      ensures r.None? ==> pidFile == stateFile == Absent && !aborted
    {
      hide Sound, Disarmed, StopTrace, GraceLooks, Owned, Killed, SawReady, SawGone, PortWasFree, KeepsWaiting;
      HandOver();
      var stop;
      ghost var acts;
      stop, acts := StopServer(None);
      if !stop.stopped {
        Detach();
        return Some(StartResult(RefusedRetry, None, true));
      }
      if aborted {
        var result := AbortedStartResult(true, None);
        return Some(result);
      }
      r := None;
    }

    /** What a poll settles at once: an abort cleans up, readiness detaches; otherwise the attempt goes on. */
    method SettleAttempt(outcome: PollOutcome, pid: int, retried: bool) returns (r: Option<StartResult>)
      requires Sound() && Owned(trace, pid) && pidFile == stateFile == Names(pid)
      requires launches != [] && launches[|launches| - 1] == pid && polls != [] && polls[|polls| - 1] == outcome
      requires outcome.PollAborted? ==> aborted
      requires outcome.PollReady? && aborted ==> abortedJustNow
      requires outcome.PollReady? ==> SawReady(probes, pid)
      requires PortWasFree(ports)
      modifies this`pidFile, this`stateFile, this`listening, this`targetPid, this`trace, this`looks
      ensures r.None? ==> looks == old(looks)
      ensures Sound() && (r.Some? ==> Disarmed() && Finished(r.value, retried))
      ensures r.Some? <==> outcome.PollAborted? || outcome.PollReady?
      ensures r.Some? ==> r.value.outcome == if outcome.PollAborted? then Aborted else Ready
      ensures r.None? ==> pidFile == stateFile == Names(pid)
    {
      hide Owned, Sound;
      if outcome.PollAborted? {
        var result := AbortedStartResult(retried, Some(pid));
        r := Some(result);
      } else if outcome.PollReady? {
        Detach();
        r := Some(StartResult(Ready, Some(pid), retried));
      } else {
        r := None;
      }
    }

    /** The retry: stop the first launch, relaunch, restore both files, re-arm, poll again. */
    method RetryWithMmprojSafeFlags(timeoutSeconds: int)
      returns (r: Option<StartResult>, outcome: PollOutcome, retryPid: int)
      requires Sound() && Consistent() && PortWasFree(ports)
      requires polls != [] && polls[|polls| - 1] in {PollTimeout, PollExited}
      modifies this
      ensures ports == old(ports)
      ensures r.None? && outcome.PollTimeout? ==> LastLook(looks) == Some(Look(retryPid, true))
      ensures r.None? && outcome.PollExited? ==> SawGone(looks, probes, retryPid)
      ensures Sound() && (r.Some? ==> Disarmed() && Finished(r.value, true))
      ensures r.Some? ==> r.value.outcome in {RefusedRetry, Aborted, LaunchThrew, Ready}
      ensures r.Some? ==> old(polls) <= polls && |polls| - |old(polls)| <= |launches| - |old(launches)| <= 1
      ensures r.None? ==> outcome in {PollTimeout, PollExited} && polls == old(polls) + [outcome] &&
                          launches == old(launches) + [retryPid] && pidFile == stateFile == Names(retryPid)
    {
      hide Sound, Disarmed, Owned, Killed, GraceLooks, StopTrace, PollMeans, SawGone, SawReady, KeepsWaiting,
        PortWasFree;
      outcome, retryPid := PollTimeout, 0;
      r := StopFirstLaunch();
      if r.Some? { return; }
      r, outcome, retryPid := Relaunch(timeoutSeconds);
    }

    /** Second half of the retry: relaunch, re-arm, restore both files, poll again. */
    method Relaunch(timeoutSeconds: int) returns (r: Option<StartResult>, outcome: PollOutcome, retryPid: int)
      requires Sound() && Disarmed() && pidFile == stateFile == Absent && PortWasFree(ports)
      requires polls != [] && polls[|polls| - 1] in {PollTimeout, PollExited}
      modifies this
      ensures ports == old(ports)
      ensures r.None? && outcome.PollTimeout? ==> LastLook(looks) == Some(Look(retryPid, true))
      ensures r.None? && outcome.PollExited? ==> SawGone(looks, probes, retryPid)
      ensures Sound() && (r.Some? ==> Disarmed() && Finished(r.value, true))
      ensures r.Some? ==> r.value.outcome in {Aborted, LaunchThrew, Ready}
      ensures r.Some? ==> old(polls) <= polls && |polls| - |old(polls)| <= |launches| - |old(launches)| <= 1
      ensures r.None? ==> outcome in {PollTimeout, PollExited} && polls == old(polls) + [outcome] &&
                          launches == old(launches) + [retryPid] && pidFile == stateFile == Names(retryPid)
    {
      hide Sound, Disarmed, Owned, Killed, PollMeans, SawGone, SawReady, KeepsWaiting, PortWasFree;
      outcome, retryPid := PollTimeout, 0;
      var launched := LaunchBackground();
      if launched.None? {
        return Some(StartResult(LaunchThrew, None, true)), outcome, retryPid;
      }
      retryPid := launched.value;
      Arm(retryPid);
      WriteFiles(retryPid);
      outcome := PollUntilReady(retryPid, timeoutSeconds);
      r := SettleAttempt(outcome, retryPid, true);
    }

    /** What the result says about the files, the last launch and the last poll. */
    ghost predicate Finished(r: StartResult, retried: bool)
      reads this
    {
      && r.retried == retried
      && Consistent() && (r.outcome == RefusedRetry ==> r.pid == None)
      && (r.outcome in {Ready, TimedOut, Exited} ==>
            launches != [] && polls != [] && pidFile == stateFile == Names(launches[|launches| - 1]))
      && (r.outcome == Ready ==> r.pid == Some(launches[|launches| - 1]) && polls[|polls| - 1] == PollReady)
      && (r.outcome == TimedOut ==> r.pid == Some(launches[|launches| - 1]) && polls[|polls| - 1] == PollTimeout)
      && (r.outcome == Exited ==> r.pid == None && polls[|polls| - 1] == PollExited)
      && (r.outcome == Adopted ==> r.pid.Some? && pidFile == stateFile == Names(r.pid.value))
      && (r.outcome in {Aborted, PortConflict, LaunchThrew} ==> r.pid == None && pidFile == stateFile == Absent)
      && (r.outcome == Ready ==> SawReady(probes, r.pid.value))
      && (r.outcome == TimedOut ==> LastLook(looks) == Some(Look(r.pid.value, true)))
      && (r.outcome == Exited ==> SawGone(looks, probes, launches[|launches| - 1]))
      && (polls != [] && polls[|polls| - 1] == PollReady ==> r.outcome == Ready)
      && (polls != [] && polls[|polls| - 1] == PollAborted ==> r.outcome == Aborted)
      && (r.outcome == Adopted ==> ports != [] && ports[|ports| - 1] == Ours(r.pid.value))
      && (r.outcome == PortConflict ==> ports != [] && ports[|ports| - 1] == Foreign)
      && (launches != [] ==> PortWasFree(ports))
      && (r.outcome == Aborted ==> aborted)
      && (r.outcome == Ready && aborted ==> abortedJustNow)
    }

    method DetectPort() returns (port: Port)
      requires Sound()
      modifies this`ports
      ensures Sound() && ports == old(ports) + [port]
    {
      port := *;
      ports := ports + [port];
    }

    /** stopServer and the port check: a result here is final, otherwise both files are gone. */
    method ClearTheWay() returns (r: Option<StartResult>)
      requires Sound() && Disarmed() && launches == [] && polls == []
      modifies this
      ensures Sound() && Disarmed() && (listening ==> old(listening)) && targetPid == old(targetPid)
      ensures launches == old(launches) && polls == old(polls)
      ensures r.Some? && r.value.outcome == RefusedStop ==>
                r.value.pid == None && !r.value.retried && pidFile == old(pidFile) && stateFile == old(stateFile)
      ensures r.Some? && r.value.outcome != RefusedStop ==>
                r.value.outcome in {Adopted, PortConflict} && Finished(r.value, false)
      ensures r.None? ==> pidFile == stateFile == Absent && PortWasFree(ports)
    {
      hide StopTrace, GraceLooks, Sound, Owned, Killed, SawReady, SawGone;
      var stop;
      ghost var acts;
      stop, acts := StopServer(None);
      if !stop.stopped { return Some(StartResult(RefusedStop, None, false)); }
      Await();
      var port := DetectPort();
      if port.Free? { return None; }
      Await();
      match port {
        case Ours(pid) =>
          WriteFiles(pid);
          r := Some(StartResult(Adopted, Some(pid), false));
        case _ =>
          r := Some(StartResult(PortConflict, None, false));
      }
    }

    /** Launch, record, arm, poll: the first attempt. */
    method FirstAttempt(timeoutSeconds: int) returns (r: Option<StartResult>, outcome: PollOutcome, pid: int)
      requires Sound() && !listening && pidFile == stateFile == Absent
      requires launches == [] && polls == [] && PortWasFree(ports)
      modifies this
      ensures ports == old(ports)
      ensures r.None? && outcome.PollTimeout? ==> LastLook(looks) == Some(Look(pid, true))
      ensures r.None? && outcome.PollExited? ==> SawGone(looks, probes, pid)
      ensures Sound() && (r.Some? ==> Disarmed() && Finished(r.value, false))
      ensures r.None? ==> outcome in {PollTimeout, PollExited} && polls == [outcome] && launches == [pid] &&
                          pidFile == stateFile == Names(pid)
      ensures r.Some? ==> r.value.outcome in {LaunchThrew, Aborted, Ready} && |polls| <= |launches| <= 1
      ensures r.Some? ==> polls == [] || (|polls| == 1 && polls[0] in {PollReady, PollAborted})
    {
      hide Owned, Sound, Killed, PollMeans, SawGone, SawReady, KeepsWaiting;
      outcome, pid := PollTimeout, 0;
      var launched := LaunchBackground();
      if launched.None? {
        return Some(StartResult(LaunchThrew, None, false)), outcome, pid;
      }
      pid := launched.value;
      WriteFiles(pid);
      Arm(pid);
      WireAbortToKill();
      outcome := PollUntilReady(pid, timeoutSeconds);
      r := SettleAttempt(outcome, pid, false);
    }

    /**
     One start. Whatever the interleaving of the abort with the awaits: the files are untouched or
     consistent, an ok result is the recorded pid, an aborted one leaves nothing recorded, the abort
     handler only ever signalled a pid this call owned, and after return it can signal nothing.
     */
    method StartServer(targetIsValid: bool, hasMmprojArg: bool, timeoutSeconds: int) returns (r: StartResult)
      requires Sound() && !listening && trace == [] && launches == [] && polls == []
      modifies this
      ensures Sound() && Disarmed()
      ensures r.outcome in {InvalidTarget, RefusedStop} ==>
                r.pid == None && !r.retried && launches == [] && pidFile == old(pidFile) && stateFile == old(stateFile)
      ensures r.outcome !in {InvalidTarget, RefusedStop} ==> Finished(r, r.retried)
      ensures r.outcome == InvalidTarget <==> !targetIsValid
      ensures r.retried <==> hasMmprojArg && polls != [] && polls[0] in {PollTimeout, PollExited}
      ensures |launches| <= 2 && |polls| <= |launches|
    {
      hide Sound, Owned, AbortIsLawful, SawGone, SawReady, KeepsWaiting;
      if !targetIsValid {
        return StartResult(InvalidTarget, None, false);
      }
      var early := ClearTheWay();
      if early.Some? { return early.value; }
      var first, outcome, pid := FirstAttempt(timeoutSeconds);
      if first.Some? { return first.value; }
      var retried, activePid := false, pid;
      if hasMmprojArg {
        var second;
        second, outcome, activePid := RetryWithMmprojSafeFlags(timeoutSeconds);
        if second.Some? { return second.value; }
        retried := true;
      }
      Detach();
      r := if outcome.PollTimeout? then StartResult(TimedOut, Some(activePid), retried)
           else StartResult(Exited, None, retried);
    }
  }

  /** One start on a machine in the given state. */
  method StartOn(pidFile: FileState, stateFile: FileState, hasSignal: bool, aborted: bool,
                 targetIsValid: bool, hasMmprojArg: bool, timeoutSeconds: int) returns (h: Host, r: StartResult)
    requires aborted ==> hasSignal
    ensures fresh(h) && h.Sound() && h.Disarmed()
    ensures r.outcome in {InvalidTarget, RefusedStop} ==>
              r.pid == None && !r.retried && h.launches == [] && h.pidFile == pidFile && h.stateFile == stateFile
    ensures r.outcome !in {InvalidTarget, RefusedStop} ==> h.Finished(r, r.retried)
    ensures r.outcome == InvalidTarget <==> !targetIsValid
    ensures r.retried <==> hasMmprojArg && h.polls != [] && h.polls[0] in {PollTimeout, PollExited}
    ensures |h.launches| <= 2 && |h.polls| <= |h.launches|
  {
    h := new Host(pidFile, stateFile, hasSignal, aborted);
    r := h.StartServer(targetIsValid, hasMmprojArg, timeoutSeconds);
  }
}
