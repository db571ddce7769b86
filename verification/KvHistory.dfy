/**
 What the lease protocol guarantees over whole runs, in terms of what happened in the run: when a slot or a
 reservation is lost for good, and when a row that a request holds can lose its mark.
 */
module KvHistory {
  import opened Prelude
  import opened KvLease

  // ---- Stranded leases ------------------------------------------------------------------------

  /**
   A call throws while the lease is held outside context.kv: the restore, the replay of a row that was
   restored and activated, or the restore-bind injection.
   */
  predicate StrandsLease(sh: Shared, r: Request, c: Choice) {
    match r.pc
    case Restoring(hit, _) =>
      c.RestoreThrows? || (c.Restored? && c.ok && Activate(sh, hit, c.activateWrites).1 && c.replay.ReplayThrows?)
    case Binding(_, _) => c.Throws?
    case _ => false
  }

  predicate Strands(s: System, e: Event) {
    e.who in s.requests && StrandsLease(s.shared, s.requests[e.who], e.choice)
  }

  lemma AbandonKeepsOrphans(sh: Shared, r: Request, hit: Sha, lease: LeaseId, writes: bool, drop: set<Sha>)
    ensures Abandon(sh, r, hit, lease, writes, drop).1.orphan == r.orphan
  {}

  lemma ReleaseKeepsOrphans(sh: Shared, r: Request, writes: bool, deletes: bool)
    ensures ReleaseWarmHit(sh, r, writes).1.orphan == r.orphan && FalseHit(sh, r, writes, deletes).1.orphan == r.orphan
  {}

  lemma {:induction false} PersistKeepsOrphans(sh: Shared, r: Request, writes: bool)
    ensures EndPersist(sh, r, writes).1.orphan == r.orphan
  {
    hide ReleaseWarmHit;
    ReleaseKeepsOrphans(sh, r, writes, true);
  }

  lemma {:induction false} ReadingKeepsOrphans(sh: Shared, r: Request, c: Choice)
    ensures FromReading(sh, r, c).1.orphan == r.orphan
  {
    hide EndPersist, FalseHit;
    if c.ReadBody? {
      ReleaseKeepsOrphans(sh, r, c.releaseWrites, c.deleteWrites);
      var (sh1, r1) := if c.mismatch then FalseHit(sh, r, c.releaseWrites, c.deleteWrites) else (sh, r);
      PersistKeepsOrphans(sh1, r1, c.releaseWrites);
    }
  }

  lemma {:induction false} SavingKeepsOrphans(sh: Shared, r: Request, lease: LeaseId, c: Choice)
    ensures FromSaving(sh, r, lease, c).1.orphan == r.orphan
  {
    hide EndPersist, SaveRows;
    if c.Saved? || c.SaveThrows? {
      PersistKeepsOrphans(Release(SaveRows(sh, r.sha, c.commits, c.evicted), lease), CallRelease(r), c.writes);
    }
  }

  lemma {:induction false} RestoringSetsOrphan(sh: Shared, r: Request, hit: Sha, lease: LeaseId, c: Choice)
    requires r.pc == Restoring(hit, lease)
    ensures FromRestoring(sh, r, hit, lease, c).1.orphan ==
            if StrandsLease(sh, r, c) then Some((lease, hit)) else r.orphan
  {
    hide Abandon, Activate;
    if c.Restored? {
      var sh1 := Activate(sh, hit, c.activateWrites).0;
      AbandonKeepsOrphans(sh1, r, hit, lease, c.releaseWrites, if c.ok || !c.dropWrites then {} else {hit});
      AbandonKeepsOrphans(sh1, r, hit, lease, c.releaseWrites,
                          if c.dropWrites then {hit} * IdleRows(RegistryRelease(sh1, hit, c.releaseWrites)) else {});
    }
  }

  lemma {:induction false} ProbingKeepsOrphans(sh: Shared, r: Request, c: Choice)
    ensures FromProbing(sh, r, c).1.orphan == r.orphan
  {
    hide EndPersist, Busy;
    if c.Throws? || c.Supported? {
      PersistKeepsOrphans(sh, r, c.writes);
    }
  }

  /** A segment strands a lease exactly when it is such a throw, and a stranded lease stays stranded. */
  lemma {:induction false} AdvanceStrands(sh: Shared, r: Request, c: Choice)
    ensures Advance(sh, r, c).1.orphan.Some? <==> r.orphan.Some? || StrandsLease(sh, r, c)
  {
    hide FromRestoring, FromReading, FromProbing, FromSaving, ReleaseWarmHit, Busy, Activate;
    match r.pc
    case Restoring(hit, lease) => RestoringSetsOrphan(sh, r, hit, lease, c);
    case Reading => ReadingKeepsOrphans(sh, r, c);
    case Probing => ProbingKeepsOrphans(sh, r, c);
    case Saving(lease) => SavingKeepsOrphans(sh, r, lease, c);
    case _ =>
      if c.Throws? || c.Returns? {
        ReleaseKeepsOrphans(sh, r, c.writes, true);
      }
  }

  /** Event `k` of the run throws on a lease that request `i` holds. */
  ghost predicate StrandedAt(s: System, events: seq<Event>, i: RequestId, k: int) {
    0 <= k < |events| && events[k].who == i && Strands(Run(s, events[..k]), events[k])
  }

  ghost predicate Stranded(s: System, events: seq<Event>, i: RequestId) {
    exists k :: StrandedAt(s, events, i, k)
  }

  lemma {:induction false} StrandedOneMore(s: System, events: seq<Event>, e: Event, i: RequestId)
    ensures Stranded(s, events + [e], i) <==> Stranded(s, events, i) || (e.who == i && Strands(Run(s, events), e))
  {
    hide Strands, Run;
    var all := events + [e];
    assert all[..|events|] == events;
    assert forall k :: 0 <= k < |events| ==> all[k] == events[k] && all[..k] == events[..k];
    if Stranded(s, events, i) {
      var k :| StrandedAt(s, events, i, k);
      assert StrandedAt(s, all, i, k);
    }
    if e.who == i && Strands(Run(s, events), e) {
      assert StrandedAt(s, all, i, |events|);
    }
    if Stranded(s, all, i) {
      var k :| StrandedAt(s, all, i, k);
      assert k < |events| ==> StrandedAt(s, events, i, k);
    }
  }

  /** The request's record of a stranded lease says exactly that one was stranded in the run. */
  lemma {:induction false} OrphanIffStranded(s: System, events: seq<Event>, i: RequestId)
    requires i in s.requests && s.requests[i].orphan.None?
    ensures Run(s, events).requests[i].orphan.Some? <==> Stranded(s, events, i)
    ensures SameRoute(s.requests[i], Run(s, events).requests[i])
    decreases |events|
  {
    hide Stranded, Strands, Run, Advance;
    if events == [] {
      NothingStranded(s, i);
    } else {
      var init, e := events[..|events| - 1], events[|events| - 1];
      assert events == init + [e];
      OrphanIffStranded(s, init, i);
      StrandedOneMore(s, init, e, i);
      RunOneMore(s, init, e);
      var t := Run(s, init);
      StepStrands(t, e, i);
    }
  }

  lemma NothingStranded(s: System, i: RequestId)
    ensures Run(s, []) == s && !Stranded(s, [], i)
  {}

  lemma {:induction false} StepStrands(t: System, e: Event, i: RequestId)
    requires i in t.requests
    ensures Step(t, e).requests[i].orphan.Some? <==> t.requests[i].orphan.Some? || (e.who == i && Strands(t, e))
    ensures SameRoute(t.requests[i], Step(t, e).requests[i])
  {
    hide Advance, StrandsLease;
    if e.who in t.requests {
      AdvanceStrands(t.shared, t.requests[e.who], e.choice);
    }
  }

  /** Some event of the run throws on a lease of the workload. */
  ghost predicate SlotStranded(s: System, events: seq<Event>, w: Workload) {
    exists i :: i in s.requests && s.requests[i].workload == w && Stranded(s, events, i)
  }

  /** A finished request has released all it took, but for one lease and one reservation if a throw stranded them. */
  lemma {:induction false} ExitBalancesUnlessStranded(s: System, events: seq<Event>, i: RequestId)
    requires Initial(s) && i in s.requests && Run(s, events).requests[i].pc.Done?
    ensures var r := Run(s, events).requests[i];
            && r.ledger.acquires == r.ledger.releases + (if Stranded(s, events, i) then 1 else 0)
            && r.ledger.reserves == r.ledger.registryReleases + (if Stranded(s, events, i) then 1 else 0)
            && (r.wasWarm ==> r.ledger.acquires == 1 && !Stranded(s, events, i))
  {
    hide Stranded, Run;
    OrphanIffStranded(s, events, i);
    EveryExitBalances(s, events, i);
  }

  /** Once all requests have finished, a workload's slot is in use if and only if a throw stranded its lease. */
  lemma {:induction false} SlotInUseIffStranded(s: System, events: seq<Event>, w: Workload)
    requires Initial(s)
    requires forall i :: i in Run(s, events).requests ==> Run(s, events).requests[i].pc.Done?
    ensures Busy(Run(s, events).shared, w) <==> SlotStranded(s, events, w)
  {
    hide Run, Invariant, Busy, Stranded;
    ReachableIsInvariant(s, events);
    var t := Run(s, events);
    SlotFollowsOrphans(t, w);
    forall i | i in s.requests
      ensures t.requests[i].orphan.Some? <==> Stranded(s, events, i)
      ensures t.requests[i].workload == s.requests[i].workload
    {
      OrphanIffStranded(s, events, i);
    }
  }

  /** From the throw on, whatever follows, the slot is in use at every moment: the lease is lost for good. */
  lemma {:induction false} StrandedSlotStaysBusy(s: System, events: seq<Event>, w: Workload, m: nat)
    requires Initial(s) && m <= |events| && SlotStranded(s, events[..m], w)
    ensures Busy(Run(s, events).shared, w)
  {
    hide Run, Stranded;
    var i :| i in s.requests && s.requests[i].workload == w && Stranded(s, events[..m], i);
    StrandedLater(s, events, i, m);
    ReachableIsInvariant(s, events);
    OrphanIffStranded(s, events, i);
    OrphanHoldsSlot(Run(s, events), i);
  }

  lemma {:induction false} StrandedLater(s: System, events: seq<Event>, i: RequestId, m: nat)
    requires m <= |events| && Stranded(s, events[..m], i)
    ensures Stranded(s, events, i)
  {
    hide Run, Strands;
    var k :| StrandedAt(s, events[..m], i, k);
    assert events[..m][k] == events[k] && events[..m][..k] == events[..k];
    assert StrandedAt(s, events, i, k);
  }

  lemma {:induction false} OrphanHoldsSlot(t: System, i: RequestId)
    requires Invariant(t) && i in t.requests && t.requests[i].orphan.Some?
    ensures Busy(t.shared, t.requests[i].workload)
  {
    hide Local, HeldShas, Disjoint, Owned, OnePerSlot, NoVainMark;
    assert t.requests[i].orphan.value.0 in HeldLeases(t.requests[i]);
    assert OwnLeases(t.shared, t.requests[i]);
  }

  /**
   So with no such throw every exit balances, every slot is free at the end, and every row whose release was
   written is idle.
   */
  lemma {:induction false} CallsReturnFreesEverySlot(s: System, events: seq<Event>, w: Workload)
    requires Initial(s)
    requires forall i :: i in s.requests ==> !Stranded(s, events, i)
    requires forall i :: i in Run(s, events).requests ==> Run(s, events).requests[i].pc.Done?
    ensures var t := Run(s, events);
            && !Busy(t.shared, w)
            && (forall i :: i in t.requests ==>
                  t.requests[i].ledger.acquires == t.requests[i].ledger.releases
                  && t.requests[i].ledger.reserves == t.requests[i].ledger.registryReleases)
            && ((forall i :: i in t.requests ==> t.requests[i].lost == {}) ==>
                  forall sha :: sha in t.shared.rows ==> t.shared.rows[sha] == Idle)
  {
    hide Run, Invariant, Busy, Stranded, Initial;
    ReachableIsInvariant(s, events);
    SlotInUseIffStranded(s, events, w);
    var t := Run(s, events);
    forall i | i in t.requests
      ensures t.requests[i].orphan.None?
      ensures t.requests[i].ledger.acquires == t.requests[i].ledger.releases
      ensures t.requests[i].ledger.reserves == t.requests[i].ledger.registryReleases
    {
      NewIsUnstranded(s, i);
      OrphanIffStranded(s, events, i);
      ExitBalancesUnlessStranded(s, events, i);
    }
    if forall i :: i in t.requests ==> t.requests[i].lost == {} {
      RowsFollowOrphans(t);
    }
  }

  lemma NewIsUnstranded(s: System, i: RequestId)
    requires Initial(s) && i in s.requests
    ensures s.requests[i].orphan.None?
  {}

  // ---- A run in which it happens ------------------------------------------------------------------

  function NewRequest(w: Workload, sha: Sha): Request {
    Request(w, sha, false, Start, NoKv, Ledger(0, 0, 0, 0), None, {}, false)
  }

  /** One request, whose prefix is cached. */
  function OneWarmRequest(): System {
    System(Shared(map[], 0, map["x" := Idle]), map[0 := NewRequest("w", "x")])
  }

  /** Its hit is reserved and leased, the restore throws, upstream answers, the response goes out. */
  function RestoreThrowsRun(): seq<Event> {
    [Event(0, Hit(true, true)), Event(0, RestoreThrows), Event(0, Returns(true)), Event(0, Returns(true))]
  }

  /** All requests have finished, and the slot is in use with no one left to release it. */
  lemma {:induction false} ThrowLosesTheSlot()
    ensures var (s, events) := (OneWarmRequest(), RestoreThrowsRun());
            && Initial(s)
            && (forall i :: i in Run(s, events).requests ==> Run(s, events).requests[i].pc.Done?)
            && Busy(Run(s, events).shared, "w")
            && Run(s, events).shared.rows == map["x" := Reserved]
  {
    var es := RestoreThrowsRun();
    HitTaken();
    RestoreThrown();
    var lost := Some((0, "x"));
    RunsThrough(OneWarmRequest(), es,
                Leased(Restoring("x", 0), None), Leased(Forwarding, lost), Leased(Tail, lost), Leased(Done, lost));
    assert 0 in Leased(Done, lost).shared.leases;
  }

  /** The request after its hit was leased. */
  function Leased(pc: Pc, orphan: Option<(LeaseId, Sha)>): System {
    System(Shared(map[0 := "w"], 1, map["x" := Reserved]),
           map[0 := NewRequest("w", "x").(pc := pc, ledger := Ledger(1, 0, 1, 0), orphan := orphan)])
  }

  lemma {:induction false} HitTaken()
    ensures Step(OneWarmRequest(), Event(0, Hit(true, true))) == Leased(Restoring("x", 0), None)
  {
    var sh := OneWarmRequest().shared;
    assert sh.rows["x" := Reserved] == map["x" := Reserved];
    var sh1 := sh.(rows := map["x" := Reserved]);
    assert Reserve(sh, "x", true) == (sh1, true);
    assert !Busy(sh1, "w");
    assert sh1.leases[0 := "w"] == map[0 := "w"];
    var after := Leased(Restoring("x", 0), None);
    assert OneWarmRequest().requests[0 := after.requests[0]] == after.requests;
  }

  lemma RestoreThrown()
    ensures Step(Leased(Restoring("x", 0), None), Event(0, RestoreThrows)) == Leased(Forwarding, Some((0, "x")))
    ensures Step(Leased(Forwarding, Some((0, "x"))), Event(0, Returns(true))) == Leased(Tail, Some((0, "x")))
    ensures Step(Leased(Tail, Some((0, "x"))), Event(0, Returns(true))) == Leased(Done, Some((0, "x")))
  {}

  lemma {:induction false} RunsThrough(s0: System, es: seq<Event>, s1: System, s2: System, s3: System, s4: System)
    requires |es| == 4 && Step(s0, es[0]) == s1 && Step(s1, es[1]) == s2 && Step(s2, es[2]) == s3 &&
             Step(s3, es[3]) == s4
    ensures Run(s0, es) == s4
  {
    hide Step;
    assert es[1..][1..] == es[2..] && es[2..][1..] == es[3..] && es[3..][1..] == [];
    assert es[3..][0] == es[3] && Run(s4, []) == s4;
    assert Run(s3, es[3..]) == s4;
    assert Run(s2, es[2..]) == s4;
    assert Run(s1, es[1..]) == s4;
  }

  // ---- Rows a request holds ---------------------------------------------------------------------------

  /** Reserved or active: not to be evicted, deleted or reserved by anyone else. */
  predicate Marked(sh: Shared, sha: Sha) {
    sha in sh.rows && sh.rows[sha] != Idle
  }

  /** The segment writes the request's own row to the registry. */
  predicate Commits(r: Request, c: Choice) {
    r.pc.Saving? && (c.Saved? || c.SaveThrows?) && c.commits
  }

  /** A request commits a row that is held by a request: the insert resets its state to idle. */
  ghost predicate Overwrites(s: System, e: Event) {
    && e.who in s.requests && Commits(s.requests[e.who], e.choice)
    && exists i :: i in s.requests && s.requests[e.who].sha in HeldShas(s.requests[i])
  }

  /** Every held row is marked, and has one holder. */
  ghost predicate Guarded(s: System) {
    && (forall i, sha :: i in s.requests && sha in HeldShas(s.requests[i]) ==> Marked(s.shared, sha))
    && (forall i, j, sha :: i in s.requests && j in s.requests &&
                            sha in HeldShas(s.requests[i]) && sha in HeldShas(s.requests[j]) ==>
          i == j)
  }

  /**
   What a segment does to marks: it unmarks only what it holds or commits, and what it newly holds it has
   marked itself.
   */
  ghost predicate MarksMove(sh: Shared, r: Request, c: Choice, sh': Shared, r': Request) {
    && (forall sha :: Marked(sh, sha) && sha !in HeldShas(r) && !(Commits(r, c) && sha == r.sha) ==> Marked(sh', sha))
    && (forall sha :: sha in HeldShas(r') && sha in HeldShas(r) && Marked(sh, sha) ==> Marked(sh', sha))
    && (forall sha :: sha in HeldShas(r') && sha !in HeldShas(r) ==> !Marked(sh, sha) && Marked(sh', sha))
    && HeldShas(r') <= HeldShas(r) + {r.sha}
  }

  lemma {:induction false} UnmovedMarks(sh: Shared, r: Request, c: Choice, sh': Shared, r': Request)
    requires sh'.rows == sh.rows && HeldShas(r') <= HeldShas(r)
    ensures MarksMove(sh, r, c, sh', r')
  {
    hide HeldShas;
  }

  lemma {:induction false} GivesBack(sh: Shared, r: Request, c: Choice, sh': Shared, r': Request)
    requires HeldShas(r') == {}
    requires forall sha :: Marked(sh, sha) && sha !in HeldShas(r) ==> Marked(sh', sha)
    ensures MarksMove(sh, r, c, sh', r')
  {
    hide HeldShas;
  }

  /** Past the lookup a request holds what context.kv names, or what it stranded. */
  lemma HeldByWarmHit(r: Request)
    requires Local(r) && (r.pc.Reading? || r.pc.Probing? || r.pc.Saving? || r.pc.Forwarding? || r.pc.Tail? ||
                          r.pc.Done?)
    ensures r.kv.Kv? ==> HeldShas(r) == if r.kv.warmSha.Some? then {r.kv.warmSha.value} else {}
    ensures r.kv.Kv? && r.kv.shouldPersist ==> HeldShas(r) == {}
    ensures r.pc.Saving? ==> HeldShas(r) == {} && r.kv.Kv? && r.kv.shouldPersist
    ensures r.kv.Kv? ==> r.orphan.None?
  {}

  /** Releasing a warm hit unmarks no row but its own, and leaves nothing held but what was stranded. */
  lemma {:induction false} ReleaseMoves(sh: Shared, r: Request, c: Choice, writes: bool, pc: Pc)
    requires Local(r) && (r.pc.Reading? || r.pc.Probing? || r.pc.Forwarding? || r.pc.Tail?) && (pc.Tail? || pc.Done?)
    ensures var (sh', r') := ReleaseWarmHit(sh, r, writes);
            MarksMove(sh, r, c, sh', r'.(pc := pc))
  {
    hide Local, MarksMove;
    HeldByWarmHit(r);
    var (sh', r') := ReleaseWarmHit(sh, r, writes);
    if r.kv.NoKv? {
      UnmovedMarks(sh, r, c, sh', r'.(pc := pc));
    } else {
      GivesBack(sh, r, c, sh', r'.(pc := pc));
    }
  }

  lemma {:induction false} UndoneMoves(sh: Shared, r: Request, c: Choice, writes: bool)
    requires Local(r) && r.pc.Start? && r.sha in sh.rows && sh.rows[r.sha] == Idle
    ensures var r1 := r.(ledger := r.ledger.(reserves := r.ledger.reserves + 1));
            var sh1 := sh.(rows := sh.rows[r.sha := Reserved]);
            MarksMove(sh, r, c, RegistryRelease(sh1, r.sha, writes), GoCold(CallRegistryRelease(r1, r.sha, writes)))
  {
    hide Local;
    var r1 := r.(ledger := r.ledger.(reserves := r.ledger.reserves + 1));
    StartHoldsNothing(r, r1, writes);
    hide HeldShas, GoCold;
  }

  lemma StartHoldsNothing(r: Request, r1: Request, writes: bool)
    requires Local(r) && r.pc.Start? && r1 == r.(ledger := r1.ledger)
    ensures HeldShas(r) == {} && HeldShas(GoCold(CallRegistryRelease(r1, r.sha, writes))) == {}
  {}

  lemma {:induction false} AcquiredMoves(sh: Shared, r: Request, c: Choice)
    requires Local(r) && r.pc.Start? && r.sha in sh.rows && sh.rows[r.sha] == Idle
    ensures var sh' := Shared(sh.leases[sh.nextLease := r.workload], sh.nextLease + 1, sh.rows[r.sha := Reserved]);
            MarksMove(sh, r, c, sh', r.(pc := Restoring(r.sha, sh.nextLease), ledger := Ledger(1, 0, 1, 0)))
  {
    RestoringHolds(r, sh.nextLease);
    hide Local, HeldShas;
  }

  lemma RestoringHolds(r: Request, lease: LeaseId)
    requires Local(r) && r.pc.Start?
    ensures HeldShas(r) == {} && HeldShas(r.(pc := Restoring(r.sha, lease), ledger := Ledger(1, 0, 1, 0))) == {r.sha}
  {}

  lemma {:induction false} HitMoves(sh: Shared, r: Request, reserveWrites: bool, releaseWrites: bool)
    requires Local(r) && r.pc.Start?
    ensures var c := Hit(reserveWrites, releaseWrites);
            var (sh', r') := FromStart(sh, r, c);
            MarksMove(sh, r, c, sh', r')
  {
    hide Busy, MarksMove, HeldShas, RegistryRelease;
    var c := Hit(reserveWrites, releaseWrites);
    var (sh1, reserved) := Reserve(sh, r.sha, reserveWrites);
    NewLedger(r);
    if !reserved {
      ColdIsLocal(r);
      UnmovedMarks(sh, r, c, sh, GoCold(r));
    } else if Busy(sh1, r.workload) {
      hide Local;
      UndoneMoves(sh, r, c, releaseWrites);
    } else {
      hide Local;
      AcquiredMoves(sh, r, c);
    }
  }

  lemma NewLedger(r: Request)
    requires Local(r) && r.pc.Start?
    ensures r.ledger == Ledger(0, 0, 0, 0)
  {}

  lemma {:induction false} StartMoves(sh: Shared, r: Request, c: Choice)
    requires Local(r) && r.pc.Start?
    ensures var (sh', r') := FromStart(sh, r, c);
            MarksMove(sh, r, c, sh', r')
  {
    hide Local, Busy, MarksMove, HeldShas;
    if c.Hit? {
      HitMoves(sh, r, c.reserveWrites, c.releaseWrites);
    } else {
      ColdIsLocal(r);
      PassingIsLocal(r);
      var (sh', r') := FromStart(sh, r, c);
      UnmovedMarks(sh, r, c, sh', r');
    }
  }

  lemma {:induction false} AbandonMoves(sh: Shared, r: Request, c: Choice, hit: Sha, lease: LeaseId, writes: bool,
                                        drop: set<Sha>)
    requires Local(r) && r.pc == Restoring(hit, lease) && drop <= {hit}
    ensures var (sh', r') := Abandon(sh, r, hit, lease, writes, drop);
            MarksMove(sh, r, c, sh', r')
  {
    hide Local, MarksMove;
    StillHolding(r, hit, lease);
    var (sh', r') := Abandon(sh, r, hit, lease, writes, drop);
    NothingKept(r, hit, lease, writes);
    GivesBack(sh, r, c, sh', r');
  }

  lemma NothingKept(r: Request, hit: Sha, lease: LeaseId, writes: bool)
    requires Local(r) && r.pc == Restoring(hit, lease)
    ensures HeldShas(GoCold(CallRelease(CallRegistryRelease(r, hit, writes)))) == {}
  {}

  /** Activating keeps every mark. */
  lemma ActivateKeepsMarks(sh: Shared, hit: Sha, writes: bool)
    ensures forall sha :: Marked(sh, sha) ==> Marked(Activate(sh, hit, writes).0, sha)
  {}

  lemma {:induction false} MarksMoveAfter(sh: Shared, sh1: Shared, r: Request, c: Choice, sh': Shared, r': Request)
    requires MarksMove(sh1, r, c, sh', r') && HeldShas(r') <= HeldShas(r)
    requires forall sha :: Marked(sh, sha) ==> Marked(sh1, sha)
    ensures MarksMove(sh, r, c, sh', r')
  {
    hide HeldShas;
  }

  lemma {:induction false} RestoringMoves(sh: Shared, r: Request, hit: Sha, lease: LeaseId, c: Choice)
    requires Local(r) && r.pc == Restoring(hit, lease)
    ensures var (sh', r') := FromRestoring(sh, r, hit, lease, c);
            MarksMove(sh, r, c, sh', r')
  {
    hide Local, MarksMove, Marked, HeldShas, Activate, Abandon, Orphan, RegistryRelease;
    StillHolding(r, hit, lease);
    var (sh', r') := FromRestoring(sh, r, hit, lease, c);
    if c.Restored? {
      ActivateKeepsMarks(sh, hit, c.activateWrites);
      var (sh1, activated) := Activate(sh, hit, c.activateWrites);
      if !(activated && c.ok) {
        var drop := if c.ok || !c.dropWrites then {} else {hit};
        AbandonMoves(sh1, r, c, hit, lease, c.releaseWrites, drop);
        AbandonHoldsNothing(sh1, r, hit, lease, c.releaseWrites, drop);
      } else if c.replay.ReplayMismatch? {
        var drop := if c.dropWrites then {hit} * IdleRows(RegistryRelease(sh1, hit, c.releaseWrites)) else {};
        AbandonMoves(sh1, r, c, hit, lease, c.releaseWrites, drop);
        AbandonHoldsNothing(sh1, r, hit, lease, c.releaseWrites, drop);
      } else {
        UnmovedMarks(sh1, r, c, sh', r');
      }
      MarksMoveAfter(sh, sh1, r, c, sh', r');
    } else {
      UnmovedMarks(sh, r, c, sh', r');
    }
  }

  lemma {:induction false} AbandonHoldsNothing(sh: Shared, r: Request, hit: Sha, lease: LeaseId, writes: bool,
                                               drop: set<Sha>)
    requires Local(r) && r.pc == Restoring(hit, lease)
    ensures HeldShas(Abandon(sh, r, hit, lease, writes, drop).1) == {}
  {
    hide Local, HeldShas, GoCold;
    NothingKept(r, hit, lease, writes);
  }

  lemma {:induction false} FalseHitMoves(sh: Shared, r: Request, writes: bool, deletes: bool)
    requires Local(r) && r.pc.Reading?
    ensures var (sh', r') := FalseHit(sh, r, writes, deletes);
            && HeldShas(r') == {} && r'.kv.Kv? && r'.kv.warmSha.None? && r'.orphan.None? && r'.pc == r.pc
            && forall sha :: Marked(sh, sha) && sha !in HeldShas(r) ==> Marked(sh', sha)
  {
    hide Local;
    ReadingHasKv(r);
    HeldByWarmHit(r);
  }

  lemma EndPersistMovesNothing(sh: Shared, r: Request, writes: bool)
    requires r.kv.Kv? && r.kv.warmSha.None? && r.orphan.None?
    ensures var (sh', r') := EndPersist(sh, r, writes);
            sh'.rows == sh.rows && HeldShas(r') == {}
  {}

  lemma {:induction false} ReadingMoves(sh: Shared, r: Request, c: Choice)
    requires Local(r) && r.pc.Reading?
    ensures var (sh', r') := FromReading(sh, r, c);
            MarksMove(sh, r, c, sh', r')
  {
    hide Local, MarksMove, ReleaseWarmHit, FalseHit, HeldShas, Marked;
    ReadingHasKv(r);
    var (sh', r') := FromReading(sh, r, c);
    if c.ReadBody? && c.mismatch {
      FalseHitMoves(sh, r, c.releaseWrites, c.deleteWrites);
      var (sh1, r1) := FalseHit(sh, r, c.releaseWrites, c.deleteWrites);
      EndPersistMovesNothing(sh1, r1, c.releaseWrites);
      HoldsNothing(r1);
      MarkedByRows(sh1, sh');
      GivesBack(sh, r, c, sh', r');
    } else if c.ReadBody? {
      ReleaseMoves(sh, r, c, c.releaseWrites, Tail);
      HoldsWhatItHeld(r, Probing);
      if r'.pc.Probing? {
        UnmovedMarks(sh, r, c, sh', r');
      }
    } else {
      UnmovedMarks(sh, r, c, sh', r');
    }
  }

  lemma MarkedByRows(sh: Shared, sh': Shared)
    ensures sh'.rows == sh.rows ==> forall sha :: Marked(sh', sha) <==> Marked(sh, sha)
  {}

  lemma HoldsNothing(r: Request)
    requires r.kv.Kv? && r.kv.warmSha.None? && r.orphan.None?
    ensures HeldShas(r.(pc := Probing)) == {} && HeldShas(r.(pc := Tail)) == {}
  {}

  lemma HoldsWhatItHeld(r: Request, pc: Pc)
    requires !(r.pc.Restoring? || r.pc.Binding? || pc.Restoring? || pc.Binding?)
    ensures HeldShas(r.(pc := pc)) == HeldShas(r)
  {}

  lemma {:induction false} ProbingMoves(sh: Shared, r: Request, c: Choice)
    requires Local(r) && r.pc.Probing?
    ensures var (sh', r') := FromProbing(sh, r, c);
            MarksMove(sh, r, c, sh', r')
  {
    hide Local, MarksMove, ReleaseWarmHit, HeldShas, Busy;
    var (sh', r') := FromProbing(sh, r, c);
    if c.Throws? || c.Supported? {
      ReleaseMoves(sh, r, c, c.writes, Tail);
    }
    if r'.pc.Saving? {
      HoldsWhatItHeld(r, r'.pc);
      LedgerHoldsNothing(r.(pc := r'.pc), r');
      UnmovedMarks(sh, r, c, sh', r');
    } else if r' == r {
      UnmovedMarks(sh, r, c, sh', r');
    }
  }

  lemma LedgerHoldsNothing(r: Request, r': Request)
    requires r' == r.(ledger := r'.ledger)
    ensures HeldShas(r') == HeldShas(r)
  {}

  lemma {:induction false} SavingMoves(sh: Shared, r: Request, lease: LeaseId, c: Choice)
    requires Local(r) && r.pc == Saving(lease)
    ensures var (sh', r') := FromSaving(sh, r, lease, c);
            MarksMove(sh, r, c, sh', r')
  {
    hide Local, EndPersist;
    HeldByWarmHit(r);
    WarmHitGone(r);
    if c.Saved? || c.SaveThrows? {
      SaveRowsMoves(sh, r.sha, c.commits, c.evicted);
      var sh1 := SaveRows(sh, r.sha, c.commits, c.evicted);
      hide SaveRows, HeldShas;
      EndPersistMovesNothing(Release(sh1, lease), CallRelease(r), c.writes);
    }
  }

  lemma WarmHitGone(r: Request)
    requires Local(r) && r.pc.Saving?
    ensures r.kv.Kv? && r.kv.warmSha.None? && r.orphan.None?
  {}

  /** Committing unmarks the committed row and evicts only idle rows. */
  lemma SaveRowsMoves(sh: Shared, own: Sha, commits: bool, evicted: set<Sha>)
    ensures forall sha :: Marked(sh, sha) && !(commits && sha == own) ==>
            Marked(SaveRows(sh, own, commits, evicted), sha)
    ensures commits ==> !Marked(SaveRows(sh, own, commits, evicted), own)
  {}

  lemma {:induction false} BindingMoves(sh: Shared, r: Request, hit: Sha, lease: LeaseId, c: Choice)
    requires Local(r) && r.pc == Binding(hit, lease)
    ensures var (sh', r') := Advance(sh, r, c);
            MarksMove(sh, r, c, sh', r')
  {
    hide Local, MarksMove, HeldShas, Orphan, ReleaseWarmHit;
    StillHolding(r, hit, lease);
    var (sh', r') := Advance(sh, r, c);
    UnmovedMarks(sh, r, c, sh', r');
  }

  lemma {:induction false} PlainMoves(sh: Shared, r: Request, c: Choice)
    requires Local(r) && (r.pc.SaveHandle? || r.pc.Forwarding? || r.pc.Tail? || r.pc.Done?)
    ensures var (sh', r') := Advance(sh, r, c);
            MarksMove(sh, r, c, sh', r')
  {
    hide Local, MarksMove, HeldShas, ReleaseWarmHit;
    if !r.pc.Done? && !r.pc.SaveHandle? && (c.Throws? || (r.pc.Tail? && c.Returns?)) {
      ReleaseMoves(sh, r, c, c.writes, Done);
    } else {
      var (sh', r') := Advance(sh, r, c);
      if r.pc.SaveHandle? {
        SaveHandleMoves(r);
      } else if r.pc.Forwarding? {
        ForwardingMoves(r);
      }
      UnmovedMarks(sh, r, c, sh', r');
    }
  }

  /** Every segment of every request moves marks only so. */
  lemma {:induction false} AdvanceMoves(sh: Shared, r: Request, c: Choice)
    requires Local(r)
    ensures var (sh', r') := Advance(sh, r, c);
            MarksMove(sh, r, c, sh', r')
  {
    hide Local, MarksMove, HeldShas, FromStart, FromRestoring, FromReading, FromProbing, FromSaving, ReleaseWarmHit,
      Orphan;
    match r.pc
    case Start => StartMoves(sh, r, c);
    case Restoring(hit, lease) => RestoringMoves(sh, r, hit, lease, c);
    case Reading => ReadingMoves(sh, r, c);
    case Probing => ProbingMoves(sh, r, c);
    case Saving(lease) => SavingMoves(sh, r, lease, c);
    case Binding(hit, lease) => BindingMoves(sh, r, hit, lease, c);
    case _ => PlainMoves(sh, r, c);
  }

  /** A step that overwrites no held row leaves every held row marked and with its one holder. */
  lemma {:induction false} GuardKept(s: System, e: Event)
    requires Invariant(s) && Guarded(s) && !Overwrites(s, e)
    ensures Guarded(Step(s, e))
  {
    hide Advance, Local, HeldShas, HeldLeases, Marked, Commits, Disjoint, Owned, OnePerSlot, NoVainMark, OwnLeases;
    if e.who in s.requests {
      var r := s.requests[e.who];
      AdvanceMoves(s.shared, r, e.choice);
    }
  }

  /** A step that overwrites a held row leaves it unmarked, or gone, in its holder's hands. */
  lemma {:induction false} OverwriteUnguards(s: System, e: Event)
    requires Invariant(s) && Overwrites(s, e)
    ensures !Guarded(Step(s, e))
  {
    hide Local, HeldShas, HeldLeases, Marked, Disjoint, Owned, OnePerSlot, NoVainMark, OwnLeases, FromSaving;
    var r := s.requests[e.who];
    var i :| i in s.requests && r.sha in HeldShas(s.requests[i]);
    HeldByWarmHit(r);
    assert i != e.who;
    var t := Step(s, e);
    CommitUnmarks(s.shared, r, r.pc.saveLease, e.choice);
    assert t.requests[i] == s.requests[i];
  }

  lemma {:induction false} CommitUnmarks(sh: Shared, r: Request, lease: LeaseId, c: Choice)
    requires Local(r) && r.pc == Saving(lease) && Commits(r, c)
    ensures !Marked(FromSaving(sh, r, lease, c).0, r.sha)
  {
    hide Local, EndPersist;
    WarmHitGone(r);
    SaveRowsMoves(sh, r.sha, c.commits, c.evicted);
    hide SaveRows;
    EndPersistMovesNothing(Release(SaveRows(sh, r.sha, c.commits, c.evicted), lease), CallRelease(r), c.writes);
  }

  /** The overwritten row's holder is a request of another workload: its own workload's slot is taken. */
  lemma {:induction false} OverwriteCrossesWorkloads(s: System, e: Event, i: RequestId)
    requires Invariant(s) && Overwrites(s, e) && i in s.requests && s.requests[e.who].sha in HeldShas(s.requests[i])
    ensures s.requests[i].workload != s.requests[e.who].workload
  {
    hide Local, HeldShas, HeldLeases, Owned, NoVainMark;
    var r := s.requests[e.who];
    HeldByWarmHit(r);
    SaverHoldsLease(r);
    HolderHoldsLease(s.requests[i], r.sha);
    assert OwnLeases(s.shared, r) && OwnLeases(s.shared, s.requests[i]);
  }

  lemma SaverHoldsLease(r: Request)
    requires r.pc.Saving?
    ensures r.pc.saveLease in HeldLeases(r)
  {}

  lemma {:induction false} HolderHoldsLease(r: Request, sha: Sha)
    requires Local(r) && sha in HeldShas(r)
    ensures exists id :: id in HeldLeases(r)
  {
    var id := if r.orphan.Some? then r.orphan.value.0
              else if r.kv.Kv? && r.kv.warmLease.Some? then r.kv.warmLease.value
              else if r.pc.Binding? then r.pc.lease else if r.pc.Restoring? then r.pc.lease else 0;
    assert id in HeldLeases(r);
  }

  /**
   At every moment of a run every row a request holds is reserved or active, and held by that request alone,
   so that no eviction, deletion or other hit can take it: if and only if no request of the run commits a
   row while another holds it.
   */
  lemma {:induction false} HeldRowsGuardedIffNoOverwrite(s: System, events: seq<Event>)
    requires Initial(s)
    ensures AlwaysGuarded(s, events) <==> NeverOverwrites(s, events)
  {
    hide Run, Guarded, Overwrites, Initial, Invariant;
    if NeverOverwrites(s, events) {
      forall m | 0 <= m <= |events| ensures Guarded(Run(s, events[..m])) {
        GuardedUpTo(s, events, m);
      }
    }
    if AlwaysGuarded(s, events) {
      forall k | 0 <= k < |events| ensures !Overwrites(Run(s, events[..k]), events[k]) {
        assert Guarded(Run(s, events[..k + 1]));
        assert events[..k + 1] == events[..k] + [events[k]];
        RunOneMore(s, events[..k], events[k]);
        ReachableIsInvariant(s, events[..k]);
        if Overwrites(Run(s, events[..k]), events[k]) {
          OverwriteUnguards(Run(s, events[..k]), events[k]);
        }
      }
    }
  }

  ghost predicate AlwaysGuarded(s: System, events: seq<Event>) {
    forall m :: 0 <= m <= |events| ==> Guarded(Run(s, events[..m]))
  }

  ghost predicate NeverOverwrites(s: System, events: seq<Event>) {
    forall k :: 0 <= k < |events| ==> !Overwrites(Run(s, events[..k]), events[k])
  }

  lemma {:induction false} GuardedUpTo(s: System, events: seq<Event>, m: nat)
    requires Initial(s) && m <= |events|
    requires forall k :: 0 <= k < m ==> !Overwrites(Run(s, events[..k]), events[k])
    ensures Guarded(Run(s, events[..m]))
  {
    hide Run, Guarded, Overwrites, Initial, Invariant, Step;
    if m == 0 {
      NewIsGuarded(s, events);
    } else {
      GuardedUpTo(s, events, m - 1);
      ReachableIsInvariant(s, events[..m - 1]);
      assert events[..m] == events[..m - 1] + [events[m - 1]];
      RunOneMore(s, events[..m - 1], events[m - 1]);
      GuardKept(Run(s, events[..m - 1]), events[m - 1]);
    }
  }

  lemma NewIsGuarded(s: System, events: seq<Event>)
    requires Initial(s)
    ensures Guarded(Run(s, events[..0]))
  {}

  /** A request only ever holds the row of its own prefix hash. */
  lemma {:induction false} HeldRowsAreOwn(s: System, events: seq<Event>, i: RequestId)
    requires Initial(s) && i in s.requests
    ensures HeldShas(Run(s, events).requests[i]) <= {s.requests[i].sha}
    ensures SameRoute(s.requests[i], Run(s, events).requests[i])
    decreases |events|
  {
    hide Run, Initial, Invariant, HeldShas, Step;
    if events == [] {
      NewHoldsNothing(s, i);
    } else {
      var init, e := events[..|events| - 1], events[|events| - 1];
      assert events == init + [e];
      HeldRowsAreOwn(s, init, i);
      RunOneMore(s, init, e);
      ReachableIsInvariant(s, init);
      StepHoldsOwn(Run(s, init), e, i);
    }
  }

  lemma NewHoldsNothing(s: System, i: RequestId)
    requires Initial(s) && i in s.requests
    ensures Run(s, []) == s && HeldShas(s.requests[i]) == {}
  {}

  lemma {:induction false} StepHoldsOwn(t: System, e: Event, i: RequestId)
    requires Invariant(t) && i in t.requests
    ensures HeldShas(Step(t, e).requests[i]) <= HeldShas(t.requests[i]) + {t.requests[i].sha}
    ensures SameRoute(t.requests[i], Step(t, e).requests[i])
  {
    hide Advance, Local, HeldShas, HeldLeases, Marked, Disjoint, Owned, OnePerSlot, NoVainMark, OwnLeases;
    if e.who in t.requests {
      AdvanceMoves(t.shared, t.requests[e.who], e.choice);
    }
  }

  /** Requests of different workloads never have the same prefix hash. */
  ghost predicate PrefixesApart(s: System) {
    forall i, j :: i in s.requests && j in s.requests && s.requests[i].sha == s.requests[j].sha ==>
      s.requests[i].workload == s.requests[j].workload
  }

  /** So where workloads do not share prefixes, every held row is guarded at every moment of every run. */
  lemma {:induction false} PrefixesApartStayGuarded(s: System, events: seq<Event>)
    requires Initial(s) && PrefixesApart(s)
    ensures AlwaysGuarded(s, events)
  {
    hide Run, Initial, Invariant, HeldShas, Guarded, AlwaysGuarded, Commits;
    forall k | 0 <= k < |events| ensures !Overwrites(Run(s, events[..k]), events[k]) {
      var t, e := Run(s, events[..k]), events[k];
      if Overwrites(t, e) {
        var i :| i in t.requests && t.requests[e.who].sha in HeldShas(t.requests[i]);
        ReachableIsInvariant(s, events[..k]);
        HeldRowsAreOwn(s, events[..k], i);
        HeldRowsAreOwn(s, events[..k], e.who);
        OverwriteCrossesWorkloads(t, e, i);
        assert false;
      }
    }
    HeldRowsGuardedIffNoOverwrite(s, events);
  }

  /** Two requests with the same prefix for different workloads: a hit of the first, a miss of the second. */
  function TwoRequests(): System {
    System(Shared(map[], 0, map["x" := Idle]), map[0 := NewRequest("w", "x"), 1 := NewRequest("v", "x")])
  }

  function CommitDuringRestoreRun(): seq<Event> {
    [Event(0, Hit(true, true)), Event(1, Miss), Event(1, Returns(true)), Event(1, ReadBody(false, true, true, true)),
     Event(1, Supported(true, true)), Event(1, Saved(true, {}, true))]
  }

  /** The first is still restoring from the row it reserved when the second commits it, and with that frees it. */
  lemma {:induction false} CommitFreesHeldRow()
    ensures var (s, events) := (TwoRequests(), CommitDuringRestoreRun());
            var t := Run(s, events);
            && Initial(s)
            && 0 in t.requests && t.requests[0].pc == Restoring("x", 0) && t.shared.rows == map["x" := Idle]
  {
    BothRestoring();
    FirstIsRestoring();
    SecondIsForwarding();
    SecondIsSaving();
    SecondHasSaved();
    hide Step, Both, Run;
    var a, b := Both(map[0 := "w"], Start, NoKv, 0), Both(map[0 := "w"], Forwarding, Cold(), 0);
    var c := Both(map[0 := "w"], Reading, Cold(), 0);
    var d, e := Both(map[0 := "w"], Probing, Cold(), 0), Both(map[0 := "w", 1 := "v"], Saving(1), Cold(), 1);
    var es := CommitDuringRestoreRun();
    RunsThrough(TwoRequests(), es[..4], a, b, c, d);
    EndsWith(TwoRequests(), es, d, e);
  }

  lemma {:induction false} EndsWith(s: System, es: seq<Event>, d: System, e: System)
    requires |es| == 6 && Run(s, es[..4]) == d && Step(d, es[4]) == e
    ensures Run(s, es) == Step(e, es[5])
  {
    hide Step, Run;
    assert es == es[..5] + [es[5]] && es[..5] == es[..4] + [es[4]];
    RunOneMore(s, es[..4], es[4]);
    RunOneMore(s, es[..5], es[5]);
  }

  /** The first request restoring from row "x"; the second wherever `pc` says, with `acquires` leases taken. */
  function Both(leases: map<LeaseId, Workload>, pc: Pc, kv: Kv, acquires: nat): System {
    System(Shared(leases, 1 + acquires, map["x" := Reserved]),
           map[0 := NewRequest("w", "x").(pc := Restoring("x", 0), ledger := Ledger(1, 0, 1, 0)),
               1 := NewRequest("v", "x").(pc := pc, kv := kv, ledger := Ledger(acquires, 0, 0, 0))])
  }

  lemma BothRestoring()
    ensures forall leases, pc, kv, n ::
              0 in Both(leases, pc, kv, n).requests && Both(leases, pc, kv, n).requests[0].pc == Restoring("x", 0)
  {}

  lemma {:induction false} FirstIsRestoring()
    ensures Step(TwoRequests(), Event(0, Hit(true, true))) == Both(map[0 := "w"], Start, NoKv, 0)
  {
    var sh := TwoRequests().shared;
    var after := Both(map[0 := "w"], Start, NoKv, 0);
    assert sh.rows["x" := Reserved] == map["x" := Reserved];
    var sh1 := sh.(rows := map["x" := Reserved]);
    assert Reserve(sh, "x", true) == (sh1, true);
    assert !Busy(sh1, "w");
    assert sh1.leases[0 := "w"] == map[0 := "w"];
    assert TwoRequests().requests[0 := after.requests[0]] == after.requests;
  }

  lemma {:induction false} SecondIsForwarding()
    ensures Step(Both(map[0 := "w"], Start, NoKv, 0), Event(1, Miss)) == Both(map[0 := "w"], Forwarding, Cold(), 0)
    ensures Step(Both(map[0 := "w"], Forwarding, Cold(), 0), Event(1, Returns(true))) ==
            Both(map[0 := "w"], Reading, Cold(), 0)
  {
    var a, b := Both(map[0 := "w"], Start, NoKv, 0), Both(map[0 := "w"], Forwarding, Cold(), 0);
    var c := Both(map[0 := "w"], Reading, Cold(), 0);
    assert a.requests[1 := b.requests[1]] == b.requests && b.requests[1 := c.requests[1]] == c.requests;
  }

  lemma {:induction false} SecondIsSaving()
    ensures Step(Both(map[0 := "w"], Reading, Cold(), 0), Event(1, ReadBody(false, true, true, true))) ==
            Both(map[0 := "w"], Probing, Cold(), 0)
    ensures Step(Both(map[0 := "w"], Probing, Cold(), 0), Event(1, Supported(true, true))) ==
            Both(map[0 := "w", 1 := "v"], Saving(1), Cold(), 1)
  {
    var c, d := Both(map[0 := "w"], Reading, Cold(), 0), Both(map[0 := "w"], Probing, Cold(), 0);
    var e := Both(map[0 := "w", 1 := "v"], Saving(1), Cold(), 1);
    assert c.requests[1 := d.requests[1]] == d.requests && d.requests[1 := e.requests[1]] == e.requests;
    assert !Busy(d.shared, "v");
    assert d.shared.leases[1 := "v"] == e.shared.leases;
  }

  lemma {:induction false} SecondHasSaved()
    ensures var e := Both(map[0 := "w", 1 := "v"], Saving(1), Cold(), 1);
            var t := Step(e, Event(1, Saved(true, {}, true)));
            0 in t.requests && t.requests[0] == e.requests[0] && t.shared.rows == map["x" := Idle]
  {
    var e := Both(map[0 := "w", 1 := "v"], Saving(1), Cold(), 1);
    var sh1 := e.shared.(rows := e.shared.rows["x" := Idle]);
    assert sh1.rows == map["x" := Idle];
    assert SaveRows(e.shared, "x", true, {}) == sh1;
  }
}
