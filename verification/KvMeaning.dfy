/**
 What each segment of a proxied request does to the rows, the open leases and context.kv, told by the
 answers it got. Nothing here names a function of the protocol: these are the outcomes it is held to.
 */
module KvMeaning {
  import opened Prelude
  import opened KvLease

  // ---- Outcomes -----------------------------------------------------------------------------------

  /** The rows once a hold on `sha` is given up: gone, idle, or untouched when the registry did not write. */
  ghost predicate RowGivenUp(before: map<Sha, RowState>, after: map<Sha, RowState>, sha: Sha,
                             writes: bool, drops: bool)
  {
    if writes && drops then after == before - {sha}
    else if writes && sha in before then after == before[sha := Idle]
    else after == before
  }

  /** A hold given back: its row is given up and its lease is gone; nothing else changes. */
  ghost predicate GivenBack(before: Shared, after: Shared, sha: Option<Sha>, lease: Option<LeaseId>,
                            writes: bool, drops: bool)
  {
    && (if sha == None then after.rows == before.rows
        else RowGivenUp(before.rows, after.rows, sha.value, writes, drops))
    && after.leases == (if lease == None then before.leases else before.leases - {lease.value})
    && after.nextLease == before.nextLease
  }

  /** A row can be taken when it is in the wanted state and the registry writes. */
  ghost predicate CanTake(rows: map<Sha, RowState>, sha: Sha, state: RowState, writes: bool) {
    writes && sha in rows && rows[sha] == state
  }

  ghost predicate SlotInUse(sh: Shared, w: Workload) {
    exists id :: id in sh.leases && sh.leases[id] == w
  }

  /** A hit that is not taken: its row cannot be reserved, or the slot is in use and the row is let go. */
  ghost predicate HitRefused(before: Shared, after: Shared, hit: Sha, w: Workload, c: Choice) {
    && c.Hit?
    && if !CanTake(before.rows, hit, Idle, c.reserveWrites) then after == before
       else
         && SlotInUse(before, w) && after.leases == before.leases && after.nextLease == before.nextLease
         && after.rows == before.rows[hit := if c.releaseWrites then Idle else Reserved]
  }

  ghost predicate HitTaken(before: Shared, after: Shared, hit: Sha, w: Workload, c: Choice) {
    && c.Hit? && CanTake(before.rows, hit, Idle, c.reserveWrites) && !SlotInUse(before, w)
    && after == Shared(before.leases[before.nextLease := w], before.nextLease + 1, before.rows[hit := Reserved])
  }

  /** The restore worked, its row became active and the tool map did not fit: the only late way to go cold. */
  ghost predicate ReplayRefused(before: Shared, hit: Sha, c: Choice) {
    c.Restored? && c.ok && CanTake(before.rows, hit, Reserved, c.activateWrites) && c.replay == ReplayMismatch
  }

  /** The restore failed or its row did not become active. */
  ghost predicate RestoreRefused(before: Shared, hit: Sha, c: Choice) {
    c.Restored? && !(c.ok && CanTake(before.rows, hit, Reserved, c.activateWrites))
  }

  /**
   What an abandoned hit leaves: the lease is gone; a failed restore drops the row whatever its state, a
   replay that does not fit drops it once it is idle, and a row that was not activated is only let go.
   */
  ghost predicate HitAbandoned(before: Shared, after: Shared, hit: Sha, lease: LeaseId, c: Choice) {
    && (RestoreRefused(before, hit, c) || ReplayRefused(before, hit, c))
    && after.leases == before.leases - {lease} && after.nextLease == before.nextLease
    && if !c.ok && c.dropWrites then after.rows == before.rows - {hit}
       else
         var active := CanTake(before.rows, hit, Reserved, c.activateWrites);
         RowGivenUp(if active then before.rows[hit := Active] else before.rows, after.rows, hit, c.releaseWrites,
                    c.ok && active && c.dropWrites)
  }

  /** The row is committed as idle, and of the idle rows the evicted ones go, the new one too if named. */
  ghost predicate Committed(before: map<Sha, RowState>, after: map<Sha, RowState>, sha: Sha, evicted: set<Sha>) {
    && (forall x :: x in after <==> (x in before || x == sha) && !(x in evicted && (x == sha || before[x] == Idle)))
    && (forall x :: x in after ==> after[x] == if x == sha then Idle else before[x])
  }

  /** Going cold: the prompt will be saved, for omlx once the save handle is bound. */
  ghost predicate WentCold(r: Request, r': Request) {
    if r.omlx then r'.pc == SaveHandle && r'.kv == r.kv else r'.pc == Forwarding && r'.kv == Kv(true, None, None)
  }

  /** The warm-hit fields of context.kv are cleared. */
  ghost predicate Cleared(kv: Kv, kv': Kv) {
    if kv.NoKv? then kv'.NoKv? else kv' == Kv(kv.shouldPersist, None, None)
  }

  ghost predicate Released(sh: Shared, r: Request, sh': Shared, r': Request, writes: bool, drops: bool) {
    && Cleared(r.kv, r'.kv)
    && if r.kv.NoKv? then sh' == sh else GivenBack(sh, sh', r.kv.warmSha, r.kv.warmLease, writes, drops)
  }

  // ---- Segments -------------------------------------------------------------------------------------

  ghost predicate StartMeans(sh: Shared, r: Request, c: Choice, sh': Shared, r': Request) {
    match c
    case ReturnEarly => sh' == sh && r'.pc == Done && r'.kv == r.kv
    case LookupFails => sh' == sh && r'.pc == Forwarding && r'.kv == r.kv
    case NoKvPath => sh' == sh && r'.pc == Forwarding && r'.kv == r.kv
    case Miss => sh' == sh && WentCold(r, r')
    case Hit(_, _) =>
      if HitTaken(sh, sh', r.sha, r.workload, c) then r'.pc == Restoring(r.sha, sh.nextLease) && r'.kv == r.kv
      else HitRefused(sh, sh', r.sha, r.workload, c) && WentCold(r, r')
    case _ => (sh', r') == (sh, r)
  }

  /** Lookup ends with nothing in context.kv; what it held stays held. */
  ghost predicate GivenUp(sh: Shared, sh': Shared, r': Request) {
    sh'.leases == sh.leases && sh'.nextLease == sh.nextLease && r'.pc == Forwarding && r'.kv == NoKv
  }

  ghost predicate RestoringMeans(sh: Shared, r: Request, hit: Sha, lease: LeaseId, c: Choice,
                                 sh': Shared, r': Request)
  {
    match c
    case RestoreThrows => GivenUp(sh, sh', r') && sh'.rows == sh.rows
    case Restored(_, _, _, _, replay) =>
      if RestoreRefused(sh, hit, c) || ReplayRefused(sh, hit, c) then
        HitAbandoned(sh, sh', hit, lease, c) && WentCold(r, r')
      else
        && sh'.rows == sh.rows[hit := Active]
        && if replay == ReplayThrows then GivenUp(sh, sh', r')
           else
             && sh'.leases == sh.leases && sh'.nextLease == sh.nextLease
             && r'.pc == Binding(hit, lease) && r'.kv == r.kv
    case _ => (sh', r') == (sh, r)
  }

  ghost predicate BindingMeans(sh: Shared, r: Request, hit: Sha, lease: LeaseId, c: Choice,
                               sh': Shared, r': Request)
  {
    if c.Returns? then sh' == sh && r'.pc == Forwarding && r'.kv == Kv(false, Some(hit), Some(lease))
    else if c.Throws? then GivenUp(sh, sh', r') && sh'.rows == sh.rows
    else (sh', r') == (sh, r)
  }

  ghost predicate SaveHandleMeans(sh: Shared, r: Request, c: Choice, sh': Shared, r': Request) {
    && sh' == sh
    && if c.Returns? then r'.pc == Forwarding && r'.kv == Kv(true, None, None)
       else if c.Throws? then r'.pc == Forwarding && r'.kv == r.kv
       else r' == r
  }

  /** The request ends; whatever a warm hit still holds is given back. */
  ghost predicate Ends(sh: Shared, r: Request, c: Choice, sh': Shared, r': Request) {
    (c.Returns? || c.Throws?) && r'.pc == Done && Released(sh, r, sh', r', c.writes, false)
  }

  ghost predicate ForwardingMeans(sh: Shared, r: Request, c: Choice, sh': Shared, r': Request) {
    if c.Throws? then Ends(sh, r, c, sh', r')
    else if c.Returns? then sh' == sh && r'.kv == r.kv && r'.pc == if r.kv == NoKv then Tail else Reading
    else (sh', r') == (sh, r)
  }

  /** A first token that differs drops the row of the hit; only a savable cold prompt goes on to be saved. */
  ghost predicate ReadingMeans(sh: Shared, r: Request, c: Choice, sh': Shared, r': Request) {
    match c
    case Throws(_) => sh' == sh && r'.pc == Tail && r'.kv == r.kv
    case ReadBody(mismatch, savable, writes, deletes) =>
      if r.kv.Kv? && r.kv.shouldPersist && savable then sh' == sh && r'.pc == Probing && r'.kv == r.kv
      else r'.pc == Tail && Released(sh, r, sh', r', writes, mismatch && deletes)
    case _ => (sh', r') == (sh, r)
  }

  ghost predicate ProbingMeans(sh: Shared, r: Request, c: Choice, sh': Shared, r': Request) {
    match c
    case Throws(_) => sh' == sh && r'.pc == Tail && r'.kv == r.kv
    case Supported(yes, _) =>
      if yes && !SlotInUse(sh, r.workload) then
        && sh' == Shared(sh.leases[sh.nextLease := r.workload], sh.nextLease + 1, sh.rows)
        && r'.pc == Saving(sh.nextLease) && r'.kv == r.kv
      else sh' == sh && r'.pc == Tail && r'.kv == r.kv
    case _ => (sh', r') == (sh, r)
  }

  /** Save and commit, or not, by returning or by throwing: the lease is gone and the row says whether it committed. */
  ghost predicate SavingMeans(sh: Shared, r: Request, lease: LeaseId, c: Choice, sh': Shared, r': Request) {
    if c.Saved? || c.SaveThrows? then
      && r'.pc == Tail && r'.kv == r.kv
      && sh'.leases == sh.leases - {lease} && sh'.nextLease == sh.nextLease
      && if c.commits then Committed(sh.rows, sh'.rows, r.sha, c.evicted) else sh'.rows == sh.rows
    else (sh', r') == (sh, r)
  }

  ghost predicate Means(sh: Shared, r: Request, c: Choice, sh': Shared, r': Request) {
    match r.pc
    case Start => StartMeans(sh, r, c, sh', r')
    case Restoring(hit, lease) => RestoringMeans(sh, r, hit, lease, c, sh', r')
    case Binding(hit, lease) => BindingMeans(sh, r, hit, lease, c, sh', r')
    case SaveHandle => SaveHandleMeans(sh, r, c, sh', r')
    case Forwarding => ForwardingMeans(sh, r, c, sh', r')
    case Reading => ReadingMeans(sh, r, c, sh', r')
    case Probing => ProbingMeans(sh, r, c, sh', r')
    case Saving(lease) => SavingMeans(sh, r, lease, c, sh', r')
    case Tail => if c.Returns? || c.Throws? then Ends(sh, r, c, sh', r') else (sh', r') == (sh, r)
    case Done => (sh', r') == (sh, r)
  }

  // ---- The protocol has these meanings -----------------------------------------------------------------

  lemma {:induction false} StartMeaning(sh: Shared, r: Request, c: Choice)
    ensures var (sh', r') := FromStart(sh, r, c);
            StartMeans(sh, r, c, sh', r')
  {}

  lemma {:induction false} AbandonLeaves(sh: Shared, hit: Sha, lease: LeaseId, writes: bool)
    ensures var released := Release(RegistryRelease(sh, hit, writes), lease);
            && released.leases == sh.leases - {lease} && released.nextLease == sh.nextLease
            && RowGivenUp(sh.rows, DeleteRows(released, {}).rows, hit, writes, false)
            && DeleteRows(released, {hit}).rows == sh.rows - {hit}
  {
    assert forall rows: map<Sha, RowState> :: rows - {} == rows;
  }

  lemma {:induction false} RestoringMeaning(sh: Shared, r: Request, hit: Sha, lease: LeaseId, c: Choice)
    ensures var (sh', r') := FromRestoring(sh, r, hit, lease, c);
            RestoringMeans(sh, r, hit, lease, c, sh', r')
  {
    hide Abandon, SameRoute;
    if c.Restored? {
      var sh1 := Activate(sh, hit, c.activateWrites).0;
      var idle := IdleRows(RegistryRelease(sh1, hit, c.releaseWrites));
      AbandonMeaning(sh1, r, hit, lease, c.releaseWrites, if c.ok || !c.dropWrites then {} else {hit});
      AbandonMeaning(sh1, r, hit, lease, c.releaseWrites, if c.dropWrites then {hit} * idle else {});
      ActiveRow(sh1, hit, c.releaseWrites);
    }
  }

  lemma ActiveRow(sh: Shared, hit: Sha, writes: bool)
    ensures hit in sh.rows && sh.rows[hit] == Active ==>
              {hit} * IdleRows(RegistryRelease(sh, hit, writes)) == if writes then {hit} else {}
  {}

  lemma {:induction false} AbandonMeaning(sh: Shared, r: Request, hit: Sha, lease: LeaseId, writes: bool,
                                          drop: set<Sha>)
    requires drop <= {hit}
    ensures var (sh', r') := Abandon(sh, r, hit, lease, writes, drop);
            && WentCold(r, r') && sh'.leases == sh.leases - {lease} && sh'.nextLease == sh.nextLease
            && if drop == {} then RowGivenUp(sh.rows, sh'.rows, hit, writes, false) else sh'.rows == sh.rows - {hit}
  {
    AbandonLeaves(sh, hit, lease, writes);
    assert drop == {} || drop == {hit};
  }

  lemma {:induction false} ReleaseMeaning(sh: Shared, r: Request, writes: bool)
    ensures var (sh', r') := ReleaseWarmHit(sh, r, writes);
            Released(sh, r, sh', r', writes, false) && r'.pc == r.pc
  {}

  lemma {:induction false} FalseHitMeaning(sh: Shared, r: Request, writes: bool, deletes: bool)
    requires Local(r)
    ensures var (sh', r') := FalseHit(sh, r, writes, deletes);
            Released(sh, r, sh', r', writes, deletes) && r'.pc == r.pc
  {}

  lemma {:induction false} ReleasedTwice(sh: Shared, r: Request, sh1: Shared, r1: Request, writes: bool, drops: bool)
    requires Released(sh, r, sh1, r1, writes, drops)
    ensures var (sh', r') := ReleaseWarmHit(sh1, r1, writes);
            Released(sh, r, sh', r', writes, drops)
  {}

  lemma {:induction false} ReadingMeaning(sh: Shared, r: Request, c: Choice)
    requires Local(r)
    ensures var (sh', r') := FromReading(sh, r, c);
            ReadingMeans(sh, r, c, sh', r')
  {
    hide ReleaseWarmHit, FalseHit;
    if c.ReadBody? {
      FalseHitMeaning(sh, r, c.releaseWrites, c.deleteWrites);
      ReleaseMeaning(sh, r, c.releaseWrites);
      var (sh1, r1) := FalseHit(sh, r, c.releaseWrites, c.deleteWrites);
      ReleasedTwice(sh, r, sh1, r1, c.releaseWrites, c.deleteWrites);
    }
  }

  lemma {:induction false} ProbingMeaning(sh: Shared, r: Request, c: Choice)
    requires Local(r) && r.pc.Probing?
    ensures var (sh', r') := FromProbing(sh, r, c);
            ProbingMeans(sh, r, c, sh', r')
  {}

  lemma {:induction false} SavingMeaning(sh: Shared, r: Request, lease: LeaseId, c: Choice)
    requires Local(r) && r.pc == Saving(lease)
    ensures var (sh', r') := FromSaving(sh, r, lease, c);
            SavingMeans(sh, r, lease, c, sh', r')
  {}

  /** Every segment does what its answers call for, to the rows, the open leases, context.kv and the place. */
  lemma {:induction false} AdvanceMeaning(sh: Shared, r: Request, c: Choice)
    requires Local(r)
    ensures var (sh', r') := Advance(sh, r, c);
            Means(sh, r, c, sh', r')
  {
    hide Local, FromStart, FromRestoring, FromReading, FromProbing, FromSaving, ReleaseWarmHit;
    hide StartMeans, RestoringMeans, ReadingMeans, ProbingMeans, SavingMeans;
    match r.pc
    case Start => StartMeaning(sh, r, c);
    case Restoring(hit, lease) => RestoringMeaning(sh, r, hit, lease, c);
    case Reading => ReadingMeaning(sh, r, c);
    case Probing => ProbingMeaning(sh, r, c);
    case Saving(lease) => SavingMeaning(sh, r, lease, c);
    case _ =>
      if c.Returns? || c.Throws? {
        ReleaseMeaning(sh, r, c.writes);
      }
  }

  // ---- Whole paths -----------------------------------------------------------------------------------

  lemma {:induction false} StepMeaning(s: System, e: Event)
    requires Invariant(s) && e.who in s.requests
    ensures var t := Step(s, e);
            && Invariant(t) && t.requests.Keys == s.requests.Keys
            && Means(s.shared, s.requests[e.who], e.choice, t.shared, t.requests[e.who])
            && SameRoute(s.requests[e.who], t.requests[e.who])
  {
    hide Invariant, Advance, Means, Local;
    StepKeepsInvariant(s, e);
    BooksOf(s, e.who);
    AdvanceMeaning(s.shared, s.requests[e.who], e.choice);
  }

  lemma BooksOf(s: System, i: RequestId)
    requires Invariant(s) && i in s.requests
    ensures Local(s.requests[i])
  {}

  lemma {:induction false} RunOn(s: System, e: Event, rest: seq<Event>)
    ensures Run(s, [e] + rest) == Run(Step(s, e), rest)
  {
    hide Step;
    assert ([e] + rest)[1..] == rest;
  }

  function SaveEvents(i: RequestId, evicted: set<Sha>, w: bool): seq<Event> {
    [Event(i, Returns(w)), Event(i, ReadBody(false, true, w, w)), Event(i, Supported(true, w)),
     Event(i, Saved(true, evicted, w))]
  }

  ghost predicate SavedAs(s: System, t: System, i: RequestId, evicted: set<Sha>)
    requires i in s.requests
  {
    && i in t.requests && t.requests[i].pc == Tail && t.shared.leases == s.shared.leases
    && Committed(s.shared.rows, t.shared.rows, s.requests[i].sha, evicted)
  }

  lemma {:induction false} LeaseIsNew(s: System)
    requires Invariant(s)
    ensures s.shared.nextLease !in s.shared.leases
  {
    hide Books, Disjoint, OnePerSlot, NoVainMark, Holds;
  }

  /** Upstream answers, the body is read, the support probe says yes, the slot is taken and the save commits. */
  lemma {:induction false} SaveRun(s: System, i: RequestId, evicted: set<Sha>, w: bool)
    requires Invariant(s) && i in s.requests && s.requests[i].pc == Forwarding
    requires s.requests[i].kv == Kv(true, None, None) && !SlotInUse(s.shared, s.requests[i].workload)
    ensures SavedAs(s, Run(s, SaveEvents(i, evicted, w)), i, evicted)
  {
    hide Invariant, Step, Committed, Released, Ends;
    var es := SaveEvents(i, evicted, w);
    LeaseIsNew(s);
    StepMeaning(s, es[0]);
    var s1 := Step(s, es[0]);
    StepMeaning(s1, es[1]);
    var s2 := Step(s1, es[1]);
    StepMeaning(s2, es[2]);
    var s3 := Step(s2, es[2]);
    StepMeaning(s3, es[3]);
    RunOfFour(s, es);
  }

  lemma NothingRun(s: System)
    ensures Run(s, []) == s
  {}

  lemma {:induction false} RunOfFour(s: System, es: seq<Event>)
    requires |es| == 4
    ensures Run(s, es) == Step(Step(Step(Step(s, es[0]), es[1]), es[2]), es[3])
  {
    hide Step, Run;
    RunOn(s, es[0], es[1..]);
    RunOn(Step(s, es[0]), es[1], es[2..]);
    RunOn(Step(Step(s, es[0]), es[1]), es[2], [es[3]]);
    RunOn(Step(Step(Step(s, es[0]), es[1]), es[2]), es[3], []);
    NothingRun(Step(Step(Step(Step(s, es[0]), es[1]), es[2]), es[3]));
    assert es == [es[0]] + es[1..] && es[1..] == [es[1]] + es[2..] && es[2..] == [es[2]] + [es[3]];
    assert [es[3]] == [es[3]] + [];
  }

  /**
   A prompt that misses is saved: once its body is read, the save is supported and the slot is free, its row
   is in the registry as idle, the slot is free again, and of the other rows only evicted idle ones are gone.
   */
  lemma {:induction false} ColdMissIsSaved(s: System, i: RequestId, evicted: set<Sha>, w: bool)
    requires Invariant(s) && i in s.requests && s.requests[i].pc == Start
    requires !SlotInUse(s.shared, s.requests[i].workload)
    ensures var r := s.requests[i];
            var bind := if r.omlx then [Event(i, Returns(w))] else [];
            var t := Run(s, [Event(i, Miss)] + (bind + SaveEvents(i, evicted, w)));
            && SavedAs(s, t, i, evicted)
            && (r.sha !in evicted ==> r.sha in t.shared.rows && t.shared.rows[r.sha] == Idle)
  {
    hide Invariant, Run, Step, Committed, SaveEvents, RestoringMeans, BindingMeans, ForwardingMeans, ReadingMeans;
    hide ProbingMeans, SavingMeans, Ends;
    var r := s.requests[i];
    var save := SaveEvents(i, evicted, w);
    var bind := if r.omlx then [Event(i, Returns(w))] else [];
    StepMeaning(s, Event(i, Miss));
    var t := Step(s, Event(i, Miss));
    RunOn(s, Event(i, Miss), bind + save);
    if r.omlx {
      StepMeaning(t, Event(i, Returns(w)));
      RunOn(t, Event(i, Returns(w)), save);
      SaveRun(Step(t, Event(i, Returns(w))), i, evicted, w);
    } else {
      assert bind + save == save;
      SaveRun(t, i, evicted, w);
    }
    var done := Run(s, [Event(i, Miss)] + (bind + save));
    assert SavedAs(s, done, i, evicted);
    if r.sha !in evicted {
      CommittedRow(s.shared.rows, done.shared.rows, r.sha, evicted);
    }
  }

  lemma CommittedRow(before: map<Sha, RowState>, after: map<Sha, RowState>, sha: Sha, evicted: set<Sha>)
    requires Committed(before, after, sha, evicted) && sha !in evicted
    ensures sha in after && after[sha] == Idle
  {}

  function HitEvents(i: RequestId, w: bool): seq<Event> {
    [Event(i, Hit(true, w)), Event(i, Restored(true, true, w, w, ReplayFine)), Event(i, Returns(w)),
     Event(i, Returns(w))]
  }

  lemma {:induction false} HitIsBound(s: System, i: RequestId, w: bool)
    requires Invariant(s) && i in s.requests && s.requests[i].pc == Start
    requires !SlotInUse(s.shared, s.requests[i].workload)
    requires s.requests[i].sha in s.shared.rows && s.shared.rows[s.requests[i].sha] == Idle
    ensures var (sha, bound) := (s.requests[i].sha, Run(s, HitEvents(i, w)));
            && Invariant(bound) && i in bound.requests && bound.requests[i].pc == Reading
            && bound.requests[i].kv == Kv(false, Some(sha), Some(s.shared.nextLease))
            && bound.shared.leases == s.shared.leases[s.shared.nextLease := s.requests[i].workload]
            && bound.shared.rows == s.shared.rows[sha := Active]
  {
    hide Invariant, Step, Committed, Ends, SavingMeans, ProbingMeans, ReadingMeans;
    var es := HitEvents(i, w);
    var (sh, sha) := (s.shared, s.requests[i].sha);
    StepMeaning(s, es[0]);
    var s1 := Step(s, es[0]);
    assert s1.shared.rows == sh.rows[sha := Reserved];
    StepMeaning(s1, es[1]);
    var s2 := Step(s1, es[1]);
    assert s2.requests[i].pc.Binding?;
    StepMeaning(s2, es[2]);
    var s3 := Step(s2, es[2]);
    StepMeaning(s3, es[3]);
    assert s2.shared.rows == sh.rows[sha := Active];
    RunOfFour(s, es);
  }

  /**
   A prompt whose row is idle and whose slot is free is served from it: bound with row and lease in hand, and
   then given back, the row to idle, or out of the registry when the first token differs from the recorded one.
   */
  lemma {:induction false} WarmHitIsServed(s: System, i: RequestId, mismatch: bool, savable: bool, w: bool)
    requires Invariant(s) && i in s.requests && s.requests[i].pc == Start
    requires !SlotInUse(s.shared, s.requests[i].workload)
    requires s.requests[i].sha in s.shared.rows && s.shared.rows[s.requests[i].sha] == Idle
    ensures var sha := s.requests[i].sha;
            var bound := Run(s, HitEvents(i, w));
            && i in bound.requests && bound.requests[i].kv == Kv(false, Some(sha), Some(s.shared.nextLease))
            && bound.shared.leases == s.shared.leases[s.shared.nextLease := s.requests[i].workload]
            && bound.shared.rows == s.shared.rows[sha := Active]
            && var t := Step(bound, Event(i, ReadBody(mismatch, savable, true, true)));
               && i in t.requests && t.requests[i].pc == Tail && t.requests[i].kv == Kv(false, None, None)
               && t.shared.leases == s.shared.leases
               && t.shared.rows == if mismatch then s.shared.rows - {sha} else s.shared.rows
  {
    hide Invariant, Run, Step, Committed, Ends, HitEvents;
    LeaseIsNew(s);
    HitIsBound(s, i, w);
    var sha, bound := s.requests[i].sha, Run(s, HitEvents(i, w));
    StepMeaning(bound, Event(i, ReadBody(mismatch, savable, true, true)));
    assert s.shared.rows[sha := Active][sha := Idle] == s.shared.rows;
    assert s.shared.rows[sha := Active] - {sha} == s.shared.rows - {sha};
  }
}
