/**
 The KV slot-lease protocol of the OpenAI proxy. Each workload has a one-slot allocator; requests
 interleave at their awaits. The atomic segments of a request are the steps of a state machine; what
 upstream, the slot client and the registry database answer is an arbitrary choice per step.
 */
module KvLease {
  import opened Prelude

  type Workload = string
  type Sha = string
  type LeaseId = nat
  type RequestId = nat

  // ---- Shared state: the slot allocators and the slot registry ---------------------------

  datatype RowState = Idle | Reserved | Active

  /** `leases` holds every lease acquired and not yet released, with its workload. */
  datatype Shared = Shared(leases: map<LeaseId, Workload>, nextLease: LeaseId, rows: map<Sha, RowState>)

  predicate Busy(sh: Shared, w: Workload) {
    exists id :: id in sh.leases && sh.leases[id] == w
  }

  /** SlotAllocator(1).acquire. */
  function Acquire(sh: Shared, w: Workload): (Shared, Option<LeaseId>) {
    if Busy(sh, w) then (sh, None)
    else (sh.(leases := sh.leases[sh.nextLease := w], nextLease := sh.nextLease + 1), Some(sh.nextLease))
  }

  /** lease.release: the first call frees the slot, later ones do nothing. */
  function Release(sh: Shared, id: LeaseId): Shared {
    sh.(leases := sh.leases - {id})
  }

  function Reserve(sh: Shared, sha: Sha, writes: bool): (Shared, bool) {
    if writes && sha in sh.rows && sh.rows[sha] == Idle then (sh.(rows := sh.rows[sha := Reserved]), true)
    else (sh, false)
  }

  function Activate(sh: Shared, sha: Sha, writes: bool): (Shared, bool) {
    if writes && sha in sh.rows && sh.rows[sha] == Reserved then (sh.(rows := sh.rows[sha := Active]), true)
    else (sh, false)
  }

  /** registry.release inside safeWrite: no effect when the database write fails. */
  function RegistryRelease(sh: Shared, sha: Sha, writes: bool): Shared {
    if writes && sha in sh.rows then sh.(rows := sh.rows[sha := Idle]) else sh
  }

  function DeleteRows(sh: Shared, shas: set<Sha>): Shared {
    sh.(rows := sh.rows - shas)
  }

  function IdleRows(sh: Shared): set<Sha> {
    set sha | sha in sh.rows && sh.rows[sha] == Idle
  }

  // ---- One request ---------------------------------------------------------------------------

  /** context.kv. */
  datatype Kv = NoKv | Kv(shouldPersist: bool, warmSha: Option<Sha>, warmLease: Option<LeaseId>)

  /** Where the request is suspended. */
  datatype Pc =
    | Start
    | Restoring(hit: Sha, lease: LeaseId)   // awaiting slotClient.restore
    | Binding(hit: Sha, lease: LeaseId)     // awaiting the restore-bind injection
    | SaveHandle                            // awaiting the save-handle injection of a cold miss
    | Forwarding                            // awaiting upstream
    | Reading                               // awaiting the response body
    | Probing                               // awaiting the save-handle support probe
    | Saving(saveLease: LeaseId)            // awaiting the slot save and maintenance
    | Tail                                  // awaiting translation and response caching
    | Done

  /** Calls made so far: successful acquires and reserves, and calls to the two kinds of release. */
  datatype Ledger = Ledger(acquires: nat, releases: nat, reserves: nat, registryReleases: nat)

  datatype Request = Request(
    workload: Workload,
    sha: Sha,
    omlx: bool,
    pc: Pc,
    kv: Kv,
    ledger: Ledger,
    orphan: Option<(LeaseId, Sha)>,  // held when a slot-client or replay call threw
    lost: set<Sha>,                  // rows whose registry release did not reach the database
    wasWarm: bool)

  datatype Replay = ReplayFine | ReplayMismatch | ReplayThrows

  /** What the outside world answers in one segment. */
  datatype Choice =
    | ReturnEarly
    | LookupFails
    | NoKvPath
    | Miss
    | Hit(reserveWrites: bool, releaseWrites: bool)  // the row of the request's own prefix hash
    | RestoreThrows
    | Restored(ok: bool, activateWrites: bool, releaseWrites: bool, dropWrites: bool, replay: Replay)
    | Returns(writes: bool)
    | Throws(writes: bool)
    | ReadBody(mismatch: bool, savable: bool, releaseWrites: bool, deleteWrites: bool)
    | Supported(yes: bool, writes: bool)
    | Saved(commits: bool, evicted: set<Sha>, writes: bool)
    | SaveThrows(commits: bool, evicted: set<Sha>, writes: bool)

  function Cold(): Kv {
    Kv(true, None, None)
  }

  /** The rest of maybeKvLookup after a miss or an abandoned hit. */
  function GoCold(r: Request): (r': Request)
    ensures SameRoute(r, r')
  {
    if r.omlx then r.(pc := SaveHandle) else r.(kv := Cold(), pc := Forwarding)
  }

  /** A request's workload, prefix hash and engine never change. */
  predicate SameRoute(r: Request, r': Request) {
    r'.workload == r.workload && r'.sha == r.sha && r'.omlx == r.omlx
  }

  function CallRegistryRelease(r: Request, sha: Sha, writes: bool): Request {
    r.(ledger := r.ledger.(registryReleases := r.ledger.registryReleases + 1),
       lost := if writes then r.lost else r.lost + {sha})
  }

  function CallRelease(r: Request): Request {
    r.(ledger := r.ledger.(releases := r.ledger.releases + 1))
  }

  /** releaseWarmHitLease: clear the warm-hit fields, then release whatever they held. */
  function ReleaseWarmHit(sh: Shared, r: Request, writes: bool): (out: (Shared, Request))
    ensures SameRoute(r, out.1)
  {
    if r.kv.NoKv? then (sh, r)
    else
      var sh1 := if r.kv.warmSha.Some? then RegistryRelease(sh, r.kv.warmSha.value, writes) else sh;
      var r1 := if r.kv.warmSha.Some? then CallRegistryRelease(r, r.kv.warmSha.value, writes) else r;
      var sh2 := if r.kv.warmLease.Some? then Release(sh1, r.kv.warmLease.value) else sh1;
      var r2 := if r.kv.warmLease.Some? then CallRelease(r1) else r1;
      (sh2, r2.(kv := r2.kv.(warmSha := None, warmLease := None)))
  }

  /** checkFalseHit, given that the first response token differs from the recorded one. */
  function FalseHit(sh: Shared, r: Request, writes: bool, deletes: bool): (out: (Shared, Request))
    ensures SameRoute(r, out.1)
  {
    if r.kv.NoKv? || r.kv.warmSha.None? then (sh, r)
    else
      var sha := r.kv.warmSha.value;
      var sh1 := RegistryRelease(sh, sha, writes);
      var sh2 := if writes && deletes then DeleteRows(sh1, {sha} * IdleRows(sh1)) else sh1;
      ReleaseWarmHit(sh2, CallRegistryRelease(r, sha, writes).(kv := r.kv.(warmSha := None)), writes)
  }

  /** Abandon a warm hit: release the reservation and the lease, drop the row when asked, and go cold. */
  function Abandon(sh: Shared, r: Request, hit: Sha, lease: LeaseId, writes: bool,
                   drop: set<Sha>): (out: (Shared, Request))
    ensures SameRoute(r, out.1)
  {
    var sh1 := Release(RegistryRelease(sh, hit, writes), lease);
    (DeleteRows(sh1, drop), GoCold(CallRelease(CallRegistryRelease(r, hit, writes))))
  }

  /** A call threw while the lease was held outside context.kv: the lookup is given up without releasing. */
  function Orphan(r: Request, lease: LeaseId, hit: Sha): Request {
    r.(pc := Forwarding, kv := NoKv, orphan := Some((lease, hit)))
  }

  function FromStart(sh: Shared, r: Request, c: Choice): (out: (Shared, Request))
    ensures SameRoute(r, out.1)
  {
    match c
    case ReturnEarly => (sh, r.(pc := Done))
    case LookupFails => (sh, r.(pc := Forwarding))
    case NoKvPath => (sh, r.(pc := Forwarding))
    case Miss => (sh, GoCold(r))
    case Hit(reserveWrites, releaseWrites) =>
      var hit := r.sha;
      var (sh1, reserved) := Reserve(sh, hit, reserveWrites);
      if !reserved then (sh1, GoCold(r))
      else
        var r1 := r.(ledger := r.ledger.(reserves := r.ledger.reserves + 1));
        var (sh2, lease) := Acquire(sh1, r.workload);
        if lease.None? then
          (RegistryRelease(sh2, hit, releaseWrites), GoCold(CallRegistryRelease(r1, hit, releaseWrites)))
        else (sh2, r1.(pc := Restoring(hit, lease.value), ledger := r1.ledger.(acquires := r1.ledger.acquires + 1)))
    case _ => (sh, r)
  }

  function FromRestoring(sh: Shared, r: Request, hit: Sha, lease: LeaseId, c: Choice): (out: (Shared, Request))
    ensures SameRoute(r, out.1)
  {
    match c
    case RestoreThrows => (sh, Orphan(r, lease, hit))
    case Restored(ok, activateWrites, releaseWrites, dropWrites, replay) =>
      var (sh1, activated) := Activate(sh, hit, activateWrites);
      if !(activated && ok) then Abandon(sh1, r, hit, lease, releaseWrites, if ok || !dropWrites then {} else {hit})
      else
        (match replay
         case ReplayThrows => (sh1, Orphan(r, lease, hit))
         case ReplayMismatch => Abandon(sh1, r, hit, lease, releaseWrites,
                                         if dropWrites then {hit} * IdleRows(RegistryRelease(sh1, hit, releaseWrites))
                                            else {})
         case ReplayFine => (sh1, r.(pc := Binding(hit, lease))))
    case _ => (sh, r)
  }

  /** The finally block of maybePersistKv, then on to translation. */
  function EndPersist(sh: Shared, r: Request, writes: bool): (out: (Shared, Request))
    ensures SameRoute(r, out.1)
  {
    var (sh1, r1) := ReleaseWarmHit(sh, r, writes);
    (sh1, r1.(pc := Tail))
  }

  function FromReading(sh: Shared, r: Request, c: Choice): (out: (Shared, Request))
    ensures SameRoute(r, out.1)
  {
    match c
    case Throws(_) => (sh, r.(pc := Tail))
    case ReadBody(mismatch, savable, writes, deletes) =>
      var (sh1, r1) := if mismatch then FalseHit(sh, r, writes, deletes) else (sh, r);
      if r1.kv.NoKv? || !r1.kv.shouldPersist || !savable then EndPersist(sh1, r1, writes) else (sh1, r1.(pc := Probing))
    case _ => (sh, r)
  }

  function FromProbing(sh: Shared, r: Request, c: Choice): (out: (Shared, Request))
    ensures SameRoute(r, out.1)
  {
    match c
    case Throws(writes) => EndPersist(sh, r, writes)
    case Supported(yes, writes) =>
      if !yes then EndPersist(sh, r, writes)
      else
        var (sh1, lease) := Acquire(sh, r.workload);
        if lease.None? then EndPersist(sh1, r, writes)
        else (sh1, r.(pc := Saving(lease.value), ledger := r.ledger.(acquires := r.ledger.acquires + 1)))
    case _ => (sh, r)
  }

  /** Commit the row as idle, then evict idle rows; nothing when the save or the commit failed. */
  function SaveRows(sh: Shared, sha: Sha, commits: bool, evicted: set<Sha>): Shared {
    if !commits then sh
    else
      var sh1 := sh.(rows := sh.rows[sha := Idle]);
      DeleteRows(sh1, evicted * IdleRows(sh1))
  }

  /** The save may fail, commit, or throw before or after the commit; the lease is released either way. */
  function FromSaving(sh: Shared, r: Request, lease: LeaseId, c: Choice): (out: (Shared, Request))
    ensures SameRoute(r, out.1)
  {
    match c
    case SaveThrows(commits, evicted, writes) =>
      EndPersist(Release(SaveRows(sh, r.sha, commits, evicted), lease), CallRelease(r), writes)
    case Saved(commits, evicted, writes) =>
      EndPersist(Release(SaveRows(sh, r.sha, commits, evicted), lease), CallRelease(r), writes)
    case _ => (sh, r)
  }

  /** One atomic segment of a request; a choice that does not fit the suspension point does nothing. */
  function Advance(sh: Shared, r: Request, c: Choice): (out: (Shared, Request))
    ensures SameRoute(r, out.1)
  {
    match r.pc
    case Start => FromStart(sh, r, c)
    case Restoring(hit, lease) => FromRestoring(sh, r, hit, lease, c)
    case Binding(hit, lease) =>
      (match c
       case Throws(_) => (sh, Orphan(r, lease, hit))
       case Returns(_) => (sh, r.(pc := Forwarding, kv := Kv(false, Some(hit), Some(lease)), wasWarm := true))
       case _ => (sh, r))
    case SaveHandle =>
      (match c
       case Throws(_) => (sh, r.(pc := Forwarding))
       case Returns(_) => (sh, r.(pc := Forwarding, kv := Cold()))
       case _ => (sh, r))
    case Forwarding =>
      (match c
       case Throws(writes) => var (sh1, r1) := ReleaseWarmHit(sh, r, writes); (sh1, r1.(pc := Done))
       case Returns(_) => (sh, r.(pc := if r.kv.NoKv? then Tail else Reading))
       case _ => (sh, r))
    case Reading => FromReading(sh, r, c)
    case Probing => FromProbing(sh, r, c)
    case Saving(lease) => FromSaving(sh, r, lease, c)
    case Tail =>
      (match c
       case Returns(writes) => var (sh1, r1) := ReleaseWarmHit(sh, r, writes); (sh1, r1.(pc := Done))
       case Throws(writes) => var (sh1, r1) := ReleaseWarmHit(sh, r, writes); (sh1, r1.(pc := Done))
       case _ => (sh, r))
    case Done => (sh, r)
  }

  // ---- What a request holds --------------------------------------------------------------------

  ghost function HeldLeases(r: Request): set<LeaseId> {
    (match r.pc
     case Restoring(_, lease) => {lease}
     case Binding(_, lease) => {lease}
     case Saving(lease) => {lease}
     case _ => {})
    + (if r.kv.Kv? && r.kv.warmLease.Some? then {r.kv.warmLease.value} else {})
    + (if r.orphan.Some? then {r.orphan.value.0} else {})
  }

  ghost function HeldShas(r: Request): set<Sha> {
    (match r.pc
     case Restoring(hit, _) => {hit}
     case Binding(hit, _) => {hit}
     case _ => {})
    + (if r.kv.Kv? && r.kv.warmSha.Some? then {r.kv.warmSha.value} else {})
    + (if r.orphan.Some? then {r.orphan.value.1} else {})
  }

  /** A request holds at most one lease at a time and its ledger accounts for exactly what it holds. */
  ghost predicate Local(r: Request) {
    && r.ledger.acquires == r.ledger.releases + |HeldLeases(r)|
    && r.ledger.reserves == r.ledger.registryReleases + |HeldShas(r)|
    && (r.pc.Start? || r.pc.Restoring? || r.pc.Binding? || r.pc.SaveHandle? ==> r.kv.NoKv? && r.orphan.None?)
    && (r.orphan.Some? ==> r.kv.NoKv? && !r.wasWarm)
    && (r.kv.Kv? ==> (r.kv.warmSha.Some? <==> r.kv.warmLease.Some?) && (r.kv.shouldPersist ==> r.kv.warmSha.None?))
    && (r.pc.Reading? || r.pc.Probing? || r.pc.Saving? ==> r.kv.Kv?)
    && (r.pc.Probing? || r.pc.Saving? ==> r.kv.shouldPersist)
    && (r.pc.Done? && r.kv.Kv? ==> r.kv.warmSha.None?)
    && (r.wasWarm ==> r.ledger.acquires == 1 && r.ledger.reserves == 1 && r.kv.Kv? && !r.kv.shouldPersist)
    && (!r.wasWarm && r.kv.Kv? ==> r.kv.warmSha.None?)
    && (r.pc.Start? ==> r.ledger == Ledger(0, 0, 0, 0) && !r.wasWarm)
    && (r.pc.Restoring? || r.pc.Binding? ==> r.ledger.acquires == 1 && r.ledger.reserves == 1 && !r.wasWarm)
    && (r.pc.SaveHandle? ==> !r.wasWarm)
  }

  /** What one segment may do to the shared state, given what the request held before and holds after. */
  ghost predicate Accounted(sh: Shared, r: Request, sh': Shared, r': Request) {
    && r'.workload == r.workload && r.lost <= r'.lost
    && sh.nextLease <= sh'.nextLease
    && (forall id :: id in sh'.leases <==> (id in sh.leases && id !in HeldLeases(r)) || id in HeldLeases(r'))
    && (forall id :: id in sh'.leases && id in sh.leases ==> sh'.leases[id] == sh.leases[id])
    && (forall id :: id in HeldLeases(r') && id !in HeldLeases(r) ==>
          id == sh.nextLease < sh'.nextLease && sh'.leases[id] == r.workload && !Busy(sh, r.workload))
    && (forall sha :: sha in sh'.rows && sh'.rows[sha] != Idle ==>
          sha in HeldShas(r') + r'.lost || (sha in sh.rows && sh.rows[sha] != Idle && sha !in HeldShas(r) + r.lost))
  }

  /** The request's own leases are in the table, under its workload. */
  ghost predicate OwnLeases(sh: Shared, r: Request) {
    && (forall id :: id in HeldLeases(r) ==> id in sh.leases && sh.leases[id] == r.workload)
    && (forall id :: id in sh.leases ==> id < sh.nextLease)
  }

  lemma NothingHappens(sh: Shared, r: Request, r': Request)
    requires OwnLeases(sh, r) && r'.workload == r.workload && r'.lost == r.lost
    requires HeldLeases(r') == HeldLeases(r) && HeldShas(r') == HeldShas(r)
    ensures Accounted(sh, r, sh, r')
  {}

  lemma ReleaseWarmHitIsAccounted(sh: Shared, r: Request, writes: bool)
    requires Local(r) && OwnLeases(sh, r) && (r.pc.Reading? || r.pc.Probing? || r.pc.Forwarding? || r.pc.Tail?)
    ensures var (sh', r') := ReleaseWarmHit(sh, r, writes);
            && Local(r') && Accounted(sh, r, sh', r') && OwnLeases(sh', r')
            && r'.pc == r.pc && (r'.kv.Kv? ==> r'.kv.warmSha.None? && r'.kv.warmLease.None?)
            && r'.kv.Kv? == r.kv.Kv?
  {}

  lemma FalseHitIsAccounted(sh: Shared, r: Request, writes: bool, deletes: bool)
    requires Local(r) && OwnLeases(sh, r) && r.pc.Reading?
    ensures var (sh', r') := FalseHit(sh, r, writes, deletes);
            && Local(r') && Accounted(sh, r, sh', r') && OwnLeases(sh', r')
            && r'.pc == r.pc && r'.kv.Kv? && r'.kv.shouldPersist == r.kv.shouldPersist
            && HeldLeases(r') <= HeldLeases(r)
  {}

  lemma {:induction false} AbandonIsAccounted(sh: Shared, r: Request, hit: Sha, lease: LeaseId, writes: bool,
                                              drop: set<Sha>)
    requires Local(r) && OwnLeases(sh, r) && (r.pc == Restoring(hit, lease) || r.pc == Binding(hit, lease))
    ensures var (sh', r') := Abandon(sh, r, hit, lease, writes, drop);
            Local(r') && Accounted(sh, r, sh', r')
  {
    hide Local, HeldLeases, HeldShas, GoCold;
    StillHolding(r, hit, lease);
    AbandonedIsLocal(r, hit, lease, writes);
  }

  lemma AbandonedIsLocal(r: Request, hit: Sha, lease: LeaseId, writes: bool)
    requires Local(r) && (r.pc == Restoring(hit, lease) || r.pc == Binding(hit, lease))
    ensures var a := GoCold(CallRelease(CallRegistryRelease(r, hit, writes)));
            && Local(a) && HeldLeases(a) == {} && HeldShas(a) == {}
            && a.lost == if writes then r.lost else r.lost + {hit}
  {}

  /** The synchronous part of a hit: reserve, acquire, or undo the reservation when no slot is free. */
  lemma {:induction false} HitIsAccounted(sh: Shared, r: Request, reserveWrites: bool, releaseWrites: bool)
    requires Local(r) && OwnLeases(sh, r) && r.pc.Start?
    ensures var (sh', r') := FromStart(sh, r, Hit(reserveWrites, releaseWrites));
            Local(r') && Accounted(sh, r, sh', r')
  {
    hide Accounted, OwnLeases, HeldLeases, HeldShas, RegistryRelease;
    var hit := r.sha;
    var (sh1, reserved) := Reserve(sh, hit, reserveWrites);
    if !reserved {
      ColdIsLocal(r);
      NothingHappens(sh, r, GoCold(r));
    } else if Busy(sh1, r.workload) {
      assert sh.leases == sh1.leases;
      ReservedAndUndone(sh, r, hit, releaseWrites);
    } else {
      assert sh.leases == sh1.leases;
      ReservedAndAcquired(sh, r, hit);
    }
  }

  lemma ColdIsLocal(r: Request)
    requires Local(r) && r.pc.Start?
    ensures Local(GoCold(r)) && HeldLeases(GoCold(r)) == HeldLeases(r) == {} && HeldShas(GoCold(r)) == HeldShas(r) == {}
  {}

  lemma PassingIsLocal(r: Request)
    requires Local(r) && r.pc.Start?
    ensures var d, f := r.(pc := Done), r.(pc := Forwarding);
            Local(d) && Local(f) && HeldLeases(d) == HeldLeases(f) == HeldLeases(r) &&
              HeldShas(d) == HeldShas(f) == HeldShas(r)
  {}

  lemma {:induction false} ReservedAndUndone(sh: Shared, r: Request, hit: Sha, writes: bool)
    requires Local(r) && OwnLeases(sh, r) && r.pc.Start? && hit in sh.rows && sh.rows[hit] == Idle
    ensures var r1 := r.(ledger := r.ledger.(reserves := r.ledger.reserves + 1));
            var r' := GoCold(CallRegistryRelease(r1, hit, writes));
            Local(r') && Accounted(sh, r, RegistryRelease(sh.(rows := sh.rows[hit := Reserved]), hit, writes), r')
  {
    assert HeldLeases(r) == {} && HeldShas(r) == {};
  }

  lemma {:induction false} ReservedAndAcquired(sh: Shared, r: Request, hit: Sha)
    requires Local(r) && OwnLeases(sh, r) && r.pc.Start? && !Busy(sh, r.workload)
    ensures var id := sh.nextLease;
            var sh' := Shared(sh.leases[id := r.workload], id + 1, sh.rows[hit := Reserved]);
            var r' := r.(pc := Restoring(hit, id), ledger := Ledger(1, 0, 1, 0));
            Local(r') && Accounted(sh, r, sh', r')
  {
    hide Busy;
    var r' := r.(pc := Restoring(hit, sh.nextLease), ledger := Ledger(1, 0, 1, 0));
    assert HeldLeases(r) == {} && HeldShas(r) == {};
    assert HeldLeases(r') == {sh.nextLease} && HeldShas(r') == {hit};
  }

  lemma {:induction false} StartIsAccounted(sh: Shared, r: Request, c: Choice)
    requires Local(r) && OwnLeases(sh, r) && r.pc.Start?
    ensures var (sh', r') := FromStart(sh, r, c);
            Local(r') && Accounted(sh, r, sh', r')
  {
    hide Local, Accounted, OwnLeases, HeldLeases, HeldShas, Busy;
    if c.Hit? {
      HitIsAccounted(sh, r, c.reserveWrites, c.releaseWrites);
    } else {
      ColdIsLocal(r);
      PassingIsLocal(r);
      NothingHappens(sh, r, FromStart(sh, r, c).1);
    }
  }

  /** Activating a row this request has reserved changes nothing for anyone else. */
  lemma ActivateIsHarmless(sh: Shared, r: Request, hit: Sha, writes: bool)
    requires OwnLeases(sh, r) && hit in HeldShas(r)
    ensures var (sh1, activated) := Activate(sh, hit, writes);
            && sh1.leases == sh.leases && sh1.nextLease == sh.nextLease && OwnLeases(sh1, r)
            && (forall sha :: sha in sh1.rows && sh1.rows[sha] != Idle ==> sha in sh.rows && sh.rows[sha] != Idle)
  {}

  /** A change of rows that frees nothing new can be followed by any accounted step. */
  lemma AccountedAfter(sh: Shared, sh1: Shared, r: Request, sh': Shared, r': Request)
    requires Accounted(sh1, r, sh', r') && sh1.leases == sh.leases && sh1.nextLease == sh.nextLease
    requires forall sha :: sha in sh1.rows && sh1.rows[sha] != Idle ==> sha in sh.rows && sh.rows[sha] != Idle
    ensures Accounted(sh, r, sh', r')
  {}

  /** Giving up on a throw, or moving on to the binding, keeps holding the same lease and reservation. */
  lemma StillHolding(r: Request, hit: Sha, lease: LeaseId)
    requires Local(r) && (r.pc == Restoring(hit, lease) || r.pc == Binding(hit, lease))
    ensures HeldLeases(r) == {lease} && HeldShas(r) == {hit}
    ensures var o := Orphan(r, lease, hit);
            Local(o) && HeldLeases(o) == {lease} && HeldShas(o) == {hit} && o.workload == r.workload && o.lost == r.lost
    ensures var b := r.(pc := Binding(hit, lease));
            Local(b) && HeldLeases(b) == {lease} && HeldShas(b) == {hit}
    ensures var w := r.(pc := Forwarding, kv := Kv(false, Some(hit), Some(lease)), wasWarm := true);
            Local(w) && HeldLeases(w) == {lease} && HeldShas(w) == {hit}
  {}

  lemma {:induction false} RestoringIsAccounted(sh: Shared, r: Request, hit: Sha, lease: LeaseId, c: Choice)
    requires Local(r) && OwnLeases(sh, r) && r.pc == Restoring(hit, lease)
    ensures var (sh', r') := FromRestoring(sh, r, hit, lease, c);
            Local(r') && Accounted(sh, r, sh', r')
  {
    hide Accounted, Abandon, Activate, RegistryRelease, OwnLeases, Local, HeldLeases, HeldShas, Orphan;
    StillHolding(r, hit, lease);
    var (sh', r') := FromRestoring(sh, r, hit, lease, c);
    match c
    case RestoreThrows =>
      NothingHappens(sh, r, r');
    case Restored(ok, activateWrites, releaseWrites, dropWrites, replay) =>
      ActivateIsHarmless(sh, r, hit, activateWrites);
      var (sh1, activated) := Activate(sh, hit, activateWrites);
      if !(activated && ok) {
        AbandonIsAccounted(sh1, r, hit, lease, releaseWrites, if ok || !dropWrites then {} else {hit});
      } else {
        match replay
        case ReplayMismatch =>
          var drop := if dropWrites then {hit} * IdleRows(RegistryRelease(sh1, hit, releaseWrites)) else {};
          AbandonIsAccounted(sh1, r, hit, lease, releaseWrites, drop);
        case _ =>
          NothingHappens(sh1, r, r');
      }
      AccountedAfter(sh, sh1, r, sh', r');
    case _ =>
      NothingHappens(sh, r, r');
  }

  lemma AccountedTwice(sh: Shared, r: Request, sh1: Shared, r1: Request, sh2: Shared, r2: Request)
    requires Accounted(sh, r, sh1, r1) && Accounted(sh1, r1, sh2, r2) && OwnLeases(sh, r)
    requires HeldLeases(r2) <= HeldLeases(r1) <= HeldLeases(r)
    ensures Accounted(sh, r, sh2, r2)
  {}

  /** The finally block: whatever a persisting request held from a warm hit is given back on the way to the tail. */
  lemma {:induction false} EndPersistIsAccounted(sh: Shared, r: Request, writes: bool)
    requires Local(r) && OwnLeases(sh, r) && (r.pc.Reading? || r.pc.Probing?)
    ensures var (sh', r') := EndPersist(sh, r, writes);
            Local(r') && Accounted(sh, r, sh', r') && HeldLeases(r') == {}
  {
    hide Accounted, OwnLeases, ReleaseWarmHit;
    ReleaseWarmHitIsAccounted(sh, r, writes);
    var (sh1, r1) := ReleaseWarmHit(sh, r, writes);
    SameHoldings(sh, r, sh1, r1, r1.(pc := Tail));
  }

  lemma ToProbing(r: Request)
    requires Local(r) && r.pc.Reading? && r.kv.shouldPersist
    ensures var r' := r.(pc := Probing);
            Local(r') && HeldLeases(r') == HeldLeases(r) && HeldShas(r') == HeldShas(r)
  {}

  lemma ReadingHasKv(r: Request)
    requires Local(r) && r.pc.Reading?
    ensures r.kv.Kv? && Local(r.(pc := Tail)) && HeldLeases(r.(pc := Tail)) == HeldLeases(r) &&
            HeldShas(r.(pc := Tail)) == HeldShas(r)
  {}

  /** What follows the false-hit check: leave through the finally block, or go on to probe. */
  lemma {:induction false} ReadIsAccounted(sh: Shared, r: Request, savable: bool, writes: bool)
    requires Local(r) && OwnLeases(sh, r) && r.pc.Reading?
    ensures var leaves := r.kv.NoKv? || !r.kv.shouldPersist || !savable;
            var (sh', r') := if leaves then EndPersist(sh, r, writes) else (sh, r.(pc := Probing));
            Local(r') && Accounted(sh, r, sh', r') && HeldLeases(r') <= HeldLeases(r)
  {
    hide Accounted, EndPersist, Local, HeldLeases, HeldShas, OwnLeases;
    ReadingHasKv(r);
    if !r.kv.shouldPersist || !savable {
      EndPersistIsAccounted(sh, r, writes);
    } else {
      ToProbing(r);
      NothingHappens(sh, r, r.(pc := Probing));
    }
  }

  lemma {:induction false} ReadingIsAccounted(sh: Shared, r: Request, c: Choice)
    requires Local(r) && OwnLeases(sh, r) && r.pc.Reading?
    ensures var (sh', r') := FromReading(sh, r, c);
            Local(r') && Accounted(sh, r, sh', r')
  {
    hide Accounted, EndPersist, FalseHit, Local, HeldLeases, HeldShas, OwnLeases;
    var (sh', r') := FromReading(sh, r, c);
    match c
    case Throws(_) =>
      ReadingHasKv(r);
      NothingHappens(sh, r, r');
    case ReadBody(mismatch, savable, writes, deletes) =>
      if mismatch {
        FalseHitIsAccounted(sh, r, writes, deletes);
        var (sh1, r1) := FalseHit(sh, r, writes, deletes);
        ReadIsAccounted(sh1, r1, savable, writes);
        AccountedTwice(sh, r, sh1, r1, sh', r');
      } else {
        ReadIsAccounted(sh, r, savable, writes);
      }
    case _ =>
      NothingHappens(sh, r, r');
  }

  /** The allocator hands a persisting request a second kind of lease; it holds nothing else by then. */
  lemma {:induction false} PersistAcquired(sh: Shared, r: Request)
    requires Local(r) && OwnLeases(sh, r) && r.pc.Probing? && !Busy(sh, r.workload)
    ensures var id := sh.nextLease;
            var sh' := Shared(sh.leases[id := r.workload], id + 1, sh.rows);
            var r' := r.(pc := Saving(id), ledger := r.ledger.(acquires := r.ledger.acquires + 1));
            Local(r') && Accounted(sh, r, sh', r')
  {
    hide Busy;
    var r' := r.(pc := Saving(sh.nextLease), ledger := r.ledger.(acquires := r.ledger.acquires + 1));
    assert HeldLeases(r) == {} && HeldShas(r) == {};
    assert HeldLeases(r') == {sh.nextLease} && HeldShas(r') == {};
  }

  lemma {:induction false} ProbingIsAccounted(sh: Shared, r: Request, c: Choice)
    requires Local(r) && OwnLeases(sh, r) && r.pc.Probing?
    ensures var (sh', r') := FromProbing(sh, r, c);
            Local(r') && Accounted(sh, r, sh', r')
  {
    hide EndPersist, Local, Accounted, OwnLeases, HeldLeases, HeldShas, Busy;
    match c
    case Throws(writes) => EndPersistIsAccounted(sh, r, writes);
    case Supported(yes, writes) =>
      if yes && !Busy(sh, r.workload) {
        PersistAcquired(sh, r);
      } else {
        EndPersistIsAccounted(sh, r, writes);
      }
    case _ => NothingHappens(sh, r, r);
  }

  /** The persist lease goes first, in its own finally block. */
  lemma {:induction false} SaveLeaseReleased(sh: Shared, rows: map<Sha, RowState>, r: Request, lease: LeaseId)
    requires Local(r) && OwnLeases(sh, r) && r.pc == Saving(lease)
    requires forall sha :: sha in rows && rows[sha] != Idle ==> sha in sh.rows && sh.rows[sha] != Idle
    ensures var sh1 := Release(sh.(rows := rows), lease);
            var r1 := CallRelease(r).(pc := Tail);
            Local(r1) && Accounted(sh, r, sh1, r1) && HeldLeases(r) == {lease} && HeldLeases(r1) == {}
  {
    assert HeldLeases(r) == {lease} && HeldShas(r) == {};
  }

  lemma {:induction false} SavingIsAccounted(sh: Shared, r: Request, lease: LeaseId, c: Choice)
    requires Local(r) && OwnLeases(sh, r) && r.pc == Saving(lease)
    ensures var (sh', r') := FromSaving(sh, r, lease, c);
            Local(r') && Accounted(sh, r, sh', r')
  {
    hide Accounted, HeldLeases, HeldShas, OwnLeases;
    match c
    case SaveThrows(commits, evicted, writes) =>
      SaveLeaseReleased(sh, SaveRows(sh, r.sha, commits, evicted).rows, r, lease);
    case Saved(commits, evicted, writes) => SaveLeaseReleased(sh, SaveRows(sh, r.sha, commits, evicted).rows, r, lease);
    case _ => NothingHappens(sh, r, r);
  }

  lemma {:induction false} BindingIsAccounted(sh: Shared, r: Request, hit: Sha, lease: LeaseId, c: Choice)
    requires Local(r) && OwnLeases(sh, r) && r.pc == Binding(hit, lease)
    ensures var (sh', r') := Advance(sh, r, c);
            Local(r') && Accounted(sh, r, sh', r')
  {
    hide Accounted, OwnLeases, Local, HeldLeases, HeldShas, Orphan;
    StillHolding(r, hit, lease);
    NothingHappens(sh, r, Advance(sh, r, c).1);
  }

  /** Moving on without touching what the request holds. */
  lemma SaveHandleMoves(r: Request)
    requires Local(r) && r.pc.SaveHandle?
    ensures HeldLeases(r) == {} && HeldShas(r) == {}
    ensures var f := r.(pc := Forwarding); Local(f) && HeldLeases(f) == {} && HeldShas(f) == {}
    ensures var f := r.(pc := Forwarding, kv := Cold()); Local(f) && HeldLeases(f) == {} && HeldShas(f) == {}
  {}

  lemma {:induction false} ForwardingMoves(r: Request)
    requires Local(r) && r.pc.Forwarding?
    ensures var f := r.(pc := if r.kv.NoKv? then Tail else Reading);
            Local(f) && HeldLeases(f) == HeldLeases(r) && HeldShas(f) == HeldShas(r)
  {
    var f := r.(pc := if r.kv.NoKv? then Tail else Reading);
    assert HeldLeases(f) == HeldLeases(r) && HeldShas(f) == HeldShas(r);
  }

  lemma {:induction false} PlainIsAccounted(sh: Shared, r: Request, c: Choice)
    requires Local(r) && OwnLeases(sh, r) && (r.pc.SaveHandle? || r.pc.Forwarding? || r.pc.Tail? || r.pc.Done?)
    ensures var (sh', r') := Advance(sh, r, c);
            Local(r') && Accounted(sh, r, sh', r')
  {
    hide Accounted, OwnLeases, ReleaseWarmHit, Local, HeldLeases, HeldShas;
    if (r.pc.Forwarding? && c.Throws?) || (r.pc.Tail? && (c.Throws? || c.Returns?)) {
      ReleasedThenDone(sh, r, c.writes);
    } else {
      if r.pc.SaveHandle? {
        SaveHandleMoves(r);
      } else if r.pc.Forwarding? {
        ForwardingMoves(r);
      }
      NothingHappens(sh, r, Advance(sh, r, c).1);
    }
  }

  lemma {:induction false} ReleasedThenDone(sh: Shared, r: Request, writes: bool)
    requires Local(r) && OwnLeases(sh, r) && (r.pc.Forwarding? || r.pc.Tail?)
    ensures var (sh', r1) := ReleaseWarmHit(sh, r, writes);
            Local(r1.(pc := Done)) && Accounted(sh, r, sh', r1.(pc := Done))
  {
    hide Accounted, OwnLeases, ReleaseWarmHit, Local, HeldLeases, HeldShas;
    ReleaseWarmHitIsAccounted(sh, r, writes);
    var (sh', r1) := ReleaseWarmHit(sh, r, writes);
    ReleasedIsDone(r1);
    SameHoldings(sh, r, sh', r1, r1.(pc := Done));
  }

  lemma ReleasedIsDone(r: Request)
    requires Local(r) && (r.pc.Forwarding? || r.pc.Tail?)
    requires r.kv.Kv? ==> r.kv.warmSha.None? && r.kv.warmLease.None?
    ensures var d := r.(pc := Done);
            Local(d) && HeldLeases(d) == HeldLeases(r) && HeldShas(d) == HeldShas(r)
  {}

  lemma {:induction false} SameHoldings(sh: Shared, r: Request, sh': Shared, r1: Request, r2: Request)
    requires Accounted(sh, r, sh', r1) && r2.workload == r1.workload && r2.lost == r1.lost
    requires HeldLeases(r2) == HeldLeases(r1) && HeldShas(r2) == HeldShas(r1)
    ensures Accounted(sh, r, sh', r2)
  {
    hide HeldLeases, HeldShas;
  }

  /** Every segment keeps the request's books and touches only what the request holds. */
  lemma {:induction false} AdvanceIsAccounted(sh: Shared, r: Request, c: Choice)
    requires Local(r) && OwnLeases(sh, r)
    ensures var (sh', r') := Advance(sh, r, c);
            Local(r') && Accounted(sh, r, sh', r')
  {
    hide Accounted, Local, OwnLeases, FromStart, FromRestoring, FromReading, FromProbing, FromSaving;
    match r.pc
    case Start => StartIsAccounted(sh, r, c);
    case Restoring(hit, lease) => RestoringIsAccounted(sh, r, hit, lease, c);
    case Reading => ReadingIsAccounted(sh, r, c);
    case Probing => ProbingIsAccounted(sh, r, c);
    case Saving(lease) => SavingIsAccounted(sh, r, lease, c);
    case Binding(hit, lease) => BindingIsAccounted(sh, r, hit, lease, c);
    case _ => PlainIsAccounted(sh, r, c);
  }

  // ---- All requests together -----------------------------------------------------------------------

  datatype System = System(shared: Shared, requests: map<RequestId, Request>)

  datatype Event = Event(who: RequestId, choice: Choice)

  function Step(s: System, e: Event): System {
    if e.who !in s.requests then s
    else
      var (shared, r) := Advance(s.shared, s.requests[e.who], e.choice);
      System(shared, s.requests[e.who := r])
  }

  function Run(s: System, events: seq<Event>): (t: System)
    ensures t.requests.Keys == s.requests.Keys
    decreases |events|
  {
    if events == [] then s else Run(Step(s, events[0]), events[1..])
  }

  lemma {:induction false} RunOneMore(s: System, events: seq<Event>, e: Event)
    ensures Run(s, events + [e]) == Step(Run(s, events), e)
    decreases |events|
  {
    hide Step;
    if events == [] {
      assert [] + [e] == [e] && [e][1..] == [];
    } else {
      assert (events + [e])[0] == events[0] && (events + [e])[1..] == events[1..] + [e];
      RunOneMore(Step(s, events[0]), events[1..], e);
    }
  }

  ghost predicate Books(sh: Shared, requests: map<RequestId, Request>) {
    forall i :: i in requests ==> Local(requests[i]) && OwnLeases(sh, requests[i])
  }

  /** No lease has two owners. */
  ghost predicate Disjoint(requests: map<RequestId, Request>) {
    forall i, j, id :: i in requests && j in requests &&
                       id in HeldLeases(requests[i]) && id in HeldLeases(requests[j]) ==>
      i == j
  }

  ghost predicate Holds(requests: map<RequestId, Request>, id: LeaseId) {
    exists i :: i in requests && id in HeldLeases(requests[i])
  }

  /** Every open lease has an owner. */
  ghost predicate Owned(sh: Shared, requests: map<RequestId, Request>) {
    forall id :: id in sh.leases ==> id < sh.nextLease && Holds(requests, id)
  }

  ghost predicate OnePerSlot(sh: Shared) {
    forall a, b :: a in sh.leases && b in sh.leases && sh.leases[a] == sh.leases[b] ==> a == b
  }

  ghost predicate Marks(requests: map<RequestId, Request>, sha: Sha) {
    exists i :: i in requests && sha in HeldShas(requests[i]) + requests[i].lost
  }

  /** A row is reserved or active only for a request that holds it, or lost its release. */
  ghost predicate NoVainMark(sh: Shared, requests: map<RequestId, Request>) {
    forall sha :: sha in sh.rows && sh.rows[sha] != Idle ==> Marks(requests, sha)
  }

  /** Every open lease has exactly one owner, at most one is open per workload, and no row is marked in vain. */
  ghost predicate Invariant(s: System) {
    && Books(s.shared, s.requests) && Disjoint(s.requests) && Owned(s.shared, s.requests)
    && OnePerSlot(s.shared) && NoVainMark(s.shared, s.requests)
  }

  lemma {:induction false} OthersKeepTheirLeases(s: System, who: RequestId, sh': Shared, r': Request, i: RequestId)
    requires Books(s.shared, s.requests) && Disjoint(s.requests) && who in s.requests
    requires Local(r') && Accounted(s.shared, s.requests[who], sh', r')
    requires i in s.requests && i != who
    ensures OwnLeases(sh', s.requests[i]) && HeldLeases(s.requests[i]) !! HeldLeases(r')
  {
    hide Local, HeldLeases, HeldShas, Busy;
    assert OwnLeases(s.shared, s.requests[i]) && OwnLeases(s.shared, s.requests[who]);
    forall id | id in HeldLeases(s.requests[i]) ensures id !in HeldLeases(s.requests[who]) {}
  }

  lemma {:induction false} OwnersKept(s: System, who: RequestId, sh': Shared, r': Request)
    requires Books(s.shared, s.requests) && Owned(s.shared, s.requests) && who in s.requests
    requires Accounted(s.shared, s.requests[who], sh', r') && OwnLeases(sh', r')
    ensures Owned(sh', s.requests[who := r'])
  {
    hide Local, HeldLeases, HeldShas, Books;
    var after := s.requests[who := r'];
    forall id | id in sh'.leases ensures id < sh'.nextLease && Holds(after, id) {
      if id in HeldLeases(r') {
        assert who in after && after[who] == r';
      } else {
        assert Holds(s.requests, id);
        var i :| i in s.requests && id in HeldLeases(s.requests[i]);
        assert i in after && after[i] == s.requests[i];
      }
    }
  }

  lemma {:induction false} MarksKept(s: System, who: RequestId, sh': Shared, r': Request)
    requires NoVainMark(s.shared, s.requests) && who in s.requests
    requires Accounted(s.shared, s.requests[who], sh', r')
    ensures NoVainMark(sh', s.requests[who := r'])
  {
    hide Local, HeldLeases, HeldShas;
    var after := s.requests[who := r'];
    forall sha | sha in sh'.rows && sh'.rows[sha] != Idle ensures Marks(after, sha) {
      if sha in HeldShas(r') + r'.lost {
        assert who in after && after[who] == r';
      } else {
        assert Marks(s.requests, sha);
        var i :| i in s.requests && sha in HeldShas(s.requests[i]) + s.requests[i].lost;
        assert i in after && after[i] == s.requests[i];
      }
    }
  }

  /** A lease is only granted on a workload that has none. */
  lemma {:induction false} SlotsKept(sh: Shared, r: Request, sh': Shared, r': Request)
    requires OnePerSlot(sh) && OwnLeases(sh, r) && Local(r') && Accounted(sh, r, sh', r')
    ensures OnePerSlot(sh') && OwnLeases(sh', r')
  {
    hide Local, HeldLeases, HeldShas;
  }

  lemma {:induction false} StepKeepsInvariant(s: System, e: Event)
    requires Invariant(s)
    ensures Invariant(Step(s, e))
  {
    hide Advance, Local, HeldLeases, HeldShas, Accounted, OwnLeases, Owned, NoVainMark, OnePerSlot;
    if e.who in s.requests {
      var r := s.requests[e.who];
      AdvanceIsAccounted(s.shared, r, e.choice);
      var (sh', r') := Advance(s.shared, r, e.choice);
      forall i | i in s.requests && i != e.who
        ensures OwnLeases(sh', s.requests[i]) && HeldLeases(s.requests[i]) !! HeldLeases(r')
      {
        OthersKeepTheirLeases(s, e.who, sh', r', i);
      }
      SlotsKept(s.shared, r, sh', r');
      OwnersKept(s, e.who, sh', r');
      MarksKept(s, e.who, sh', r');
    }
  }

  lemma {:induction false} RunKeepsInvariant(s: System, events: seq<Event>)
    requires Invariant(s)
    ensures Invariant(Run(s, events))
    decreases |events|
  {
    hide Invariant, Advance;
    if events != [] {
      StepKeepsInvariant(s, events[0]);
      RunKeepsInvariant(Step(s, events[0]), events[1..]);
    }
  }

  /** New requests, no slot in use, no row marked. */
  ghost predicate Initial(s: System) {
    && s.shared.leases == map[]
    && (forall sha :: sha in s.shared.rows ==> s.shared.rows[sha] == Idle)
    && (forall i :: i in s.requests ==>
          var r := s.requests[i];
          r.pc.Start? && r.kv.NoKv? && r.orphan.None? && r.lost == {} && !r.wasWarm && r.ledger == Ledger(0, 0, 0, 0))
  }

  lemma InitialIsInvariant(s: System)
    requires Initial(s)
    ensures Invariant(s)
  {}

  lemma {:induction false} ReachableIsInvariant(s: System, events: seq<Event>)
    requires Initial(s)
    ensures Invariant(Run(s, events))
  {
    hide Invariant, Initial, Run;
    InitialIsInvariant(s);
    RunKeepsInvariant(s, events);
  }

  lemma DoneHolds(r: Request)
    requires Local(r) && r.pc.Done?
    ensures HeldLeases(r) == if r.orphan.Some? then {r.orphan.value.0} else {}
    ensures HeldShas(r) == if r.orphan.Some? then {r.orphan.value.1} else {}
    ensures r.ledger.acquires == r.ledger.releases + if r.orphan.Some? then 1 else 0
    ensures r.ledger.reserves == r.ledger.registryReleases + if r.orphan.Some? then 1 else 0
    ensures r.wasWarm ==> r.ledger.acquires == 1 && r.orphan.None?
  {}

  lemma {:induction false} SlotFollowsOrphans(t: System, w: Workload)
    requires Invariant(t) && forall i :: i in t.requests ==> t.requests[i].pc.Done?
    ensures Busy(t.shared, w) <==>
            exists i :: i in t.requests && t.requests[i].workload == w && t.requests[i].orphan.Some?
  {
    hide Local, HeldLeases, HeldShas, NoVainMark;
    if Busy(t.shared, w) {
      var id :| id in t.shared.leases && t.shared.leases[id] == w;
      assert Holds(t.requests, id);
      var i :| i in t.requests && id in HeldLeases(t.requests[i]);
      DoneHolds(t.requests[i]);
    }
    forall i | i in t.requests && t.requests[i].workload == w && t.requests[i].orphan.Some? ensures Busy(t.shared, w) {
      DoneHolds(t.requests[i]);
      assert t.requests[i].orphan.value.0 in HeldLeases(t.requests[i]);
    }
  }

  lemma {:induction false} RowsFollowOrphans(t: System)
    requires Invariant(t)
    requires forall i :: i in t.requests ==>
               t.requests[i].pc.Done? && t.requests[i].orphan.None? && t.requests[i].lost == {}
    ensures forall sha :: sha in t.shared.rows ==> t.shared.rows[sha] == Idle
  {
    hide Local, HeldLeases, HeldShas, Owned, Disjoint, OnePerSlot;
    forall sha | sha in t.shared.rows ensures t.shared.rows[sha] == Idle {
      if t.shared.rows[sha] != Idle {
        assert Marks(t.requests, sha);
        var i :| i in t.requests && sha in HeldShas(t.requests[i]) + t.requests[i].lost;
        DoneHolds(t.requests[i]);
      }
    }
  }

  // ---- Main results -----------------------------------------------------------------------------------

  /**
   However requests interleave: a finished request has released every acquire exactly once and every
   reservation exactly once, unless a slot-client or replay call threw while it held them, in which case
   one of each stays open for good. A request whose warm hit was taken never acquired a second lease.
   */
  lemma {:induction false} EveryExitBalances(s: System, events: seq<Event>, i: RequestId)
    requires Initial(s) && i in s.requests && Run(s, events).requests[i].pc.Done?
    ensures var t := Run(s, events);
            var r := t.requests[i];
            && r.ledger.acquires == r.ledger.releases + (if r.orphan.Some? then 1 else 0)
            && r.ledger.reserves == r.ledger.registryReleases + (if r.orphan.Some? then 1 else 0)
            && (r.orphan.Some? ==>
                  r.orphan.value.0 in t.shared.leases && t.shared.leases[r.orphan.value.0] == r.workload)
            && (r.wasWarm ==> r.ledger.acquires == 1 && r.orphan.None?)
  {
    hide Run, Initial, Local, HeldLeases, HeldShas, Owned, NoVainMark, OnePerSlot, Disjoint;
    ReachableIsInvariant(s, events);
    var r := Run(s, events).requests[i];
    DoneHolds(r);
    if r.orphan.Some? {
      assert r.orphan.value.0 in HeldLeases(r);
    }
  }

  /** At every moment of every run a workload has at most one open lease, held by exactly one request. */
  lemma {:induction false} OneHolderPerSlot(s: System, events: seq<Event>, i: RequestId, j: RequestId)
    requires Initial(s)
    requires var t := Run(s, events);
             && i in t.requests && j in t.requests && t.requests[i].workload == t.requests[j].workload
             && HeldLeases(t.requests[i]) != {} && HeldLeases(t.requests[j]) != {}
    ensures i == j && |HeldLeases(Run(s, events).requests[i])| == 1
  {
    hide Run, Initial, Local, HeldLeases, HeldShas, Owned, NoVainMark;
    ReachableIsInvariant(s, events);
    var t := Run(s, events);
    var a :| a in HeldLeases(t.requests[i]);
    var b :| b in HeldLeases(t.requests[j]);
    assert OwnLeases(t.shared, t.requests[i]) && OwnLeases(t.shared, t.requests[j]);
    assert HeldLeases(t.requests[i]) == {a};
  }
}
