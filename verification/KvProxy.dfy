/**
 The proxy's KV path as it is written: one request's code, with its early returns and finally blocks, run
 against slot allocators and a registry that other requests change at every await. It is proved to take
 only steps of the lease protocol, so what holds of all runs of the protocol holds of this code.
 */
module KvProxy {
  import opened Prelude
  import opened KvLease
  import opened KvHistory
  import opened KvMeaning

  /** context.kv. */
  class KvState {
    const shouldPersist: bool
    var warmHitSha: Option<Sha>
    var warmHitLease: Option<LeaseId>

    constructor (shouldPersist: bool, warmHitSha: Option<Sha>, warmHitLease: Option<LeaseId>)
      ensures this.shouldPersist == shouldPersist && this.warmHitSha == warmHitSha && this.warmHitLease == warmHitLease
    {
      this.shouldPersist, this.warmHitSha, this.warmHitLease := shouldPersist, warmHitSha, warmHitLease;
    }
  }

  datatype WarmOutcome = Warm | NotWarm | Threw

  lemma {:induction false} HitAdvances(sh: Shared, r: Request, reserveWrites: bool, releaseWrites: bool)
    requires r.pc == Start && Reserve(sh, r.sha, reserveWrites).1
    ensures var (sh1, lease) := Acquire(Reserve(sh, r.sha, reserveWrites).0, r.workload);
            var l := r.ledger.(reserves := r.ledger.reserves + 1);
            var out := Advance(sh, r, Hit(reserveWrites, releaseWrites));
            if lease.None? then
              && out.0 == RegistryRelease(sh1, r.sha, releaseWrites)
              && var after := l.(registryReleases := l.registryReleases + 1);
                 out.1 == GoCold(r.(ledger := after, lost := out.1.lost))
            else
              && out.0 == sh1 && out.1.kv == r.kv && out.1.ledger == l.(acquires := l.acquires + 1)
              && out.1.pc == Restoring(r.sha, lease.value)
  {
    hide Acquire, Reserve, RegistryRelease;
  }

  lemma ReserveKeepsLeases(sh: Shared, sha: Sha, writes: bool)
    ensures Reserve(sh, sha, writes).0.leases == sh.leases
    ensures Reserve(sh, sha, writes).1 <==> CanTake(sh.rows, sha, Idle, writes)
  {}

  lemma AcquireFails(sh: Shared, w: Workload)
    ensures Acquire(sh, w).1 == None ==> Busy(sh, w)
  {}

  lemma {:induction false} HitRefusedMeaning(sh: Shared, r: Request, c: Choice)
    requires r.pc == Start && c.Hit?
    requires CanTake(sh.rows, r.sha, Idle, c.reserveWrites) ==> SlotInUse(sh, r.workload)
    ensures HitRefused(sh, Advance(sh, r, c).0, r.sha, r.workload, c)
  {
    StartMeaning(sh, r, c);
  }

  lemma {:induction false} AbandonedMeaning(sh: Shared, r: Request, hit: Sha, lease: LeaseId, c: Choice)
    requires r.pc == Restoring(hit, lease) && (RestoreRefused(sh, hit, c) || ReplayRefused(sh, hit, c))
    ensures HitAbandoned(sh, Advance(sh, r, c).0, hit, lease, c)
  {
    hide FromRestoring, HitAbandoned, Activate;
    RestoringMeaning(sh, r, hit, lease, c);
  }

  lemma ActivatedMeaning(sh: Shared, hit: Sha, writes: bool)
    ensures Activate(sh, hit, writes).1 <==> CanTake(sh.rows, hit, Reserved, writes)
  {}

  lemma InUse(sh: Shared, like: Shared, w: Workload)
    requires like.leases == sh.leases
    ensures Busy(like, w) <==> SlotInUse(sh, w)
  {}

  lemma ThrownRestore(sh: Shared, me: Request, hit: Sha, lease: LeaseId)
    requires me.pc == Restoring(hit, lease)
    ensures var out := Advance(sh, me, RestoreThrows);
            out.0 == sh && out.1.kv == NoKv && out.1.ledger == me.ledger && out.1.pc.Forwarding?
  {}

  lemma {:induction false} FailedRestore(sh: Shared, me: Request, hit: Sha, lease: LeaseId,
                      ok: bool, activateWrites: bool, releaseWrites: bool, dropWrites: bool, replay: Replay)
    requires me.pc == Restoring(hit, lease) && !(ok && Activate(sh, hit, activateWrites).1)
    ensures var out := Advance(sh, me, Restored(ok, activateWrites, releaseWrites, dropWrites, replay));
            var l := me.ledger;
            && out.0 == DeleteRows(Release(RegistryRelease(Activate(sh, hit, activateWrites).0, hit, releaseWrites),
                                           lease),
                                   if ok || !dropWrites then {} else {hit})
            && var after := l.(registryReleases := l.registryReleases + 1, releases := l.releases + 1);
               out.1 == GoCold(me.(ledger := after, lost := out.1.lost))
  {
    hide Activate, RegistryRelease, Release, DeleteRows;
  }

  lemma {:induction false} ActivatedRestore(sh: Shared, me: Request, hit: Sha, lease: LeaseId,
                         activateWrites: bool, releaseWrites: bool, dropWrites: bool, replay: Replay)
    requires me.pc == Restoring(hit, lease) && Activate(sh, hit, activateWrites).1
    ensures var out := Advance(sh, me, Restored(true, activateWrites, releaseWrites, dropWrites, replay));
            var l := me.ledger;
            var sh1 := Activate(sh, hit, activateWrites).0;
            var released := RegistryRelease(sh1, hit, releaseWrites);
            match replay
            case ReplayThrows => out.0 == sh1 && out.1.kv == NoKv && out.1.ledger == l && out.1.pc.Forwarding?
            case ReplayFine => out.0 == sh1 && out.1.kv == me.kv && out.1.ledger == l && out.1.pc == Binding(hit, lease)
            case ReplayMismatch =>
              && out.0 == DeleteRows(Release(released, lease), if dropWrites then {hit} * IdleRows(released) else {})
              && var after := l.(registryReleases := l.registryReleases + 1, releases := l.releases + 1);
                 out.1 == GoCold(me.(ledger := after, lost := out.1.lost))
  {
    hide Activate, RegistryRelease, Release, DeleteRows, IdleRows;
  }

  lemma ReleaseKeepsRows()
    ensures forall sh, lease :: IdleRows(Release(sh, lease)) == IdleRows(sh)
  {}

  lemma {:induction false} NothingDeleted()
    ensures forall sh :: DeleteRows(sh, {}) == sh
  {
    forall sh ensures DeleteRows(sh, {}) == sh {
      assert sh.rows - {} == sh.rows;
    }
  }

  /** What releaseWarmHitLease does depends on context.kv alone. */
  lemma OnlyKvMatters(sh: Shared, a: Request, b: Request, writes: bool)
    requires a.kv == b.kv && a.ledger == b.ledger
    ensures var (x, y) := (ReleaseWarmHit(sh, a, writes), ReleaseWarmHit(sh, b, writes));
            x.0 == y.0 && x.1.kv == y.1.kv && x.1.ledger == y.1.ledger
  {}

  class Proxy {
    const who: RequestId
    var shared: Shared          // the allocators and the registry
    var kv: KvState?
    ghost var ledger: Ledger    // the calls this request has made
    var sys: System             // the protocol: all requests as of the last completed segment
    ghost const origin: System
    ghost var events: seq<Event>

    constructor (origin: System, who: RequestId)
      requires who in origin.requests && origin.requests[who].pc.Start? && origin.requests[who].kv.NoKv?
      ensures Valid() && InStep() && sys == this.origin == origin && events == [] && this.who == who && kv == null
    {
      this.who, this.origin, this.sys, this.events := who, origin, origin, [];
      shared, kv, ledger := origin.shared, null, origin.requests[who].ledger;
    }

    /** The protocol state is what the events so far lead to. */
    ghost predicate Valid()
      reads this
    {
      who in sys.requests && sys == Run(origin, events)
    }

    ghost function Me(): Request
      reads this
      requires who in sys.requests
    {
      sys.requests[who]
    }

    ghost function KvOf(): Kv
      reads this, kv
    {
      if kv == null then NoKv else Kv(kv.shouldPersist, kv.warmHitSha, kv.warmHitLease)
    }

    /** The request as the code has it mid-segment. */
    ghost function Mine(): Request
      reads this, kv
      requires who in sys.requests
    {
      Me().(kv := KvOf(), ledger := ledger)
    }

    /** Allocators, registry, context.kv and calls made are those of this outcome of the protocol. */
    ghost predicate Reached(out: (Shared, Request))
      reads this, kv
    {
      shared == out.0 && KvOf() == out.1.kv && ledger == out.1.ledger
    }

    /** Between segments the code is where the protocol is. */
    ghost predicate InStep()
      reads this, kv
      requires who in sys.requests
    {
      Reached((sys.shared, Me()))
    }

    /** A segment ends: what the code did since the last await is one step of the protocol. */
    method Commit(c: Choice)
      requires Valid() && Reached(Advance(sys.shared, Me(), c))
      modifies this`sys, this`events
      ensures Valid() && InStep() && Me() == old(Advance(sys.shared, Me(), c).1)
    {
      hide Advance;
      RunOneMore(origin, events, Event(who, c));
      sys := Step(sys, Event(who, c));
      events := events + [Event(who, c)];
    }

    /** A suspension point: any number of other requests take any steps. */
    method Await()
      requires Valid() && InStep()
      modifies this`sys, this`events, this`shared
      ensures Valid() && InStep() && Me() == old(Me())
    {
      hide Advance;
      var n: nat := *;
      while n > 0
        invariant Valid() && InStep() && Me() == old(Me())
      {
        var other: RequestId, c: Choice := *, *;
        if other != who {
          RunOneMore(origin, events, Event(other, c));
          sys := Step(sys, Event(other, c));
          events := events + [Event(other, c)];
          shared := sys.shared;
        }
        n := n - 1;
      }
    }

    // ---- Calls on the allocator and the registry -------------------------------------------------

    method TryAcquire() returns (lease: Option<LeaseId>)
      requires Valid()
      modifies this`shared, this`ledger
      ensures (shared, lease) == Acquire(old(shared), Me().workload)
      ensures ledger == if lease.Some? then old(ledger).(acquires := old(ledger).acquires + 1) else old(ledger)
    {
      var w := sys.requests[who].workload;
      if id :| id in shared.leases && shared.leases[id] == w {
        lease := None;
      } else {
        lease := Some(shared.nextLease);
        shared := Shared(shared.leases[shared.nextLease := w], shared.nextLease + 1, shared.rows);
        ledger := ledger.(acquires := ledger.acquires + 1);
      }
    }

    method ReleaseLease(lease: LeaseId)
      modifies this`shared, this`ledger
      ensures shared == Release(old(shared), lease) && ledger == old(ledger).(releases := old(ledger).releases + 1)
    {
      shared := shared.(leases := shared.leases - {lease});
      ledger := ledger.(releases := ledger.releases + 1);
    }

    method TryReserve(sha: Sha, writes: bool) returns (reserved: bool)
      modifies this`shared, this`ledger
      ensures (shared, reserved) == Reserve(old(shared), sha, writes)
      ensures ledger == if reserved then old(ledger).(reserves := old(ledger).reserves + 1) else old(ledger)
    {
      reserved := writes && sha in shared.rows && shared.rows[sha] == Idle;
      if reserved {
        shared := shared.(rows := shared.rows[sha := Reserved]);
        ledger := ledger.(reserves := ledger.reserves + 1);
      }
    }

    method TryActivate(sha: Sha, writes: bool) returns (activated: bool)
      modifies this`shared
      ensures (shared, activated) == Activate(old(shared), sha, writes)
    {
      activated := writes && sha in shared.rows && shared.rows[sha] == Reserved;
      if activated {
        shared := shared.(rows := shared.rows[sha := Active]);
      }
    }

    method ReleaseRow(sha: Sha, writes: bool)
      modifies this`shared, this`ledger
      ensures shared == RegistryRelease(old(shared), sha, writes)
      ensures ledger == old(ledger).(registryReleases := old(ledger).registryReleases + 1)
    {
      if writes && sha in shared.rows {
        shared := shared.(rows := shared.rows[sha := Idle]);
      }
      ledger := ledger.(registryReleases := ledger.registryReleases + 1);
    }

    method DropRow(sha: Sha)
      modifies this`shared
      ensures shared == DeleteRows(old(shared), {sha})
    {
      shared := shared.(rows := shared.rows - {sha});
    }

    /** tryDelete: only an idle row goes. */
    method TryDropRow(sha: Sha)
      modifies this`shared
      ensures shared == DeleteRows(old(shared), {sha} * IdleRows(old(shared)))
    {
      if sha in shared.rows && shared.rows[sha] == Idle {
        assert {sha} * IdleRows(shared) == {sha};
        DropRow(sha);
      } else {
        assert {sha} * IdleRows(shared) == {};
      }
    }

    // ---- Giving back -------------------------------------------------------------------------------

    method ReleaseWarmHitLease(writes: bool)
      requires Valid()
      modifies this`shared, this`ledger, kv
      ensures Valid() && Reached(ReleaseWarmHit(old(shared), old(Mine()), writes))
      ensures kv == null ==> shared == old(shared)
      ensures kv != null ==>
                && kv.warmHitSha == None && kv.warmHitLease == None
                && GivenBack(old(shared), shared, old(kv.warmHitSha), old(kv.warmHitLease), writes, false)
    {
      if kv == null {
        return;
      }
      var warmHitSha, warmHitLease := kv.warmHitSha, kv.warmHitLease;
      kv.warmHitSha := None;
      kv.warmHitLease := None;
      if warmHitSha.Some? {
        ReleaseRow(warmHitSha.value, writes);
      }
      if warmHitLease.Some? {
        ReleaseLease(warmHitLease.value);
      }
    }

    /** checkFalseHit once the tokens are known to differ. */
    method CheckFalseHit(writes: bool, deletes: bool)
      requires Valid()
      modifies this`shared, this`ledger, kv
      ensures Valid() && Reached(FalseHit(old(shared), old(Mine()), writes, deletes))
      ensures kv == null ==> shared == old(shared)
      ensures kv != null && old(kv.warmHitSha) == None ==>
                shared == old(shared) && kv.warmHitSha == None && kv.warmHitLease == old(kv.warmHitLease)
      ensures kv != null && old(kv.warmHitSha) != None ==>
                && kv.warmHitSha == None && kv.warmHitLease == None
                && GivenBack(old(shared), shared, old(kv.warmHitSha), old(kv.warmHitLease), writes, deletes)
    {
      if kv == null || kv.warmHitSha.None? {
        return;
      }
      var staleSha := kv.warmHitSha.value;
      ReleaseRow(staleSha, writes);
      if writes && deletes {
        TryDropRow(staleSha);
      }
      if kv.warmHitLease.Some? {
        ReleaseLease(kv.warmHitLease.value);
      }
      kv.warmHitSha := None;
      kv.warmHitLease := None;
    }

    // ---- Looking up ----------------------------------------------------------------------------------

    /** Where a lookup stands that goes on as a cold miss; `pending` says how the segment began. */
    ghost predicate GoesCold(pending: Choice)
      reads this, kv
      requires who in sys.requests
    {
      var (sh, r) := Advance(sys.shared, Me(), pending);
      kv == null && Me().kv.NoKv? && shared == sh && r == GoCold(Me().(ledger := ledger, lost := r.lost))
    }

    /** The lookup has one candidate, the request's own prefix hash, so that is the hit. */
    method ApplyWarmKvHit(hit: Sha) returns (o: WarmOutcome, pending: Choice)
      requires Valid() && InStep() && Me().pc.Start? && kv == null && hit == Me().sha
      modifies this
      ensures Valid()
      ensures o == NotWarm ==> GoesCold(pending)
      ensures o == NotWarm && pending.Hit? ==> HitRefused(old(shared), shared, hit, Me().workload, pending)
      ensures o != NotWarm ==> InStep() && Me().pc.Forwarding? && (kv == null || fresh(kv))
      ensures o == Warm ==>
                kv != null && !kv.shouldPersist && kv.warmHitSha == Some(hit) && kv.warmHitLease.Some?
      ensures o == Threw ==> kv == null
    {
      hide Run, SameRoute, Busy, FromRestoring, FromReading, FromProbing, FromSaving, ReleaseWarmHit;
      hide HitAbandoned;
      var reserveWrites: bool := *;
      var reserved := TryReserve(hit, reserveWrites);
      if !reserved {
        HitRefusedMeaning(sys.shared, Me(), Hit(reserveWrites, false));
        return NotWarm, Hit(reserveWrites, false);
      }
      o, pending := AfterReserve(hit, reserveWrites);
    }

    /** The row is reserved: take the slot, or let the row go. */
    method AfterReserve(hit: Sha, reserveWrites: bool) returns (o: WarmOutcome, pending: Choice)
      requires Valid() && Me().pc.Start? && Me().kv.NoKv? && kv == null && hit == Me().sha
      requires Reserve(sys.shared, hit, reserveWrites) == (shared, true)
      requires ledger == Me().ledger.(reserves := Me().ledger.reserves + 1)
      modifies this
      ensures Valid()
      ensures o == NotWarm ==> GoesCold(pending)
      ensures o == NotWarm && pending.Hit? ==>
                sys == old(sys) && HitRefused(sys.shared, shared, hit, Me().workload, pending)
      ensures o != NotWarm ==> InStep() && Me().pc.Forwarding? && (kv == null || fresh(kv))
      ensures o == Warm ==>
                kv != null && !kv.shouldPersist && kv.warmHitSha == Some(hit) && kv.warmHitLease.Some?
      ensures o == Threw ==> kv == null
    {
      hide Run, SameRoute, Busy, Advance, GoCold, Step, Acquire, Reserve, RegistryRelease, HitAbandoned, HitRefused,
        CanTake, SlotInUse;
      var releaseWrites: bool := *;
      ReserveKeepsLeases(sys.shared, hit, reserveWrites);
      InUse(sys.shared, shared, Me().workload);
      AcquireFails(shared, Me().workload);
      HitAdvances(sys.shared, Me(), reserveWrites, releaseWrites);
      var lease := TryAcquire();
      if lease.None? {
        ReleaseRow(hit, releaseWrites);
        HitRefusedMeaning(sys.shared, Me(), Hit(reserveWrites, releaseWrites));
        return NotWarm, Hit(reserveWrites, releaseWrites);
      }
      Commit(Hit(reserveWrites, releaseWrites));
      Await();
      o, pending := AfterRestore(hit, lease.value);
    }

    method AfterRestore(hit: Sha, lease: LeaseId) returns (o: WarmOutcome, pending: Choice)
      requires Valid() && InStep() && Me().pc == Restoring(hit, lease) && kv == null
      modifies this
      ensures Valid()
      ensures o == NotWarm ==>
                GoesCold(pending) && pending.Restored? && HitAbandoned(old(shared), shared, hit, lease, pending)
      ensures o != NotWarm ==> InStep() && Me().pc.Forwarding? && (kv == null || fresh(kv))
      ensures o == Warm ==> kv != null && KvOf() == Kv(false, Some(hit), Some(lease))
      ensures o == Threw ==> kv == null
    {
      hide Run, SameRoute, Activate, RegistryRelease, Release, DeleteRows, IdleRows, Advance, GoCold, Step,
        HitAbandoned;
      NothingDeleted();
      var throws: bool, restoreOk: bool := *, *;
      if throws {
        ThrownRestore(shared, Me(), hit, lease);
        Commit(RestoreThrows);
        return Threw, Miss;
      }
      var activateWrites: bool, releaseWrites: bool, dropWrites: bool, replay: Replay := *, *, *, *;
      var activated := TryActivate(hit, activateWrites);
      if !(activated && restoreOk) {
        FailedRestore(sys.shared, Me(), hit, lease, restoreOk, activateWrites, releaseWrites, dropWrites, replay);
        ReleaseRow(hit, releaseWrites);
        ReleaseLease(lease);
        if !restoreOk && dropWrites {
          DropRow(hit);
        }
        pending := Restored(restoreOk, activateWrites, releaseWrites, dropWrites, replay);
        ActivatedMeaning(sys.shared, hit, activateWrites);
        AbandonedMeaning(sys.shared, Me(), hit, lease, pending);
        return NotWarm, pending;
      }
      o, pending := AfterActivation(hit, lease, activateWrites, releaseWrites, dropWrites, replay);
    }

    /** The row is active: replay the tool map, then bind. */
    method AfterActivation(hit: Sha, lease: LeaseId, activateWrites: bool, releaseWrites: bool, dropWrites: bool,
                           replay: Replay)
      returns (o: WarmOutcome, pending: Choice)
      requires Valid() && Me().pc == Restoring(hit, lease) && Me().kv.NoKv? && kv == null && ledger == Me().ledger
      requires Activate(sys.shared, hit, activateWrites) == (shared, true)
      modifies this
      ensures Valid()
      ensures o == NotWarm ==>
                && GoesCold(pending) && sys == old(sys)
                && ReplayRefused(sys.shared, hit, pending)
                && HitAbandoned(sys.shared, shared, hit, lease, pending)
      ensures o != NotWarm ==> InStep() && Me().pc.Forwarding? && (kv == null || fresh(kv))
      ensures o == Warm ==> kv != null && KvOf() == Kv(false, Some(hit), Some(lease))
      ensures o == Threw ==> kv == null
    {
      hide Run, SameRoute, Activate, RegistryRelease, Release, DeleteRows, IdleRows, Advance, GoCold, Step,
        HitAbandoned;
      ActivatedRestore(sys.shared, Me(), hit, lease, activateWrites, releaseWrites, dropWrites, replay);
      NothingDeleted();
      ReleaseKeepsRows();
      if replay == ReplayThrows {
        Commit(Restored(true, activateWrites, releaseWrites, dropWrites, replay));
        return Threw, Miss;
      }
      if replay == ReplayMismatch {
        ReleaseRow(hit, releaseWrites);
        ReleaseLease(lease);
        if dropWrites {
          TryDropRow(hit);
        }
        pending := Restored(true, activateWrites, releaseWrites, dropWrites, replay);
        ActivatedMeaning(sys.shared, hit, activateWrites);
        AbandonedMeaning(sys.shared, Me(), hit, lease, pending);
        return NotWarm, pending;
      }
      Commit(Restored(true, activateWrites, releaseWrites, dropWrites, replay));
      Await();
      o := AfterBinding(hit, lease);
      pending := Miss;
    }

    /** The last stretch of a warm hit: from here on context.kv holds the lease. */
    method AfterBinding(hit: Sha, lease: LeaseId) returns (o: WarmOutcome)
      requires Valid() && InStep() && Me().pc == Binding(hit, lease) && kv == null
      modifies this
      ensures Valid() && o != NotWarm && InStep() && Me().pc.Forwarding? && (kv == null || fresh(kv))
      ensures o == Warm ==> kv != null && KvOf() == Kv(false, Some(hit), Some(lease))
      ensures o == Threw ==> kv == null
    {
      hide Run;
      var throws: bool := *;
      if throws {
        Commit(Throws(false));
        return Threw;
      }
      kv := new KvState(false, Some(hit), Some(lease));
      Commit(Returns(false));
      o := Warm;
    }

    /** maybeKvLookup, called in a try block: whatever it throws, the request goes on with context.kv as it is. */
    method MaybeKvLookup()
      requires Valid() && InStep() && Me().pc.Start? && kv == null
      modifies this
      ensures Valid() && InStep() && Me().pc.Forwarding? && (kv == null || fresh(kv))
      ensures kv == null || KvOf() == Kv(true, None, None) ||
              (!kv.shouldPersist && kv.warmHitSha == Some(old(Me().sha)) && kv.warmHitLease.Some?)
    {
      var lookupFails: bool, usesKvPath: bool, found: bool := *, *, *;
      if lookupFails {
        Commit(LookupFails);
        return;
      }
      if !usesKvPath {
        Commit(NoKvPath);
        return;
      }
      var pending := Miss;
      if found {
        var warm;
        warm, pending := ApplyWarmKvHit(sys.requests[who].sha);
        if warm != NotWarm {
          return;
        }
      }
      ColdMiss(pending);
    }

    method ColdMiss(pending: Choice)
      requires Valid() && GoesCold(pending)
      modifies this
      ensures Valid() && InStep() && Me().pc.Forwarding? && (kv == null || fresh(kv))
      ensures KvOf() == Kv(true, None, None) || (kv == null && old(Me().omlx))
    {
      hide Advance;
      if sys.requests[who].omlx {
        Commit(pending);
        Await();
        SaveHandleDone();
      } else {
        kv := new KvState(true, None, None);
        Commit(pending);
      }
    }

    method SaveHandleDone()
      requires Valid() && InStep() && Me().pc.SaveHandle? && kv == null
      modifies this
      ensures Valid() && InStep() && Me().pc.Forwarding? && (kv == null || fresh(kv))
      ensures kv == null || KvOf() == Kv(true, None, None)
    {
      var throws: bool := *;
      if throws {
        Commit(Throws(false));
        return;
      }
      kv := new KvState(true, None, None);
      Commit(Returns(false));
    }

    // ---- Persisting --------------------------------------------------------------------------------------

    /** maybePersistKv, called in a try block once upstream has answered. */
    method MaybePersistKv()
      requires Valid() && InStep() && Me().pc.Forwarding?
      modifies this, kv
      ensures Valid() && InStep() && Me().pc.Tail? && kv == old(kv)
    {
      hide Run, SameRoute, Step, ReleaseWarmHit, FalseHit, FromStart, FromRestoring, FromProbing, FromSaving;
      Commit(Returns(false));
      if kv == null {
        return;
      }
      Await();
      AfterBody();
    }

    method AfterBody()
      requires Valid() && InStep() && Me().pc.Reading? && kv != null
      modifies this, kv
      ensures Valid() && InStep() && Me().pc.Tail? && kv == old(kv)
    {
      hide Run, SameRoute, Step, ReleaseWarmHit, FalseHit, FromStart, FromRestoring, FromProbing, FromSaving;
      var throws: bool := *;
      if throws {
        Commit(Throws(false));
        return;
      }
      var mismatch: bool, savable: bool, writes: bool, deletes: bool := *, *, *, *;
      if mismatch {
        CheckFalseHit(writes, deletes);
      }
      LeaveOrProbe(mismatch, savable, writes, deletes);
    }

    /** After the false-hit check: leave through the finally block, or go on to persist. */
    method LeaveOrProbe(mismatch: bool, savable: bool, writes: bool, deletes: bool)
      requires Valid() && Me().pc.Reading? && kv != null
      requires Reached(if mismatch then FalseHit(sys.shared, Me(), writes, deletes) else (sys.shared, Me()))
      modifies this, kv
      ensures Valid() && InStep() && Me().pc.Tail? && kv == old(kv)
      ensures kv.warmHitSha == None && kv.warmHitLease == None
    {
      hide Run, SameRoute, Step, ReleaseWarmHit, FalseHit, FromStart, FromRestoring, FromProbing, FromSaving;
      if !kv.shouldPersist || !savable {
        ghost var r := if mismatch then FalseHit(sys.shared, Me(), writes, deletes).1 else Me();
        OnlyKvMatters(shared, Mine(), r, writes);
        ReleaseWarmHitLease(writes);
        Commit(ReadBody(mismatch, savable, writes, deletes));
        return;
      }
      Commit(ReadBody(mismatch, savable, writes, deletes));
      Await();
      Persist();
    }

    /** The rest of the try block: probe, acquire, save, and both finally blocks. */
    method Persist()
      requires Valid() && InStep() && Me().pc.Probing? && kv != null
      modifies this, kv
      ensures Valid() && InStep() && Me().pc.Tail? && kv == old(kv)
      ensures kv.warmHitSha == None && kv.warmHitLease == None
    {
      hide Run, SameRoute, Step, ReleaseWarmHit, FalseHit, FromStart, FromRestoring, FromReading, FromSaving, Busy;
      var throws: bool, supported: bool, writes: bool := *, *, *;
      if throws {
        ReleaseWarmHitLease(writes);
        Commit(Throws(writes));
        return;
      }
      if !supported {
        ReleaseWarmHitLease(writes);
        Commit(Supported(false, writes));
        return;
      }
      AcquireAndSave(writes);
    }

    /** allocator.acquire: without a free slot nothing is saved. */
    method AcquireAndSave(writes: bool)
      requires Valid() && InStep() && Me().pc.Probing? && kv != null
      modifies this, kv
      ensures Valid() && InStep() && Me().pc.Tail? && kv == old(kv)
      ensures kv.warmHitSha == None && kv.warmHitLease == None
    {
      hide Run, SameRoute, Step, ReleaseWarmHit, FalseHit, FromStart, FromRestoring, FromReading, FromSaving, Busy;
      var lease := TryAcquire();
      if lease.None? {
        ReleaseWarmHitLease(writes);
        Commit(Supported(true, writes));
        return;
      }
      Commit(Supported(true, writes));
      Await();
      SaveAndRelease(lease.value);
    }

    method SaveAndRelease(lease: LeaseId)
      requires Valid() && InStep() && Me().pc == Saving(lease) && kv != null
      modifies this, kv
      ensures Valid() && InStep() && Me().pc.Tail? && kv == old(kv)
      ensures kv.warmHitSha == None && kv.warmHitLease == None
    {
      hide Run, SameRoute, ReleaseWarmHit, FalseHit, FromStart, FromRestoring, FromReading, FromProbing, Busy;
      var threw, commits, evicted := PersistSlotAndMaintain(sys.requests[who].sha);
      var writes: bool := *;
      ReleaseLease(lease);
      OnlyKvMatters(shared, Mine(), CallRelease(Me()), writes);
      ReleaseWarmHitLease(writes);
      Commit(if threw then SaveThrows(commits, evicted, writes) else Saved(commits, evicted, writes));
    }

    /** Save, commit, evict idle rows; it may stop at any point, by returning or by throwing. */
    method PersistSlotAndMaintain(sha: Sha) returns (threw: bool, commits: bool, evicted: set<Sha>)
      modifies this`shared
      ensures shared == SaveRows(old(shared), sha, commits, evicted)
      ensures shared.leases == old(shared).leases && shared.nextLease == old(shared).nextLease
      ensures !commits ==> shared.rows == old(shared).rows
      ensures commits ==> Committed(old(shared).rows, shared.rows, sha, evicted)
    {
      threw, commits, evicted := *, *, *;
      if !commits {
        return;
      }
      shared := shared.(rows := shared.rows[sha := Idle]);
      var idle := IdleRows(shared);
      shared := DeleteRows(shared, evicted * idle);
    }

    // ---- The request --------------------------------------------------------------------------------------

    /**
     One request from arrival to response. Its code takes only protocol steps, interleaved with any steps of
     others; so whatever the exit, every acquire and reserve it called has had its one release, unless a
     slot-client or replay call threw while it held them, and a warm hit never takes a second lease.
     */
    method ProxyOpenAI()
      requires Valid() && InStep() && Me().pc.Start? && kv == null && Initial(origin)
      modifies this
      ensures Valid() && InStep() && Me().pc.Done?
      ensures kv == null || (kv.warmHitSha == None && kv.warmHitLease == None)
      ensures ledger.acquires == ledger.releases + if Stranded(origin, events, who) then 1 else 0
      ensures ledger.reserves == ledger.registryReleases + if Stranded(origin, events, who) then 1 else 0
      ensures Me().wasWarm ==> ledger.acquires == 1
    {
      var answeredEarly: bool := *;
      if answeredEarly {
        Commit(ReturnEarly);
      } else {
        MaybeKvLookup();
        ForwardAndRespond();
      }
      Balanced();
    }

    /** The outer try: forward, persist, respond; the finally block releases what a warm hit still holds. */
    method ForwardAndRespond()
      requires Valid() && InStep() && Me().pc.Forwarding?
      modifies this, kv
      ensures Valid() && InStep() && Me().pc.Done? && kv == old(kv)
      ensures kv == null || (kv.warmHitSha == None && kv.warmHitLease == None)
    {
      hide Run, SameRoute, ReleaseWarmHit, FalseHit, FromStart, FromRestoring, FromReading, FromProbing, FromSaving,
        Busy;
      Await();
      var throws: bool, writes: bool := *, *;
      if throws {
        ReleaseWarmHitLease(writes);
        Commit(Throws(writes));
        return;
      }
      MaybePersistKv();
      Await();
      throws, writes := *, *;
      ReleaseWarmHitLease(writes);
      Commit(if throws then Throws(writes) else Returns(writes));
    }

    lemma {:induction false} Balanced()
      requires Valid() && InStep() && Me().pc.Done? && Initial(origin)
      ensures ledger.acquires == ledger.releases + if Stranded(origin, events, who) then 1 else 0
      ensures ledger.reserves == ledger.registryReleases + if Stranded(origin, events, who) then 1 else 0
      ensures Me().wasWarm ==> ledger.acquires == 1
    {
      hide Run, SameRoute, Initial, Stranded;
      ExitBalancesUnlessStranded(origin, events, who);
    }
  }
}
