/**
 The lockfile closure: a worklist over package keys, resolving each dependency first to its nested copy
 and then to the top-level one. The result is exactly what is reachable from the seeds, on cyclic graphs
 too, and removing workspace dependencies removes exactly what only they reached.
 */
module LockfileClosure {
  import opened Prelude

  /** Package entries by key, each with its dependency names; workspaces in file order. */
  datatype Workspace = Workspace(name: string, deps: seq<string>)

  datatype Lockfile = Lockfile(packages: map<string, seq<string>>, workspaces: seq<Workspace>)

  datatype Removal = Removal(workspace: string, deps: seq<string>)

  function PackageDeps(lock: Lockfile, key: string): seq<string> {
    if key in lock.packages then lock.packages[key] else []
  }

  function ResolveDep(lock: Lockfile, fromKey: string, dep: string): Option<string> {
    if fromKey != "" && fromKey + "/" + dep in lock.packages then Some(fromKey + "/" + dep)
    else if dep in lock.packages then Some(dep)
    else None
  }

  // ---- Reachability ------------------------------------------------------------------

  ghost predicate Edge(lock: Lockfile, a: string, b: string) {
    exists dep :: dep in PackageDeps(lock, a) && ResolveDep(lock, a, dep) == Some(b)
  }

  /** An edge goes to the nested copy of a dependency where there is one, and to the top-level one where not. */
  lemma {:induction false} EdgeMeaning(lock: Lockfile, a: string, b: string)
    ensures Edge(lock, a, b) <==>
            && a in lock.packages && b in lock.packages
            && exists dep :: dep in lock.packages[a] &&
                 if a != "" && a + "/" + dep in lock.packages then b == a + "/" + dep else b == dep
  {
    if a in lock.packages && b in lock.packages {
      if dep :| dep in lock.packages[a] &&
                if a != "" && a + "/" + dep in lock.packages then b == a + "/" + dep else b == dep {
        assert ResolveDep(lock, a, dep) == Some(b);
      }
    }
  }

  ghost predicate IsPath(lock: Lockfile, p: seq<string>) {
    p != [] && forall i :: 0 <= i < |p| - 1 ==> Edge(lock, p[i], p[i + 1])
  }

  ghost predicate Reaches(lock: Lockfile, a: string, b: string) {
    exists p :: IsPath(lock, p) && p[0] == a && p[|p| - 1] == b
  }

  ghost predicate Reachable(lock: Lockfile, seeds: set<string>, k: string) {
    exists s :: s in seeds && Reaches(lock, s, k)
  }

  function Elements(s: seq<string>): set<string> {
    set x | x in s
  }

  lemma {:induction false} ReachesSelf(lock: Lockfile, a: string)
    ensures Reaches(lock, a, a)
  {
    assert IsPath(lock, [a]);
  }

  lemma {:induction false} ReachesNext(lock: Lockfile, a: string, b: string, c: string)
    requires Reaches(lock, a, b) && Edge(lock, b, c)
    ensures Reaches(lock, a, c)
  {
    var p :| IsPath(lock, p) && p[0] == a && p[|p| - 1] == b;
    assert IsPath(lock, p + [c]);
  }

  /** A set closed under edges contains everything reachable from its members. */
  lemma {:induction false} ClosedContainsReachable(lock: Lockfile, s: set<string>, p: seq<string>)
    requires forall a, b :: a in s && Edge(lock, a, b) ==> b in s
    requires IsPath(lock, p) && p[0] in s
    ensures p[|p| - 1] in s
    decreases |p|
  {
    if |p| > 1 {
      assert Edge(lock, p[0], p[1]);
      assert IsPath(lock, p[1..]) by {
        forall i | 0 <= i < |p[1..]| - 1 ensures Edge(lock, p[1..][i], p[1..][i + 1]) {
          assert Edge(lock, p[i + 1], p[i + 2]);
        }
      }
      ClosedContainsReachable(lock, s, p[1..]);
    }
  }

  // ---- The worklist ---------------------------------------------------------------------

  ghost predicate Found(seen: set<string>, queue: seq<string>, k: string) {
    k in seen || k in queue
  }

  /** Mid-run: what is seen has its successors seen or queued, and nothing is unreachable. */
  ghost predicate Exploring(lock: Lockfile, seeds: set<string>, seen: set<string>, queue: seq<string>) {
    && (forall s :: s in seeds ==> Found(seen, queue, s))
    && (forall a, b :: a in seen && Edge(lock, a, b) ==> Found(seen, queue, b))
    && (forall k :: Found(seen, queue, k) ==> Reachable(lock, seeds, k) && k in lock.packages.Keys + seeds)
  }

  lemma {:induction false} ReachableNext(lock: Lockfile, seeds: set<string>, key: string, b: string)
    requires Reachable(lock, seeds, key) && Edge(lock, key, b)
    ensures Reachable(lock, seeds, b) && b in lock.packages
  {
    var s :| s in seeds && Reaches(lock, s, key);
    ReachesNext(lock, s, key, b);
  }

  lemma {:induction false} Expanded(lock: Lockfile, seeds: set<string>, seen: set<string>, queue: seq<string>,
                                    more: seq<string>)
    requires queue != [] && Exploring(lock, seeds, seen, queue) && queue[0] !in seen
    requires forall b :: Edge(lock, queue[0], b) ==> Found(seen + {queue[0]}, queue[1..] + more, b)
    requires forall b :: b in more ==> Edge(lock, queue[0], b)
    ensures queue[0] in lock.packages.Keys + seeds
    ensures Exploring(lock, seeds, seen + {queue[0]}, queue[1..] + more)
  {
    hide Edge, Reachable;
    var key := queue[0];
    assert Found(seen, queue, key);
    forall k ensures Found(seen + {key}, queue[1..] + more, k) <==> Found(seen, queue, k) || k in more {
      assert queue == [key] + queue[1..];
    }
    forall b | b in more ensures Reachable(lock, seeds, b) && b in lock.packages {
      ReachableNext(lock, seeds, key, b);
    }
  }

  lemma {:induction false} Skipped(lock: Lockfile, seeds: set<string>, seen: set<string>, queue: seq<string>)
    requires queue != [] && Exploring(lock, seeds, seen, queue) && queue[0] in seen
    ensures Exploring(lock, seeds, seen, queue[1..])
  {
    hide Edge, Reachable;
    forall k ensures Found(seen, queue[1..], k) <==> Found(seen, queue, k) {
      assert queue == [queue[0]] + queue[1..];
    }
  }

  lemma {:induction false} Explored(lock: Lockfile, seeds: set<string>, seen: set<string>)
    requires Exploring(lock, seeds, seen, [])
    ensures forall k :: k in seen <==> Reachable(lock, seeds, k)
  {
    assert forall k :: Found(seen, [], k) <==> k in seen;
    forall k | Reachable(lock, seeds, k) ensures k in seen {
      var s :| s in seeds && Reaches(lock, s, k);
      var p :| IsPath(lock, p) && p[0] == s && p[|p| - 1] == k;
      ClosedContainsReachable(lock, seen, p);
    }
  }

  /** Terminates on cyclic graphs and returns exactly the keys reachable from the seeds. */
  method ClosureFrom(lock: Lockfile, seed: seq<string>) returns (seen: set<string>)
    ensures forall k :: k in seen <==> Reachable(lock, Elements(seed), k)
  {
    hide Exploring, Reachable;
    ghost var seeds := Elements(seed);
    seen := {};
    var queue := seed;
    ExploreStart(lock, seed);
    while queue != []
      invariant Exploring(lock, seeds, seen, queue)
      decreases |lock.packages.Keys + seeds - seen|, |queue|
    {
      var key := queue[0];
      if key in seen {
        Skipped(lock, seeds, seen, queue);
        queue := queue[1..];
        continue;
      }
      var more := Unseen(lock, key, seen + {key}, queue[1..]);
      Expanded(lock, seeds, seen, queue, more);
      SmallerRemainder(lock.packages.Keys + seeds, seen, key);
      seen := seen + {key};
      queue := queue[1..] + more;
    }
    Explored(lock, seeds, seen);
  }

  lemma {:induction false} ExploreStart(lock: Lockfile, seed: seq<string>)
    ensures Exploring(lock, Elements(seed), {}, seed)
  {
    forall k | k in seed ensures Reachable(lock, Elements(seed), k) {
      ReachesSelf(lock, k);
    }
  }

  lemma {:induction false} SmallerRemainder(all: set<string>, seen: set<string>, key: string)
    requires key in all && key !in seen
    ensures |all - (seen + {key})| < |all - seen|
  {
    assert all - seen == (all - (seen + {key})) + {key};
  }

  /** The resolved dependencies of `key` that have not been seen, pushed behind `queue`. */
  method Unseen(lock: Lockfile, key: string, seen: set<string>, ghost queue: seq<string>) returns (more: seq<string>)
    ensures forall b :: Edge(lock, key, b) ==> Found(seen, queue + more, b)
    ensures forall b :: b in more ==> Edge(lock, key, b)
  {
    var deps := PackageDeps(lock, key);
    more := [];
    var i := 0;
    while i < |deps|
      invariant 0 <= i <= |deps|
      invariant forall j :: 0 <= j < i && ResolveDep(lock, key, deps[j]).Some? ==>
                  Found(seen, more, ResolveDep(lock, key, deps[j]).value)
      invariant forall b :: b in more ==> Edge(lock, key, b)
    {
      var resolved := ResolveDep(lock, key, deps[i]);
      if resolved.Some? && resolved.value !in seen {
        assert Edge(lock, key, resolved.value);
        more := more + [resolved.value];
      }
      i := i + 1;
    }
  }

  // ---- Seeds and removals -------------------------------------------------------------------

  /** The removal list that applies to a workspace: the last one naming it. */
  function RemovedDeps(removals: seq<Removal>, workspace: string): seq<string> {
    if removals == [] then []
    else if removals[|removals| - 1].workspace == workspace then removals[|removals| - 1].deps
    else RemovedDeps(removals[..|removals| - 1], workspace)
  }

  /** `s` is what some workspace's remaining dependency resolves to. */
  ghost predicate Seeds(lock: Lockfile, removals: seq<Removal>, s: string) {
    exists i, d :: 0 <= i < |lock.workspaces| && d in lock.workspaces[i].deps &&
                   d !in RemovedDeps(removals, lock.workspaces[i].name) && ResolveDep(lock, "", d) == Some(s)
  }

  /** The list `r` of the removals is the last that names the workspace. */
  predicate NamedLast(removals: seq<Removal>, r: int, workspace: string) {
    && 0 <= r < |removals| && removals[r].workspace == workspace
    && forall j :: r < j < |removals| ==> removals[j].workspace != workspace
  }

  ghost predicate Removed(removals: seq<Removal>, workspace: string, dep: string) {
    exists r :: NamedLast(removals, r, workspace) && dep in removals[r].deps
  }

  lemma {:induction false} RemovedDepsMeaning(removals: seq<Removal>, workspace: string, dep: string)
    ensures dep in RemovedDeps(removals, workspace) <==> Removed(removals, workspace, dep)
  {
    if removals != [] {
      var n := |removals| - 1;
      var init := removals[..n];
      if removals[n].workspace == workspace {
        assert NamedLast(removals, n, workspace);
      } else {
        RemovedDepsMeaning(init, workspace, dep);
        assert forall r :: NamedLast(init, r, workspace) <==> NamedLast(removals, r, workspace);
      }
    }
  }

  /**
   The seeds are the top-level packages that a workspace depends on and that the last removal naming that
   workspace does not list.
   */
  lemma {:induction false} SeedsMeaning(lock: Lockfile, removals: seq<Removal>, s: string)
    ensures Seeds(lock, removals, s) <==>
            && s in lock.packages
            && exists i :: 0 <= i < |lock.workspaces| && s in lock.workspaces[i].deps &&
                           !Removed(removals, lock.workspaces[i].name, s)
  {
    hide RemovedDeps, Removed;
    forall i | 0 <= i < |lock.workspaces|
      ensures s in RemovedDeps(removals, lock.workspaces[i].name) <==> Removed(removals, lock.workspaces[i].name, s)
    {
      RemovedDepsMeaning(removals, lock.workspaces[i].name, s);
    }
    assert forall d :: ResolveDep(lock, "", d) == Some(s) <==> d == s && s in lock.packages;
    if i :| 0 <= i < |lock.workspaces| && s in lock.workspaces[i].deps &&
            !Removed(removals, lock.workspaces[i].name, s) {
      assert s !in RemovedDeps(removals, lock.workspaces[i].name);
      assert s in lock.packages ==> ResolveDep(lock, "", s) == Some(s);
    }
    if Seeds(lock, removals, s) {
      var i, d :| 0 <= i < |lock.workspaces| && d in lock.workspaces[i].deps &&
                  d !in RemovedDeps(removals, lock.workspaces[i].name) && ResolveDep(lock, "", d) == Some(s);
      assert d == s && !Removed(removals, lock.workspaces[i].name, s);
    }
  }

  method WorkspaceSeeds(lock: Lockfile, removals: seq<Removal>) returns (seeds: seq<string>)
    ensures forall s :: s in seeds <==> Seeds(lock, removals, s)
  {
    var removedFor: map<string, seq<string>> := map[];
    var r := 0;
    while r < |removals|
      invariant 0 <= r <= |removals|
      invariant forall w :: RemovedDeps(removals[..r], w) == if w in removedFor then removedFor[w] else []
    {
      assert removals[..r + 1][..r] == removals[..r];
      removedFor := removedFor[removals[r].workspace := removals[r].deps];
      r := r + 1;
    }
    assert removals[..r] == removals;
    seeds := [];
    var i := 0;
    while i < |lock.workspaces|
      invariant 0 <= i <= |lock.workspaces|
      invariant forall s :: s in seeds ==> Seeds(lock, removals, s)
      invariant forall j, d :: 0 <= j < i && d in lock.workspaces[j].deps &&
                               d !in RemovedDeps(removals, lock.workspaces[j].name) && ResolveDep(lock, "", d).Some? ==>
                  ResolveDep(lock, "", d).value in seeds
    {
      var spec := lock.workspaces[i];
      var removed := if spec.name in removedFor then removedFor[spec.name] else [];
      var k := 0;
      while k < |spec.deps|
        invariant 0 <= k <= |spec.deps|
        invariant forall s :: s in seeds ==> Seeds(lock, removals, s)
        invariant forall j, d :: 0 <= j < i && d in lock.workspaces[j].deps &&
                                 d !in RemovedDeps(removals, lock.workspaces[j].name) &&
                                 ResolveDep(lock, "", d).Some? ==>
                    ResolveDep(lock, "", d).value in seeds
        invariant forall d :: d in spec.deps[..k] && d !in removed && ResolveDep(lock, "", d).Some? ==>
                    ResolveDep(lock, "", d).value in seeds
      {
        var dep := spec.deps[k];
        assert forall d :: d in spec.deps[..k + 1] ==> d in spec.deps[..k] || d == dep;
        k := k + 1;
        if dep in removed { continue; }
        var resolved := ResolveDep(lock, "", dep);
        if resolved.Some? {
          assert Seeds(lock, removals, resolved.value);
          seeds := seeds + [resolved.value];
        }
      }
      assert spec.deps[..k] == spec.deps;
      i := i + 1;
    }
  }

  /** Reachable from the seeds that remain. */
  ghost predicate Installed(lock: Lockfile, removals: seq<Removal>, k: string) {
    exists s :: Seeds(lock, removals, s) && Reaches(lock, s, k)
  }

  datatype Delta = Delta(totalEntries: nat, before: nat, after: nat, removed: nat, removedPackages: set<string>)

  /** What removing dependencies drops, with before = after + removed. */
  method LockfileDelta(lock: Lockfile, removals: seq<Removal>)
    returns (d: Delta, ghost before: set<string>, ghost after: set<string>)
    ensures forall k :: k in before <==> Installed(lock, [], k)
    ensures forall k :: k in after <==> Installed(lock, removals, k)
    ensures after <= before && d.removedPackages == before - after
    ensures d.totalEntries == |lock.packages| && d.before == |before| && d.after == |after|
    ensures d.removed == |d.removedPackages| && d.before == d.after + d.removed
    ensures forall k :: k in d.removedPackages <==> Installed(lock, [], k) && !Installed(lock, removals, k)
  {
    hide Reachable, Seeds, Installed;
    var seeds := WorkspaceSeeds(lock, []);
    var kept := ClosureFrom(lock, seeds);
    SeedsReachInstalled(lock, [], seeds);
    var seeds' := WorkspaceSeeds(lock, removals);
    var kept' := ClosureFrom(lock, seeds');
    SeedsReachInstalled(lock, removals, seeds');
    before, after := kept, kept';
    forall k | k in after ensures k in before {
      RemovalOnlyShrinks(lock, removals, k);
    }
    var removedPackages := set k | k in kept && k !in kept';
    assert before == after + removedPackages;
    d := Delta(|lock.packages|, |kept|, |kept'|, |removedPackages|, removedPackages);
  }

  lemma {:induction false} SeedsReachInstalled(lock: Lockfile, removals: seq<Removal>, seeds: seq<string>)
    requires forall s :: s in seeds <==> Seeds(lock, removals, s)
    ensures forall k :: Reachable(lock, Elements(seeds), k) <==> Installed(lock, removals, k)
  {
    hide Seeds, Reaches;
  }

  lemma {:induction false} RemovalOnlyShrinks(lock: Lockfile, removals: seq<Removal>, k: string)
    requires Installed(lock, removals, k)
    ensures Installed(lock, [], k)
  {
    var s :| Seeds(lock, removals, s) && Reaches(lock, s, k);
    assert Seeds(lock, [], s);
  }

  /**
   Every removed package is reachable only through removed dependencies: whichever workspace dependency
   leads to it, that dependency was removed from that workspace. And conversely.
   */
  lemma {:induction false} RemovedOnlyThroughRemoved(lock: Lockfile, removals: seq<Removal>, k: string)
    requires Installed(lock, [], k)
    ensures !Installed(lock, removals, k) <==>
            forall i, d :: 0 <= i < |lock.workspaces| && d in lock.workspaces[i].deps &&
                           ResolveDep(lock, "", d).Some? &&
                           Reaches(lock, ResolveDep(lock, "", d).value, k) ==>
              d in RemovedDeps(removals, lock.workspaces[i].name)
  {
    hide Reaches;
    forall i, d | 0 <= i < |lock.workspaces| && d in lock.workspaces[i].deps && ResolveDep(lock, "", d).Some? &&
                  Reaches(lock, ResolveDep(lock, "", d).value, k) &&
                  d !in RemovedDeps(removals, lock.workspaces[i].name)
      ensures Installed(lock, removals, k)
    {
      assert Seeds(lock, removals, ResolveDep(lock, "", d).value);
    }
  }
}
