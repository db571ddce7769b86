/**
 The snapshot table as a function of its write history, and what that means for the lease: replaying
 stored or pruned snapshots cannot keep a silent peer alive.
 */
module SnapshotHistory {
  import opened Prelude
  import opened LeaseElection
  import opened AggregatorDb

  // ---- Keeping the n greatest, one insertion at a time ---------------------------------

  lemma {:induction false} SubsetSize(a: set<int>, b: set<int>)
    requires a <= b
    ensures |a| <= |b|
  {
    assert b == a + (b - a);
  }

  /** If at least n elements of `s` exceed `x`, at least n of them survive in Top(s, n). */
  lemma {:induction false} TopKeepsEnough(s: set<int>, n: nat, x: int)
    requires |Above(s, x)| >= n
    ensures |Above(Top(s, n), x)| >= n
    decreases |Above(s, x)|
  {
    if Above(s, x) <= Top(s, n) {
      assert Above(Top(s, n), x) == Above(s, x);
    } else {
      var u :| u in Above(s, x) && u !in Top(s, n);
      assert Above(s, u) <= Above(s, x) - {u};
      SubsetSize(Above(s, u), Above(s, x) - {u});
      TopKeepsEnough(s, n, u);
      SubsetSize(Above(Top(s, n), u), Above(Top(s, n), x));
    }
  }

  lemma {:induction false} TopIsAntitone(s: set<int>, t: set<int>, n: nat, x: int)
    requires s <= t && x in s && x in Top(t, n)
    ensures x in Top(s, n)
  {
    SubsetSize(Above(s, x), Above(t, x));
  }

  /** Pruning after every insertion loses nothing that pruning once at the end would keep. */
  lemma {:induction false} TopAbsorbs(s: set<int>, x: int, n: nat)
    ensures Top(Top(s, n) + {x}, n) == Top(s + {x}, n)
  {
    var kept, all := Top(s, n) + {x}, s + {x};
    forall y ensures y in Top(kept, n) <==> y in Top(all, n) {
      if y in Top(all, n) {
        if y in s {
          TopIsAntitone(s, all, n, y);
        }
        TopIsAntitone(kept, all, n, y);
      }
      if y in Top(kept, n) {
        if |Above(s, y)| >= n {
          TopKeepsEnough(s, n, y);
          SubsetSize(Above(Top(s, n), y), Above(kept, y));
        } else {
          forall u | u in Above(s, y) ensures u in Top(s, n) {
            SubsetSize(Above(s, u), Above(s, y));
          }
          assert Above(kept, y) == Above(all, y);
        }
      }
    }
  }

  lemma {:induction false} TopIsIdempotent(s: set<int>, n: nat)
    ensures Top(Top(s, n), n) == Top(s, n)
  {
    forall x | x in Top(s, n) ensures x in Top(Top(s, n), n) {
      SubsetSize(Above(Top(s, n), x), Above(s, x));
    }
  }

  lemma {:induction false} TopSize(s: set<int>, n: nat)
    ensures |Top(s, n)| <= n
  {
    var none: set<int> := {};
    if Top(s, n) <= none {
      assert Top(s, n) == none;
    } else {
      var z :| z in Top(s, n) && z !in none;
      var least := Least(Top(s, n), z);
      assert Above(Top(s, n), least) == Top(s, n) - {least};
      SubsetSize(Above(Top(s, n), least), Above(s, least));
    }
  }

  lemma {:induction false} Least(s: set<int>, z: int) returns (x: int)
    requires z in s
    ensures x in s && forall y :: y in s ==> x <= y
    decreases |s|
  {
    if y :| y in s && y < z {
      x := Least(s - {z}, y);
      assert forall u :: u in s ==> u == z || u in s - {z};
    } else {
      x := z;
    }
  }

  // ---- The table is a function of the history ---------------------------------------------

  ghost function Written(ws: seq<Write>, node: NodeName): set<int> {
    set i | 0 <= i < |ws| && ws[i].key.node == node :: ws[i].key.ts
  }

  /** Write `i` began the current run of identical content for `k`. */
  ghost predicate StartsRun(ws: seq<Write>, i: int, k: Key) {
    && 0 <= i < |ws| && ws[i].key == k
    && (forall j :: i < j < |ws| && ws[j].key == k ==> ws[j].json == ws[i].json)
    && (forall j :: 0 <= j < i && ws[j].key == k && (forall m :: j < m < i ==> ws[m].key != k) ==>
        ws[j].json != ws[i].json)
  }

  /** The write repeats the stored content, or its timestamp is older than a full set of stored rows. */
  ghost predicate IsReplay(t: Table, w: Write) {
    if w.key in t then t[w.key].json == w.json
    else |Above(TsOf(t, w.key.node), w.key.ts)| >= SNAPSHOT_RETENTION_PER_NODE
  }

  /** Write `i` changed the table as it was then. */
  ghost predicate ChangedTable(ws: seq<Write>, i: int) {
    0 <= i < |ws| && !IsReplay(Replay(map[], ws[..i]), ws[i])
  }

  /** The row is what write `i` put into the table, and that began the current run of its content. */
  ghost predicate IsOrigin(row: Row, ws: seq<Write>, i: int, k: Key) {
    0 <= i < |ws| && StartsRun(ws, i, k) && ChangedTable(ws, i) && row == Row(Some(ws[i].at), ws[i].json)
  }

  /** The row holds the last content written for its key, received when that content's run began. */
  ghost predicate HasOrigin(t: Table, ws: seq<Write>, k: Key) {
    k in t && exists i :: 0 <= i < |ws| && IsOrigin(t[k], ws, i, k)
  }

  lemma {:induction false} ApplyKeys(t: Table, w: Write, node: NodeName)
    ensures TsOf(Apply(t, w), node) ==
            if node == w.key.node then Top(TsOf(t, node) + {w.key.ts}, SNAPSHOT_RETENTION_PER_NODE) else TsOf(t, node)
  {
    var u := Upsert(t, w);
    assert u.Keys == t.Keys + {w.key};
    assert forall ts :: ts in TsOf(t, node) <==> Key(node, ts) in t;
    assert forall ts :: ts in TsOf(u, node) <==> Key(node, ts) in u;
    assert TsOf(u, node) == if node == w.key.node then TsOf(t, node) + {w.key.ts} else TsOf(t, node);
    var p := Prune(u, w.key.node);
    assert forall ts :: ts in TsOf(p, node) <==> Key(node, ts) in p;
  }

  /** A node's rows are exactly the 200 greatest distinct timestamps ever written for it. */
  lemma {:induction false} RowsAreTheNewestWritten(ws: seq<Write>, node: NodeName)
    ensures TsOf(Replay(map[], ws), node) == Top(Written(ws, node), SNAPSHOT_RETENTION_PER_NODE)
  {
    if ws == [] {
      assert Written(ws, node) == {};
    } else {
      var init, w := ws[..|ws| - 1], ws[|ws| - 1];
      RowsAreTheNewestWritten(init, node);
      ApplyKeys(Replay(map[], init), w, node);
      assert ws == init + [w];
      assert Written(ws, node) == if node == w.key.node then Written(init, node) + {w.key.ts} else Written(init, node);
      TopAbsorbs(Written(init, node), w.key.ts, SNAPSHOT_RETENTION_PER_NODE);
    }
  }

  lemma {:induction false} StoredKeys(ws: seq<Write>, k: Key)
    ensures k in Replay(map[], ws) <==> k.ts in Top(Written(ws, k.node), SNAPSHOT_RETENTION_PER_NODE)
  {
    RowsAreTheNewestWritten(ws, k.node);
    var t := Replay(map[], ws);
    assert k.ts in TsOf(t, k.node) <==> Key(k.node, k.ts) in t;
  }

  lemma {:induction false} RunContinues(ws: seq<Write>, w: Write, i: int, k: Key)
    requires StartsRun(ws, i, k) && (w.key == k ==> w.json == ws[i].json)
    ensures StartsRun(ws + [w], i, k)
  {
    var all := ws + [w];
    assert forall j :: 0 <= j < |ws| ==> all[j] == ws[j];
  }

  lemma {:induction false} RunBegins(ws: seq<Write>, w: Write, i: int)
    requires StartsRun(ws, i, w.key) && w.json != ws[i].json
    ensures StartsRun(ws + [w], |ws|, w.key)
  {
    var all := ws + [w];
    assert forall j :: 0 <= j < |ws| ==> all[j] == ws[j];
    forall j | 0 <= j < |ws| && all[j].key == w.key && (forall m :: j < m < |ws| ==> all[m].key != w.key)
      ensures all[j].json != w.json
    {
      assert all[i].key == w.key;
      assert j >= i;
    }
  }

  lemma {:induction false} FirstRun(ws: seq<Write>, w: Write)
    requires forall j :: 0 <= j < |ws| ==> ws[j].key != w.key
    ensures StartsRun(ws + [w], |ws|, w.key)
  {
    var all := ws + [w];
    assert forall j :: 0 <= j < |ws| ==> all[j] == ws[j];
  }

  /** A key that a write newly stores was never written before: once out of the newest 200, always out. */
  lemma {:induction false} StoredAnewIsFirst(ws: seq<Write>, w: Write)
    requires w.key !in Replay(map[], ws) && w.key in Replay(map[], ws + [w])
    ensures forall j :: 0 <= j < |ws| ==> ws[j].key != w.key
  {
    var all, k := ws + [w], w.key;
    StoredKeys(ws, k);
    StoredKeys(all, k);
    assert forall m :: 0 <= m < |ws| ==> all[m] == ws[m];
    assert Written(ws, k.node) <= Written(all, k.node);
    if j :| 0 <= j < |ws| && ws[j].key == k {
      assert k.ts in Written(ws, k.node);
      TopIsAntitone(Written(ws, k.node), Written(all, k.node), SNAPSHOT_RETENTION_PER_NODE, k.ts);
    }
  }

  /**
   Every stored row carries the last content written for its key and the time that content first arrived, by a
   write that changed the table.
   */
  lemma {:induction false} EveryRowHasItsOrigin(ws: seq<Write>, k: Key)
    requires k in Replay(map[], ws)
    ensures HasOrigin(Replay(map[], ws), ws, k)
  {
    hide StartsRun, Apply, IsReplay;
    if ws != [] {
      var init, w := ws[..|ws| - 1], ws[|ws| - 1];
      assert ws == init + [w];
      var t := Replay(map[], init);
      AppliedRow(t, w, k);
      if k in t {
        EveryRowHasItsOrigin(init, k);
        var i :| 0 <= i < |init| && IsOrigin(t[k], init, i, k);
        OriginAfter(t[k], init, w, i, k);
      } else {
        StoredAnewIsFirst(init, w);
        FirstRun(init, w);
        ReplayedTableIsRetained(init);
        UnchangedExactlyByReplay(t, w);
        assert ws[..|init|] == init;
        assert IsOrigin(Row(Some(w.at), w.json), ws, |init|, k);
      }
    }
  }

  /** What a write leaves of a row it does not prune. */
  lemma {:induction false} AppliedRow(t: Table, w: Write, k: Key)
    requires k in Apply(t, w)
    ensures k in t || k == w.key
    ensures Apply(t, w)[k] == if k in t && (k != w.key || t[k].json == w.json) then t[k] else Row(Some(w.at), w.json)
  {
    hide TsOf, Top;
  }

  lemma {:induction false} OriginAfter(row: Row, ws: seq<Write>, w: Write, i: int, k: Key)
    requires IsOrigin(row, ws, i, k) && k in Replay(map[], ws) && row == Replay(map[], ws)[k]
    ensures if k == w.key && row.json != w.json then IsOrigin(Row(Some(w.at), w.json), ws + [w], |ws|, k)
            else IsOrigin(row, ws + [w], i, k)
  {
    hide StartsRun, Replay;
    var all := ws + [w];
    if k == w.key && row.json != w.json {
      RunBegins(ws, w, i);
      assert all[..|ws|] == ws;
    } else {
      RunContinues(ws, w, i, k);
      assert all[i] == ws[i] && all[..i] == ws[..i];
    }
  }

  lemma {:induction false} TopMeaning(s: set<int>, n: nat)
    ensures Top(s, n) <= s && |Top(s, n)| <= n
    ensures forall x, y :: x in Top(s, n) && y in s && y !in Top(s, n) ==> y < x
    ensures Top(s, n) != s ==> |Top(s, n)| == n
  {
    TopSize(s, n);
    forall x, y | x in Top(s, n) && y in s && y !in Top(s, n) ensures y < x {
      if y > x {
        SubsetSize(Above(s, y), Above(s, x));
      }
    }
    if Top(s, n) != s {
      var y :| y in s && y !in Top(s, n);
      TopKeepsEnough(s, n, y);
      SubsetSize(Above(Top(s, n), y), Top(s, n));
    }
  }

  ghost predicate WasWritten(ws: seq<Write>, k: Key) {
    exists i :: 0 <= i < |ws| && ws[i].key == k
  }

  /** Only what was written is stored, at most 200 a node; a full set is kept before anything is missing, the newest. */
  lemma {:induction false} RetentionMeaning(ws: seq<Write>, node: NodeName)
    ensures var t := Replay(map[], ws);
            var stored := set k | k in t && k.node == node :: k.ts;
            && (forall ts :: Key(node, ts) in t ==> WasWritten(ws, Key(node, ts)))
            && |stored| <= 200
            && (forall u :: WasWritten(ws, Key(node, u)) && Key(node, u) !in t ==>
                  |stored| == 200 && forall ts :: ts in stored ==> u < ts)
  {
    hide Top, Replay;
    var t := Replay(map[], ws);
    var stored := set k | k in t && k.node == node :: k.ts;
    RowsAreTheNewestWritten(ws, node);
    TopMeaning(Written(ws, node), SNAPSHOT_RETENTION_PER_NODE);
    assert stored == TsOf(t, node);
    assert forall ts :: ts in stored <==> Key(node, ts) in t;
    forall ts | true ensures ts in Written(ws, node) <==> WasWritten(ws, Key(node, ts)) {
      if i :| 0 <= i < |ws| && ws[i].key == Key(node, ts) {
        assert ws[i].key.node == node && ws[i].key.ts == ts;
      }
      if ts in Written(ws, node) {
        var i :| 0 <= i < |ws| && ws[i].key.node == node && ws[i].key.ts == ts;
        assert ws[i].key == Key(node, ts);
      }
    }
  }

  /**
   New content heads its node once it arrives after every stored row of the node, or with the last of them and no
   earlier ts; a row without an arrival time counts as arrived at its ts.
   */
  lemma {:induction false} NewContentIsLatest(t: Table, w: Write)
    requires w.key in t ==> t[w.key].json != w.json
    requires Retained(t) && !IsReplay(t, w)
    requires forall k :: k in t && k.node == w.key.node ==>
               var at := match t[k].receivedAt case Some(x) => x case None => k.ts;
               at < w.at || (at == w.at && k.ts <= w.key.ts)
    ensures IsLatest(Apply(t, w), w.key) && RowAt(Apply(t, w), w.key) == SnapshotRow(w.key, w.at, w.json)
    ensures forall k: Key :: k.node == w.key.node && IsLatest(Apply(t, w), k) ==> k == w.key
  {
    var t' := Apply(t, w);
    hide Apply;
    WriteIsStored(t, w);
    forall k: Key | k in t' && k.node == w.key.node && k != w.key
      ensures Received(t', k) < w.at || (Received(t', k) == w.at && k.ts < w.key.ts)
    {
      AppliedRow(t, w, k);
    }
    assert t'[w.key] == Row(Some(w.at), w.json) by { AppliedRow(t, w, w.key); }
    assert IsLatest(t', w.key);
  }

  lemma {:induction false} WriteIsStored(t: Table, w: Write)
    requires Retained(t) && !IsReplay(t, w)
    ensures w.key in Apply(t, w)
  {
    var node, ts := w.key.node, w.key.ts;
    var u := Upsert(t, w);
    var s := TsOf(t, node);
    assert forall x :: x in s <==> Key(node, x) in t;
    assert forall x :: x in TsOf(u, node) <==> Key(node, x) in u;
    assert TsOf(u, node) == s + {ts};
    assert Above(s + {ts}, ts) == Above(s, ts);
    if w.key in t {
      assert s + {ts} == s && ts in Top(s, SNAPSHOT_RETENTION_PER_NODE);
    } else {
      assert ts in Top(s + {ts}, SNAPSHOT_RETENTION_PER_NODE);
    }
  }

  // ---- Writes that change nothing --------------------------------------------------------------

  ghost predicate Retained(t: Table) {
    forall node :: Top(TsOf(t, node), SNAPSHOT_RETENTION_PER_NODE) == TsOf(t, node)
  }

  lemma {:induction false} ReplayedTableIsRetained(ws: seq<Write>)
    ensures Retained(Replay(map[], ws))
    ensures forall node :: |TsOf(Replay(map[], ws), node)| <= SNAPSHOT_RETENTION_PER_NODE
  {
    forall node ensures Top(TsOf(Replay(map[], ws), node), SNAPSHOT_RETENTION_PER_NODE) == TsOf(Replay(map[], ws), node)
                     && |TsOf(Replay(map[], ws), node)| <= SNAPSHOT_RETENTION_PER_NODE {
      RowsAreTheNewestWritten(ws, node);
      TopIsIdempotent(Written(ws, node), SNAPSHOT_RETENTION_PER_NODE);
      TopSize(Written(ws, node), SNAPSHOT_RETENTION_PER_NODE);
    }
  }

  /** A write leaves the table unchanged exactly when it is a replay. */
  lemma {:induction false} UnchangedExactlyByReplay(t: Table, w: Write)
    requires Retained(t)
    ensures Apply(t, w) == t <==> IsReplay(t, w)
  {
    var node, ts := w.key.node, w.key.ts;
    var u := Upsert(t, w);
    var s := TsOf(t, node);
    assert forall x :: x in s <==> Key(node, x) in t;
    assert forall x :: x in TsOf(u, node) <==> Key(node, x) in u;
    assert TsOf(u, node) == s + {ts};
    assert Above(s + {ts}, ts) == Above(s, ts);
    if w.key in t {
      assert TsOf(u, node) == s;
      assert Apply(t, w) == u;
    } else if IsReplay(t, w) {
      assert ts !in Top(s + {ts}, SNAPSHOT_RETENTION_PER_NODE);
      TopAbsorbs(s, ts, SNAPSHOT_RETENTION_PER_NODE);
      forall x | x in s ensures x in Top(s + {ts}, SNAPSHOT_RETENTION_PER_NODE) {
        StillTop(s, ts, x, SNAPSHOT_RETENTION_PER_NODE);
      }
      assert Apply(t, w) == t;
    } else {
      assert ts in Top(s + {ts}, SNAPSHOT_RETENTION_PER_NODE);
      assert w.key in Apply(t, w);
    }
  }

  /** Inserting an element below n others displaces nobody. */
  lemma {:induction false} StillTop(s: set<int>, ts: int, x: int, n: nat)
    requires x in s && Top(s, n) == s && |Above(s, ts)| >= n
    ensures x in Top(s + {ts}, n)
  {
    if ts > x {
      assert Above(s, ts) <= Above(s, x);
      SubsetSize(Above(s, ts), Above(s, x));
    } else {
      assert Above(s + {ts}, x) == Above(s, x);
    }
  }

  /** Any timestamp once written and since pruned is a replay, whatever content now comes with it. */
  lemma {:induction false} PrunedWriteIsReplay(ws: seq<Write>, w: Write)
    requires w.key.ts in Written(ws, w.key.node) && w.key !in Replay(map[], ws)
    ensures IsReplay(Replay(map[], ws), w)
  {
    var s := Written(ws, w.key.node);
    RowsAreTheNewestWritten(ws, w.key.node);
    StoredKeys(ws, w.key);
    TopKeepsEnough(s, SNAPSHOT_RETENTION_PER_NODE, w.key.ts);
  }

  /** Every write of the sequence replays what the table holds at that point. */
  ghost predicate OnlyReplays(t: Table, ws: seq<Write>)
    decreases |ws|
  {
    ws != [] ==> IsReplay(t, ws[0]) && OnlyReplays(t, ws[1..])
  }

  lemma {:induction false} ReplaysChangeNothing(t: Table, ws: seq<Write>)
    requires Retained(t) && OnlyReplays(t, ws)
    ensures Replay(t, ws) == t
    decreases |ws|
  {
    if ws != [] {
      ReplaysPrefix(t, ws);
      ReplaysChangeNothing(t, ws[..|ws| - 1]);
      UnchangedExactlyByReplay(t, ws[|ws| - 1]);
    }
  }

  lemma {:induction false} ReplaysPrefix(t: Table, ws: seq<Write>)
    requires ws != [] && OnlyReplays(t, ws)
    ensures OnlyReplays(t, ws[..|ws| - 1]) && IsReplay(t, ws[|ws| - 1])
  {
    if |ws| > 1 {
      ReplaysPrefix(t, ws[1..]);
      assert ws[1..][..|ws| - 2] == ws[..|ws| - 1][1..];
    }
  }

  lemma {:induction false} ReplayConcat(t: Table, a: seq<Write>, b: seq<Write>)
    ensures Replay(t, a + b) == Replay(Replay(t, a), b)
  {
    if b == [] {
      assert a + b == a;
    } else {
      assert (a + b)[..|a + b| - 1] == a + b[..|b| - 1];
      ReplayConcat(t, a, b[..|b| - 1]);
    }
  }

  // ---- Liveness and the lease ------------------------------------------------------------------------

  /** The rows the election sees: one per node, its latest, with the lease read from the stored snapshot. */
  ghost predicate IsElectorate(rows: seq<SnapshotRow>, t: Table) {
    forall r :: r in rows <==> IsLatest(t, r.key) && r == RowAt(t, r.key)
  }

  ghost function Peers(rows: seq<SnapshotRow>, leaseOf: string -> LeaseProperty): seq<PeerRow> {
    if rows == [] then [] else [PeerRow(Some(rows[0].receivedAt), leaseOf(rows[0].json))] + Peers(rows[1..], leaseOf)
  }

  lemma {:induction false} PeersShape(rows: seq<SnapshotRow>, leaseOf: string -> LeaseProperty)
    ensures |Peers(rows, leaseOf)| == |rows|
    ensures forall i :: 0 <= i < |rows| ==>
            Peers(rows, leaseOf)[i] == PeerRow(Some(rows[i].receivedAt), leaseOf(rows[i].json))
  {
    if rows != [] {
      PeersShape(rows[1..], leaseOf);
    }
  }

  /** The write carries an eligible intent of `c` and is not stale yet. */
  ghost predicate CarriesIntent(w: Write, c: Text, leaseOf: string -> LeaseProperty, now: int, staleAfterMs: int) {
    && now - w.at < staleAfterMs
    && var intent := ReadLeaseIntent(leaseOf(w.json));
       intent.Some? && intent.value.eligible && intent.value.candidate == c
  }

  /** Write `i` newly put a fresh eligible intent of `c` into the table: it changed the table and started a run. */
  ghost predicate FreshIntentWrite(ws: seq<Write>, i: int, c: Text, leaseOf: string -> LeaseProperty,
                                   now: int, staleAfterMs: int)
  {
    && 0 <= i < |ws|
    && StartsRun(ws, i, ws[i].key)
    && ChangedTable(ws, i)
    && CarriesIntent(ws[i], c, leaseOf, now, staleAfterMs)
  }

  /** A holder is always backed by new content: its intent was inserted or changed less than `staleAfterMs` ago. */
  lemma {:induction false} HolderHasFreshContent(ws: seq<Write>, rows: seq<SnapshotRow>,
                                                 leaseOf: string -> LeaseProperty,
                              now: int, staleAfterMs: int)
    requires IsElectorate(rows, Replay(map[], ws))
    ensures var holder := Holder(Peers(rows, leaseOf), now, staleAfterMs);
            holder.Some? ==> exists i :: FreshIntentWrite(ws, i, holder.value, leaseOf, now, staleAfterMs)
  {
    var t, peers := Replay(map[], ws), Peers(rows, leaseOf);
    PeersShape(rows, leaseOf);
    ElectIsLeastKept(peers, now, staleAfterMs);
    var best := Elect(peers, now, staleAfterMs);
    if best.Some? {
      var p :| 0 <= p < |peers| && Kept(peers[p], now, staleAfterMs) && StandingOf(peers[p]) == best.value;
      var k := rows[p].key;
      assert rows[p] in rows;
      EveryRowHasItsOrigin(ws, k);
      var i :| 0 <= i < |ws| && IsOrigin(t[k], ws, i, k);
      hide StartsRun, IsReplay, Replay;
      assert FreshIntentWrite(ws, i, best.value.candidate, leaseOf, now, staleAfterMs);
    }
  }

  /**
   A peer drops out at its deadline whatever is replayed: however its writes and everyone else's are interleaved,
   if every write that carries a not yet stale eligible intent of `c` was a replay of the table as it was at that
   moment, `c` is not the holder.
   */
  lemma {:induction false} SilentPeerDropsOut(ws: seq<Write>, rows: seq<SnapshotRow>, c: Text,
                                              leaseOf: string -> LeaseProperty, now: int, staleAfterMs: int)
    requires IsElectorate(rows, Replay(map[], ws))
    requires forall i :: 0 <= i < |ws| && CarriesIntent(ws[i], c, leaseOf, now, staleAfterMs) ==>
               IsReplay(Replay(map[], ws[..i]), ws[i])
    ensures Holder(Peers(rows, leaseOf), now, staleAfterMs) != Some(c)
  {
    hide IsElectorate, CarriesIntent, StartsRun, IsReplay, Replay;
    HolderHasFreshContent(ws, rows, leaseOf, now, staleAfterMs);
  }

  /**
   Replays on their own move nothing: the table, hence the election, is what it was before them, and a peer
   that had dropped out stays out.
   */
  lemma {:induction false} ReplaysCannotReviveHolder(ws: seq<Write>, replays: seq<Write>, rows: seq<SnapshotRow>,
                                                     c: Text,
                                  leaseOf: string -> LeaseProperty, now: int, staleAfterMs: int)
    requires OnlyReplays(Replay(map[], ws), replays)
    requires !exists i :: FreshIntentWrite(ws, i, c, leaseOf, now, staleAfterMs)
    requires IsElectorate(rows, Replay(map[], ws + replays))
    ensures Replay(map[], ws + replays) == Replay(map[], ws)
    ensures Holder(Peers(rows, leaseOf), now, staleAfterMs) != Some(c)
  {
    ReplayConcat(map[], ws, replays);
    ReplayedTableIsRetained(ws);
    ReplaysChangeNothing(Replay(map[], ws), replays);
    HolderHasFreshContent(ws, rows, leaseOf, now, staleAfterMs);
  }
}
