/**
 The aggregator's snapshot table: an upsert that keeps `received_at` while the content stays the same,
 followed by a per-node prune to the most recent rows. The table is proved to be a function of the
 write history, and liveness is proved not to be refreshable by replaying old snapshots.
 */
module AggregatorDb {
  import opened Prelude
  import opened LeaseElection

  const SNAPSHOT_RETENTION_PER_NODE := 200

  type Scalar = c: int | 0 <= c < 0xD800 || 0xE000 <= c < 0x11_0000

  /** A node name as stored: Unicode scalar values. */
  type NodeName = seq<Scalar>

  /** Primary key of node_snapshots. ISO timestamps are instants; `json` is the serialized snapshot. */
  datatype Key = Key(node: NodeName, ts: int)

  /** `receivedAt` is None in rows written before the column existed. */
  datatype Row = Row(receivedAt: Option<int>, json: string)

  type Table = map<Key, Row>

  datatype Write = Write(key: Key, json: string, at: int)

  datatype SnapshotRow = SnapshotRow(key: Key, receivedAt: int, json: string)

  // ---- The two statements of writeSnapshot ------------------------------------------

  /** INSERT ... ON CONFLICT(node, ts) DO UPDATE. */
  function Upsert(t: Table, w: Write): Table {
    t[w.key := Row(if w.key in t && t[w.key].json == w.json then t[w.key].receivedAt else Some(w.at), w.json)]
  }

  function TsOf(t: Table, node: NodeName): set<int> {
    set k | k in t && k.node == node :: k.ts
  }

  function Above(s: set<int>, x: int): set<int> {
    set y | y in s && y > x
  }

  /** SELECT ts ... ORDER BY ts DESC LIMIT n: the elements with fewer than n greater ones. */
  function Top(s: set<int>, n: nat): set<int> {
    set x | x in s && |Above(s, x)| < n
  }

  /** DELETE ... WHERE node = $node AND ts NOT IN (...). */
  function Prune(t: Table, node: NodeName): Table {
    map k | k in t && (k.node == node ==> k.ts in Top(TsOf(t, node), SNAPSHOT_RETENTION_PER_NODE)) :: t[k]
  }

  function Apply(t: Table, w: Write): Table {
    Prune(Upsert(t, w), w.key.node)
  }

  // ---- The latest-per-node query --------------------------------------------------------

  function Received(t: Table, k: Key): int
    requires k in t
  {
    t[k].receivedAt.GetOr(k.ts)
  }

  /** `k` heads its node's partition: greatest (received_at, ts). */
  predicate IsLatest(t: Table, k: Key) {
    k in t &&
    forall j :: j in t && j.node == k.node ==>
      Received(t, j) < Received(t, k) || (Received(t, j) == Received(t, k) && j.ts <= k.ts)
  }

  function RowAt(t: Table, k: Key): SnapshotRow
    requires k in t
  {
    SnapshotRow(k, Received(t, k), t[k].json)
  }

  /** A lead byte holding the high bits of `c`, then `n` continuation bytes of six bits each. */
  function Encode(lead: int, c: nat, n: nat): seq<int> {
    if n == 0 then [lead + c] else Encode(lead, c / 0x40, n - 1) + [0x80 + c % 0x40]
  }

  /** How many continuation bytes a scalar value takes, and the lead byte of that form. */
  function Extra(c: Scalar): nat {
    if c < 0x80 then 0 else if c < 0x800 then 1 else if c < 0x1_0000 then 2 else 3
  }

  function Lead(n: nat): int {
    if n == 0 then 0 else if n == 1 then 0xC0 else if n == 2 then 0xE0 else 0xF0
  }

  function Utf8(c: Scalar): seq<int> {
    Encode(Lead(Extra(c)), c, Extra(c))
  }

  function Utf8Of(name: NodeName): seq<int> {
    if name == [] then [] else Utf8(name[0]) + Utf8Of(name[1..])
  }

  /** ORDER BY node: the BINARY collation compares the UTF-8 bytes. */
  predicate NodeLess(a: NodeName, b: NodeName) {
    TextLess(Utf8Of(a), Utf8Of(b))
  }

  lemma {:induction false} CommonPrefix(p: seq<int>, x: seq<int>, y: seq<int>)
    ensures TextLess(p + x, p + y) <==> TextLess(x, y)
  {
    if p == [] {
      assert p + x == x && p + y == y;
    } else {
      assert (p + x)[1..] == p[1..] + x && (p + y)[1..] == p[1..] + y;
      CommonPrefix(p[1..], x, y);
    }
  }

  lemma {:induction false} EncodeLess(lead: int, c: nat, d: nat, n: nat, x: seq<int>, y: seq<int>)
    requires c < d
    ensures TextLess(Encode(lead, c, n) + x, Encode(lead, d, n) + y)
  {
    if n > 0 {
      var u, v := [0x80 + c % 0x40] + x, [0x80 + d % 0x40] + y;
      var hi, hi' := Encode(lead, c / 0x40, n - 1), Encode(lead, d / 0x40, n - 1);
      assert Encode(lead, c, n) + x == hi + u && Encode(lead, d, n) + y == hi' + v;
      if c / 0x40 < d / 0x40 {
        EncodeLess(lead, c / 0x40, d / 0x40, n - 1, u, v);
      } else {
        CommonPrefix(hi, u, v);
      }
    }
  }

  /** The forms of different lengths have lead bytes in different ranges. */
  lemma {:induction false} LeadByte(c: Scalar)
    ensures Utf8(c) != []
    ensures match Extra(c)
            case 0 => Utf8(c)[0] < 0x80
            case 1 => 0xC0 <= Utf8(c)[0] < 0xE0
            case 2 => 0xE0 <= Utf8(c)[0] < 0xF0
            case _ => 0xF0 <= Utf8(c)[0]
  {
    var n := Extra(c);
    FirstOfEncode(Lead(n), c, n);
  }

  lemma {:induction false} FirstOfEncode(lead: int, c: nat, n: nat)
    requires n <= 3
    ensures Encode(lead, c, n) != []
    ensures Encode(lead, c, n)[0] == lead + (if n == 0 then c
                                             else if n == 1 then c / 0x40
                                             else if n == 2 then c / 0x40 / 0x40
                                             else c / 0x40 / 0x40 / 0x40)
  {
    if n > 0 {
      FirstOfEncode(lead, c / 0x40, n - 1);
    }
  }

  lemma {:induction false} Utf8Less(c: Scalar, d: Scalar, x: seq<int>, y: seq<int>)
    requires c < d
    ensures TextLess(Utf8(c) + x, Utf8(d) + y)
  {
    if Extra(c) == Extra(d) {
      EncodeLess(Lead(Extra(c)), c, d, Extra(c), x, y);
    } else {
      LeadByte(c);
      LeadByte(d);
    }
  }

  /** The order of the bytes is the order of the code points. */
  lemma {:induction false} Utf8KeepsOrder(a: NodeName, b: NodeName)
    ensures NodeLess(a, b) <==> TextLess(a, b)
  {
    hide Utf8;
    if a == [] || b == [] {
      NonEmptyBytes(a);
      NonEmptyBytes(b);
    } else if a[0] == b[0] {
      CommonPrefix(Utf8(a[0]), Utf8Of(a[1..]), Utf8Of(b[1..]));
      Utf8KeepsOrder(a[1..], b[1..]);
    } else if a[0] < b[0] {
      Utf8Less(a[0], b[0], Utf8Of(a[1..]), Utf8Of(b[1..]));
    } else {
      Utf8Less(b[0], a[0], Utf8Of(b[1..]), Utf8Of(a[1..]));
      TextLessTotal(Utf8Of(a), Utf8Of(b));
    }
  }

  lemma NonEmptyBytes(a: NodeName)
    ensures Utf8Of(a) == [] <==> a == []
  {}

  lemma {:induction false} NodeLessTotal(a: NodeName, b: NodeName)
    ensures (NodeLess(a, b) && !NodeLess(b, a)) || (NodeLess(b, a) && !NodeLess(a, b)) || (a == b && !NodeLess(a, b))
  {
    Utf8KeepsOrder(a, b);
    Utf8KeepsOrder(b, a);
    TextLessTotal(a, b);
  }

  lemma {:induction false} NodeLessTransitive(a: NodeName, b: NodeName, c: NodeName)
    requires NodeLess(a, b) && NodeLess(b, c)
    ensures NodeLess(a, c)
  {
    TextLessTransitive(Utf8Of(a), Utf8Of(b), Utf8Of(c));
  }

  ghost predicate SortedByNode(rows: seq<SnapshotRow>) {
    forall i, j :: 0 <= i < j < |rows| ==> NodeLess(rows[i].key.node, rows[j].key.node)
  }

  // ---- The database ------------------------------------------------------------------------

  class Database {
    var rows: Table
    ghost var history: seq<Write>

    /** The table is what the writes so far make it. */
    ghost predicate Valid()
      reads this
    {
      rows == Replay(map[], history)
    }

    constructor ()
      ensures Valid() && rows == map[] && history == []
    {
      rows, history := map[], [];
    }

    method WriteSnapshot(w: Write)
      requires Valid()
      modifies this
      ensures Valid() && history == old(history) + [w]
      ensures rows == Apply(old(rows), w)
    {
      ReplayOneMore(map[], history, w);
      rows := Upsert(rows, w);
      rows := Prune(rows, w.key.node);
      history := history + [w];
    }

    /** One row per node, its latest, in node order; `freshAfter` then drops the old ones. */
    method GetLatestPerNode(freshAfter: Option<int>) returns (out: seq<SnapshotRow>)
      ensures SortedByNode(out)
      ensures forall r :: r in out <==>
                && IsLatest(rows, r.key) && r == RowAt(rows, r.key)
                && (freshAfter == None || r.receivedAt >= freshAfter.value)
    {
      hide Listing;
      out := [];
      var left := set k | k in rows && IsLatest(rows, k);
      ListingStart(rows, left, freshAfter);
      while left != {}
        invariant Listing(rows, left, out, freshAfter)
        decreases |left|
      {
        var k := NextNode(left, rows, out, freshAfter);
        ListingStep(rows, left, out, freshAfter, k);
        left := left - {k};
        if freshAfter.None? || Received(rows, k) >= freshAfter.value {
          out := out + [RowAt(rows, k)];
        }
      }
      ListingEnd(rows, out, freshAfter);
    }

    /** The first node still to be listed. */
    method NextNode(left: set<Key>, ghost t: Table, ghost out: seq<SnapshotRow>, ghost freshAfter: Option<int>)
      returns (k: Key)
      requires left != {} && Listing(t, left, out, freshAfter)
      ensures k in left && k in t && forall j :: j in left && j != k ==> NodeLess(k.node, j.node)
    {
      ghost var w := FirstNode(left);
      k :| k in left && forall j :: j in left && j != k ==> NodeLess(k.node, j.node);
    }
  }

  ghost predicate Fresh(r: SnapshotRow, freshAfter: Option<int>) {
    freshAfter.Some? ==> r.receivedAt >= freshAfter.value
  }

  /** Part-way through the query: `out` is sorted, precedes everything in `left`, and together they are complete. */
  ghost predicate Listing(t: Table, left: set<Key>, out: seq<SnapshotRow>, freshAfter: Option<int>) {
    && SortedByNode(out)
    && (forall k :: k in left ==> IsLatest(t, k))
    && (forall i, k :: 0 <= i < |out| && k in left ==> NodeLess(out[i].key.node, k.node))
    && (forall r :: r in out ==> IsLatest(t, r.key) && r == RowAt(t, r.key) && Fresh(r, freshAfter))
    && (forall k :: IsLatest(t, k) ==> k in left || RowAt(t, k) in out || !Fresh(RowAt(t, k), freshAfter))
  }

  lemma ListingStart(t: Table, left: set<Key>, freshAfter: Option<int>)
    requires left == set k | k in t && IsLatest(t, k)
    ensures Listing(t, left, [], freshAfter)
  {}

  lemma {:induction false} ListingStep(t: Table, left: set<Key>, out: seq<SnapshotRow>, freshAfter: Option<int>, k: Key)
    requires Listing(t, left, out, freshAfter)
    requires k in left && k in t && forall j :: j in left && j != k ==> NodeLess(k.node, j.node)
    ensures Listing(t, left - {k}, if Fresh(RowAt(t, k), freshAfter) then out + [RowAt(t, k)] else out, freshAfter)
  {
    hide NodeLess, IsLatest;
    var more := out + [RowAt(t, k)];
    assert forall r :: r in more <==> r in out || r == RowAt(t, k);
  }

  lemma ListingEnd(t: Table, out: seq<SnapshotRow>, freshAfter: Option<int>)
    requires Listing(t, {}, out, freshAfter)
    ensures SortedByNode(out)
    ensures forall r :: r in out <==> IsLatest(t, r.key) && r == RowAt(t, r.key) && Fresh(r, freshAfter)
  {}

  lemma LatestIsUnique(t: Table, a: Key, b: Key)
    requires IsLatest(t, a) && IsLatest(t, b) && a.node == b.node
    ensures a == b
  {}

  lemma {:induction false} FirstNode(keys: set<Key>) returns (k: Key)
    requires keys != {}
    requires forall a, b :: a in keys && b in keys && a.node == b.node ==> a == b
    ensures k in keys && forall j :: j in keys && j != k ==> NodeLess(k.node, j.node)
    decreases |keys|
  {
    k :| k in keys;
    var rest := keys - {k};
    if rest != {} {
      var m := FirstNode(rest);
      NodeLessTotal(k.node, m.node);
      if NodeLess(m.node, k.node) {
        k := m;
      } else {
        forall j | j in keys && j != k ensures NodeLess(k.node, j.node) {
          if j != m {
            NodeLessTransitive(k.node, m.node, j.node);
          }
        }
      }
    }
  }

  ghost function Replay(t: Table, ws: seq<Write>): Table {
    if ws == [] then t else Apply(Replay(t, ws[..|ws| - 1]), ws[|ws| - 1])
  }

  lemma {:induction false} ReplayOneMore(t: Table, ws: seq<Write>, w: Write)
    ensures Replay(t, ws + [w]) == Apply(Replay(t, ws), w)
  {
    assert (ws + [w])[..|ws|] == ws;
  }
}
