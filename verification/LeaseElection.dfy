/**
 Lease election: the holder is a deterministic function of the replicated peer snapshots, the least
 (term, candidate) among the fresh eligible intents.
 */
module LeaseElection {
  import opened Prelude

  // ---- Strings as the runtime compares them -----------------------------------------

  type CodeUnit = u: int | 0 <= u < 0x1_0000
  type Text = seq<CodeUnit>

  /** Lexicographic order; on strings, `a < b` by UTF-16 code unit. */
  predicate TextLess(a: seq<int>, b: seq<int>) {
    b != [] && (a == [] || a[0] < b[0] || (a[0] == b[0] && TextLess(a[1..], b[1..])))
  }

  lemma {:induction false} TextLessTotal(a: seq<int>, b: seq<int>)
    ensures (TextLess(a, b) && !TextLess(b, a)) || (TextLess(b, a) && !TextLess(a, b)) ||
            (a == b && !TextLess(a, b))
  {
    if a != [] && b != [] && a[0] == b[0] {
      TextLessTotal(a[1..], b[1..]);
      assert a == [a[0]] + a[1..] && b == [b[0]] + b[1..];
    }
  }

  lemma {:induction false} TextLessTransitive(a: seq<int>, b: seq<int>, c: seq<int>)
    requires TextLess(a, b) && TextLess(b, c)
    ensures TextLess(a, c)
  {
    if a != [] && a[0] == b[0] && b[0] == c[0] {
      TextLessTransitive(a[1..], b[1..], c[1..]);
    }
  }

  /** The texts agree up to `k`, where the first ends or is less. */
  predicate LessAt(a: seq<int>, b: seq<int>, k: int) {
    0 <= k <= |a| && k < |b| && a[..k] == b[..k] && (k == |a| || a[k] < b[k])
  }

  /** A text is less when it is a proper beginning, or when it is less at the first place that differs. */
  lemma {:induction false} TextLessMeaning(a: seq<int>, b: seq<int>)
    ensures TextLess(a, b) <==> exists k :: LessAt(a, b, k)
  {
    if a != [] && b != [] && a[0] == b[0] {
      var x, y := a[1..], b[1..];
      TextLessMeaning(x, y);
      if TextLess(x, y) {
        var k :| LessAt(x, y, k);
        assert a[..k + 1] == [a[0]] + x[..k] && b[..k + 1] == [b[0]] + y[..k];
        assert LessAt(a, b, k + 1);
      }
      if k :| LessAt(a, b, k) {
        assert x[..k - 1] == a[..k][1..] && y[..k - 1] == b[..k][1..];
        assert LessAt(x, y, k - 1);
      }
    } else if b != [] {
      assert a[..0] == b[..0];
      assert TextLess(a, b) ==> LessAt(a, b, 0);
      if k :| LessAt(a, b, k) && k > 0 {
        assert a[..k][0] == b[..k][0];
      }
    }
  }

  // ---- Reading an intent off a snapshot ------------------------------------------------

  /** A property read from parsed JSON; anything but a string, a finite number or a boolean is unusable. */
  datatype Field = TextField(text: Text) | NumberField(number: real) | BooleanField(flag: bool) | UnusableField

  /** The snapshot's `lease` property: missing, null or not an object, or an object with these properties. */
  datatype LeaseProperty = NoLease | LeaseObject(candidate: Field, term: Field, eligible: Field, seqNo: Field)

  datatype LeaseIntent = LeaseIntent(candidate: Text, term: real, eligible: bool, seqNo: real)

  /** One row of the latest-per-node query. `receivedAt` is None when it does not parse as a date. */
  datatype PeerRow = PeerRow(receivedAt: Option<int>, lease: LeaseProperty)

  function ReadLeaseIntent(l: LeaseProperty): Option<LeaseIntent> {
    match l
    case NoLease => None
    case LeaseObject(candidate, term, eligible, seqNo) =>
      if candidate.TextField? && term.NumberField? && eligible.BooleanField? && seqNo.NumberField?
      then Some(LeaseIntent(candidate.text, term.number, eligible.flag, seqNo.number))
      else None
  }

  // ---- The election ----------------------------------------------------------------------

  /** A row the election keeps: a well-formed eligible intent, received less than `staleAfterMs` ago. */
  predicate Kept(row: PeerRow, now: int, staleAfterMs: int) {
    var intent := ReadLeaseIntent(row.lease);
    intent.Some? && intent.value.eligible &&
    row.receivedAt.Some? && now - row.receivedAt.value < staleAfterMs
  }

  datatype Standing = Standing(term: real, candidate: Text)

  function StandingOf(row: PeerRow): Standing
    requires ReadLeaseIntent(row.lease).Some?
  {
    Standing(ReadLeaseIntent(row.lease).value.term, ReadLeaseIntent(row.lease).value.candidate)
  }

  /** Lower term first; the candidate name breaks ties. */
  predicate Before(a: Standing, b: Standing) {
    a.term < b.term || (a.term == b.term && TextLess(a.candidate, b.candidate))
  }

  lemma {:induction false} BeforeIsStrictTotalOrder(a: Standing, b: Standing, c: Standing)
    ensures !(Before(a, b) && Before(b, a)) && (Before(a, b) || Before(b, a) || a == b)
    ensures Before(a, b) && Before(b, c) ==> Before(a, c)
  {
    TextLessTotal(a.candidate, b.candidate);
    if Before(a, b) && Before(b, c) && a.term == b.term == c.term {
      TextLessTransitive(a.candidate, b.candidate, c.candidate);
    }
  }

  /** The meaning of the result: the least kept standing, or None exactly when nothing is kept. */
  ghost predicate IsLeastKept(best: Option<Standing>, rows: seq<PeerRow>, now: int, staleAfterMs: int) {
    && (best.None? ==> forall i :: 0 <= i < |rows| ==> !Kept(rows[i], now, staleAfterMs))
    && (best.Some? ==>
          && (exists i :: 0 <= i < |rows| && Kept(rows[i], now, staleAfterMs) && StandingOf(rows[i]) == best.value)
          && (forall i :: 0 <= i < |rows| && Kept(rows[i], now, staleAfterMs) ==>
              !Before(StandingOf(rows[i]), best.value)))
  }

  /** The loop keeps the best (term, candidate) so far; infinity and null stand for none yet. */
  method ElectLeaseHolder(rows: seq<PeerRow>, now: int, staleAfterMs: int)
    returns (holder: Option<Text>, ghost best: Option<Standing>)
    ensures IsLeastKept(best, rows, now, staleAfterMs) && best == Elect(rows, now, staleAfterMs)
    ensures holder == if best.Some? then Some(best.value.candidate) else None
    ensures holder == Holder(rows, now, staleAfterMs)
    ensures holder.None? <==> forall i :: 0 <= i < |rows| ==> !Kept(rows[i], now, staleAfterMs)
  {
    var bestTerm: Option<real> := None;
    holder, best := None, None;
    var i := 0;
    while i < |rows|
      invariant 0 <= i <= |rows|
      invariant best.None? <==> holder.None?
      invariant best.None? <==> bestTerm.None?
      invariant best.Some? ==> bestTerm == Some(best.value.term) && holder == Some(best.value.candidate)
      invariant IsLeastKept(best, rows[..i], now, staleAfterMs)
    {
      var row := rows[i];
      ghost var before := best;
      i := i + 1;
      var lease := ReadLeaseIntent(row.lease);
      if lease.Some? && lease.value.eligible && row.receivedAt.Some? && now - row.receivedAt.value < staleAfterMs {
        var l := lease.value;
        if bestTerm.None? || l.term < bestTerm.value ||
           (l.term == bestTerm.value && (holder.None? || TextLess(l.candidate, holder.value)))
        {
          bestTerm, holder := Some(l.term), Some(l.candidate);
          best := Some(Standing(l.term, l.candidate));
        }
      }
      LeastOfOneMore(before, rows[..i - 1], row, now, staleAfterMs);
      assert rows[..i] == rows[..i - 1] + [row];
    }
    assert rows[..i] == rows;
    ElectIsLeastKept(rows, now, staleAfterMs);
    LeastIsUnique(best, Elect(rows, now, staleAfterMs), rows, now, staleAfterMs);
  }

  /** The standing that results from seeing one more row after `best`. */
  function Challenge(best: Option<Standing>, row: PeerRow, now: int, staleAfterMs: int): Option<Standing> {
    if Kept(row, now, staleAfterMs) && (best.None? || Before(StandingOf(row), best.value))
    then Some(StandingOf(row)) else best
  }

  /** The election as a function, from the last row backwards. */
  function Elect(rows: seq<PeerRow>, now: int, staleAfterMs: int): Option<Standing> {
    if rows == [] then None
    else Challenge(Elect(rows[..|rows| - 1], now, staleAfterMs), rows[|rows| - 1], now, staleAfterMs)
  }

  function Holder(rows: seq<PeerRow>, now: int, staleAfterMs: int): Option<Text> {
    var best := Elect(rows, now, staleAfterMs);
    if best.Some? then Some(best.value.candidate) else None
  }

  lemma {:induction false} LeastOfOneMore(best: Option<Standing>, rows: seq<PeerRow>, row: PeerRow, now: int,
                                          staleAfterMs: int)
    requires IsLeastKept(best, rows, now, staleAfterMs)
    ensures IsLeastKept(Challenge(best, row, now, staleAfterMs), rows + [row], now, staleAfterMs)
  {
    var all := rows + [row];
    var next := Challenge(best, row, now, staleAfterMs);
    assert forall i :: 0 <= i < |rows| ==> all[i] == rows[i];
    if best.Some? {
      var w :| 0 <= w < |rows| && Kept(rows[w], now, staleAfterMs) && StandingOf(rows[w]) == best.value;
      assert StandingOf(all[w]) == best.value;
    }
    if Kept(row, now, staleAfterMs) {
      assert StandingOf(all[|rows|]) == StandingOf(row);
    }
    if next.Some? {
      forall i | 0 <= i < |all| && Kept(all[i], now, staleAfterMs) ensures !Before(StandingOf(all[i]), next.value) {
        if best.Some? {
          BeforeIsStrictTotalOrder(StandingOf(all[i]), next.value, best.value);
          BeforeIsStrictTotalOrder(next.value, StandingOf(all[i]), best.value);
        } else {
          BeforeIsStrictTotalOrder(StandingOf(all[i]), next.value, next.value);
        }
      }
    }
  }

  lemma {:induction false} ElectIsLeastKept(rows: seq<PeerRow>, now: int, staleAfterMs: int)
    ensures IsLeastKept(Elect(rows, now, staleAfterMs), rows, now, staleAfterMs)
  {
    if rows != [] {
      var init, row := rows[..|rows| - 1], rows[|rows| - 1];
      ElectIsLeastKept(init, now, staleAfterMs);
      LeastOfOneMore(Elect(init, now, staleAfterMs), init, row, now, staleAfterMs);
      assert rows == init + [row];
    }
  }

  lemma {:induction false} LeastIsUnique(a: Option<Standing>, b: Option<Standing>, rows: seq<PeerRow>, now: int,
                                         staleAfterMs: int)
    requires IsLeastKept(a, rows, now, staleAfterMs) && IsLeastKept(b, rows, now, staleAfterMs)
    ensures a == b
  {
    if a.Some? && b.Some? {
      BeforeIsStrictTotalOrder(a.value, b.value, b.value);
    }
  }

  /** A row that stands for election: every field of its lease is well typed, it is eligible, and it is fresh. */
  predicate Stands(row: PeerRow, now: int, staleAfterMs: int) {
    && row.lease.LeaseObject? && row.lease.eligible == BooleanField(true)
    && row.lease.candidate.TextField? && row.lease.term.NumberField? && row.lease.seqNo.NumberField?
    && row.receivedAt.Some? && row.receivedAt.value > now - staleAfterMs
  }

  /** No standing row has a lower term than this one, nor its term and a lesser candidate name. */
  ghost predicate IsLowest(rows: seq<PeerRow>, k: int, now: int, staleAfterMs: int) {
    && 0 <= k < |rows| && Stands(rows[k], now, staleAfterMs)
    && var (low, name) := (rows[k].lease.term.number, rows[k].lease.candidate.text);
       forall i :: 0 <= i < |rows| && Stands(rows[i], now, staleAfterMs) ==>
         && low <= rows[i].lease.term.number
         && (low == rows[i].lease.term.number ==> !TextLess(rows[i].lease.candidate.text, name))
  }

  /** The holder is the candidate of a lowest standing row; there is none exactly when no row stands. */
  lemma {:induction false} HolderMeaning(rows: seq<PeerRow>, now: int, staleAfterMs: int)
    ensures match Holder(rows, now, staleAfterMs)
            case None => forall i :: 0 <= i < |rows| ==> !Stands(rows[i], now, staleAfterMs)
            case Some(c) => exists k :: IsLowest(rows, k, now, staleAfterMs) && rows[k].lease.candidate.text == c
  {
    hide Elect, TextLess;
    ElectIsLeastKept(rows, now, staleAfterMs);
    var best := Elect(rows, now, staleAfterMs);
    assert forall row :: Stands(row, now, staleAfterMs) <==> Kept(row, now, staleAfterMs);
    if best.Some? {
      var k :| 0 <= k < |rows| && Kept(rows[k], now, staleAfterMs) && StandingOf(rows[k]) == best.value;
      assert IsLowest(rows, k, now, staleAfterMs);
    }
  }

  // ---- Election algebra ---------------------------------------------------------------------

  /** Two views agree as soon as each holds, among what it keeps, the other's least kept standing. */
  lemma {:induction false} ViewsAgree(a: seq<PeerRow>, b: seq<PeerRow>, now: int, staleAfterMs: int)
    requires Elect(a, now, staleAfterMs).Some? ==>
               exists i :: 0 <= i < |b| && Kept(b[i], now, staleAfterMs) &&
                      StandingOf(b[i]) == Elect(a, now, staleAfterMs).value
    requires Elect(b, now, staleAfterMs).Some? ==>
               exists i :: 0 <= i < |a| && Kept(a[i], now, staleAfterMs) &&
                      StandingOf(a[i]) == Elect(b, now, staleAfterMs).value
    ensures Elect(a, now, staleAfterMs) == Elect(b, now, staleAfterMs)
  {
    ElectIsLeastKept(a, now, staleAfterMs);
    ElectIsLeastKept(b, now, staleAfterMs);
    if Elect(a, now, staleAfterMs).Some? && Elect(b, now, staleAfterMs).Some? {
      var x, y := Elect(a, now, staleAfterMs).value, Elect(b, now, staleAfterMs).value;
      BeforeIsStrictTotalOrder(x, y, y);
    }
  }

  /** The order (and multiplicity) in which rows arrive does not matter. */
  lemma {:induction false} RowOrderIsIrrelevant(a: seq<PeerRow>, b: seq<PeerRow>, now: int, staleAfterMs: int)
    requires forall row :: row in a <==> row in b
    ensures Elect(a, now, staleAfterMs) == Elect(b, now, staleAfterMs)
  {
    ElectIsLeastKept(a, now, staleAfterMs);
    ElectIsLeastKept(b, now, staleAfterMs);
    WitnessCarriesOver(a, b, now, staleAfterMs);
    WitnessCarriesOver(b, a, now, staleAfterMs);
    ViewsAgree(a, b, now, staleAfterMs);
  }

  lemma {:induction false} WitnessCarriesOver(a: seq<PeerRow>, b: seq<PeerRow>, now: int, staleAfterMs: int)
    requires forall i :: 0 <= i < |a| ==> a[i] in b
    ensures Elect(a, now, staleAfterMs).Some? ==>
              exists i :: 0 <= i < |b| && Kept(b[i], now, staleAfterMs) &&
                     StandingOf(b[i]) == Elect(a, now, staleAfterMs).value
  {
    ElectIsLeastKept(a, now, staleAfterMs);
    if Elect(a, now, staleAfterMs).Some? {
      var i :| 0 <= i < |a| && Kept(a[i], now, staleAfterMs) && StandingOf(a[i]) == Elect(a, now, staleAfterMs).value;
      var j :| 0 <= j < |b| && b[j] == a[i];
    }
  }

  function Lesser(a: Option<Standing>, b: Option<Standing>): Option<Standing> {
    if a.None? then b else if b.Some? && Before(b.value, a.value) then b else a
  }

  /** Merging two views elects the lesser of their winners. */
  lemma {:induction false} ElectionOfMerge(a: seq<PeerRow>, b: seq<PeerRow>, now: int, staleAfterMs: int)
    ensures Elect(a + b, now, staleAfterMs) == Lesser(Elect(a, now, staleAfterMs), Elect(b, now, staleAfterMs))
  {
    if b == [] {
      assert a + b == a;
    } else {
      var init, row := b[..|b| - 1], b[|b| - 1];
      assert (a + b)[..|a + b| - 1] == a + init;
      ElectionOfMerge(a, init, now, staleAfterMs);
      var x, y := Elect(a, now, staleAfterMs), Elect(init, now, staleAfterMs);
      if x.Some? && y.Some? && Kept(row, now, staleAfterMs) {
        BeforeIsStrictTotalOrder(StandingOf(row), y.value, x.value);
        BeforeIsStrictTotalOrder(StandingOf(row), x.value, y.value);
        BeforeIsStrictTotalOrder(y.value, StandingOf(row), x.value);
        BeforeIsStrictTotalOrder(x.value, StandingOf(row), y.value);
        BeforeIsStrictTotalOrder(x.value, y.value, StandingOf(row));
      }
    }
  }

  /** Time only ever drops rows: the standing stays elected while some row carrying it is still fresh, and no longer. */
  lemma {:induction false} HolderKeptWhileFresh(rows: seq<PeerRow>, now: int, later: int, staleAfterMs: int)
    requires now <= later && Elect(rows, now, staleAfterMs).Some?
    ensures Elect(rows, later, staleAfterMs) == Elect(rows, now, staleAfterMs) <==>
            exists i :: 0 <= i < |rows| && Kept(rows[i], later, staleAfterMs) &&
                        StandingOf(rows[i]) == Elect(rows, now, staleAfterMs).value
  {
    var best := Elect(rows, now, staleAfterMs);
    ElectIsLeastKept(rows, now, staleAfterMs);
    ElectIsLeastKept(rows, later, staleAfterMs);
    if exists i :: 0 <= i < |rows| && Kept(rows[i], later, staleAfterMs) && StandingOf(rows[i]) == best.value {
      assert IsLeastKept(best, rows, later, staleAfterMs);
      LeastIsUnique(best, Elect(rows, later, staleAfterMs), rows, later, staleAfterMs);
    }
  }

  /** Raising the term of row `i`, as a restart does, never makes its candidate newly win. */
  lemma {:induction false} RaisedTermNeverWins(rows: seq<PeerRow>, i: nat, term: real, now: int, staleAfterMs: int)
    requires i < |rows| && ReadLeaseIntent(rows[i].lease).Some? && term >= StandingOf(rows[i]).term
    ensures var raised := rows[i := rows[i].(lease := rows[i].lease.(term := NumberField(term)))];
            var c := StandingOf(rows[i]).candidate;
            Holder(raised, now, staleAfterMs) == Some(c) ==> Holder(rows, now, staleAfterMs) == Some(c)
  {
    var raised := rows[i := rows[i].(lease := rows[i].lease.(term := NumberField(term)))];
    var c := StandingOf(rows[i]).candidate;
    ElectIsLeastKept(rows, now, staleAfterMs);
    ElectIsLeastKept(raised, now, staleAfterMs);
    if Holder(raised, now, staleAfterMs) == Some(c) {
      var winner := Elect(raised, now, staleAfterMs).value;
      var w :| 0 <= w < |raised| && Kept(raised[w], now, staleAfterMs) && StandingOf(raised[w]) == winner;
      assert Kept(rows[w], now, staleAfterMs) && StandingOf(rows[w]).candidate == c;
      var best := Elect(rows, now, staleAfterMs).value;
      var v :| 0 <= v < |rows| && Kept(rows[v], now, staleAfterMs) && StandingOf(rows[v]) == best;
      if best.candidate != c {
        assert raised[v] == rows[v];
        BeforeIsStrictTotalOrder(best, StandingOf(rows[w]), winner);
        TextLessTotal(best.candidate, c);
      }
    }
  }
}
