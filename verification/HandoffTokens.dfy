/**
 A handoff in which nothing fails: it succeeds, and delivers exactly the rows whose
 tokens the receiver has not seen.
 */
module HandoffTokens {
  import opened KeyOrder
  import opened HandoffRanges
  import opened RollupHandoff

  function Pick(rows: seq<Row>, p: Row -> bool): (picked: seq<Row>)
    ensures |picked| <= |rows|
  {
    if |rows| == 0 then []
    else
      var n := |rows| - 1;
      if p(rows[n]) then Pick(rows[..n], p) + [rows[n]] else Pick(rows[..n], p)
  }

  lemma {:induction false} PickSplits(rows: seq<Row>, p: Row -> bool, q: Row -> bool, both: Row -> bool)
    requires forall r :: r in rows ==> both(r) == (p(r) || q(r)) && !(p(r) && q(r))
    ensures multiset(Pick(rows, both)) == multiset(Pick(rows, p)) + multiset(Pick(rows, q))
  {
    if |rows| > 0 {
      var n := |rows| - 1;
      assert rows[n] in rows;
      PickSplits(rows[..n], p, q, both);
    }
  }

  lemma {:induction false} PickSame(rows: seq<Row>, p: Row -> bool, q: Row -> bool)
    requires forall r :: r in rows ==> p(r) == q(r)
    ensures Pick(rows, p) == Pick(rows, q)
  {
    if |rows| > 0 {
      assert rows[|rows| - 1] in rows;
      PickSame(rows[..|rows| - 1], p, q);
    }
  }

  lemma {:induction false} PickAll(rows: seq<Row>, p: Row -> bool)
    ensures (forall r :: r in rows ==> p(r)) ==> Pick(rows, p) == rows
    ensures (exists r :: r in rows && !p(r)) ==> |Pick(rows, p)| < |rows|
  {
    if |rows| > 0 {
      var n := |rows| - 1;
      PickAll(rows[..n], p);
      assert rows[n] in rows;
      if r :| r in rows && !p(r) && r != rows[n] {
        assert r in rows[..n];
      }
    }
  }

  lemma {:induction false} InRangeIsPick(rows: seq<Row>, range: Range, p: Row -> bool)
    requires forall r :: r in rows ==> p(r) == Contains(range, r.seriesId)
    ensures InRange(rows, range) == Pick(rows, p)
  {
    if |rows| > 0 {
      assert rows[|rows| - 1] in rows;
      InRangeIsPick(rows[..|rows| - 1], range, p);
    }
  }

  /** The first `i` ranges of a table imported in order, with nothing failing. */
  ghost function ImportAll(name: Naming, s: Source, rows: seq<Row>, d: Dest, n: nat, i: nat): Dest
    requires i <= n
  {
    if i == 0 then d
    else Import(ImportAll(name, s, rows, d, n, i - 1), name(s, i - 1, n), InRange(rows, RangeAt(n, i - 1)))
  }

  /** The row's range is one of the first `i`, and its token was not seen before. */
  function Delivered(name: Naming, s: Source, d: Dest, n: nat, i: nat, r: Row): bool {
    RangeIndex(n, r.seriesId) < i && name(s, RangeIndex(n, r.seriesId), n) !in d.seen
  }

  /** The row is in range `i`, and its token was not seen before. */
  function DeliveredBy(name: Naming, s: Source, d: Dest, n: nat, i: nat, r: Row): bool {
    RangeIndex(n, r.seriesId) == i && name(s, i, n) !in d.seen
  }

  lemma {:induction false} SeenOnlyGrowsByNames(name: Naming, s: Source, rows: seq<Row>, d: Dest, n: nat, i: nat,
                                                j: nat)
    requires Injective(name) && i <= j < n
    ensures name(s, j, n) in ImportAll(name, s, rows, d, n, i).seen <==> name(s, j, n) in d.seen
  {
    if i > 0 { SeenOnlyGrowsByNames(name, s, rows, d, n, i - 1, j); }
  }

  ghost function DeliveredRows(name: Naming, s: Source, rows: seq<Row>, d: Dest, n: nat, i: nat): seq<Row> {
    Pick(rows, r => Delivered(name, s, d, n, i, r))
  }

  ghost function DeliveredByRange(name: Naming, s: Source, rows: seq<Row>, d: Dest, n: nat, i: nat): seq<Row> {
    Pick(rows, r => DeliveredBy(name, s, d, n, i, r))
  }

  /** One range more delivers what travels in it. */
  lemma DeliversOneMore(name: Naming, s: Source, rows: seq<Row>, d: Dest, n: nat, i: nat, before: Dest)
    requires i < n < U64 && forall r :: r in rows ==> r.seriesId < U64
    requires name(s, i, n) in before.seen <==> name(s, i, n) in d.seen
    ensures Import(before, name(s, i, n), InRange(rows, RangeAt(n, i))).rows
         == before.rows + multiset(DeliveredByRange(name, s, rows, d, n, i))
  {
    RangeDelivers(name, s, rows, d, n, i);
  }

  lemma DeliveredSplits(name: Naming, s: Source, rows: seq<Row>, d: Dest, n: nat, i: nat)
    ensures multiset(DeliveredRows(name, s, rows, d, n, i + 1))
         == multiset(DeliveredRows(name, s, rows, d, n, i)) + multiset(DeliveredByRange(name, s, rows, d, n, i))
  {
    PickSplits(rows, r => Delivered(name, s, d, n, i, r), r => DeliveredBy(name, s, d, n, i, r),
               r => Delivered(name, s, d, n, i + 1, r));
  }

  lemma NoneDelivered(name: Naming, s: Source, rows: seq<Row>, d: Dest, n: nat)
    ensures DeliveredRows(name, s, rows, d, n, 0) == []
  {
    PickSame(rows, r => Delivered(name, s, d, n, 0, r), r => false);
    PickNone(rows);
  }

  lemma Sums(d: multiset<Row>, a: multiset<Row>, b: multiset<Row>)
    ensures (d + a) + b == d + (a + b) && d + multiset{} == d
  {
  }

  lemma ImportedOneMore(name: Naming, s: Source, rows: seq<Row>, d: Dest, n: nat, i: nat)
    requires Injective(name) && i < n < U64 && forall r :: r in rows ==> r.seriesId < U64
    ensures ImportAll(name, s, rows, d, n, i + 1).rows
         == ImportAll(name, s, rows, d, n, i).rows + multiset(DeliveredByRange(name, s, rows, d, n, i))
  {
    SeenOnlyGrowsByNames(name, s, rows, d, n, i, i);
    DeliversOneMore(name, s, rows, d, n, i, ImportAll(name, s, rows, d, n, i));
  }

  lemma DeliveredSoFar(name: Naming, s: Source, rows: seq<Row>, d: Dest, n: nat, i: nat, before: multiset<Row>,
                       after: multiset<Row>)
    requires Injective(name) && i < n < U64 && forall r :: r in rows ==> r.seriesId < U64
    requires before == ImportAll(name, s, rows, d, n, i).rows && after == ImportAll(name, s, rows, d, n, i + 1).rows
    requires before == d.rows + multiset(DeliveredRows(name, s, rows, d, n, i))
    ensures after == d.rows + multiset(DeliveredRows(name, s, rows, d, n, i + 1))
  {
    ImportedOneMore(name, s, rows, d, n, i);
    DeliveredSplits(name, s, rows, d, n, i);
    Sums(d.rows, multiset(DeliveredRows(name, s, rows, d, n, i)), multiset(DeliveredByRange(name, s, rows, d, n, i)));
  }

  lemma {:induction false} ImportAllDelivers(name: Naming, s: Source, rows: seq<Row>, d: Dest, n: nat, i: nat)
    requires Injective(name) && 0 < n < U64 && i <= n && forall r :: r in rows ==> r.seriesId < U64
    ensures ImportAll(name, s, rows, d, n, i).rows == d.rows + multiset(DeliveredRows(name, s, rows, d, n, i))
  {
    if i == 0 {
      NoneDelivered(name, s, rows, d, n);
      Sums(d.rows, multiset{}, multiset{});
    } else {
      ImportAllDelivers(name, s, rows, d, n, i - 1);
      DeliveredSoFar(name, s, rows, d, n, i - 1, ImportAll(name, s, rows, d, n, i - 1).rows,
                     ImportAll(name, s, rows, d, n, i).rows);
    }
  }

  lemma {:induction false} PickNone(rows: seq<Row>)
    ensures Pick(rows, r => false) == []
  {
    if |rows| > 0 { PickNone(rows[..|rows| - 1]); }
  }

  /** What importing range `i` adds: its rows, or nothing when its token was seen. */
  lemma RangeDelivers(name: Naming, s: Source, rows: seq<Row>, d: Dest, n: nat, i: nat)
    requires 0 < n < U64 && i < n && forall r :: r in rows ==> r.seriesId < U64
    ensures Pick(rows, r => DeliveredBy(name, s, d, n, i, r)) ==
            if name(s, i, n) in d.seen then [] else InRange(rows, RangeAt(n, i))
  {
    forall r | r in rows ensures Contains(RangeAt(n, i), r.seriesId) == (RangeIndex(n, r.seriesId) == i) {
      RangesPartition(n, i, r.seriesId);
    }
    if name(s, i, n) in d.seen {
      PickSame(rows, r => DeliveredBy(name, s, d, n, i, r), r => false);
      PickNone(rows);
    } else {
      InRangeIsPick(rows, RangeAt(n, i), r => DeliveredBy(name, s, d, n, i, r));
    }
  }

  /** No row of the table travels under a token the receiver has already seen. */
  ghost predicate TokensFresh(s: Source, rows: seq<Row>, d: Dest) {
    var n := RangeCount(|rows|);
    forall r :: r in rows ==> TokenOf(s, RangeIndex(n, r.seriesId), n) !in d.seen
  }

  /**
   Tokens name a range by node, table, index and count, not by what is in it. A
   handoff in which nothing fails delivers the whole table exactly when none of
   the tokens of its rows was seen before: a node that hands off, returns under
   the same id and leaves again with as many ranges loses those rows.
   */
  lemma FreshTokensNeeded(s: Source, rows: seq<Row>, d: Dest)
    requires |rows| < U64 && forall r :: r in rows ==> r.seriesId < U64
    ensures var n := RangeCount(|rows|);
            ImportAll(TokenOf, s, rows, d, n, n).rows == d.rows + multiset(rows) <==> TokensFresh(s, rows, d)
  {
    var n := RangeCount(|rows|);
    TokensInjective();
    ImportAllDelivers(TokenOf, s, rows, d, n, n);
    var picked := DeliveredRows(TokenOf, s, rows, d, n, n);
    PickAll(rows, r => Delivered(TokenOf, s, d, n, n, r));
    if TokensFresh(s, rows, d) {
      assert picked == rows;
    } else {
      assert |multiset(picked)| < |multiset(rows)|;
      assert (d.rows + multiset(picked)) - d.rows == multiset(picked);
      assert (d.rows + multiset(rows)) - d.rows == multiset(rows);
    }
  }

  // -------------------------------------------------------------------- nothing fails

  ghost predicate AllFine(env: nat -> Fault) {
    forall t :: env(t).Fine?
  }

  /** A table in which nothing fails while it is sent: every range of it is imported, in order. */
  ghost function Received(name: Naming, s: Source, rows: seq<Row>, d: Dest): Dest {
    ImportAll(name, s, rows, d, RangeCount(|rows|), RangeCount(|rows|))
  }

  /** The attempt goes on, with table `t` at the receiver now `d` and everything else as it was. */
  ghost predicate Delivers(w: World, p: Progress, t: Table, d: Dest) {
    && p.ok && p.world.local == w.local && DestOf(p.world, t) == d
    && forall u :: u != t ==> DestOf(p.world, u) == DestOf(w, u)
  }

  lemma FineRange(name: Naming, w: World, s: Source, ranges: nat, i: nat, env: nat -> Fault, sent: nat, t: nat)
    requires i < ranges && AllFine(env)
    ensures Delivers(w, SendRange(name, w, s, ranges, i, env, sent, t), s.table,
                     Import(DestOf(w, s.table), name(s, i, ranges), InRange(LocalRows(w, s), RangeAt(ranges, i))))
  {
  }

  lemma {:induction false} FineRanges(name: Naming, w: World, s: Source, rows: seq<Row>, d: Dest, ranges: nat, i: nat,
                                      env: nat -> Fault, sent: nat, t: nat)
    requires i <= ranges && AllFine(env) && rows == LocalRows(w, s)
    requires DestOf(w, s.table) == ImportAll(name, s, rows, d, ranges, i)
    ensures Delivers(w, SendRanges(name, w, s, ranges, i, env, sent, t), s.table,
                     ImportAll(name, s, rows, d, ranges, ranges))
    decreases ranges - i
  {
    if i < ranges {
      FineRange(name, w, s, ranges, i, env, sent, t);
      var p := SendRange(name, w, s, ranges, i, env, sent, t);
      FineRanges(name, p.world, s, rows, d, ranges, i + 1, env, p.sent, p.calls);
    }
  }

  lemma NothingToImport(name: Naming, s: Source, d: Dest)
    ensures Received(name, s, [], d) == d
  {
    assert ImportAll(name, s, [], d, 1, 0) == d;
  }

  lemma FineTable(name: Naming, w: World, s: Source, env: nat -> Fault, sent: nat, t: nat)
    requires AllFine(env)
    ensures Delivers(w, SendTable(name, w, s, env, sent, t), s.table,
                     Received(name, s, LocalRows(w, s), DestOf(w, s.table)))
  {
    var rows := LocalRows(w, s);
    assert env(t).Fine?;
    if |rows| == 0 {
      NothingToImport(name, s, DestOf(w, s.table));
    } else {
      FineRanges(name, w, s, rows, DestOf(w, s.table), RangeCount(|rows|), 0, env, sent, t + 1);
    }
  }

  /** What a key's handoff comes to when nothing fails. */
  ghost predicate HandedOff(name: Naming, w: World, node: nat, key: Key, p: Progress) {
    && p.ok
    && (forall s :: LocalRows(p.world, s) == if s.node == node && s.table.key == key then [] else LocalRows(w, s))
    && (forall t :: DestOf(p.world, t) ==
          if t.key == key then Received(name, Source(node, t), LocalRows(w, Source(node, t)), DestOf(w, t))
            else DestOf(w, t))
  }

  lemma FineKey(name: Naming, w: World, node: nat, key: Key, env: nat -> Fault, sent: nat, t: nat)
    requires AllFine(env)
    ensures HandedOff(name, w, node, key, HandOffKey(name, w, node, key, env, sent, t))
  {
    var fact, dim := Source(node, Table(key, false)), Source(node, Table(key, true));
    FineTable(name, w, fact, env, sent, t);
    var p1 := SendTable(name, w, fact, env, sent, t);
    FineTable(name, p1.world, dim, env, p1.sent, p1.calls);
    var p2 := SendTable(name, p1.world, dim, env, p1.sent, p1.calls);
    var p3 := EmptyTable(p2.world, fact, env, p2.sent, p2.calls);
    assert env(p2.calls).Fine? && env(p3.calls).Fine?;
    var p := HandOffKey(name, w, node, key, env, sent, t);
    assert p == EmptyTable(p3.world, dim, env, p3.sent, p3.calls);
    forall u ensures DestOf(p.world, u) ==
      if u.key == key then Received(name, Source(node, u), LocalRows(w, Source(node, u)), DestOf(w, u))
        else DestOf(w, u)
    {
      assert u.key == key ==> u == fact.table || u == dim.table;
    }
    forall s ensures LocalRows(p.world, s) == if s.node == node && s.table.key == key then [] else LocalRows(w, s) {
      assert s.node == node && s.table.key == key ==> s == fact || s == dim;
    }
  }

  /** An attempt in which nothing fails succeeds. */
  lemma {:induction false} FineAttemptSucceeds(name: Naming, w: World, node: nat, keys: seq<Key>, env: nat -> Fault)
    requires AllFine(env)
    ensures HandOffKeys(name, w, node, keys, env).ok
  {
    if |keys| > 0 {
      var n := |keys| - 1;
      FineAttemptSucceeds(name, w, node, keys[..n], env);
      var p := HandOffKeys(name, w, node, keys[..n], env);
      FineKey(name, p.world, node, keys[n], env, p.sent, p.calls);
    }
  }

  // --------------------------------------------------------------- tokens seen before

  /** 64-bit ids and counts. */
  ghost predicate Fits(rows: seq<Row>) {
    |rows| < U64 && forall r :: r in rows ==> r.seriesId < U64
  }

  /** The receiver's table gained every row once. */
  ghost predicate Gained(d: Dest, d': Dest, rows: seq<Row>) {
    d'.rows == d.rows + multiset(rows)
  }

  /**
   A handoff in which nothing fails empties both tables, whatever arrived; and each
   arrived whole exactly when none of the tokens of its rows had been seen before.
   */
  lemma KeyExact(w: World, node: nat, key: Key, env: nat -> Fault, sent: nat, t: nat, series: bool)
    requires AllFine(env) && Fits(LocalRows(w, Source(node, Table(key, series))))
    ensures var s := Source(node, Table(key, series));
            var p := HandOffKey(TokenOf, w, node, key, env, sent, t);
            && p.ok && LocalRows(p.world, s) == []
            && (Gained(DestOf(w, s.table), DestOf(p.world, s.table), LocalRows(w, s)) <==>
                TokensFresh(s, LocalRows(w, s), DestOf(w, s.table)))
  {
    var s := Source(node, Table(key, series));
    FineKey(TokenOf, w, node, key, env, sent, t);
    FreshTokensNeeded(s, LocalRows(w, s), DestOf(w, s.table));
  }

  // --------------------------------------------------------------- the second handoff

  /** The token is that of a row in one of the first `i` ranges. */
  ghost predicate Carried(name: Naming, s: Source, rows: seq<Row>, n: nat, i: nat, tok: string)
    requires n > 0
  {
    exists r :: r in rows && RangeIndex(n, r.seriesId) < i && name(s, RangeIndex(n, r.seriesId), n) == tok
  }

  lemma {:induction false} InRangeExactly(rows: seq<Row>, range: Range)
    ensures |InRange(rows, range)| > 0 <==> exists r :: r in rows && Contains(range, r.seriesId)
  {
    if |rows| > 0 {
      var n := |rows| - 1;
      InRangeExactly(rows[..n], range);
      assert rows[n] in rows;
      if r :| r in rows && Contains(range, r.seriesId) && r != rows[n] {
        assert r in rows[..n];
      }
    }
  }

  lemma RangeNonEmpty(rows: seq<Row>, n: nat, i: nat)
    requires i < n < U64 && Fits(rows)
    ensures |InRange(rows, RangeAt(n, i))| > 0 <==> exists r :: r in rows && RangeIndex(n, r.seriesId) == i
  {
    InRangeExactly(rows, RangeAt(n, i));
    forall r | r in rows ensures Contains(RangeAt(n, i), r.seriesId) == (RangeIndex(n, r.seriesId) == i) {
      RangesPartition(n, i, r.seriesId);
    }
  }

  lemma CarriedOneMore(name: Naming, s: Source, rows: seq<Row>, n: nat, i: nat, tok: string)
    requires i < n < U64 && Fits(rows)
    ensures Carried(name, s, rows, n, i + 1, tok) <==>
            Carried(name, s, rows, n, i, tok) || (|InRange(rows, RangeAt(n, i))| > 0 && name(s, i, n) == tok)
  {
    RangeNonEmpty(rows, n, i);
  }

  lemma ImportSees(d: Dest, token: string, rows: seq<Row>, tok: string)
    ensures tok in Import(d, token, rows).seen <==> tok in d.seen || (|rows| > 0 && token == tok)
  {
  }

  /** The tokens seen afterwards are those seen before and those of the rows. */
  lemma {:induction false} SeenAfter(name: Naming, s: Source, rows: seq<Row>, d: Dest, n: nat, i: nat, tok: string)
    requires 0 < n < U64 && i <= n && Fits(rows)
    ensures tok in ImportAll(name, s, rows, d, n, i).seen <==> tok in d.seen || Carried(name, s, rows, n, i, tok)
  {
    if i > 0 {
      SeenAfter(name, s, rows, d, n, i - 1, tok);
      CarriedOneMore(name, s, rows, n, i - 1, tok);
      ImportSees(ImportAll(name, s, rows, d, n, i - 1), name(s, i - 1, n), InRange(rows, RangeAt(n, i - 1)), tok);
    }
  }

  /** Some row of each table travels in the same range of as many. */
  ghost predicate ShareRange(rows: seq<Row>, again: seq<Row>) {
    var n := RangeCount(|rows|);
    n == RangeCount(|again|) && exists r, q ::
      r in rows && q in again && RangeIndex(n, r.seriesId) == RangeIndex(n, q.seriesId)
  }

  lemma FreshAgain(s: Source, rows: seq<Row>, again: seq<Row>, d: Dest)
    requires Fits(rows) && Fits(again) && |rows| > 0 && TokensFresh(s, again, d)
    ensures TokensFresh(s, again, Received(TokenOf, s, rows, d)) <==> !ShareRange(rows, again)
  {
    var n, m := RangeCount(|rows|), RangeCount(|again|);
    var seen := Received(TokenOf, s, rows, d).seen;
    TokensInjective();
    forall q | q in again
      ensures TokenOf(s, RangeIndex(m, q.seriesId), m) in seen <==>
              n == m && exists r :: r in rows && RangeIndex(n, r.seriesId) == RangeIndex(n, q.seriesId)
    {
      var tok := TokenOf(s, RangeIndex(m, q.seriesId), m);
      SeenAfter(TokenOf, s, rows, d, n, n, tok);
      assert Carried(TokenOf, s, rows, n, n, tok) <==>
             n == m && exists r :: r in rows && RangeIndex(n, r.seriesId) == RangeIndex(n, q.seriesId);
    }
  }

  ghost function Returned(w: World, s: Source, again: seq<Row>): World {
    w.(local := w.local[s := again])
  }

  /**
   A node hands off, returns under its id with other rows and leaves again, with
   nothing ever failing: the second time its table is emptied too, and has arrived
   whole exactly when no two rows of the two times fall in the same range of as many.
   */
  lemma SecondHandoffExact(w: World, node: nat, key: Key, series: bool, again: seq<Row>, env: nat -> Fault,
                           env': nat -> Fault)
    requires AllFine(env) && AllFine(env')
    requires var s := Source(node, Table(key, series));
             |LocalRows(w, s)| > 0 && Fits(LocalRows(w, s)) && Fits(again) && TokensFresh(s, again, DestOf(w, s.table))
    ensures var s := Source(node, Table(key, series));
            var w1 := Returned(HandOffKey(TokenOf, w, node, key, env, 0, 0).world, s, again);
            var w2 := HandOffKey(TokenOf, w1, node, key, env', 0, 0).world;
            && LocalRows(w2, s) == []
            && (Gained(DestOf(w1, s.table), DestOf(w2, s.table), again) <==> !ShareRange(LocalRows(w, s), again))
  {
    var s := Source(node, Table(key, series));
    var w1 := Returned(HandOffKey(TokenOf, w, node, key, env, 0, 0).world, s, again);
    FineKey(TokenOf, w, node, key, env, 0, 0);
    FreshAgain(s, LocalRows(w, s), again, DestOf(w, s.table));
    KeyExact(w1, node, key, env', 0, 0, series);
  }

  /** With no more rows than one range holds either time, nothing of the second handoff arrives. */
  lemma SmallReturnIsLost(w: World, node: nat, key: Key, series: bool, again: seq<Row>, env: nat -> Fault,
                          env': nat -> Fault)
    requires AllFine(env) && AllFine(env')
    requires var s := Source(node, Table(key, series));
             && 0 < |LocalRows(w, s)| <= HANDOFF_CHUNK_ROWS && 0 < |again| <= HANDOFF_CHUNK_ROWS
             && Fits(LocalRows(w, s)) && Fits(again)
    ensures var s := Source(node, Table(key, series));
            var w1 := Returned(HandOffKey(TokenOf, w, node, key, env, 0, 0).world, s, again);
            var w2 := HandOffKey(TokenOf, w1, node, key, env', 0, 0).world;
            LocalRows(w2, s) == [] && DestOf(w2, s.table) == DestOf(w1, s.table)
  {
    var s := Source(node, Table(key, series));
    var w1 := Returned(HandOffKey(TokenOf, w, node, key, env, 0, 0).world, s, again);
    FineKey(TokenOf, w, node, key, env, 0, 0);
    FineKey(TokenOf, w1, node, key, env', 0, 0);
    OnlyRangeSeen(s, LocalRows(w, s), DestOf(w, s.table));
    OnlyRangeSkipped(s, again, DestOf(w1, s.table));
  }

  lemma OnlyRangeSeen(s: Source, rows: seq<Row>, d: Dest)
    requires 0 < |rows| <= HANDOFF_CHUNK_ROWS && Fits(rows)
    ensures TokenOf(s, 0, 1) in Received(TokenOf, s, rows, d).seen
  {
    SeenAfter(TokenOf, s, rows, d, 1, 1, TokenOf(s, 0, 1));
    assert rows[0] in rows && RangeIndex(1, rows[0].seriesId) == 0;
  }

  lemma OnlyRangeSkipped(s: Source, rows: seq<Row>, d: Dest)
    requires 0 < |rows| <= HANDOFF_CHUNK_ROWS && TokenOf(s, 0, 1) in d.seen
    ensures Received(TokenOf, s, rows, d) == d
  {
    assert ImportAll(TokenOf, s, rows, d, 1, 0) == d;
  }
}
