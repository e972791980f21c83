/** Over any sequence of attempts, failures and lost replies: no rollup row is lost, and each is inserted once. */
module HandoffSafety {
  import opened KeyOrder
  import opened HandoffRanges
  import opened RollupHandoff

  // ------------------------------------------------------------- one more range arrives

  /** Seeing one more token adds exactly the rows that travel under it. */
  lemma {:induction false} ArrivedGrows(token: Row -> string, rows: seq<Row>, seen: set<string>, tok: string,
                                        range: Range)
    requires tok !in seen
    requires forall r :: r in rows ==> (token(r) == tok <==> Contains(range, r.seriesId))
    ensures multiset(Arrived(token, rows, seen + {tok})) ==
            multiset(Arrived(token, rows, seen)) + multiset(InRange(rows, range))
  {
    if |rows| > 0 {
      var n := |rows| - 1;
      ArrivedGrows(token, rows[..n], seen, tok, range);
      assert rows[n] in rows;
    }
  }

  /** A token none of these rows travels under changes nothing. */
  lemma {:induction false} ArrivedElsewhere(token: Row -> string, rows: seq<Row>, seen: set<string>, tok: string)
    requires forall r :: r in rows ==> token(r) != tok
    ensures Arrived(token, rows, seen + {tok}) == Arrived(token, rows, seen)
  {
    if |rows| > 0 {
      var n := |rows| - 1;
      ArrivedElsewhere(token, rows[..n], seen, tok);
      assert rows[n] in rows;
    }
  }

  /** The name of range `i` of a source. */
  ghost function RangeToken(start: Start, s: Source, i: nat): string {
    start.name(s, i, RangeCount(|StartRows(start, s)|))
  }

  ghost function RangeOf(start: Start, s: Source, i: nat): Range
    requires i < RangeCount(|StartRows(start, s)|)
  {
    RangeAt(RangeCount(|StartRows(start, s)|), i)
  }

  lemma RowTokenIs(start: Start, s: Source, r: Row, i: nat)
    requires ValidStart(start) && r in StartRows(start, s) && i < RangeCount(|StartRows(start, s)|)
    ensures RowToken(start, s, r) == RangeToken(start, s, i) <==> Contains(RangeOf(start, s, i), r.seriesId)
  {
    RangesPartition(RangeCount(|StartRows(start, s)|), i, r.seriesId);
  }

  lemma FromGrows(start: Start, s: Source, o: Source, seen: set<string>, i: nat, tok: string, range: Range)
    requires ValidStart(start) && s.table == o.table && i < RangeCount(|StartRows(start, o)|)
    requires tok == RangeToken(start, o, i) && tok !in seen && range == RangeOf(start, o, i)
    ensures ArrivedFrom(start, s, seen + {tok}) ==
            ArrivedFrom(start, s, seen) + if s == o then multiset(InRange(StartRows(start, o), range)) else multiset{}
  {
    var rows := StartRows(start, s);
    if s == o {
      forall r | r in rows ensures RowToken(start, s, r) == tok <==> Contains(range, r.seriesId) {
        RowTokenIs(start, s, r, i);
      }
      ArrivedGrows(r => RowToken(start, s, r), rows, seen, tok, range);
    } else {
      assert forall r :: r in rows ==> RowToken(start, s, r) != tok;
      ArrivedElsewhere(r => RowToken(start, s, r), rows, seen, tok);
    }
  }

  /** What one node more adds to the sum. */
  lemma SumGrows(before: multiset<Row>, before': multiset<Row>, from: multiset<Row>, from': multiset<Row>,
                 gain: multiset<Row>, had: bool, has: bool)
    requires before' == before + (if had then gain else multiset{})
    requires from' == from + (if has then gain else multiset{})
    requires !(had && has)
    ensures before' + from' == (before + from) + if had || has then gain else multiset{}
  {
  }

  lemma OneNodeMore(nodes: seq<nat>, k: nat, node: nat)
    requires 0 < k <= |nodes| && forall i, j :: 0 <= i < j < |nodes| ==> nodes[i] != nodes[j]
    ensures node in nodes[..k] <==> node in nodes[..k - 1] || nodes[k - 1] == node
    ensures !(node in nodes[..k - 1] && nodes[k - 1] == node)
  {
    assert nodes[..k] == nodes[..k - 1] + [nodes[k - 1]];
  }

  lemma {:induction false} AtGrows(start: Start, o: Source, seen: set<string>, i: nat, tok: string, range: Range,
                                   k: nat, gain: multiset<Row>)
    requires ValidStart(start) && k <= |start.nodes| && i < RangeCount(|StartRows(start, o)|)
    requires tok == RangeToken(start, o, i) && tok !in seen && range == RangeOf(start, o, i)
    requires gain == multiset(InRange(StartRows(start, o), range))
    ensures ArrivedAt(start, o.table, seen + {tok}, k) ==
            ArrivedAt(start, o.table, seen, k) + if o.node in start.nodes[..k] then gain else multiset{}
  {
    if k > 0 {
      var last := Source(start.nodes[k - 1], o.table);
      AtGrows(start, o, seen, i, tok, range, k - 1, gain);
      FromGrows(start, last, o, seen, i, tok, range);
      OneNodeMore(start.nodes, k, o.node);
      SumGrows(ArrivedAt(start, o.table, seen, k - 1), ArrivedAt(start, o.table, seen + {tok}, k - 1),
               ArrivedFrom(start, last, seen), ArrivedFrom(start, last, seen + {tok}),
               gain, o.node in start.nodes[..k - 1], last == o);
    }
  }

  // ------------------------------------------------------------------ the world moves on

  /** Only the receiver's table `t` changed, and it has seen no less. */
  ghost predicate DestMoved(w: World, w': World, t: Table) {
    && w'.local == w.local
    && (forall u :: u != t ==> DestOf(w', u) == DestOf(w, u))
    && DestOf(w, t).seen <= DestOf(w', t).seen
  }

  lemma ArrivedStays(start: Start, w: World, w': World, s: Source)
    requires AllArrived(start, w, s) && DestOf(w, s.table).seen <= DestOf(w', s.table).seen
    ensures AllArrived(start, w', s)
  {
  }

  lemma DestMovedKeepsInv(start: Start, w: World, w': World, t: Table)
    requires Inv(start, w) && DestMoved(w, w', t) && DestExact(start, w', t)
    ensures Inv(start, w')
  {
    forall u ensures DestExact(start, w', u) {
      assert DestExact(start, w, u);
    }
    forall n, u | n in start.nodes ensures SourceSafe(start, w', Source(n, u)) {
      var s := Source(n, u);
      assert SourceSafe(start, w, s);
      if LocalRows(w, s) != StartRows(start, s) {
        ArrivedStays(start, w, w', s);
      }
    }
  }

  /** The rows of range `i` have all arrived. */
  ghost predicate RangeArrived(start: Start, w: World, s: Source, i: nat) {
    forall r :: r in StartRows(start, s) && RowToken(start, s, r) == RangeToken(start, s, i) ==>
      RangeToken(start, s, i) in DestOf(w, s.table).seen
  }

  ghost function Imported(w: World, t: Table, tok: string, rows: seq<Row>): World {
    w.(dest := w.dest[t := Import(DestOf(w, t), tok, rows)])
  }

  lemma ImportExact(start: Start, w: World, s: Source, i: nat, tok: string, range: Range)
    requires ValidStart(start) && DestExact(start, w, s.table) && s.node in start.nodes
    requires i < RangeCount(|StartRows(start, s)|)
    requires tok == RangeToken(start, s, i) && range == RangeOf(start, s, i)
    ensures DestExact(start, Imported(w, s.table, tok, InRange(StartRows(start, s), range)), s.table)
  {
    var d := DestOf(w, s.table);
    if tok !in d.seen {
      AtGrows(start, s, d.seen, i, tok, range, |start.nodes|, multiset(InRange(StartRows(start, s), range)));
      assert start.nodes[..|start.nodes|] == start.nodes;
    }
  }

  lemma ImportKeepsInv(start: Start, w: World, s: Source, i: nat, tok: string, range: Range)
    requires ValidStart(start) && Inv(start, w) && s.node in start.nodes && i < RangeCount(|StartRows(start, s)|)
    requires tok == RangeToken(start, s, i) && range == RangeOf(start, s, i)
    ensures var w' := Imported(w, s.table, tok, InRange(StartRows(start, s), range));
            Inv(start, w') && DestMoved(w, w', s.table)
  {
    var w' := Imported(w, s.table, tok, InRange(StartRows(start, s), range));
    assert DestExact(start, w, s.table);
    ImportExact(start, w, s, i, tok, range);
    DestMovedKeepsInv(start, w, w', s.table);
  }

  lemma {:induction false} InRangeHolds(rows: seq<Row>, r: Range, x: Row)
    requires x in rows && Contains(r, x.seriesId)
    ensures |InRange(rows, r)| > 0
  {
    var n := |rows| - 1;
    if x != rows[n] {
      assert x in rows[..n];
      InRangeHolds(rows[..n], r, x);
    }
  }

  /** After a range was exported empty, or imported, its rows have all arrived. */
  lemma RangeSettled(start: Start, w: World, s: Source, i: nat)
    requires ValidStart(start) && i < RangeCount(|StartRows(start, s)|)
    requires |InRange(StartRows(start, s), RangeOf(start, s, i))| == 0
             || RangeToken(start, s, i) in DestOf(w, s.table).seen
    ensures RangeArrived(start, w, s, i)
  {
    forall r | r in StartRows(start, s) && RowToken(start, s, r) == RangeToken(start, s, i)
      ensures RangeToken(start, s, i) in DestOf(w, s.table).seen
    {
      RowTokenIs(start, s, r, i);
      InRangeHolds(StartRows(start, s), RangeOf(start, s, i), r);
    }
  }

  /** What sending keeps: the invariant, everything local, and everything seen. */
  ghost predicate Sends(start: Start, w: World, s: Source, p: Progress) {
    Inv(start, p.world) && DestMoved(w, p.world, s.table)
  }

  lemma SendRangeKeeps(start: Start, w: World, s: Source, ranges: nat, i: nat, env: nat -> Fault, sent: nat, t: nat)
    requires ValidStart(start) && Inv(start, w) && s.node in start.nodes
    requires LocalRows(w, s) == StartRows(start, s) && ranges == RangeCount(|StartRows(start, s)|) && i < ranges
    ensures var p := SendRange(start.name, w, s, ranges, i, env, sent, t);
            Sends(start, w, s, p) && (p.ok ==> RangeArrived(start, p.world, s, i))
  {
    var p := SendRange(start.name, w, s, ranges, i, env, sent, t);
    ImportKeepsInv(start, w, s, i, RangeToken(start, s, i), RangeOf(start, s, i));
    if p.ok {
      RangeSettled(start, p.world, s, i);
    }
  }

  lemma EveryRangeMeansAll(start: Start, w: World, s: Source)
    requires RangesArrived(start, w, s, RangeCount(|StartRows(start, s)|))
    ensures AllArrived(start, w, s)
  {
    var n := RangeCount(|StartRows(start, s)|);
    forall r | r in StartRows(start, s) ensures RowToken(start, s, r) in DestOf(w, s.table).seen {
      var j := RangeIndex(n, r.seriesId);
      assert RowToken(start, s, r) == RangeToken(start, s, j);
      assert RangeArrived(start, w, s, j);
    }
  }

  lemma RangeArrivedStays(start: Start, w: World, w': World, s: Source, j: nat)
    requires RangeArrived(start, w, s, j) && DestOf(w, s.table).seen <= DestOf(w', s.table).seen
    ensures RangeArrived(start, w', s, j)
  {
  }

  /** The first `i` ranges of a source have arrived. */
  ghost predicate RangesArrived(start: Start, w: World, s: Source, i: nat) {
    forall j :: 0 <= j < i ==> RangeArrived(start, w, s, j)
  }

  lemma OneRangeMore(start: Start, w: World, w': World, s: Source, i: nat)
    requires RangesArrived(start, w, s, i) && DestMoved(w, w', s.table) && RangeArrived(start, w', s, i)
    ensures RangesArrived(start, w', s, i + 1)
  {
    forall j | 0 <= j < i ensures RangeArrived(start, w', s, j) {
      RangeArrivedStays(start, w, w', s, j);
    }
  }

  lemma SendsOn(start: Start, w: World, s: Source, p: Progress, q: Progress)
    requires Sends(start, w, s, p) && Sends(start, p.world, s, q)
    ensures Sends(start, w, s, q)
  {
    DestMovedTransitive(w, p.world, q.world, s.table);
  }

  /** Sending range `i` and, if it worked, those after it. */
  lemma SendRangesFrom(name: Naming, w: World, s: Source, ranges: nat, i: nat, env: nat -> Fault, sent: nat, t: nat)
    requires i < ranges
    ensures var p := SendRange(name, w, s, ranges, i, env, sent, t);
            SendRanges(name, w, s, ranges, i, env, sent, t) ==
              if p.ok then SendRanges(name, p.world, s, ranges, i + 1, env, p.sent, p.calls) else p
  {
  }

  /** Where sending stands before range `i`: the table is untouched and the ranges before have arrived. */
  ghost predicate Sending(start: Start, w: World, s: Source, i: nat) {
    Inv(start, w) && LocalRows(w, s) == StartRows(start, s) && RangesArrived(start, w, s, i)
  }

  lemma SendOneMore(start: Start, w: World, s: Source, ranges: nat, i: nat, env: nat -> Fault, sent: nat, t: nat,
                    p: Progress)
    requires ValidStart(start) && s.node in start.nodes && Sending(start, w, s, i)
    requires ranges == RangeCount(|StartRows(start, s)|) && i < ranges
    requires p == SendRange(start.name, w, s, ranges, i, env, sent, t)
    ensures Sends(start, w, s, p) && (p.ok ==> Sending(start, p.world, s, i + 1))
  {
    SendRangeKeeps(start, w, s, ranges, i, env, sent, t);
    if p.ok {
      OneRangeMore(start, w, p.world, s, i);
    }
  }

  lemma {:induction false} SendRangesKeep(start: Start, w: World, s: Source, ranges: nat, i: nat, env: nat -> Fault,
                                          sent: nat, t: nat, q: Progress)
    requires ValidStart(start) && s.node in start.nodes && Sending(start, w, s, i)
    requires ranges == RangeCount(|StartRows(start, s)|) && i <= ranges
    requires q == SendRanges(start.name, w, s, ranges, i, env, sent, t)
    ensures Sends(start, w, s, q) && (q.ok ==> AllArrived(start, q.world, s))
    decreases ranges - i
  {
    if i == ranges {
      EveryRangeMeansAll(start, w, s);
    } else {
      var p := SendRange(start.name, w, s, ranges, i, env, sent, t);
      SendOneMore(start, w, s, ranges, i, env, sent, t, p);
      SendRangesFrom(start.name, w, s, ranges, i, env, sent, t);
      if p.ok {
        SendRangesKeep(start, p.world, s, ranges, i + 1, env, p.sent, p.calls, q);
        SendsOn(start, w, s, p, q);
      }
    }
  }

  lemma DestMovedTransitive(a: World, b: World, c: World, t: Table)
    requires DestMoved(a, b, t) && DestMoved(b, c, t)
    ensures DestMoved(a, c, t)
  {
  }

  /** The reply to a table's count can be read, or nothing hangs on it: all of the table has arrived. */
  ghost predicate CountHeard(start: Start, w: World, s: Source, env: nat -> Fault, t: nat) {
    env(t).Garbled? ==> AllArrived(start, w, s)
  }

  lemma SendTableKeeps(start: Start, w: World, s: Source, env: nat -> Fault, sent: nat, t: nat)
    requires ValidStart(start) && Inv(start, w) && s.node in start.nodes
    ensures var p := SendTable(start.name, w, s, env, sent, t);
            Sends(start, w, s, p) && (p.ok && CountHeard(start, w, s, env, t) ==> AllArrived(start, p.world, s))
  {
    assert SourceSafe(start, w, Source(s.node, s.table));
    if env(t).Fine? && |LocalRows(w, s)| > 0 {
      var ranges := RangeCount(|StartRows(start, s)|);
      SendRangesKeep(start, w, s, ranges, 0, env, sent, t + 1,
                     SendRanges(start.name, w, s, ranges, 0, env, sent, t + 1));
    }
  }

  lemma EmptyTableKeeps(start: Start, w: World, s: Source, env: nat -> Fault, sent: nat, t: nat)
    requires Inv(start, w) && AllArrived(start, w, s)
    ensures var p := EmptyTable(w, s, env, sent, t);
            && Inv(start, p.world) && p.world.dest == w.dest && (p.ok ==> LocalRows(p.world, s) == [])
            && (forall o :: o != s ==> LocalRows(p.world, o) == LocalRows(w, o))
  {
    var w' := w.(local := w.local[s := []]);
    forall u ensures DestExact(start, w', u) {
      assert DestExact(start, w, u);
    }
    forall n, u | n in start.nodes ensures SourceSafe(start, w', Source(n, u)) {
      assert SourceSafe(start, w, Source(n, u));
    }
  }

  /** The count of each table that is emptied was heard. */
  ghost predicate KeyHeard(start: Start, w: World, node: nat, key: Key, env: nat -> Fault, sent: nat, t: nat) {
    var fact, dim := Source(node, Table(key, false)), Source(node, Table(key, true));
    var p1 := SendTable(start.name, w, fact, env, sent, t);
    var p2 := SendTable(start.name, p1.world, dim, env, p1.sent, p1.calls);
    p1.ok && p2.ok && !env(p2.calls).Refused? ==>
      && CountHeard(start, w, fact, env, t)
      && (env(p2.calls).Fine? && !env(p2.calls + 1).Refused? ==> CountHeard(start, p1.world, dim, env, p1.calls))
  }

  lemma HandOffKeyKeeps(start: Start, w: World, node: nat, key: Key, env: nat -> Fault, sent: nat, t: nat)
    requires ValidStart(start) && Inv(start, w) && node in start.nodes && KeyHeard(start, w, node, key, env, sent, t)
    ensures var p := HandOffKey(start.name, w, node, key, env, sent, t);
            Inv(start, p.world) && OnlyEmptied(w, p.world) && (p.ok ==> KeyEmpty(p.world, node, key))
  {
    var fact, dim := Source(node, Table(key, false)), Source(node, Table(key, true));
    SendTableKeeps(start, w, fact, env, sent, t);
    var p1 := SendTable(start.name, w, fact, env, sent, t);
    if p1.ok {
      SendTableKeeps(start, p1.world, dim, env, p1.sent, p1.calls);
      var p2 := SendTable(start.name, p1.world, dim, env, p1.sent, p1.calls);
      if p2.ok && !env(p2.calls).Refused? {
        ArrivedStays(start, p1.world, p2.world, fact);
        EmptyTableKeeps(start, p2.world, fact, env, p2.sent, p2.calls);
        var p3 := EmptyTable(p2.world, fact, env, p2.sent, p2.calls);
        if p3.ok && !env(p3.calls).Refused? {
          ArrivedStays(start, p2.world, p3.world, dim);
          EmptyTableKeeps(start, p3.world, dim, env, p3.sent, p3.calls);
        }
      }
    }
  }

  /** A local table stays as it is or becomes empty. */
  ghost predicate OnlyEmptied(w: World, w': World) {
    forall s :: LocalRows(w', s) == LocalRows(w, s) || LocalRows(w', s) == []
  }

  ghost predicate KeyEmpty(w: World, node: nat, key: Key) {
    forall series :: LocalRows(w, Source(node, Table(key, series))) == []
  }

  lemma EmptyStays(w: World, w': World, node: nat, key: Key)
    requires KeyEmpty(w, node, key) && OnlyEmptied(w, w')
    ensures KeyEmpty(w', node, key)
  {
    forall series ensures LocalRows(w', Source(node, Table(key, series))) == [] {
      assert LocalRows(w, Source(node, Table(key, series))) == [];
    }
  }

  ghost predicate AllEmpty(w: World, node: nat, keys: seq<Key>) {
    forall i :: 0 <= i < |keys| ==> KeyEmpty(w, node, keys[i])
  }

  /** Throughout the attempt, the count of each table it empties is heard. */
  ghost predicate AttemptHeard(start: Start, w: World, node: nat, keys: seq<Key>, env: nat -> Fault) {
    |keys| == 0 ||
    (var n := |keys| - 1;
     var p := HandOffKeys(start.name, w, node, keys[..n], env);
     && AttemptHeard(start, w, node, keys[..n], env)
     && (p.ok ==> KeyHeard(start, p.world, node, keys[n], env, p.sent, p.calls)))
  }

  lemma {:induction false} AttemptKeeps(start: Start, w: World, node: nat, keys: seq<Key>, env: nat -> Fault)
    requires ValidStart(start) && Inv(start, w) && node in start.nodes && AttemptHeard(start, w, node, keys, env)
    ensures var p := HandOffKeys(start.name, w, node, keys, env);
            Inv(start, p.world) && OnlyEmptied(w, p.world) && (p.ok ==> AllEmpty(p.world, node, keys))
  {
    if |keys| > 0 {
      var n := |keys| - 1;
      AttemptKeeps(start, w, node, keys[..n], env);
      var p := HandOffKeys(start.name, w, node, keys[..n], env);
      if p.ok {
        HandOffKeyKeeps(start, p.world, node, keys[n], env, p.sent, p.calls);
        var q := HandOffKey(start.name, p.world, node, keys[n], env, p.sent, p.calls);
        if q.ok {
          AllEmptyAppend(p.world, q.world, node, keys);
        }
        OnlyEmptiedTransitive(w, p.world, q.world);
      }
    }
  }

  lemma AllEmptyAppend(w: World, w': World, node: nat, keys: seq<Key>)
    requires |keys| > 0 && AllEmpty(w, node, keys[..|keys| - 1]) && OnlyEmptied(w, w')
    requires KeyEmpty(w', node, keys[|keys| - 1])
    ensures AllEmpty(w', node, keys)
  {
    var n := |keys| - 1;
    forall i | 0 <= i < n ensures KeyEmpty(w', node, keys[i]) {
      assert KeyEmpty(w, node, keys[..n][i]);
      EmptyStays(w, w', node, keys[i]);
    }
  }

  lemma OnlyEmptiedTransitive(a: World, b: World, c: World)
    requires OnlyEmptied(a, b) && OnlyEmptied(b, c)
    ensures OnlyEmptied(a, c)
  {
    forall s ensures LocalRows(c, s) == LocalRows(a, s) || LocalRows(c, s) == [] {
      assert LocalRows(b, s) == LocalRows(a, s) || LocalRows(b, s) == [];
    }
  }

  // ---------------------------------------------------------------------------- runs

  datatype Attempt = Attempt(node: nat, keys: seq<Key>, env: nat -> Fault)

  ghost function RunAttempts(name: Naming, w: World, attempts: seq<Attempt>): World {
    if |attempts| == 0 then w
    else
      var a := attempts[|attempts| - 1];
      HandOffKeys(name, RunAttempts(name, w, attempts[..|attempts| - 1]), a.node, a.keys, a.env).world
  }

  ghost predicate ValidAttempts(start: Start, attempts: seq<Attempt>) {
    forall i :: 0 <= i < |attempts| ==> attempts[i].node in start.nodes
  }

  lemma {:induction false} NothingSeenYet(token: Row -> string, rows: seq<Row>, seen: set<string>)
    requires forall r :: r in rows ==> token(r) !in seen
    ensures Arrived(token, rows, seen) == []
  {
    if |rows| > 0 {
      assert rows[|rows| - 1] in rows;
      NothingSeenYet(token, rows[..|rows| - 1], seen);
    }
  }

  lemma {:induction false} EverythingSeen(token: Row -> string, rows: seq<Row>, seen: set<string>)
    requires forall r :: r in rows ==> token(r) in seen
    ensures Arrived(token, rows, seen) == rows
  {
    if |rows| > 0 {
      assert rows[|rows| - 1] in rows;
      EverythingSeen(token, rows[..|rows| - 1], seen);
    }
  }

  lemma {:induction false} NothingArrivedYet(start: Start, t: Table, n: nat)
    requires ValidStart(start) && n <= |start.nodes|
    ensures ArrivedAt(start, t, StartDest(start, t).seen, n) == multiset{}
  {
    if n > 0 {
      NothingArrivedYet(start, t, n - 1);
      var s := Source(start.nodes[n - 1], t);
      NothingSeenYet(r => RowToken(start, s, r), StartRows(start, s), StartDest(start, t).seen);
    }
  }

  ghost function Begin(start: Start): World {
    World(start.tables, start.dest)
  }

  /** In every attempt of the run, the count of each table it empties is heard. */
  ghost predicate RunHeard(start: Start, attempts: seq<Attempt>) {
    |attempts| == 0 ||
    (var n := |attempts| - 1;
     && RunHeard(start, attempts[..n])
     && AttemptHeard(start, RunAttempts(start.name, Begin(start), attempts[..n]), attempts[n].node, attempts[n].keys,
                     attempts[n].env))
  }

  lemma {:induction false} RunKeepsInv(start: Start, attempts: seq<Attempt>)
    requires ValidStart(start) && ValidAttempts(start, attempts) && RunHeard(start, attempts)
    ensures Inv(start, RunAttempts(start.name, Begin(start), attempts))
  {
    var w0 := Begin(start);
    if |attempts| == 0 {
      forall t ensures DestExact(start, w0, t) { NothingArrivedYet(start, t, |start.nodes|); }
    } else {
      var n := |attempts| - 1;
      RunKeepsInv(start, attempts[..n]);
      assert attempts[n].node in start.nodes;
      AttemptKeeps(start, RunAttempts(start.name, w0, attempts[..n]), attempts[n].node, attempts[n].keys,
                   attempts[n].env);
    }
  }

  /**
   No row is lost: after any attempts, with any failures and lost replies, as long
   as the counts of what was emptied were heard, a departing table is still whole
   here, or empty here with every row of it at the receiver; what the receiver
   holds is what it had plus each arrived row once.
   */
  lemma NoRowLost(start: Start, attempts: seq<Attempt>, s: Source)
    requires ValidStart(start) && ValidAttempts(start, attempts) && RunHeard(start, attempts) && start.name == TokenOf
    requires s.node in start.nodes
    ensures var w := RunAttempts(TokenOf, Begin(start), attempts);
            && (|| LocalRows(w, s) == StartRows(start, s)
                || (&& LocalRows(w, s) == []
                    && ArrivedFrom(start, s, DestOf(w, s.table).seen) == multiset(StartRows(start, s))))
            && DestOf(w, s.table).rows ==
               StartDest(start, s.table).rows + ArrivedAt(start, s.table, DestOf(w, s.table).seen, |start.nodes|)
  {
    RunKeepsInv(start, attempts);
    var w := RunAttempts(TokenOf, Begin(start), attempts);
    assert SourceSafe(start, w, Source(s.node, s.table)) && DestExact(start, w, s.table);
    if LocalRows(w, s) != StartRows(start, s) {
      EverythingSeen(r => RowToken(start, s, r), StartRows(start, s), DestOf(w, s.table).seen);
    }
  }

  /** All rows the first `n` departing nodes held of one table. */
  ghost function AllRows(start: Start, t: Table, n: nat): multiset<Row>
    requires n <= |start.nodes|
  {
    if n == 0 then multiset{} else AllRows(start, t, n - 1) + multiset(StartRows(start, Source(start.nodes[n - 1], t)))
  }

  lemma {:induction false} AllArrivedAt(start: Start, w: World, t: Table, n: nat)
    requires n <= |start.nodes| && forall i :: 0 <= i < n ==> AllArrived(start, w, Source(start.nodes[i], t))
    ensures ArrivedAt(start, t, DestOf(w, t).seen, n) == AllRows(start, t, n)
  {
    if n > 0 {
      AllArrivedAt(start, w, t, n - 1);
      var s := Source(start.nodes[n - 1], t);
      assert AllArrived(start, w, s);
      EverythingSeen(r => RowToken(start, s, r), StartRows(start, s), DestOf(w, t).seen);
    }
  }

  /**
   Exactly once: when the departing nodes have all emptied a table, the
   receiver has gained every row of every one of them exactly once, however
   many times ranges were sent.
   */
  lemma ExactlyOnce(start: Start, attempts: seq<Attempt>, t: Table)
    requires ValidStart(start) && ValidAttempts(start, attempts) && RunHeard(start, attempts) && start.name == TokenOf
    requires var w := RunAttempts(TokenOf, Begin(start), attempts);
             forall n :: n in start.nodes ==> LocalRows(w, Source(n, t)) == []
    ensures var w := RunAttempts(TokenOf, Begin(start), attempts);
            DestOf(w, t).rows == StartDest(start, t).rows + AllRows(start, t, |start.nodes|)
  {
    RunKeepsInv(start, attempts);
    var w := RunAttempts(TokenOf, Begin(start), attempts);
    assert DestExact(start, w, t);
    forall i | 0 <= i < |start.nodes| ensures AllArrived(start, w, Source(start.nodes[i], t)) {
      assert start.nodes[i] in start.nodes;
      assert SourceSafe(start, w, Source(start.nodes[i], t));
    }
    AllArrivedAt(start, w, t, |start.nodes|);
  }
}
