/**
 Handing a departing node's rollups to a node that stays: every destination
 table is sent range by range, each range under a deduplication token, and
 emptied only after all of its ranges arrived. Calls may fail before or after
 they took effect, and an attempt may be repeated any number of times.
 */
module RollupHandoff {
  import opened KeyOrder
  import opened HandoffRanges

  const HANDOFF_CHUNK_ROWS: nat := 50_000

  /** A destination's fact table or its series dimension table. */
  datatype Table = Table(key: Key, series: bool)

  /** A table as it stands on one departing node. */
  datatype Source = Source(node: nat, table: Table)

  datatype Row = Row(seriesId: nat, payload: string)

  /** The receiver's table and the insert tokens it remembers. */
  datatype Dest = Dest(rows: multiset<Row>, seen: set<string>)

  datatype World = World(local: map<Source, seq<Row>>, dest: map<Table, Dest>)

  /** How a call ends: as it should, without effect, with its reply lost, or with a reply that cannot be read. */
  datatype Fault = Fine | Refused | LostReply | Garbled

  function LocalRows(w: World, s: Source): seq<Row> {
    if s in w.local then w.local[s] else []
  }

  function DestOf(w: World, t: Table): Dest {
    if t in w.dest then w.dest[t] else Dest(multiset{}, {})
  }

  // ---------------------------------------------------------------------- receiver

  /** Insert one range; nothing happens for no rows, or under a token already seen. */
  function Import(d: Dest, token: string, rows: seq<Row>): Dest {
    if |rows| == 0 || token in d.seen then d
    else Dest(d.rows + multiset(rows), d.seen + {token})
  }

  // ------------------------------------------------------------------------ sender

  /** How many ranges a table of this many rows is sent in. */
  function RangeCount(rows: nat): (n: nat)
    ensures n > 0 && (0 < rows < U64 ==> n < U64)
  {
    if rows == 0 then 1 else (rows + HANDOFF_CHUNK_ROWS - 1) / HANDOFF_CHUNK_ROWS
  }

  /** The rows of a table in one range. */
  function InRange(rows: seq<Row>, r: Range): seq<Row> {
    if |rows| == 0 then []
    else
      var n := |rows| - 1;
      if Contains(r, rows[n].seriesId) then InRange(rows[..n], r) + [rows[n]] else InRange(rows[..n], r)
  }

  /** How a range of a source is named to the receiver's deduplication. */
  type Naming = (Source, nat, nat) -> string

  function TokenOf(s: Source, index: nat, ranges: nat): string {
    Token(s.node, s.table.key, s.table.series, index, ranges)
  }

  /** Within one table, no two ranges of any nodes share a name. */
  ghost predicate Injective(name: Naming) {
    forall s: Source, o: Source, i: nat, j: nat, n: nat, m: nat ::
      s.table == o.table && name(s, i, n) == name(o, j, m) ==> s == o && i == j && n == m
  }

  lemma TokensInjective()
    ensures Injective(TokenOf)
  {
    forall s: Source, o: Source, i: nat, j: nat, n: nat, m: nat |
      s.table == o.table && TokenOf(s, i, n) == TokenOf(o, j, m)
      ensures s == o && i == j && n == m
    {
      TokenInjective(s.table.key, s.table.series, s.node, i, n, o.node, j, m);
    }
  }

  /** The world, whether the attempt goes on, the rows sent, and how many calls were made. */
  datatype Progress = Progress(world: World, ok: bool, sent: nat, calls: nat)

  ghost function SendRange(name: Naming, w: World, s: Source, ranges: nat, i: nat, env: nat -> Fault, sent: nat,
                           t: nat): Progress
    requires i < ranges
  {
    if !env(t).Fine? then Progress(w, false, sent, t + 1) // the export failed
    else
      var rows := InRange(LocalRows(w, s), RangeAt(ranges, i));
      if |rows| == 0 then Progress(w, true, sent, t + 1)
      else if env(t + 1).Refused? then Progress(w, false, sent, t + 2)
      else
        var w' := w.(dest := w.dest[s.table := Import(DestOf(w, s.table), name(s, i, ranges), rows)]);
        if env(t + 1).Fine? then Progress(w', true, sent + |rows|, t + 2) else Progress(w', false, sent, t + 2)
  }

  ghost function SendRanges(name: Naming, w: World, s: Source, ranges: nat, i: nat, env: nat -> Fault, sent: nat,
                            t: nat): Progress
    requires i <= ranges
    decreases ranges - i
  {
    if i == ranges then Progress(w, true, sent, t)
    else
      var p := SendRange(name, w, s, ranges, i, env, sent, t);
      if !p.ok then p else SendRanges(name, p.world, s, ranges, i + 1, env, p.sent, p.calls)
  }

  ghost function SendTable(name: Naming, w: World, s: Source, env: nat -> Fault, sent: nat, t: nat): Progress {
    match env(t)
    case Garbled => Progress(w, true, sent, t + 1) // a count that cannot be read is taken as 0
    case Fine =>
      var count := |LocalRows(w, s)|;
      if count == 0 then Progress(w, true, sent, t + 1)
      else SendRanges(name, w, s, RangeCount(count), 0, env, sent, t + 1)
    case _ => Progress(w, false, sent, t + 1)
  }

  ghost function EmptyTable(w: World, s: Source, env: nat -> Fault, sent: nat, t: nat): Progress {
    if env(t).Refused? then Progress(w, false, sent, t + 1)
    else Progress(w.(local := w.local[s := []]), env(t).Fine?, sent, t + 1)
  }

  /** One destination: both tables sent, then both emptied. */
  ghost function HandOffKey(name: Naming, w: World, node: nat, key: Key, env: nat -> Fault, sent: nat,
                            t: nat): Progress {
    var fact, dim := Source(node, Table(key, false)), Source(node, Table(key, true));
    var p1 := SendTable(name, w, fact, env, sent, t);
    if !p1.ok then p1 else
    var p2 := SendTable(name, p1.world, dim, env, p1.sent, p1.calls);
    if !p2.ok then p2 else
    var p3 := EmptyTable(p2.world, fact, env, p2.sent, p2.calls);
    if !p3.ok then p3 else
    EmptyTable(p3.world, dim, env, p3.sent, p3.calls)
  }

  ghost function HandOffKeys(name: Naming, w: World, node: nat, keys: seq<Key>, env: nat -> Fault): Progress {
    if |keys| == 0 then Progress(w, true, 0, 0)
    else
      var p := HandOffKeys(name, w, node, keys[..|keys| - 1], env);
      if !p.ok then p else HandOffKey(name, p.world, node, keys[|keys| - 1], env, p.sent, p.calls)
  }

  method SendAllRanges(w: World, s: Source, ranges: nat, env: nat -> Fault, sent: nat, t: nat) returns (p: Progress)
    ensures p == SendRanges(TokenOf, w, s, ranges, 0, env, sent, t)
  {
    p := Progress(w, true, sent, t);
    var i := 0;
    while i < ranges
      invariant 0 <= i <= ranges && p.ok
      invariant SendRanges(TokenOf, p.world, s, ranges, i, env, p.sent, p.calls) ==
                SendRanges(TokenOf, w, s, ranges, 0, env, sent, t)
    {
      var rows := InRange(LocalRows(p.world, s), RangeAt(ranges, i));
      if !env(p.calls).Fine? {
        return Progress(p.world, false, p.sent, p.calls + 1);
      }
      if |rows| == 0 {
        p := Progress(p.world, true, p.sent, p.calls + 1);
      } else {
        var reply := env(p.calls + 1);
        if reply.Refused? {
          return Progress(p.world, false, p.sent, p.calls + 2);
        }
        var dest := Import(DestOf(p.world, s.table), TokenOf(s, i, ranges), rows);
        var w' := p.world.(dest := p.world.dest[s.table := dest]);
        if !reply.Fine? {
          return Progress(w', false, p.sent, p.calls + 2);
        }
        p := Progress(w', true, p.sent + |rows|, p.calls + 2);
      }
      i := i + 1;
    }
  }

  method SendOneTable(w: World, s: Source, env: nat -> Fault, sent: nat, t: nat) returns (p: Progress)
    ensures p == SendTable(TokenOf, w, s, env, sent, t)
  {
    if env(t).Garbled? {
      return Progress(w, true, sent, t + 1);
    }
    if !env(t).Fine? {
      return Progress(w, false, sent, t + 1);
    }
    var count := |LocalRows(w, s)|;
    if count == 0 {
      return Progress(w, true, sent, t + 1);
    }
    p := SendAllRanges(w, s, RangeCount(count), env, sent, t + 1);
  }

  method EmptyOneTable(w: World, s: Source, env: nat -> Fault, sent: nat, t: nat) returns (p: Progress)
    ensures p == EmptyTable(w, s, env, sent, t)
  {
    if env(t).Refused? {
      return Progress(w, false, sent, t + 1);
    }
    p := Progress(w.(local := w.local[s := []]), env(t).Fine?, sent, t + 1);
  }

  /** One attempt over every destination this node knows. */
  method HandOffRollups(w: World, node: nat, keys: seq<Key>, env: nat -> Fault) returns (p: Progress)
    ensures p == HandOffKeys(TokenOf, w, node, keys, env)
  {
    p := Progress(w, true, 0, 0);
    for i := 0 to |keys|
      invariant p.ok && p == HandOffKeys(TokenOf, w, node, keys[..i], env)
    {
      assert keys[..i + 1][..i] == keys[..i];
      var fact, dim := Source(node, Table(keys[i], false)), Source(node, Table(keys[i], true));
      ghost var before := p;
      p := SendOneTable(p.world, fact, env, p.sent, p.calls);
      if p.ok { p := SendOneTable(p.world, dim, env, p.sent, p.calls); }
      if p.ok { p := EmptyOneTable(p.world, fact, env, p.sent, p.calls); }
      if p.ok { p := EmptyOneTable(p.world, dim, env, p.sent, p.calls); }
      assert p == HandOffKey(TokenOf, before.world, node, keys[i], env, before.sent, before.calls);
      if !p.ok {
        FailureEndsAttempt(w, node, keys, env, i + 1);
        return;
      }
    }
    assert keys[..|keys|] == keys;
  }

  lemma {:induction false} FailureEndsAttempt(w: World, node: nat, keys: seq<Key>, env: nat -> Fault, n: nat)
    requires n <= |keys| && !HandOffKeys(TokenOf, w, node, keys[..n], env).ok
    ensures HandOffKeys(TokenOf, w, node, keys, env) == HandOffKeys(TokenOf, w, node, keys[..n], env)
    decreases |keys| - n
  {
    if n < |keys| {
      assert keys[..n + 1][..n] == keys[..n];
      FailureEndsAttempt(w, node, keys, env, n + 1);
    } else {
      assert keys[..n] == keys;
    }
  }

  // ---------------------------------------------------------------------- invariant

  /**
   What the departing nodes held and the receiver held before any of it
   started. `nodes` lists the departing nodes, `name` how ranges are named.
   */
  datatype Start = Start(name: Naming, nodes: seq<nat>, tables: map<Source, seq<Row>>, dest: map<Table, Dest>)

  function StartRows(start: Start, s: Source): seq<Row> {
    if s in start.tables then start.tables[s] else []
  }

  function StartDest(start: Start, t: Table): Dest {
    if t in start.dest then start.dest[t] else Dest(multiset{}, {})
  }

  /** The token under which a row of the source travels. */
  function RowToken(start: Start, s: Source, r: Row): string {
    var n := RangeCount(|StartRows(start, s)|);
    start.name(s, RangeIndex(n, r.seriesId), n)
  }

  /** 64-bit ids and counts, distinct nodes, and a receiver that has not seen these tokens. */
  ghost predicate ValidStart(start: Start) {
    && Injective(start.name)
    && (forall i, j :: 0 <= i < j < |start.nodes| ==> start.nodes[i] != start.nodes[j])
    && (forall s, r :: r in StartRows(start, s) ==> r.seriesId < U64)
    && (forall s :: |StartRows(start, s)| < U64)
    && (forall s, r :: r in StartRows(start, s) ==> RowToken(start, s, r) !in StartDest(start, s.table).seen)
  }

  /** The rows whose token the receiver has seen. */
  ghost function Arrived(token: Row -> string, rows: seq<Row>, seen: set<string>): seq<Row> {
    if |rows| == 0 then []
    else
      var n := |rows| - 1;
      if token(rows[n]) in seen then Arrived(token, rows[..n], seen) + [rows[n]] else Arrived(token, rows[..n], seen)
  }

  ghost function ArrivedFrom(start: Start, s: Source, seen: set<string>): multiset<Row> {
    multiset(Arrived(r => RowToken(start, s, r), StartRows(start, s), seen))
  }

  /** All rows of table `t` that arrived from the first `n` departing nodes. */
  ghost function ArrivedAt(start: Start, t: Table, seen: set<string>, n: nat): multiset<Row>
    requires n <= |start.nodes|
  {
    if n == 0 then multiset{}
    else ArrivedAt(start, t, seen, n - 1) + ArrivedFrom(start, Source(start.nodes[n - 1], t), seen)
  }

  /** The receiver holds what it had, plus every departing row whose token it has seen, once. */
  ghost predicate DestExact(start: Start, w: World, t: Table) {
    DestOf(w, t).rows == StartDest(start, t).rows + ArrivedAt(start, t, DestOf(w, t).seen, |start.nodes|)
  }

  ghost predicate AllArrived(start: Start, w: World, s: Source) {
    forall r :: r in StartRows(start, s) ==> RowToken(start, s, r) in DestOf(w, s.table).seen
  }

  /** A departing table is whole, or empty with everything of it arrived. */
  ghost predicate SourceSafe(start: Start, w: World, s: Source) {
    LocalRows(w, s) == StartRows(start, s) || (LocalRows(w, s) == [] && AllArrived(start, w, s))
  }

  ghost predicate Inv(start: Start, w: World) {
    && (forall t :: DestExact(start, w, t))
    && (forall n, t :: n in start.nodes ==> SourceSafe(start, w, Source(n, t)))
  }
}
