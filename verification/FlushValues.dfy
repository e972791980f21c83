/**
 Which values survive the flush: a prepared slot stands for its entry, a value is
 inserted as it is where its own column takes it so and the type the chunk's columns
 come to leaves it so, and a negative integer that meets unsigned ones is lost.
 */
module FlushValues {
  import opened Points
  import opened Wrappers
  import opened KeyOrder
  import opened FieldColumns
  import opened FlushService
  import opened FlushSafety
  import opened FlushLimits
  import opened PreparedSlots
  import C = ColumnStack
  import PC = PointCoalesce
  import N = NativeChunk
  import P = PreparedChunk
  import B = TruncateBarrier

  // ------------------------------------------------------------------- slots stand for entries

  lemma {:induction false} RowRepresents(cfg: Config, schema: PreparedSlots.Schema, e: N.Entry, j: nat, b: P.Batch)
    returns (r: nat)
    requires j < |e.points| && Ensured(schema, e.points)
    requires var m := e.points[j].measurement; LaysOut(cfg.round, schema(m), m, RowsFor(e, m), b)
    ensures r < |b.instants| && BatchKeeps(cfg, b, r, e, j)
  {
    var m := e.points[j].measurement;
    var group, places := PointsOf(e.points, m), PlacesOf(e.points, m);
    var origins := Origins(|group|, e.origin);
    var i := PlaceOf(e.points, j);
    r := PC.CoalesceCovers(group, origins, m, i);
    var row := RowsFor(e, m)[r];
    forall f | f in e.points[j].fields ensures CellKeeps(cfg, b.table, r, e, j, f) {
      assert f in group[i].fields;
      SuppliedByEntry(e.points, m, i, f, row.fields[f]);
      CellOfRow(cfg.round, schema(m), m, RowsFor(e, m), b, r, f);
    }
  }

  /** The slot prepared for an entry represents it, whatever columns its tables have. */
  lemma {:induction false} SlotRepresents(cfg: Config, schema: PreparedSlots.Schema, e: N.Entry, slot: P.Slot)
    requires IsSlotFor(cfg.round, schema, e, slot) && Ensured(schema, e.points)
    ensures Represents(cfg, slot, e)
  {
    forall j | 0 <= j < |e.points| ensures SlotKeeps(cfg, slot, e, j) {
      var key, keys := N.KeyOf(e, e.points[j]), Ascending(MeasurementsOf(e));
      assert key in MeasurementsOf(e) && key in keys;
      var b :| 0 <= b < |keys| && keys[b] == key;
      var r := RowRepresents(cfg, schema, e, j, slot.batches[b]);
    }
  }

  // -------------------------------------------------------------------------- plain values

  /** A column the value was prepared with, and the type the chunk's columns come to, leave it as it is. */
  ghost predicate SurvivesIn(cfg: Config, chunk: Chunk, key: Key, f: string, from: C.Type, v: FieldValue) {
    var ty := C.Widest(P.ColumnTypes(chunk.run, key, f));
    ty.Some? ==> Survives(cfg.round, cfg.casts, from, ty.value, v)
  }

  /** So it is with every value of the chunk's entries. */
  ghost predicate AllSurvive(cfg: Config, chunk: Chunk) {
    forall k: nat, j: nat, f, from ::
      IsPoint(chunk, k, j) && f in chunk.entries[k].points[j].fields
      && from in OwnTypes(chunk, k, N.KeyOf(chunk.entries[k], chunk.entries[k].points[j]), f)
      ==> SurvivesIn(cfg, chunk, N.KeyOf(chunk.entries[k], chunk.entries[k].points[j]), f, from,
                     chunk.entries[k].points[j].fields[f])
  }

  /** The row has, for the field, the point's value or a later one, as it is. */
  ghost predicate FieldPlain(chunk: Chunk, k: nat, j: nat, f: string, r: Point)
    requires IsPoint(chunk, k, j)
  {
    exists v :: Supplied(chunk, k, j, f, v) && Kept(v, FieldOf(r, f))
  }

  ghost predicate CarriesPlainly(i: Insert, chunk: Chunk, k: nat, j: nat)
    requires IsPoint(chunk, k, j)
  {
    var p := chunk.entries[k].points[j];
    && i.Key() == N.KeyOf(chunk.entries[k], p)
    && exists r :: r in i.Rows() && SameInstant(r, p) && forall f :: f in p.fields ==> FieldPlain(chunk, k, j, f, r)
  }

  /** A value its entry supplies for a point is that of one of its points, and survives with it. */
  lemma {:induction false} SuppliedSurvives(cfg: Config, chunk: Chunk, k: nat, j: nat, f: string, from: C.Type,
                                            v: FieldValue)
    requires IsPoint(chunk, k, j) && AllSurvive(cfg, chunk)
    requires PC.Supplies(chunk.entries[k].points, j, f, v)
    requires from in OwnTypes(chunk, k, N.KeyOf(chunk.entries[k], chunk.entries[k].points[j]), f)
    ensures SurvivesIn(cfg, chunk, N.KeyOf(chunk.entries[k], chunk.entries[k].points[j]), f, from, v)
  {
    var points := chunk.entries[k].points;
    var m: nat :| j <= m < |points| && SameInstant(points[m], points[j]) && HasValue(points[m], f, v);
    assert IsPoint(chunk, k, m) && f in points[m].fields;
    assert N.KeyOf(chunk.entries[k], points[m]) == N.KeyOf(chunk.entries[k], points[j]);
  }

  lemma {:induction false} FieldKeptPlainly(cfg: Config, chunk: Chunk, k: nat, j: nat, f: string, r: Point)
    requires IsPoint(chunk, k, j) && AllSurvive(cfg, chunk) && FieldKept(cfg, chunk, k, j, f, r)
    ensures FieldPlain(chunk, k, j, f, r)
  {
    var key := N.KeyOf(chunk.entries[k], chunk.entries[k].points[j]);
    var v :| Supplied(chunk, k, j, f, v) && Stored(cfg, chunk, k, key, f, v, FieldOf(r, f));
    if |chunk.run| > 0 {
      var from :| from in OwnTypes(chunk, k, key, f) && StackedFrom(cfg, chunk, key, f, from, v, FieldOf(r, f));
      SuppliedSurvives(cfg, chunk, k, j, f, from, v);
      SurvivorKept(cfg.round, cfg.casts, from, C.Widest(P.ColumnTypes(chunk.run, key, f)).value, v);
    }
    assert Kept(v, FieldOf(r, f));
  }

  /** Where the values of a chunk survive its columns, what it carries it carries plainly. */
  lemma {:induction false} PlainWhereKept(cfg: Config, i: Insert, chunk: Chunk, k: nat, j: nat)
    requires IsPoint(chunk, k, j) && AllSurvive(cfg, chunk) && Carries(cfg, i, chunk, k, j)
    ensures CarriesPlainly(i, chunk, k, j)
  {
    var r :| r in i.Rows() && RowKeeps(cfg, chunk, k, j, r);
    forall f | f in chunk.entries[k].points[j].fields ensures FieldPlain(chunk, k, j, f, r) {
      FieldKeptPlainly(cfg, chunk, k, j, f, r);
    }
  }

  // ---------------------------------------------------------------- where the batches agree

  /** Under each name, the chunk's batches of a measurement agree on the type. */
  ghost predicate Agreed(chunk: Chunk) {
    forall key, f, t, u :: t in P.ColumnTypes(chunk.run, key, f) && u in P.ColumnTypes(chunk.run, key, f) ==> t == u
  }

  /** Every value of the chunk's entries is one the columns it meets take as it is. */
  ghost predicate AllFit(cfg: Config, chunk: Chunk) {
    forall k: nat, j: nat, f, t ::
      IsPoint(chunk, k, j) && f in chunk.entries[k].points[j].fields
      && t in P.ColumnTypes(chunk.run, N.KeyOf(chunk.entries[k], chunk.entries[k].points[j]), f)
      ==> Fits(cfg.round, t, chunk.entries[k].points[j].fields[f])
  }

  /** What an entry was prepared with is among what the chunk met. */
  lemma {:induction false} OwnIsMet(chunk: Chunk, k: nat, key: Key, f: string, from: C.Type)
    requires from in OwnTypes(chunk, k, key, f)
    ensures from in P.ColumnTypes(chunk.run, key, f)
  {
    P.SlotTypesMet(chunk.run, k - chunk.from, key, f, from);
  }

  /** Where the batches agree and their columns take the values as they are, every value survives. */
  lemma {:induction false} AgreedSurvive(cfg: Config, chunk: Chunk)
    requires Agreed(chunk) && AllFit(cfg, chunk)
    ensures AllSurvive(cfg, chunk)
  {
    forall k: nat, j: nat, f, from |
      IsPoint(chunk, k, j) && f in chunk.entries[k].points[j].fields
      && from in OwnTypes(chunk, k, N.KeyOf(chunk.entries[k], chunk.entries[k].points[j]), f)
      ensures SurvivesIn(cfg, chunk, N.KeyOf(chunk.entries[k], chunk.entries[k].points[j]), f, from,
                         chunk.entries[k].points[j].fields[f])
    {
      var key := N.KeyOf(chunk.entries[k], chunk.entries[k].points[j]);
      OwnIsMet(chunk, k, key, f, from);
      C.WidestSame(P.ColumnTypes(chunk.run, key, f), from);
    }
  }

  lemma {:induction false} PlainWhereAgreed(cfg: Config, i: Insert, chunk: Chunk, k: nat, j: nat)
    requires IsPoint(chunk, k, j) && Agreed(chunk) && AllFit(cfg, chunk) && Carries(cfg, i, chunk, k, j)
    ensures CarriesPlainly(i, chunk, k, j)
  {
    AgreedSurvive(cfg, chunk);
    PlainWhereKept(cfg, i, chunk, k, j);
  }

  // ------------------------------------------------------------------------- over whole runs

  /**
   No loss of values over any run whose chunks' values survive their columns, as where
   the batches of a chunk agree, where integers a float can hold meet floats, and where
   integers that are not negative meet unsigned ones: every point of an entry gone from
   the WAL is in an insert, each field with its own value or that of a later point of its
   series-instant, in its entry if that was prepared and in the chunk if not.
   */
  lemma {:induction false} NoValueLost(cfg: Config, wal: Wal, events: seq<Event>, k: nat, j: nat) returns (x: nat)
    requires WalOk(cfg, wal) && ValidRun(cfg, NewService(wal), events)
    requires var s := Run(cfg, NewService(wal), events);
             && k in s.removed && j < |s.removed[k].entry.points|
             && forall y :: 0 <= y < |s.log| ==> AllSurvive(cfg, s.log[y].chunk)
    ensures var s := Run(cfg, NewService(wal), events);
            && x < s.removed[k].logged <= |s.log| && s.log[x].chunk.Has(k)
            && s.log[x].chunk.entries[k] == s.removed[k].entry
            && CarriesPlainly(s.log[x].insert, s.log[x].chunk, k, j)
  {
    NoLoss(cfg, wal, events, k);
    var s := Run(cfg, NewService(wal), events);
    x := SettledPlainly(cfg, s.log, s.removed[k].logged, k, s.removed[k].entry, j);
  }

  lemma {:induction false} SettledPlainly(cfg: Config, log: seq<Settled>, n: nat, k: nat, e: N.Entry, j: nat)
    returns (x: nat)
    requires n <= |log| && EntrySettled(cfg, log[..n], k, e) && j < |e.points|
    requires forall y :: 0 <= y < |log| ==> AllSurvive(cfg, log[y].chunk)
    ensures x < n && log[x].chunk.Has(k) && log[x].chunk.entries[k] == e
    ensures CarriesPlainly(log[x].insert, log[x].chunk, k, j)
  {
    assert PointSettled(cfg, log[..n], k, e, j);
    var y :| 0 <= y < n && log[..n][y].chunk.Has(k) && log[..n][y].chunk.entries[k] == e
             && Carries(cfg, log[..n][y].insert, log[..n][y].chunk, k, j);
    x := y;
    PlainWhereKept(cfg, log[x].insert, log[x].chunk, k, j);
  }

  // ------------------------------------------------------------------- and one that does not

  /** A negative integer whose column comes to unsigned integers over the chunk is null in its row. */
  lemma {:induction false} NegativeBesideUnsigned(casts: C.Casts, group: seq<P.Batch>, m: nat, q: nat, f: string,
                                                  i: int)
    requires CastsIntegers(casts) && m < |group| && q < |group[m].instants| && i < 0
    requires C.TypeIn(group[m].table.fields, f) == Some(C.Int64) && C.CellAt(group[m].table, q, f) == Some(Integer(i))
    requires C.Widest(C.TypesOf(P.TablesOf(group), f)) == Some(C.UInt64)
    ensures f !in P.CastRow(casts, group, m, q).fields
  {
    P.CastCells(casts, group, m, q, f);
    assert casts.cell(C.Int64, C.UInt64, Integer(i)) == None;
  }

  /** One row with one field `v`. */
  ghost function OneCell(measurement: string, at: Instant, ty: C.Type, v: FieldValue): P.Batch {
    var table: C.RecordBatch := C.Table([C.Field("v", ty, true)], [[Some(v)]], 1);
    P.Rows(measurement, [at], table, at.timestamp, at.timestamp, None)
  }

  ghost function OneSlot(key: Key, at: Instant, ty: C.Type, v: FieldValue): P.Slot {
    P.Slot(key.db, key.rp, 0, [OneCell(key.measurement, at, ty, v)])
  }

  /** Two entries prepared in turn: -1 as a signed integer, then 5 as an unsigned one. */
  ghost function TwoEntries(key: Key, k: nat, at: Instant, at': Instant): seq<P.Sequenced> {
    TwoSlots(k, OneSlot(key, at, C.Int64, Integer(-1)), OneSlot(key, at', C.UInt64, UInteger(5)))
  }

  ghost function TwoSlots(k: nat, a: P.Slot, b: P.Slot): seq<P.Sequenced> {
    [P.Sequenced(k, a), P.Sequenced(k + 1, b)]
  }

  /** An entry of one point of one field `v`. */
  ghost function OneEntry(key: Key, at: Instant, v: FieldValue): N.Entry {
    N.Entry(key.db, key.rp, [Point(key.measurement, at.tags, map["v" := v], at.timestamp)], 0)
  }

  lemma {:induction false} OneRow(e: N.Entry, measurement: string)
    requires |e.points| == 1 && e.points[0].measurement == measurement
    ensures RowsFor(e, measurement) == e.points
  {
    var group := PointsOf(e.points, measurement);
    assert e.points[..0] == [];
    assert PlacesOf(e.points, measurement) == [0];
    assert group == e.points;
    PC.MergedLast(group, Origins(1, e.origin));
  }

  lemma {:induction false} OneKey(keys: set<Key>, key: Key)
    requires keys == {key}
    ensures Ascending(keys) == [key]
  {
    var ks := Ascending(keys);
    assert key in ks;
  }

  lemma {:induction false} OneLaysOut(round: int -> real, fields: Fields, measurement: string, at: Instant, ty: C.Type,
                                      v: FieldValue)
    requires fields == [C.Field("v", ty, true)] && Fill(round, ty, v) == Some(v)
    ensures var row := Point(measurement, at.tags, map["v" := v], at.timestamp);
            LaysOut(round, fields, measurement, [row], OneCell(measurement, at, ty, v))
  {
  }

  /** Its slot is what preparing it gives, where its table has the one column and takes the value as it is. */
  lemma {:induction false} OneIsPrepared(round: int -> real, schema: PreparedSlots.Schema, key: Key, at: Instant,
                                         ty: C.Type, v: FieldValue)
    requires schema(key.measurement) == [C.Field("v", ty, true)] && Fill(round, ty, v) == Some(v)
    ensures IsSlotFor(round, schema, OneEntry(key, at, v), OneSlot(key, at, ty, v))
  {
    var e := OneEntry(key, at, v);
    OneRow(e, key.measurement);
    OneLaysOut(round, schema(key.measurement), key.measurement, at, ty, v);
    assert MeasurementsOf(e) == {key} by {
      assert N.KeyOf(e, e.points[0]) == key;
    }
    OneKey(MeasurementsOf(e), key);
  }

  lemma {:induction false} TwoBatches(key: Key, k: nat, at: Instant, at': Instant, other: Key)
    ensures P.BatchesOf(P.ChunkBatches(TwoEntries(key, k, at, at')), other) ==
            if other == key
            then [OneCell(key.measurement, at, C.Int64, Integer(-1)),
                  OneCell(key.measurement, at', C.UInt64, UInteger(5))]
            else []
  {
    var run := TwoEntries(key, k, at, at');
    var a := OneCell(key.measurement, at, C.Int64, Integer(-1));
    var b := OneCell(key.measurement, at', C.UInt64, UInteger(5));
    assert run[..1] == [run[0]] && run[..1][..0] == [];
    var one, two := P.KeyedBatch(key, a), P.KeyedBatch(key, b);
    assert P.ChunkBatches(run[..1]) == [one];
    assert P.ChunkBatches(run) == [one, two];
    assert [one, two][..1] == [one] && [one][..0] == [];
  }

  lemma {:induction false} TablesOfTwo(a: P.Batch, b: P.Batch)
    ensures P.TablesOf([a, b]) == [a.table, b.table]
  {
  }

  lemma {:induction false} TwoTypes(a: P.Batch, b: P.Batch, name: string)
    requires C.TypeIn(a.table.fields, name) == Some(C.Int64) && C.TypeIn(b.table.fields, name) == Some(C.UInt64)
    ensures C.Widest(C.TypesOf(P.TablesOf([a, b]), name)) == Some(C.UInt64)
  {
    TablesOfTwo(a, b);
    C.TypesOfTwo(a.table, b.table, name, C.Int64, C.UInt64);
    C.WidestOfTwo(C.Int64, C.UInt64);
  }

  lemma {:induction false} CellOfOne(measurement: string, at: Instant, ty: C.Type, v: FieldValue)
    ensures var b := OneCell(measurement, at, ty, v);
            C.TypeIn(b.table.fields, "v") == Some(ty) && C.CellAt(b.table, 0, "v") == Some(v)
  {
    C.IndexIs(OneCell(measurement, at, ty, v).table.fields, 0);
  }

  lemma {:induction false} FirstRowDropped(casts: C.Casts, measurement: string, at: Instant, at': Instant, m: nat,
                                           q: nat)
    requires CastsIntegers(casts) && at != at'
    requires var group := [OneCell(measurement, at, C.Int64, Integer(-1)),
                           OneCell(measurement, at', C.UInt64, UInteger(5))];
             m < |group| && q < |group[m].instants| && InstantOf(P.CastRow(casts, group, m, q)) == at
    ensures var group := [OneCell(measurement, at, C.Int64, Integer(-1)),
                          OneCell(measurement, at', C.UInt64, UInteger(5))];
            "v" !in P.CastRow(casts, group, m, q).fields
  {
    var a, b := OneCell(measurement, at, C.Int64, Integer(-1)), OneCell(measurement, at', C.UInt64, UInteger(5));
    CellOfOne(measurement, at, C.Int64, Integer(-1));
    CellOfOne(measurement, at', C.UInt64, UInteger(5));
    TwoTypes(a, b, "v");
    NegativeBesideUnsigned(casts, [a, b], 0, 0, "v", -1);
  }

  /** Flushed in one prepared chunk, no row of the first entry's series-instant has its value. */
  lemma {:induction false} MinusOneDropped(cfg: Config, key: Key, k: nat, at: Instant, at': Instant, works: seq<P.Work>,
                                           w: nat, r: nat)
    requires CastsIntegers(cfg.casts) && at != at'
    requires P.ChunkItems(cfg.casts, TwoEntries(key, k, at, at'), Limit(cfg)) == Some(works)
    requires w < |works| && r < |works[w].batch.instants| && InstantOf(P.RowAt(works[w].batch, r)) == at
    ensures "v" !in P.RowAt(works[w].batch, r).fields
  {
    var m, q := P.InsertedFrom(cfg.casts, TwoEntries(key, k, at, at'), Limit(cfg), works, w, r);
    TwoBatches(key, k, at, at', works[w].key);
    FirstRowDropped(cfg.casts, key.measurement, at, at', m, q);
  }

  lemma {:induction false} SettledWasInsert(items: seq<Insert>, outcomes: seq<Outcome>, chunk: Chunk, x: nat)
    returns (i: nat)
    requires x < |Settle(items, outcomes, chunk)|
    ensures i < |items| && Settle(items, outcomes, chunk)[x].insert == items[i]
  {
    var n := |items| - 1;
    if x < |Settle(items[..n], outcomes, chunk)| {
      i := SettledWasInsert(items[..n], outcomes, chunk, x);
    } else {
      i := n;
    }
  }

  /** The rows a step settles of the series-instant of -1: none has it. */
  ghost predicate Nowhere(before: seq<Settled>, after: seq<Settled>, at: Instant) {
    before <= after
    && forall x, row :: |before| <= x < |after| && row in after[x].insert.Rows() && InstantOf(row) == at ==>
       "v" !in row.fields
  }

  lemma {:induction false} NowhereInWorks(cfg: Config, key: Key, k: nat, at: Instant, at': Instant, works: seq<P.Work>,
                                          i: nat, row: Point)
    requires CastsIntegers(cfg.casts) && at != at'
    requires P.ChunkItems(cfg.casts, TwoEntries(key, k, at, at'), Limit(cfg)) == Some(works)
    requires i < |works| && row in P.RowsOf(works[i].batch) && InstantOf(row) == at
    ensures "v" !in row.fields
  {
    var q :| 0 <= q < |P.RowsOf(works[i].batch)| && P.RowsOf(works[i].batch)[q] == row;
    MinusOneDropped(cfg, key, k, at, at', works, i, q);
  }

  lemma {:induction false} NowhereInItems(cfg: Config, key: Key, k: nat, at: Instant, at': Instant, items: seq<Insert>,
                                          i: nat, row: Point)
    requires CastsIntegers(cfg.casts) && at != at' && PreparedItems(cfg, TwoEntries(key, k, at, at')) == Some(items)
    requires i < |items| && row in items[i].Rows() && InstantOf(row) == at
    ensures "v" !in row.fields
  {
    var works := P.ChunkItems(cfg.casts, TwoEntries(key, k, at, at'), Limit(cfg)).value;
    NowhereInWorks(cfg, key, k, at, at', works, i, row);
  }

  lemma {:induction false} NowhereSettled(log: seq<Settled>, items: seq<Insert>, outcomes: seq<Outcome>, chunk: Chunk,
                                          at: Instant)
    requires forall i, row :: 0 <= i < |items| && row in items[i].Rows() && InstantOf(row) == at ==> "v" !in row.fields
    ensures Nowhere(log, log + Settle(items, outcomes, chunk), at)
  {
    var more := Settle(items, outcomes, chunk);
    forall x, row | |log| <= x < |log + more| && row in (log + more)[x].insert.Rows() && InstantOf(row) == at
      ensures "v" !in row.fields
    {
      var i := SettledWasInsert(items, outcomes, chunk, x - |log|);
    }
  }

  lemma {:induction false} OnlyV(measurement: string, at: Instant, ty: C.Type, v: FieldValue, name: string)
    ensures C.TypeIn(OneCell(measurement, at, ty, v).table.fields, name) == if name == "v" then Some(ty) else None
  {
    C.IndexIs(OneCell(measurement, at, ty, v).table.fields, 0);
  }

  lemma {:induction false} TwoCellsStack(casts: C.Casts, measurement: string, at: Instant, at': Instant,
                                         bs: seq<P.Batch>)
    requires casts.can(C.Int64, C.UInt64)
    requires bs == [OneCell(measurement, at, C.Int64, Integer(-1)), OneCell(measurement, at', C.UInt64, UInteger(5))]
    ensures P.Stacked(casts, bs).Some?
  {
    var ts := P.TablesOf(bs);
    CellOfOne(measurement, at, C.Int64, Integer(-1));
    CellOfOne(measurement, at', C.UInt64, UInteger(5));
    TwoTypes(bs[0], bs[1], "v");
    assert bs == [bs[0], bs[1]];
    forall name ensures C.Castable(casts, ts, name) {
      OnlyV(measurement, at, C.Int64, Integer(-1), name);
      OnlyV(measurement, at', C.UInt64, UInteger(5), name);
    }
    C.NullableStacks(casts, ts);
  }

  /** And it comes to that: the two batches do stack, if signed integers can be cast to unsigned ones at all. */
  lemma {:induction false} TwoEntriesStack(cfg: Config, key: Key, k: nat, at: Instant, at': Instant)
    requires cfg.casts.can(C.Int64, C.UInt64)
    ensures PreparedItems(cfg, TwoEntries(key, k, at, at')).Some?
  {
    var bs := P.ChunkBatches(TwoEntries(key, k, at, at'));
    forall other | other in P.KeysOf(bs) ensures P.Stacked(cfg.casts, P.BatchesOf(bs, other)).Some? {
      TwoBatches(key, k, at, at', other);
      P.PresentGroup(bs, other);
      TwoCellsStack(cfg.casts, key.measurement, at, at', P.BatchesOf(bs, other));
    }
    P.ChunkStacks(cfg.casts, TwoEntries(key, k, at, at'), Limit(cfg));
  }

  // ---------------------------------------------------------------------- lost in a step

  /** The two entries taken as one chunk: whatever inserts succeed, none it settles has -1 at its series-instant. */
  lemma {:induction false} NegativeNowhere(cfg: Config, s: State, key: Key, at: Instant, at': Instant, env: StepEnv)
    requires CastsIntegers(cfg.casts) && at != at'
    ensures var route := PreparedPath(TwoEntries(key, s.lastFlushed + 1, at, at'));
            Nowhere(s.log, TakeRoute(cfg, s, route, env).state.log, at)
  {
    var k := s.lastFlushed + 1;
    var route := PreparedPath(TwoEntries(key, k, at, at'));
    var items := Inserts(cfg, s, route, env);
    if items.Some? {
      forall i, row | 0 <= i < |items.value| && row in items.value[i].Rows() && InstantOf(row) == at
        ensures "v" !in row.fields
      {
        NowhereInItems(cfg, key, k, at, at', items.value, i, row);
      }
      NowhereSettled(s.log, items.value, env.outcomes, ChunkOf(s, route), at);
    }
  }

  /** The WAL and its cache hold the two entries next, and no slot after them within the snapshot. */
  ghost predicate HoldsTwo(s: State, snapshot: nat, key: Key, at: Instant, at': Instant) {
    var k := s.lastFlushed + 1;
    && k in s.wal.entries && s.wal.entries[k] == OneEntry(key, at, Integer(-1))
    && k + 1 in s.wal.entries && s.wal.entries[k + 1] == OneEntry(key, at', UInteger(5))
    && CachesTwo(s.wal, k, snapshot, OneSlot(key, at, C.Int64, Integer(-1)), OneSlot(key, at', C.UInt64, UInteger(5)))
  }

  ghost predicate CachesTwo(wal: Wal, from: nat, snapshot: nat, a: P.Slot, b: P.Slot) {
    && from in wal.cache && wal.cache[from] == a && from + 1 in wal.cache && wal.cache[from + 1] == b
    && from + 1 <= snapshot && (from + 2 <= snapshot ==> from + 2 !in wal.cache)
  }

  lemma {:induction false} TwoAreTaken(wal: Wal, from: nat, snapshot: nat, a: P.Slot, b: P.Slot)
    requires CachesTwo(wal, from, snapshot, a, b)
    ensures PreparedRun(wal, from, snapshot, WAL_READ_CHUNK) == TwoSlots(from, a, b)
  {
    assert PreparedRun(wal, from + 2, snapshot, WAL_READ_CHUNK - 2) == [];
    assert PreparedRun(wal, from + 1, snapshot, WAL_READ_CHUNK - 1) == [P.Sequenced(from + 1, b)];
  }

  /** No insert of a chunk that took the entry has its only value. */
  ghost predicate NeverPlain(log: seq<Settled>, k: nat) {
    forall x :: 0 <= x < |log| && IsPoint(log[x].chunk, k, 0) ==> !CarriesPlainly(log[x].insert, log[x].chunk, k, 0)
  }

  lemma {:induction false} NowhereIsNotPlain(before: seq<Settled>, after: seq<Settled>, k: nat, e: N.Entry, at: Instant)
    requires Nowhere(before, after, at) && Untaken(before, k)
    requires |e.points| == 1 && "v" in e.points[0].fields && InstantOf(e.points[0]) == at
    requires forall x :: |before| <= x < |after| && after[x].chunk.Has(k) ==> after[x].chunk.entries[k] == e
    ensures NeverPlain(after, k)
  {
    forall x | 0 <= x < |after| && IsPoint(after[x].chunk, k, 0)
      ensures !CarriesPlainly(after[x].insert, after[x].chunk, k, 0)
    {
      forall r | r in after[x].insert.Rows() && SameInstant(r, e.points[0])
        ensures !FieldPlain(after[x].chunk, k, 0, "v", r)
      {
        assert InstantOf(r) == at;
      }
    }
  }

  lemma {:induction false} StepSettlesChunk(cfg: Config, s: State, route: Route, env: StepEnv, x: nat)
    requires HasChunk(route)
    requires |s.log| <= x < |TakeRoute(cfg, s, route, env).state.log|
    ensures TakeRoute(cfg, s, route, env).state.log[x].chunk == ChunkOf(s, route)
  {
    var items := Inserts(cfg, s, route, env);
    if items.Some? {
      SettledByChunk(items.value, env.outcomes, ChunkOf(s, route));
    }
  }

  lemma {:induction false} NegativeNeverPlain(cfg: Config, s: State, key: Key, at: Instant, at': Instant, env: StepEnv)
    requires CastsIntegers(cfg.casts) && at != at' && Untaken(s.log, s.lastFlushed + 1)
    requires var k := s.lastFlushed + 1; k in s.wal.entries && s.wal.entries[k] == OneEntry(key, at, Integer(-1))
    ensures var k := s.lastFlushed + 1;
            NeverPlain(TakeRoute(cfg, s, PreparedPath(TwoEntries(key, k, at, at')), env).state.log, k)
  {
    var k := s.lastFlushed + 1;
    var route := PreparedPath(TwoEntries(key, k, at, at'));
    var log := TakeRoute(cfg, s, route, env).state.log;
    NegativeNowhere(cfg, s, key, at, at', env);
    forall x | |s.log| <= x < |log| ensures log[x].chunk.entries == s.wal.entries {
      StepSettlesChunk(cfg, s, route, env, x);
    }
    NowhereIsNotPlain(s.log, log, k, OneEntry(key, at, Integer(-1)), at);
  }

  lemma {:induction false} TwoAreRoute(cfg: Config, s: State, snapshot: nat, env: StepEnv, a: P.Slot, b: P.Slot,
                                       route: Route)
    requires cfg.arrow && !env.takeFault && CachesTwo(s.wal, s.lastFlushed + 1, snapshot, a, b)
    requires route == PreparedPath(TwoSlots(s.lastFlushed + 1, a, b))
    ensures RouteOf(cfg, s, snapshot, env) == route
  {
    TwoAreTaken(s.wal, s.lastFlushed + 1, snapshot, a, b);
  }

  lemma {:induction false} TwoAreStep(cfg: Config, s: State, snapshot: nat, env: StepEnv, a: P.Slot, b: P.Slot,
                                      read: State, route: Route)
    requires cfg.arrow && !env.takeFault && read == Landed(s, env.arrivals)
    requires CachesTwo(read.wal, read.lastFlushed + 1, snapshot, a, b)
    requires route == PreparedPath(TwoSlots(read.lastFlushed + 1, a, b))
    ensures Step(cfg, s, snapshot, env) == TakeRoute(cfg, read, route, env)
  {
    TwoAreRoute(cfg, read, snapshot, env, a, b, route);
  }

  lemma {:induction false} NegativeStepNeverPlain(cfg: Config, read: State, env: StepEnv, key: Key, at: Instant,
                                                  at': Instant, route: Route, r: Stepped)
    requires CastsIntegers(cfg.casts) && at != at' && Untaken(read.log, read.lastFlushed + 1)
    requires var k := read.lastFlushed + 1;
             k in read.wal.entries && read.wal.entries[k] == OneEntry(key, at, Integer(-1))
    requires route == PreparedPath(TwoEntries(key, read.lastFlushed + 1, at, at'))
    requires r == TakeRoute(cfg, read, route, env)
    ensures NeverPlain(r.state.log, read.lastFlushed + 1)
  {
    NegativeNeverPlain(cfg, read, key, at, at', env);
  }

  lemma {:induction false} NegativeNotPlain(cfg: Config, s: State, snapshot: nat, env: StepEnv, key: Key, at: Instant,
                                            at': Instant, read: State, r: Stepped, k: nat)
    requires CastsIntegers(cfg.casts) && at != at' && cfg.arrow && !env.takeFault
    requires read == Landed(s, env.arrivals) && HoldsTwo(read, snapshot, key, at, at')
    requires r == Step(cfg, s, snapshot, env) && k == read.lastFlushed + 1 && Untaken(read.log, k)
    ensures NeverPlain(r.state.log, k)
  {
    var a, b := OneSlot(key, at, C.Int64, Integer(-1)), OneSlot(key, at', C.UInt64, UInteger(5));
    var route := PreparedPath(TwoEntries(key, read.lastFlushed + 1, at, at'));
    TwoAreStep(cfg, s, snapshot, env, a, b, read, route);
    NegativeStepNeverPlain(cfg, read, env, key, at, at', route, r);
  }

  /**
   The two entries as a step of the flush finds them: the first is settled by no insert that
   has its -1, whatever inserts succeed, and all the same removed if the step truncates
   that far.
   */
  lemma {:induction false} NegativeValueIsLost(cfg: Config, s: State, snapshot: nat, env: StepEnv, key: Key,
                                               at: Instant, at': Instant, read: State, r: Stepped)
    requires CastsIntegers(cfg.casts) && at != at' && cfg.arrow && !env.takeFault
    requires Inv(cfg, s) && FreshStep(cfg, s, env) && Untaken(s.log, s.lastFlushed + 1)
    requires read == Landed(s, env.arrivals) && HoldsTwo(read, snapshot, key, at, at')
    requires r == Step(cfg, s, snapshot, env)
    ensures NeverPlain(r.state.log, s.lastFlushed + 1)
    ensures var k := s.lastFlushed + 1;
            Truncates(cfg, s, snapshot, env) && k <= StepCut(cfg, s, snapshot, env) ==>
              k in r.state.removed && r.state.removed[k].entry == OneEntry(key, at, Integer(-1))
  {
    var k := s.lastFlushed + 1;
    LandedIs(s, env.arrivals);
    NegativeNotPlain(cfg, s, snapshot, env, key, at, at', read, r, k);
    if Truncates(cfg, s, snapshot, env) && k <= StepCut(cfg, s, snapshot, env) {
      NextRemoved(cfg, s, snapshot, env, OneEntry(key, at, Integer(-1)), read, k);
    }
  }

  lemma {:induction false} LandedIs(s: State, arrivals: seq<Arrival>)
    ensures Landed(s, arrivals).lastFlushed == s.lastFlushed && Landed(s, arrivals).log == s.log
  {
  }

  lemma {:induction false} NextRemoved(cfg: Config, s: State, snapshot: nat, env: StepEnv, e: N.Entry, read: State,
                                       k: nat)
    requires Inv(cfg, s) && FreshStep(cfg, s, env) && Truncates(cfg, s, snapshot, env)
    requires read == Landed(s, env.arrivals) && k <= StepCut(cfg, s, snapshot, env)
    requires k == read.lastFlushed + 1 && k in read.wal.entries && read.wal.entries[k] == e
    ensures var s' := Step(cfg, s, snapshot, env).state; k in s'.removed && s'.removed[k].entry == e
  {
    StepRemoves(cfg, s, snapshot, env, k, e);
  }

  // ------------------------------------------------------------------------ lost in a run

  /** A WAL that holds just the two entries, prepared. */
  ghost function TwoWal(key: Key, at: Instant, at': Instant): Wal {
    Wal(map[1 := OneEntry(key, at, Integer(-1)), 2 := OneEntry(key, at', UInteger(5))],
        map[1 := OneSlot(key, at, C.Int64, Integer(-1)), 2 := OneSlot(key, at', C.UInt64, UInteger(5))],
        2)
  }

  /** A step in which nothing lands and nothing fails. */
  ghost function Calm(view: B.View): StepEnv {
    StepEnv([], false, false, false, 1, false, [], [], view, false)
  }

  lemma {:induction false} OneRepresents(cfg: Config, key: Key, at: Instant, ty: C.Type, v: FieldValue)
    requires Fill(cfg.round, ty, v) == Some(v)
    ensures Represents(cfg, OneSlot(key, at, ty, v), OneEntry(key, at, v))
  {
    var fields: Fields := [C.Field("v", ty, true)];
    var schema: PreparedSlots.Schema := _ => fields;
    CellOfOne(key.measurement, at, ty, v);
    OneIsPrepared(cfg.round, schema, key, at, ty, v);
    SlotRepresents(cfg, schema, OneEntry(key, at, v), OneSlot(key, at, ty, v));
  }

  /** A calm step of a node alone truncates all it took, and goes on. */
  lemma {:induction false} CalmRoute(cfg: Config, s: State, route: Route, view: B.View)
    requires HasChunk(route) && ItemsOf(cfg, s, route).Some?
    requires !cfg.barrier.sharded && !cfg.barrier.replicated
    ensures var r := TakeRoute(cfg, s, route, Calm(view));
            r.status.Continue? && r.state.lastFlushed == ChunkOf(s, route).upTo
  {
  }

  lemma {:induction false} NothingLands(s: State)
    ensures Landed(s, []) == s
  {
  }

  lemma {:induction false} CalmStep(cfg: Config, s: State, key: Key, at: Instant, at': Instant, view: B.View)
    requires HoldsTwo(s, s.lastFlushed + 2, key, at, at') && cfg.casts.can(C.Int64, C.UInt64)
    requires cfg.arrow && !cfg.barrier.sharded && !cfg.barrier.replicated
    ensures var to, r := s.lastFlushed + 2, Step(cfg, s, s.lastFlushed + 2, Calm(view));
            && r.status.Continue? && r.state.lastFlushed == to
            && Truncates(cfg, s, to, Calm(view)) && StepCut(cfg, s, to, Calm(view)) == to
  {
    NothingLands(s);
    var route := PreparedPath(TwoEntries(key, s.lastFlushed + 1, at, at'));
    TwoAreRoute(cfg, s, s.lastFlushed + 2, Calm(view), OneSlot(key, at, C.Int64, Integer(-1)),
                OneSlot(key, at', C.UInt64, UInteger(5)), route);
    TwoEntriesStack(cfg, key, s.lastFlushed + 1, at, at');
    CalmRoute(cfg, s, route, view);
    CalmCut(cfg, s, s.lastFlushed + 2, view, route);
  }

  lemma {:induction false} CalmCut(cfg: Config, s: State, snapshot: nat, view: B.View, route: Route)
    requires !cfg.barrier.sharded && !cfg.barrier.replicated && RouteOf(cfg, s, snapshot, Calm(view)) == route
    requires HasChunk(route) && ItemsOf(cfg, s, route).Some?
    ensures Truncates(cfg, s, snapshot, Calm(view))
    ensures StepCut(cfg, s, snapshot, Calm(view)) == ChunkOf(s, route).upTo
  {
    NothingLands(s);
  }

  lemma {:induction false} CalmIsValid(cfg: Config, s: State, snapshot: nat, view: B.View)
    requires !cfg.barrier.sharded
    ensures ValidStep(cfg, s, snapshot, Calm(view)) && FreshStep(cfg, s, Calm(view))
  {
  }

  lemma {:induction false} OneStepFlush(cfg: Config, s: State, snapshot: nat, env: nat -> StepEnv)
    requires s.lastFlushed < snapshot && ValidStep(cfg, s, snapshot, env(0))
    requires var r := Step(cfg, s, snapshot, env(0)); r.status.Continue? && r.state.lastFlushed >= snapshot
    ensures FlushLoop(cfg, s, snapshot, env, 0).state == Step(cfg, s, snapshot, env(0)).state
    ensures ValidFlush(cfg, s, snapshot, env, 0)
  {
  }

  lemma {:induction false} OneEvent(cfg: Config, s: State, e: Event)
    ensures Run(cfg, s, [e]) == Apply(cfg, s, e)
    ensures ValidEvent(cfg, s, e) ==> ValidRun(cfg, s, [e])
  {
    assert [e][..0] == [];
    assert Run(cfg, s, []) == s && ValidRun(cfg, s, []);
  }

  lemma {:induction false} CalmRun(cfg: Config, s: State, snapshot: nat, view: B.View)
    requires !cfg.barrier.sharded && s.lastFlushed < snapshot
    requires var r := Step(cfg, s, snapshot, Calm(view)); r.status.Continue? && r.state.lastFlushed >= snapshot
    ensures var flush := CalmFlush(snapshot, view);
            ValidRun(cfg, s, [flush]) && Run(cfg, s, [flush]) == Step(cfg, s, snapshot, Calm(view)).state
  {
    var flush := CalmFlush(snapshot, view);
    CalmIsValid(cfg, s, snapshot, view);
    OneStepFlush(cfg, s, snapshot, flush.env);
    OneEvent(cfg, s, flush);
  }

  lemma {:induction false} LostInCalmStep(cfg: Config, s: State, key: Key, at: Instant, at': Instant, view: B.View)
    requires CastsIntegers(cfg.casts) && cfg.casts.can(C.Int64, C.UInt64) && at != at'
    requires cfg.arrow && !cfg.barrier.sharded && !cfg.barrier.replicated
    requires Inv(cfg, s) && Untaken(s.log, s.lastFlushed + 1) && HoldsTwo(s, s.lastFlushed + 2, key, at, at')
    ensures var k, r := s.lastFlushed + 1, Step(cfg, s, s.lastFlushed + 2, Calm(view));
            && r.status.Continue? && r.state.lastFlushed == k + 1 && NeverPlain(r.state.log, k)
            && k in r.state.removed && r.state.removed[k].entry == OneEntry(key, at, Integer(-1))
  {
    CalmStep(cfg, s, key, at, at', view);
    CalmIsValid(cfg, s, s.lastFlushed + 2, view);
    NothingLands(s);
    var r := Step(cfg, s, s.lastFlushed + 2, Calm(view));
    NegativeValueIsLost(cfg, s, s.lastFlushed + 2, Calm(view), key, at, at', s, r);
  }

  ghost function CalmFlush(snapshot: nat, view: B.View): Event {
    Flush(snapshot, (t: nat) => Calm(view))
  }

  /** The run is one in which no loss holds; it removes the next entry, and no insert has its only value. */
  ghost predicate LosesNext(cfg: Config, s: State, events: seq<Event>, e: N.Entry) {
    var k, s' := s.lastFlushed + 1, Run(cfg, s, events);
    ValidRun(cfg, s, events) && k in s'.removed && s'.removed[k].entry == e && NeverPlain(s'.log, k)
  }

  lemma {:induction false} LostInCalmRun(cfg: Config, s: State, snapshot: nat, key: Key, at: Instant, at': Instant,
                                         view: B.View)
    requires CastsIntegers(cfg.casts) && cfg.casts.can(C.Int64, C.UInt64) && at != at'
    requires cfg.arrow && !cfg.barrier.sharded && !cfg.barrier.replicated
    requires Inv(cfg, s) && Untaken(s.log, s.lastFlushed + 1)
    requires snapshot == s.lastFlushed + 2 && HoldsTwo(s, snapshot, key, at, at')
    ensures LosesNext(cfg, s, [CalmFlush(snapshot, view)], OneEntry(key, at, Integer(-1)))
  {
    LostInCalmStep(cfg, s, key, at, at', view);
    CalmRun(cfg, s, snapshot, view);
  }

  lemma {:induction false} NewServiceKeeps(cfg: Config, wal: Wal)
    requires WalOk(cfg, wal)
    ensures Inv(cfg, NewService(wal)) && forall k :: Untaken(NewService(wal).log, k)
  {
    RunKeepsInv(cfg, wal, []);
  }

  /**
   So over a run no more is true than `NoLoss` says: of a node alone whose WAL holds the
   two entries first, and that flushes them with nothing landing and nothing failing, the
   first is gone and no insert has its value.
   */
  lemma {:induction false} NegativeLostInRun(cfg: Config, wal: Wal, key: Key, at: Instant, at': Instant, view: B.View)
    requires CastsIntegers(cfg.casts) && cfg.casts.can(C.Int64, C.UInt64) && at != at'
    requires cfg.arrow && !cfg.barrier.sharded && !cfg.barrier.replicated
    requires WalOk(cfg, wal) && HoldsTwo(NewService(wal), 2, key, at, at')
    ensures LosesNext(cfg, NewService(wal), [CalmFlush(2, view)], OneEntry(key, at, Integer(-1)))
  {
    NewServiceKeeps(cfg, wal);
    LostInCalmRun(cfg, NewService(wal), 2, key, at, at', view);
  }

  /** There is such a WAL. */
  lemma {:induction false} TwoWalOk(cfg: Config, key: Key, at: Instant, at': Instant)
    ensures WalOk(cfg, TwoWal(key, at, at')) && HoldsTwo(NewService(TwoWal(key, at, at')), 2, key, at, at')
  {
    OneRepresents(cfg, key, at, C.Int64, Integer(-1));
    OneRepresents(cfg, key, at', C.UInt64, UInteger(5));
  }
}
