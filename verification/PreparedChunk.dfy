/**
 The prepared flush path of one chunk: batches built at ingest are grouped by
 measurement, stacked by column name, and sliced into inserts of at most `max`
 rows. The batch of new series travels with the first slice only.
 */
module PreparedChunk {
  import opened Points
  import opened KeyOrder
  import opened Wrappers
  import opened ColumnStack

  /** The rows of new series, each the tags of one. */
  type SeriesBatch = seq<map<string, string>>

  /**
   The rows of one measurement as columns: those of the fields, and those of time,
   origin, sequence and series, which every batch has with the same types. `instants`
   is the series-instant each row is of.
   */
  datatype Rows = Rows(
    measurement: string,
    instants: seq<Instant>,
    table: RecordBatch,
    minTime: int,
    maxTime: int,
    newSeries: Option<SeriesBatch>)
  {
    ghost predicate Valid() {
      table.rows == |instants| && |table.fields| > 0
    }
  }

  type Batch = b: Rows | b.Valid() witness Rows("", [], Table([Field("time", Int64, false)], [[]], 0), 0, 0, None)

  /** The non-null cells of row `i` in the first `n` columns. */
  function FieldsUpTo(t: RecordBatch, i: nat, n: nat): map<string, FieldValue>
    requires i < t.rows && n <= |t.fields|
  {
    if n == 0 then map[]
    else
      var before, cell := FieldsUpTo(t, i, n - 1), t.columns[n - 1][i];
      if cell.Some? then before[t.fields[n - 1].name := cell.value] else before
  }

  /** Row `i` of a batch as a point: its non-null cells under their names. */
  function RowAt(b: Batch, i: nat): Point
    requires i < |b.instants|
  {
    Point(b.measurement, b.instants[i].tags, FieldsUpTo(b.table, i, |b.table.fields|), b.instants[i].timestamp)
  }

  function RowsOf(b: Batch): (rows: seq<Point>)
    ensures |rows| == |b.instants| && forall i :: 0 <= i < |rows| ==> rows[i] == RowAt(b, i)
  {
    seq(|b.instants|, i requires 0 <= i < |b.instants| => RowAt(b, i))
  }

  lemma {:induction false} FieldsAre(t: RecordBatch, i: nat, n: nat, name: string)
    requires i < t.rows && n <= |t.fields|
    ensures var c, fields := IndexOf(t.fields, name), FieldsUpTo(t, i, n);
            && (name in fields <==> c.Some? && c.value < n && t.columns[c.value][i].Some?)
            && (name in fields ==> fields[name] == t.columns[c.value][i].value)
  {
    if n > 0 {
      FieldsAre(t, i, n - 1, name);
      IndexIs(t.fields, n - 1);
    }
  }

  /** A row has a field exactly when its cell is not null. */
  lemma {:induction false} RowCells(b: Batch, i: nat, name: string)
    requires i < |b.instants|
    ensures name in RowAt(b, i).fields <==> CellAt(b.table, i, name).Some?
    ensures name in RowAt(b, i).fields ==> CellAt(b.table, i, name) == Some(RowAt(b, i).fields[name])
  {
    FieldsAre(b.table, i, |b.table.fields|, name);
  }

  /** What one WAL entry was prepared into. */
  datatype Slot = Slot(db: string, rp: string, origin: nat, batches: seq<Batch>)

  datatype Sequenced = Sequenced(seqno: nat, slot: Slot)

  // ------------------------------------------------------------------ grouping

  datatype KeyedBatch = KeyedBatch(key: Key, batch: Batch)

  function KeyOf(s: Slot, b: Batch): Key {
    Key(s.db, s.rp, b.measurement)
  }

  ghost function SlotBatches(s: Slot, n: nat): (bs: seq<KeyedBatch>)
    requires n <= |s.batches|
    ensures |bs| == n
    ensures forall i :: 0 <= i < n ==> bs[i] == KeyedBatch(KeyOf(s, s.batches[i]), s.batches[i])
  {
    seq(n, i requires 0 <= i < n => KeyedBatch(KeyOf(s, s.batches[i]), s.batches[i]))
  }

  /** Every batch of the chunk, in WAL order. */
  ghost function ChunkBatches(slots: seq<Sequenced>): seq<KeyedBatch> {
    if |slots| == 0 then []
    else
      var last := slots[|slots| - 1].slot;
      ChunkBatches(slots[..|slots| - 1]) + SlotBatches(last, |last.batches|)
  }

  ghost function BatchesOf(bs: seq<KeyedBatch>, key: Key): (group: seq<Batch>)
    ensures |group| <= |bs|
  {
    if |bs| == 0 then []
    else
      var group := BatchesOf(bs[..|bs| - 1], key);
      if bs[|bs| - 1].key == key then group + [bs[|bs| - 1].batch] else group
  }

  ghost predicate Groups(byMeas: map<Key, seq<Batch>>, bs: seq<KeyedBatch>) {
    && (forall i :: 0 <= i < |bs| ==> bs[i].key in byMeas)
    && (forall k :: k in byMeas ==> byMeas[k] == BatchesOf(bs, k) && |byMeas[k]| > 0)
  }

  lemma {:induction false} AbsentGroup(bs: seq<KeyedBatch>, key: Key)
    requires forall i :: 0 <= i < |bs| ==> bs[i].key != key
    ensures BatchesOf(bs, key) == []
  {
    if |bs| > 0 { AbsentGroup(bs[..|bs| - 1], key); }
  }

  method AddBatch(byMeas: map<Key, seq<Batch>>, ghost bs: seq<KeyedBatch>, b: KeyedBatch)
    returns (byMeas': map<Key, seq<Batch>>)
    requires Groups(byMeas, bs)
    ensures Groups(byMeas', bs + [b])
  {
    var group := if b.key in byMeas then byMeas[b.key] else [];
    if b.key !in byMeas { AbsentGroup(bs, b.key); }
    byMeas' := byMeas[b.key := group + [b.batch]];
    forall k | k in byMeas' ensures byMeas'[k] == BatchesOf(bs + [b], k) && |byMeas'[k]| > 0 {
      BatchesSnoc(bs, b, k);
    }
  }

  lemma {:induction false} BatchesSnoc(bs: seq<KeyedBatch>, b: KeyedBatch, key: Key)
    ensures BatchesOf(bs + [b], key) == if b.key == key then BatchesOf(bs, key) + [b.batch] else BatchesOf(bs, key)
  {
    assert (bs + [b])[..|bs|] == bs;
  }

  method GroupByMeasurement(slots: seq<Sequenced>) returns (byMeas: map<Key, seq<Batch>>)
    ensures Groups(byMeas, ChunkBatches(slots))
  {
    byMeas := map[];
    for i := 0 to |slots|
      invariant Groups(byMeas, ChunkBatches(slots[..i]))
    {
      var s := slots[i].slot;
      ghost var before := ChunkBatches(slots[..i]);
      assert before + SlotBatches(s, 0) == before;
      for j := 0 to |s.batches|
        invariant Groups(byMeas, before + SlotBatches(s, j))
      {
        var b := KeyedBatch(KeyOf(s, s.batches[j]), s.batches[j]);
        byMeas := AddBatch(byMeas, before + SlotBatches(s, j), b);
        assert before + SlotBatches(s, j) + [b] == before + SlotBatches(s, j + 1);
      }
      assert slots[..i + 1][..i] == slots[..i];
    }
    assert slots[..|slots|] == slots;
  }

  // ------------------------------------------------------------------ stacking

  ghost function TablesOf(bs: seq<Batch>): (ts: seq<RecordBatch>)
    ensures |ts| == |bs| && forall i :: 0 <= i < |bs| ==> ts[i] == bs[i].table
  {
    seq(|bs|, i requires 0 <= i < |bs| => bs[i].table)
  }

  ghost function StackedInstants(bs: seq<Batch>): (instants: seq<Instant>)
    ensures |instants| == RowsBefore(TablesOf(bs), |bs|)
  {
    if |bs| == 0 then []
    else
      var n := |bs| - 1;
      RowsOfPrefix(bs, n, n);
      StackedInstants(bs[..n]) + bs[n].instants
  }

  lemma {:induction false} RowsOfPrefix(bs: seq<Batch>, n: nat, k: nat)
    requires k <= n <= |bs|
    ensures RowsBefore(TablesOf(bs[..n]), k) == RowsBefore(TablesOf(bs), k)
  {
    if k > 0 { RowsOfPrefix(bs, n, k - 1); }
  }

  ghost function StackedSeries(bs: seq<Batch>): Option<SeriesBatch> {
    if |bs| == 0 then None
    else
      var before, last := StackedSeries(bs[..|bs| - 1]), bs[|bs| - 1].newSeries;
      if last.None? then before
      else if before.None? then last
      else Some(before.value + last.value)
  }

  ghost function LeastTime(bs: seq<Batch>): int
    requires |bs| > 0
  {
    var n := |bs| - 1;
    if n == 0 then bs[0].minTime
    else
      var before := LeastTime(bs[..n]);
      if bs[n].minTime < before then bs[n].minTime else before
  }

  ghost function GreatestTime(bs: seq<Batch>): int
    requires |bs| > 0
  {
    var n := |bs| - 1;
    if n == 0 then bs[0].maxTime
    else
      var before := GreatestTime(bs[..n]);
      if bs[n].maxTime > before then bs[n].maxTime else before
  }

  /** Stack the batches of one measurement; a single batch is used as it is. */
  ghost function Stacked(casts: Casts, bs: seq<Batch>): Option<Batch> {
    if |bs| == 0 then None
    else if |bs| == 1 then Some(bs[0])
    else
      match Concat(casts, TablesOf(bs), Null)
      case None => None
      case Some(table) =>
        StackHasColumns(casts, bs, table);
        Some(Rows(bs[0].measurement, StackedInstants(bs), table, LeastTime(bs), GreatestTime(bs), StackedSeries(bs)))
  }

  lemma {:induction false} StackHasColumns(casts: Casts, bs: seq<Batch>, table: RecordBatch)
    requires |bs| > 0 && Concat(casts, TablesOf(bs), Null) == Some(table)
    ensures |table.fields| > 0 && table.rows == |StackedInstants(bs)|
  {
    EveryColumnStacked(casts, TablesOf(bs), Null, table, 0, 0);
  }

  method MergeInstants(bs: seq<Batch>) returns (instants: seq<Instant>)
    ensures instants == StackedInstants(bs)
  {
    instants := [];
    for i := 0 to |bs|
      invariant instants == StackedInstants(bs[..i])
    {
      assert bs[..i + 1][..i] == bs[..i];
      instants := instants + bs[i].instants;
    }
    assert bs[..|bs|] == bs;
  }

  method MergeSeries(bs: seq<Batch>) returns (series: Option<SeriesBatch>)
    ensures series == StackedSeries(bs)
  {
    series := None;
    for i := 0 to |bs|
      invariant series == StackedSeries(bs[..i])
    {
      assert bs[..i + 1][..i] == bs[..i];
      var more := bs[i].newSeries;
      series := if more.None? then series else if series.None? then more else Some(series.value + more.value);
    }
    assert bs[..|bs|] == bs;
  }

  method MergeTimes(bs: seq<Batch>) returns (lo: int, hi: int)
    requires |bs| > 0
    ensures lo == LeastTime(bs) && hi == GreatestTime(bs)
  {
    lo, hi := bs[0].minTime, bs[0].maxTime;
    for i := 1 to |bs|
      invariant lo == LeastTime(bs[..i]) && hi == GreatestTime(bs[..i])
    {
      assert bs[..i + 1][..i] == bs[..i];
      lo := if bs[i].minTime < lo then bs[i].minTime else lo;
      hi := if bs[i].maxTime > hi then bs[i].maxTime else hi;
    }
    assert bs[..|bs|] == bs;
  }

  method CoalescePreparedBatches(casts: Casts, bs: seq<Batch>) returns (b: Option<Batch>)
    ensures b == Stacked(casts, bs)
  {
    if |bs| == 0 {
      return None;
    }
    if |bs| == 1 {
      return Some(bs[0]);
    }
    var tables := seq(|bs|, i requires 0 <= i < |bs| => bs[i].table);
    assert tables == TablesOf(bs);
    var table := ConcatByName(casts, tables, Null);
    if table.None? {
      return None;
    }
    StackHasColumns(casts, bs, table.value);
    var instants := MergeInstants(bs);
    var lo, hi := MergeTimes(bs);
    var series := MergeSeries(bs);
    b := Some(Rows(bs[0].measurement, instants, table.value, lo, hi, series));
  }

  // --------------------------------------------------------------------- what is stacked

  /** Row `i` of batch `m` as the stack has it: each cell cast to the type its column comes to. */
  ghost function CastRow(casts: Casts, bs: seq<Batch>, m: nat, i: nat): Point
    requires m < |bs| && i < |bs[m].instants|
  {
    var ts := TablesOf(bs);
    var own := RowAt(bs[m], i).fields;
    Point(bs[0].measurement, bs[m].instants[i].tags,
          map f | f in own && StackedCell(casts, ts, m, i, f).Some? :: StackedCell(casts, ts, m, i, f).value,
          bs[m].instants[i].timestamp)
  }

  lemma {:induction false} InstantsAt(bs: seq<Batch>, m: nat, i: nat)
    requires m < |bs| && i < |bs[m].instants|
    ensures RowsBefore(TablesOf(bs), m) + i < |StackedInstants(bs)|
    ensures StackedInstants(bs)[RowsBefore(TablesOf(bs), m) + i] == bs[m].instants[i]
  {
    var n := |bs| - 1;
    InstantsNext(bs);
    if m < n {
      RowsOfPrefix(bs, n, m);
      InstantsAt(bs[..n], m, i);
    }
  }

  lemma {:induction false} InstantsNext(bs: seq<Batch>)
    requires |bs| > 0
    ensures var n := |bs| - 1;
            && StackedInstants(bs) == StackedInstants(bs[..n]) + bs[n].instants
            && |StackedInstants(bs[..n])| == RowsBefore(TablesOf(bs), n)
  {
    RowsOfPrefix(bs, |bs| - 1, |bs| - 1);
  }

  lemma {:induction false} NullStaysNull(casts: Casts, bs: seq<Batch>, m: nat, i: nat, name: string)
    requires m < |bs| && i < |bs[m].instants| && StackedCell(casts, TablesOf(bs), m, i, name).Some?
    ensures name in RowAt(bs[m], i).fields
  {
    RowCells(bs[m], i, name);
  }

  lemma {:induction false} SingleStack(casts: Casts, bs: seq<Batch>, i: nat, name: string)
    requires |bs| == 1 && i < |bs[0].instants|
    ensures StackedCell(casts, TablesOf(bs), 0, i, name) == CellAt(bs[0].table, i, name)
  {
    var ts := TablesOf(bs);
    assert ts[..0] == [];
    if TypeIn(ts[0].fields, name).Some? {
      var t := TypeIn(ts[0].fields, name).value;
      assert TypesOf(ts, name) == [t];
      WidestSame([t], t);
    }
  }

  lemma {:induction false} StackedIs(casts: Casts, bs: seq<Batch>, out: Batch)
    requires |bs| > 1 && Stacked(casts, bs) == Some(out)
    ensures Concat(casts, TablesOf(bs), Null) == Some(out.table)
    ensures out.measurement == bs[0].measurement && out.instants == StackedInstants(bs)
  {
  }

  lemma {:induction false} ManyStacked(casts: Casts, bs: seq<Batch>, t: RecordBatch, m: nat, i: nat, name: string)
    requires Concat(casts, TablesOf(bs), Null) == Some(t) && m < |bs| && i < |bs[m].instants|
    ensures RowsBefore(TablesOf(bs), m) + i < t.rows
    ensures CellAt(t, RowsBefore(TablesOf(bs), m) + i, name) == StackedCell(casts, TablesOf(bs), m, i, name)
  {
    StackKeepsRows(casts, TablesOf(bs), t, m, i, name);
  }

  lemma {:induction false} StackedCells(casts: Casts, bs: seq<Batch>, out: Batch, m: nat, i: nat, name: string)
    requires |bs| > 0 && Stacked(casts, bs) == Some(out) && m < |bs| && i < |bs[m].instants|
    ensures RowsBefore(TablesOf(bs), m) + i < |out.instants|
    ensures CellAt(out.table, RowsBefore(TablesOf(bs), m) + i, name) == StackedCell(casts, TablesOf(bs), m, i, name)
  {
    if |bs| == 1 {
      SingleStack(casts, bs, i, name);
    } else {
      StackedIs(casts, bs, out);
      ManyStacked(casts, bs, out.table, m, i, name);
    }
  }

  /** Row `i` of batch `m` is in the stack after the rows of the batches before it, cast as a whole. */
  lemma {:induction false} StackedRow(casts: Casts, bs: seq<Batch>, out: Batch, m: nat, i: nat)
    requires |bs| > 0 && Stacked(casts, bs) == Some(out) && m < |bs| && i < |bs[m].instants|
    ensures RowsBefore(TablesOf(bs), m) + i < |out.instants|
    ensures RowAt(out, RowsBefore(TablesOf(bs), m) + i) == CastRow(casts, bs, m, i)
  {
    var x := RowsBefore(TablesOf(bs), m) + i;
    StackedPlace(casts, bs, out, m, i);
    forall f ensures CellAt(out.table, x, f) == StackedCell(casts, TablesOf(bs), m, i, f) {
      StackedCells(casts, bs, out, m, i, f);
    }
    RowOfCells(casts, bs, out, m, i, x);
  }

  lemma {:induction false} RowOfCells(casts: Casts, bs: seq<Batch>, out: Batch, m: nat, i: nat, x: nat)
    requires m < |bs| && i < |bs[m].instants| && x < |out.instants|
    requires out.measurement == bs[0].measurement && out.instants[x] == bs[m].instants[i]
    requires forall f :: CellAt(out.table, x, f) == StackedCell(casts, TablesOf(bs), m, i, f)
    ensures RowAt(out, x) == CastRow(casts, bs, m, i)
  {
    var got, cast := RowAt(out, x).fields, CastRow(casts, bs, m, i).fields;
    forall f ensures (f in got <==> f in cast) && (f in got ==> got[f] == cast[f]) {
      RowCells(out, x, f);
      CastCells(casts, bs, m, i, f);
    }
    assert got == cast;
  }

  lemma {:induction false} StackedPlace(casts: Casts, bs: seq<Batch>, out: Batch, m: nat, i: nat)
    requires |bs| > 0 && Stacked(casts, bs) == Some(out) && m < |bs| && i < |bs[m].instants|
    ensures out.measurement == bs[0].measurement && RowsBefore(TablesOf(bs), m) + i < |out.instants|
    ensures out.instants[RowsBefore(TablesOf(bs), m) + i] == bs[m].instants[i]
  {
    if |bs| > 1 {
      StackedIs(casts, bs, out);
      InstantsAt(bs, m, i);
    }
  }

  lemma {:induction false} CastCells(casts: Casts, bs: seq<Batch>, m: nat, i: nat, f: string)
    requires m < |bs| && i < |bs[m].instants|
    ensures var cast, cell := CastRow(casts, bs, m, i).fields, StackedCell(casts, TablesOf(bs), m, i, f);
            (f in cast <==> cell.Some?) && (f in cast ==> cell == Some(cast[f]))
  {
    if StackedCell(casts, TablesOf(bs), m, i, f).Some? { NullStaysNull(casts, bs, m, i, f); }
  }

  /** The rows of the batches in order, each cast. */
  ghost function CastRows(casts: Casts, bs: seq<Batch>, n: nat): (rows: seq<Point>)
    requires n <= |bs|
    ensures |rows| == RowsBefore(TablesOf(bs), n)
  {
    if n == 0 then []
    else
      CastRows(casts, bs, n - 1)
      + seq(|bs[n - 1].instants|, i requires 0 <= i < |bs[n - 1].instants| => CastRow(casts, bs, n - 1, i))
  }

  lemma {:induction false} CastRowsAt(casts: Casts, bs: seq<Batch>, n: nat, m: nat, i: nat)
    requires m < n <= |bs| && i < |bs[m].instants|
    ensures RowsBefore(TablesOf(bs), m) + i < RowsBefore(TablesOf(bs), n)
    ensures CastRows(casts, bs, n)[RowsBefore(TablesOf(bs), m) + i] == CastRow(casts, bs, m, i)
  {
    RowsGrow(TablesOf(bs), m, n);
    if m < n - 1 { CastRowsAt(casts, bs, n - 1, m, i); }
  }

  /** Which row of which batch a row of the stack is. */
  lemma {:induction false} WhichRow(bs: seq<Batch>, n: nat, x: nat) returns (m: nat, i: nat)
    requires n <= |bs| && x < RowsBefore(TablesOf(bs), n)
    ensures m < n && i < |bs[m].instants| && x == RowsBefore(TablesOf(bs), m) + i
  {
    if x < RowsBefore(TablesOf(bs), n - 1) {
      m, i := WhichRow(bs, n - 1, x);
    } else {
      m, i := n - 1, x - RowsBefore(TablesOf(bs), n - 1);
    }
  }

  /** The stack is the batches' rows in order, with each cell cast to the type its column comes to. */
  lemma {:induction false} StackIsCastRows(casts: Casts, bs: seq<Batch>, out: Batch)
    requires |bs| > 0 && Stacked(casts, bs) == Some(out)
    ensures RowsOf(out) == CastRows(casts, bs, |bs|)
  {
    StackLength(casts, bs, out);
    forall x | 0 <= x < |out.instants| ensures RowAt(out, x) == CastRows(casts, bs, |bs|)[x] {
      StackIsCastRow(casts, bs, out, x);
    }
  }

  lemma {:induction false} StackLength(casts: Casts, bs: seq<Batch>, out: Batch)
    requires |bs| > 0 && Stacked(casts, bs) == Some(out)
    ensures |out.instants| == RowsBefore(TablesOf(bs), |bs|)
  {
    if |bs| == 1 {
      assert RowsBefore(TablesOf(bs), 0) == 0;
    } else {
      StackedIs(casts, bs, out);
    }
  }

  lemma {:induction false} StackIsCastRow(casts: Casts, bs: seq<Batch>, out: Batch, x: nat)
    requires |bs| > 0 && Stacked(casts, bs) == Some(out) && x < |out.instants| && x < RowsBefore(TablesOf(bs), |bs|)
    ensures RowAt(out, x) == CastRows(casts, bs, |bs|)[x]
  {
    var m, i := WhichRow(bs, |bs|, x);
    StackedRow(casts, bs, out, m, i);
    CastRowsAt(casts, bs, |bs|, m, i);
  }

  /**
   A value is in its stacked row exactly when its batch's column already has the type
   the column comes to, or the cast to that type gives it back.
   */
  lemma {:induction false} ValueKeptExactly(casts: Casts, bs: seq<Batch>, m: nat, i: nat, name: string)
    requires m < |bs| && i < |bs[m].instants| && name in RowAt(bs[m], i).fields
    ensures TypeIn(bs[m].table.fields, name).Some? && Widest(TypesOf(TablesOf(bs), name)).Some?
    ensures var v, row := RowAt(bs[m], i).fields[name], CastRow(casts, bs, m, i);
            var from, ty := TypeIn(bs[m].table.fields, name).value, Widest(TypesOf(TablesOf(bs), name)).value;
            name in row.fields && SameValue(v, row.fields[name]) <==> from == ty || Kept(v, casts.cell(from, ty, v))
  {
    RowCells(bs[m], i, name);
    TypeCounts(TablesOf(bs), name, m);
    WidestSome(TypesOf(TablesOf(bs), name));
  }

  // ------------------------------------------------------------------- slicing

  datatype Work = Work(key: Key, batch: Batch)

  function SliceColumns(columns: seq<Column>, offset: nat, len: nat): (sliced: seq<Column>)
    requires forall c :: 0 <= c < |columns| ==> offset + len <= |columns[c]|
    ensures |sliced| == |columns|
    ensures forall c :: 0 <= c < |columns| ==> sliced[c] == columns[c][offset..offset + len]
  {
    seq(|columns|, c requires 0 <= c < |columns| => columns[c][offset..offset + len])
  }

  function SliceBatch(b: Batch, offset: nat, len: nat): Batch
    requires offset + len <= |b.instants|
  {
    var table: RecordBatch := Table(b.table.fields, SliceColumns(b.table.columns, offset, len), len);
    Rows(b.measurement, b.instants[offset..offset + len], table, b.minTime, b.maxTime,
         if offset == 0 then b.newSeries else None)
  }

  lemma {:induction false} SlicedFields(b: Batch, offset: nat, len: nat, i: nat, n: nat)
    requires offset + len <= |b.instants| && i < len && n <= |b.table.fields|
    ensures FieldsUpTo(SliceBatch(b, offset, len).table, i, n) == FieldsUpTo(b.table, offset + i, n)
  {
    if n > 0 { SlicedFields(b, offset, len, i, n - 1); }
  }

  lemma {:induction false} SlicedRows(b: Batch, offset: nat, len: nat)
    requires offset + len <= |b.instants|
    ensures RowsOf(SliceBatch(b, offset, len)) == RowsOf(b)[offset..offset + len]
  {
    var slice := SliceBatch(b, offset, len);
    forall i | 0 <= i < len ensures RowsOf(slice)[i] == RowsOf(b)[offset..offset + len][i] {
      SlicedFields(b, offset, len, i, |b.table.fields|);
    }
  }

  ghost function Slices(key: Key, b: Batch, offset: nat, max: nat): seq<Work>
    requires offset <= |b.instants| && max > 0
    decreases |b.instants| - offset
  {
    if offset == |b.instants| then []
    else
      var take := if |b.instants| - offset <= max then |b.instants| - offset else max;
      [Work(key, SliceBatch(b, offset, take))] + Slices(key, b, offset + take, max)
  }

  method SliceRows(key: Key, b: Batch, max: nat) returns (items: seq<Work>)
    requires max > 0
    ensures items == Slices(key, b, 0, max)
  {
    items := [];
    var offset := 0;
    while offset < |b.instants|
      invariant offset <= |b.instants|
      invariant Slices(key, b, 0, max) == items + Slices(key, b, offset, max)
    {
      var take := if |b.instants| - offset <= max then |b.instants| - offset else max;
      items := items + [Work(key, SliceBatch(b, offset, take))];
      offset := offset + take;
    }
  }

  /** How the batches of one measurement are stacked. */
  type Stacker = seq<Batch> -> Option<Batch>

  ghost predicate Stacks(casts: Casts, stack: Stacker) {
    forall bs {:trigger Stacked(casts, bs)} :: stack(bs) == Stacked(casts, bs)
  }

  ghost function StackerOf(casts: Casts): (stack: Stacker)
    ensures Stacks(casts, stack)
  {
    bs => Stacked(casts, bs)
  }

  /** The inserts of the measurements in order, unless some measurement's batches cannot be stacked. */
  ghost function WorkItems(stack: Stacker, byMeas: map<Key, seq<Batch>>, keys: seq<Key>, max: nat): Option<seq<Work>>
    requires max > 0 && forall i :: 0 <= i < |keys| ==> keys[i] in byMeas
  {
    if |keys| == 0 then Some([])
    else
      var k := keys[|keys| - 1];
      match WorkItems(stack, byMeas, keys[..|keys| - 1], max)
      case None => None
      case Some(before) =>
        match stack(byMeas[k])
        case None => None
        case Some(b) => Some(before + Slices(k, b, 0, max))
  }

  lemma {:induction false} WorkItemsNext(stack: Stacker, byMeas: map<Key, seq<Batch>>, keys: seq<Key>, i: nat, max: nat)
    requires max > 0 && i < |keys| && forall j :: 0 <= j < |keys| ==> keys[j] in byMeas
    requires WorkItems(stack, byMeas, keys[..i], max).Some?
    ensures WorkItems(stack, byMeas, keys[..i + 1], max) ==
            match stack(byMeas[keys[i]])
            case None => None
            case Some(b) => Some(WorkItems(stack, byMeas, keys[..i], max).value + Slices(keys[i], b, 0, max))
  {
    assert keys[..i + 1][..i] == keys[..i];
  }

  lemma {:induction false} WorkItemsFail(stack: Stacker, byMeas: map<Key, seq<Batch>>, keys: seq<Key>, n: nat, max: nat)
    requires max > 0 && forall j :: 0 <= j < |keys| ==> keys[j] in byMeas
    requires n <= |keys| && WorkItems(stack, byMeas, keys[..n], max) == None
    ensures WorkItems(stack, byMeas, keys, max) == None
    decreases |keys| - n
  {
    if n < |keys| {
      assert keys[..n + 1][..n] == keys[..n];
      WorkItemsFail(stack, byMeas, keys, n + 1, max);
    } else {
      assert keys[..n] == keys;
    }
  }

  method StackGroup(casts: Casts, bs: seq<Batch>, ghost stack: Stacker) returns (b: Option<Batch>)
    requires Stacks(casts, stack)
    ensures b == stack(bs)
  {
    b := CoalescePreparedBatches(casts, bs);
  }

  method ItemsInOrder(casts: Casts, byMeas: map<Key, seq<Batch>>, keys: seq<Key>, max: nat, ghost stack: Stacker)
    returns (items: Option<seq<Work>>)
    requires max > 0 && Stacks(casts, stack) && forall j :: 0 <= j < |keys| ==> keys[j] in byMeas
    ensures items == WorkItems(stack, byMeas, keys, max)
  {
    var works := [];
    for i := 0 to |keys|
      invariant WorkItems(stack, byMeas, keys[..i], max) == Some(works)
    {
      WorkItemsNext(stack, byMeas, keys, i, max);
      var merged := StackGroup(casts, byMeas[keys[i]], stack);
      if merged.None? {
        WorkItemsFail(stack, byMeas, keys, i + 1, max);
        return None;
      }
      var slices := SliceRows(keys[i], merged.value, max);
      works := works + slices;
    }
    assert keys[..|keys|] == keys;
    return Some(works);
  }

  method BuildWorkItems(casts: Casts, byMeas: map<Key, seq<Batch>>, max: nat, ghost stack: Stacker)
    returns (items: Option<seq<Work>>)
    requires max > 0 && Stacks(casts, stack)
    ensures items == WorkItems(stack, byMeas, Ascending(byMeas.Keys), max)
  {
    var keys := SortedKeys(byMeas.Keys);
    items := ItemsInOrder(casts, byMeas, keys, max, stack);
  }

  ghost function KeysOf(bs: seq<KeyedBatch>): set<Key> {
    set i | 0 <= i < |bs| :: bs[i].key
  }

  ghost function GroupMap(bs: seq<KeyedBatch>): (byMeas: map<Key, seq<Batch>>)
    ensures byMeas.Keys == KeysOf(bs)
    ensures forall k :: k in byMeas ==> byMeas[k] == BatchesOf(bs, k)
  {
    map k | k in KeysOf(bs) :: BatchesOf(bs, k)
  }

  /** The inserts of a whole prepared chunk, if its batches can be stacked. */
  ghost function ChunkItems(casts: Casts, slots: seq<Sequenced>, max: nat): Option<seq<Work>>
    requires max > 0
  {
    var bs := ChunkBatches(slots);
    WorkItems(StackerOf(casts), GroupMap(bs), Ascending(KeysOf(bs)), max)
  }

  method PreparedItems(casts: Casts, slots: seq<Sequenced>, max: nat) returns (items: Option<seq<Work>>)
    requires max > 0
    ensures items == ChunkItems(casts, slots, max)
  {
    var byMeas := GroupByMeasurement(slots);
    ghost var bs := ChunkBatches(slots);
    forall k | k in byMeas ensures k in KeysOf(bs) {
      if k !in KeysOf(bs) { AbsentGroup(bs, k); }
    }
    assert byMeas == GroupMap(bs);
    items := BuildWorkItems(casts, byMeas, max, StackerOf(casts));
  }

  // ------------------------------------------------------------------ theorems

  /** The rows of one key over a sequence of inserts, concatenated. */
  ghost function Inserted(items: seq<Work>, key: Key): seq<Point> {
    if |items| == 0 then []
    else
      var before, last := Inserted(items[..|items| - 1], key), items[|items| - 1];
      if last.key == key then before + RowsOf(last.batch) else before
  }

  lemma {:induction false} InsertedAppend(a: seq<Work>, b: seq<Work>, key: Key)
    ensures Inserted(a + b, key) == Inserted(a, key) + Inserted(b, key)
  {
    if |b| == 0 {
      assert a + b == a;
    } else {
      var n := |b| - 1;
      assert (a + b)[..|a| + n] == a + b[..n];
      InsertedAppend(a, b[..n], key);
    }
  }

  ghost predicate WithinLimit(items: seq<Work>, max: nat) {
    forall i :: 0 <= i < |items| ==> 0 < |items[i].batch.instants| <= max
  }

  lemma {:induction false} InsertedOne(w: Work, key: Key)
    ensures Inserted([w], key) == if w.key == key then RowsOf(w.batch) else []
  {
    assert [w][..0] == [];
  }

  lemma {:induction false} RowsSplit(rows: seq<Point>, offset: nat, take: nat)
    requires offset + take <= |rows|
    ensures rows[offset..offset + take] + rows[offset + take..] == rows[offset..]
  {
  }

  lemma {:induction false} TileOneMore(head: Work, tail: seq<Work>, rows: seq<Point>, offset: nat, take: nat, key: Key,
                                       other: Key)
    requires offset + take <= |rows| && head.key == key && RowsOf(head.batch) == rows[offset..offset + take]
    requires Inserted(tail, other) == if other == key then rows[offset + take..] else []
    ensures Inserted([head] + tail, other) == if other == key then rows[offset..] else []
  {
    InsertedAppend([head], tail, other);
    InsertedOne(head, other);
    RowsSplit(rows, offset, take);
  }

  /** Slices tile the rows from `offset` on, in order. */
  lemma {:induction false} SlicesTile(key: Key, b: Batch, offset: nat, max: nat, other: Key)
    requires offset <= |b.instants| && max > 0
    ensures Inserted(Slices(key, b, offset, max), other) == if other == key then RowsOf(b)[offset..] else []
    decreases |b.instants| - offset
  {
    if offset < |b.instants| {
      var take := if |b.instants| - offset <= max then |b.instants| - offset else max;
      SlicesTile(key, b, offset + take, max, other);
      SlicesNext(key, b, offset, max, other, take, Slices(key, b, offset + take, max), RowsOf(b));
    }
  }

  lemma {:induction false} SlicesNext(key: Key, b: Batch, offset: nat, max: nat, other: Key, take: nat, tail: seq<Work>,
                                      rows: seq<Point>)
    requires offset < |b.instants| && max > 0 && rows == RowsOf(b)
    requires take == if |b.instants| - offset <= max then |b.instants| - offset else max
    requires tail == Slices(key, b, offset + take, max)
    requires Inserted(tail, other) == if other == key then rows[offset + take..] else []
    ensures Inserted(Slices(key, b, offset, max), other) == if other == key then rows[offset..] else []
  {
    var head := Work(key, SliceBatch(b, offset, take));
    SlicedRows(b, offset, take);
    TileOneMore(head, tail, rows, offset, take, key, other);
    assert Slices(key, b, offset, max) == [head] + tail;
  }

  /** Each slice is non-empty and within the limit; the new series go with the one at offset 0 and no other. */
  lemma {:induction false} SlicesBounded(key: Key, b: Batch, offset: nat, max: nat)
    requires offset <= |b.instants| && max > 0
    ensures WithinLimit(Slices(key, b, offset, max), max)
    ensures forall i :: 0 <= i < |Slices(key, b, offset, max)| ==>
              Slices(key, b, offset, max)[i].batch.newSeries == if offset == 0 && i == 0 then b.newSeries else None
    decreases |b.instants| - offset
  {
    if offset < |b.instants| {
      var take := if |b.instants| - offset <= max then |b.instants| - offset else max;
      SlicesBounded(key, b, offset + take, max);
    }
  }

  lemma {:induction false} WorkItemsWithinLimit(stack: Stacker, byMeas: map<Key, seq<Batch>>, keys: seq<Key>, max: nat,
                                                items: seq<Work>)
    requires max > 0 && forall i :: 0 <= i < |keys| ==> keys[i] in byMeas
    requires WorkItems(stack, byMeas, keys, max) == Some(items)
    ensures WithinLimit(items, max)
  {
    if |keys| > 0 {
      var n := |keys| - 1;
      WorkItemsWithinLimit(stack, byMeas, keys[..n], max, WorkItems(stack, byMeas, keys[..n], max).value);
      SlicesBounded(keys[n], stack(byMeas[keys[n]]).value, 0, max);
    }
  }

  /** The inserts hold, per measurement, the rows of its stack in order. */
  lemma {:induction false} WorkItemsConserve(stack: Stacker, byMeas: map<Key, seq<Batch>>, keys: seq<Key>, max: nat,
                                             items: seq<Work>, key: Key)
    requires max > 0 && forall i :: 0 <= i < |keys| ==> keys[i] in byMeas
    requires forall i, j :: 0 <= i < j < |keys| ==> keys[i] != keys[j]
    requires WorkItems(stack, byMeas, keys, max) == Some(items)
    ensures key in keys ==> stack(byMeas[key]).Some? && Inserted(items, key) == RowsOf(stack(byMeas[key]).value)
    ensures key !in keys ==> Inserted(items, key) == []
  {
    if |keys| > 0 {
      var n := |keys| - 1;
      var before, b := WorkItems(stack, byMeas, keys[..n], max).value, stack(byMeas[keys[n]]).value;
      WorkItemsConserve(stack, byMeas, keys[..n], max, before, key);
      SlicesTile(keys[n], b, 0, max, key);
      InsertedAppend(before, Slices(keys[n], b, 0, max), key);
      OneKeyMore(keys, n, key);
    }
  }

  /** What one measurement's batches come to, rows in order. */
  ghost function GroupRows(casts: Casts, bs: seq<Batch>): seq<Point> {
    CastRows(casts, bs, |bs|)
  }

  /**
   A prepared chunk inserts, per measurement, exactly its batches' rows in order, with
   each cell cast to the type its column comes to over the chunk.
   */
  lemma {:induction false} ChunkConserves(casts: Casts, slots: seq<Sequenced>, max: nat, items: seq<Work>, key: Key)
    requires max > 0 && ChunkItems(casts, slots, max) == Some(items)
    ensures WithinLimit(items, max)
    ensures Inserted(items, key) == GroupRows(casts, BatchesOf(ChunkBatches(slots), key))
  {
    var bs := ChunkBatches(slots);
    WorkItemsWithinLimit(StackerOf(casts), GroupMap(bs), Ascending(KeysOf(bs)), max, items);
    WorkItemsConserve(StackerOf(casts), GroupMap(bs), Ascending(KeysOf(bs)), max, items, key);
    if key in KeysOf(bs) {
      StackIsCastRows(casts, BatchesOf(bs, key), Stacked(casts, BatchesOf(bs, key)).value);
    } else {
      AbsentGroup(bs, key);
    }
  }

  lemma {:induction false} PresentGroup(bs: seq<KeyedBatch>, key: Key)
    requires key in KeysOf(bs)
    ensures |BatchesOf(bs, key)| > 0
  {
    var n := |bs| - 1;
    if bs[n].key != key {
      assert forall i :: 0 <= i < n ==> bs[..n][i] == bs[i];
      PresentGroup(bs[..n], key);
    }
  }

  lemma {:induction false} WorkItemsSucceed(stack: Stacker, byMeas: map<Key, seq<Batch>>, keys: seq<Key>, max: nat)
    requires max > 0 && forall i :: 0 <= i < |keys| ==> keys[i] in byMeas && stack(byMeas[keys[i]]).Some?
    ensures WorkItems(stack, byMeas, keys, max).Some?
  {
    if |keys| > 0 { WorkItemsSucceed(stack, byMeas, keys[..|keys| - 1], max); }
  }

  /** A chunk has its inserts when each measurement's batches stack. */
  lemma {:induction false} ChunkStacks(casts: Casts, slots: seq<Sequenced>, max: nat)
    requires max > 0
    requires forall key :: key in KeysOf(ChunkBatches(slots)) ==>
             Stacked(casts, BatchesOf(ChunkBatches(slots), key)).Some?
    ensures ChunkItems(casts, slots, max).Some?
  {
    var bs := ChunkBatches(slots);
    WorkItemsSucceed(StackerOf(casts), GroupMap(bs), Ascending(KeysOf(bs)), max);
  }

  // ------------------------------------------------------------- nothing is left behind

  lemma {:induction false} BatchInChunk(slots: seq<Sequenced>, i: nat, j: nat) returns (r: nat)
    requires i < |slots| && j < |slots[i].slot.batches|
    ensures r < |ChunkBatches(slots)|
    ensures ChunkBatches(slots)[r] ==
            KeyedBatch(KeyOf(slots[i].slot, slots[i].slot.batches[j]), slots[i].slot.batches[j])
  {
    var n := |slots| - 1;
    if i < n {
      r := BatchInChunk(slots[..n], i, j);
    } else {
      r := |ChunkBatches(slots[..n])| + j;
    }
  }

  lemma {:induction false} BatchInGroup(bs: seq<KeyedBatch>, i: nat) returns (m: nat)
    requires i < |bs|
    ensures m < |BatchesOf(bs, bs[i].key)| && BatchesOf(bs, bs[i].key)[m] == bs[i].batch
  {
    var n := |bs| - 1;
    if i < n {
      m := BatchInGroup(bs[..n], i);
    } else {
      m := |BatchesOf(bs[..n], bs[i].key)|;
    }
  }

  lemma {:induction false} KeyedMeasurement(bs: seq<KeyedBatch>, key: Key, m: nat)
    requires m < |BatchesOf(bs, key)| && forall i :: 0 <= i < |bs| ==> bs[i].key.measurement == bs[i].batch.measurement
    ensures BatchesOf(bs, key)[m].measurement == key.measurement
  {
    var n := |bs| - 1;
    if m < |BatchesOf(bs[..n], key)| { KeyedMeasurement(bs[..n], key, m); }
  }

  lemma {:induction false} ChunkMeasurements(slots: seq<Sequenced>)
    ensures forall i :: 0 <= i < |ChunkBatches(slots)| ==>
              ChunkBatches(slots)[i].key.measurement == ChunkBatches(slots)[i].batch.measurement
  {
    if |slots| > 0 { ChunkMeasurements(slots[..|slots| - 1]); }
  }

  lemma {:induction false} GroupMeasurement(slots: seq<Sequenced>, key: Key, m: nat)
    requires m < |BatchesOf(ChunkBatches(slots), key)|
    ensures BatchesOf(ChunkBatches(slots), key)[m].measurement == key.measurement
  {
    ChunkMeasurements(slots);
    KeyedMeasurement(ChunkBatches(slots), key, m);
  }

  lemma {:induction false} RowInItem(items: seq<Work>, key: Key, m: nat) returns (w: nat, r: nat)
    requires m < |Inserted(items, key)|
    ensures w < |items| && items[w].key == key
    ensures r < |items[w].batch.instants| && RowAt(items[w].batch, r) == Inserted(items, key)[m]
  {
    var n := |items| - 1;
    var before := |Inserted(items[..n], key)|;
    if m < before {
      w, r := RowInItem(items[..n], key, m);
    } else {
      w, r := n, m - before;
    }
  }

  lemma {:induction false} RowInInserted(items: seq<Work>, w: nat, r: nat) returns (m: nat)
    requires w < |items| && r < |items[w].batch.instants|
    ensures m < |Inserted(items, items[w].key)| && Inserted(items, items[w].key)[m] == RowAt(items[w].batch, r)
  {
    var n := |items| - 1;
    if w < n {
      m := RowInInserted(items[..n], w, r);
    } else {
      m := |Inserted(items[..n], items[w].key)| + r;
    }
  }

  /** The types the chunk's batches of a measurement give a column, in order. */
  ghost function ColumnTypes(slots: seq<Sequenced>, key: Key, name: string): seq<Type> {
    TypesOf(TablesOf(BatchesOf(ChunkBatches(slots), key)), name)
  }

  /** A type a batch gives a column is in the table of one of them. */
  lemma {:induction false} TypeFrom(bs: seq<Batch>, name: string, t: Type) returns (m: nat)
    requires t in TypesOf(TablesOf(bs), name)
    ensures m < |bs| && TypeIn(bs[m].table.fields, name) == Some(t)
  {
    var n := |bs| - 1;
    assert TablesOf(bs)[..n] == TablesOf(bs[..n]);
    if TypeIn(bs[n].table.fields, name) == Some(t) {
      m := n;
    } else {
      m := TypeFrom(bs[..n], name, t);
    }
  }

  /** A batch of a group is one of those grouped. */
  lemma {:induction false} BatchFrom(bs: seq<KeyedBatch>, key: Key, m: nat) returns (i: nat)
    requires m < |BatchesOf(bs, key)|
    ensures i < |bs| && bs[i] == KeyedBatch(key, BatchesOf(bs, key)[m])
  {
    var n := |bs| - 1;
    if m < |BatchesOf(bs[..n], key)| {
      i := BatchFrom(bs[..n], key, m);
    } else {
      i := n;
    }
  }

  /** The types one slot gives a column are among those of the chunk. */
  lemma {:induction false} SlotTypesMet(slots: seq<Sequenced>, i: nat, key: Key, name: string, t: Type)
    requires i < |slots| && t in ColumnTypes([slots[i]], key, name)
    ensures t in ColumnTypes(slots, key, name)
  {
    var own := ChunkBatches([slots[i]]);
    var m := TypeFrom(BatchesOf(own, key), name, t);
    var j := BatchFrom(own, key, m);
    assert [slots[i]][..0] == [];
    assert ChunkBatches([]) + SlotBatches(slots[i].slot, |slots[i].slot.batches|) == own;
    var r := BatchInChunk(slots, i, j);
    var g := BatchInGroup(ChunkBatches(slots), r);
    TypeCounts(TablesOf(BatchesOf(ChunkBatches(slots), key)), name, g);
  }

  lemma {:induction false} GroupCovers(casts: Casts, slots: seq<Sequenced>, max: nat, items: seq<Work>, key: Key,
                                       m: nat, k: nat)
    returns (w: nat, r: nat)
    requires max > 0 && ChunkItems(casts, slots, max) == Some(items)
    requires var group := BatchesOf(ChunkBatches(slots), key); m < |group| && k < |group[m].instants|
    ensures w < |items| && items[w].key == key && r < |items[w].batch.instants|
    ensures RowAt(items[w].batch, r) == CastRow(casts, BatchesOf(ChunkBatches(slots), key), m, k)
  {
    var group := BatchesOf(ChunkBatches(slots), key);
    ChunkConserves(casts, slots, max, items, key);
    CastRowsAt(casts, group, |group|, m, k);
    w, r := RowInItem(items, key, RowsBefore(TablesOf(group), m) + k);
  }

  /** Every row of every slot is in an insert of its measurement, cast. */
  lemma {:induction false} ChunkCovers(casts: Casts, slots: seq<Sequenced>, max: nat, items: seq<Work>, i: nat, j: nat,
                                       k: nat)
    returns (m: nat, w: nat, r: nat)
    requires max > 0 && ChunkItems(casts, slots, max) == Some(items)
    requires i < |slots| && j < |slots[i].slot.batches| && k < |slots[i].slot.batches[j].instants|
    ensures var s := slots[i].slot;
            var group := BatchesOf(ChunkBatches(slots), KeyOf(s, s.batches[j]));
            && m < |group| && group[m] == s.batches[j]
            && w < |items| && items[w].key == KeyOf(s, s.batches[j])
            && r < |items[w].batch.instants| && RowAt(items[w].batch, r) == CastRow(casts, group, m, k)
  {
    var s := slots[i].slot;
    var key := KeyOf(s, s.batches[j]);
    var b := BatchInChunk(slots, i, j);
    m := BatchInGroup(ChunkBatches(slots), b);
    w, r := GroupCovers(casts, slots, max, items, key, m, k);
  }

  /** And every row inserted is one of a batch of its measurement, cast. */
  lemma {:induction false} InsertedFrom(casts: Casts, slots: seq<Sequenced>, max: nat, items: seq<Work>, w: nat, r: nat)
    returns (m: nat, k: nat)
    requires max > 0 && ChunkItems(casts, slots, max) == Some(items) && w < |items| && r < |items[w].batch.instants|
    ensures var group := BatchesOf(ChunkBatches(slots), items[w].key);
            m < |group| && k < |group[m].instants| && RowAt(items[w].batch, r) == CastRow(casts, group, m, k)
  {
    var group := BatchesOf(ChunkBatches(slots), items[w].key);
    ChunkConserves(casts, slots, max, items, items[w].key);
    var x := RowInInserted(items, w, r);
    m, k := WhichRow(group, |group|, x);
    CastRowsAt(casts, group, |group|, m, k);
  }
}
