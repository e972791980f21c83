/**
 Preparing an entry at ingest: its points are grouped by measurement, partial points of
 one series-instant merged, and each measurement's rows laid out as typed columns.
 */
module PreparedSlots {
  import opened Points
  import opened Wrappers
  import opened KeyOrder
  import opened ColumnStack
  import opened FieldColumns
  import PC = PointCoalesce
  import N = NativeChunk
  import P = PreparedChunk

  // --------------------------------------------------------------------------- one batch

  /** Distinct columns, as a table has them. */
  type Fields = fs: seq<Field> | |fs| > 0 && Distinct(fs) witness [Field("time", Int64, false)]

  /** The cells of one field over the rows. */
  ghost predicate IsColumn(round: int -> real, rows: seq<Point>, f: Field, column: Column) {
    && |column| == |rows|
    && forall i :: 0 <= i < |rows| ==>
         column[i] == if f.name in rows[i].fields then Fill(round, f.ty, rows[i].fields[f.name]) else None
  }

  /** The batch lays the rows out under the columns. */
  ghost predicate LaysOut(round: int -> real, fields: Fields, measurement: string, rows: seq<Point>, b: P.Batch) {
    && b.measurement == measurement && b.table.fields == fields && |b.instants| == |rows|
    && (forall i :: 0 <= i < |rows| ==> b.instants[i] == InstantOf(rows[i]))
    && (forall c :: 0 <= c < |fields| ==> IsColumn(round, rows, fields[c], b.table.columns[c]))
  }

  method BuildColumns(round: int -> real, fields: Fields, rows: seq<Point>) returns (columns: seq<Column>)
    ensures |columns| == |fields|
    ensures forall c :: 0 <= c < |fields| ==> IsColumn(round, rows, fields[c], columns[c])
  {
    columns := [];
    for c := 0 to |fields|
      invariant |columns| == c
      invariant forall d :: 0 <= d < c ==> IsColumn(round, rows, fields[d], columns[d])
    {
      var column := BuildFieldColumn(round, rows, fields[c].name, fields[c].ty);
      columns := columns + [column];
    }
  }

  method BuildTimes(rows: seq<Point>) returns (instants: seq<Instant>, lo: int, hi: int)
    ensures |instants| == |rows| && forall i :: 0 <= i < |rows| ==> instants[i] == InstantOf(rows[i])
    ensures forall i :: 0 <= i < |rows| ==> lo <= rows[i].timestamp <= hi
  {
    instants, lo, hi := [], 0x7FFF_FFFF_FFFF_FFFF, -0x8000_0000_0000_0000;
    for i := 0 to |rows|
      invariant |instants| == i && forall j :: 0 <= j < i ==> instants[j] == InstantOf(rows[j])
      invariant forall j :: 0 <= j < i ==> lo <= rows[j].timestamp <= hi
    {
      instants := instants + [InstantOf(rows[i])];
      lo := if rows[i].timestamp < lo then rows[i].timestamp else lo;
      hi := if rows[i].timestamp > hi then rows[i].timestamp else hi;
    }
  }

  method BuildRecordBatch(round: int -> real, fields: Fields, measurement: string, rows: seq<Point>,
                          newSeries: Option<P.SeriesBatch>)
    returns (b: P.Batch)
    ensures LaysOut(round, fields, measurement, rows, b) && b.newSeries == newSeries
  {
    var columns := BuildColumns(round, fields, rows);
    var instants, lo, hi := BuildTimes(rows);
    var table: RecordBatch := Table(fields, columns, |rows|);
    b := P.Rows(measurement, instants, table, lo, hi, newSeries);
  }

  /** The cell of a row under a name is what that column takes of the row's value. */
  lemma {:induction false} CellOfRow(round: int -> real, fields: Fields, measurement: string, rows: seq<Point>,
                                     b: P.Batch, r: nat, f: string)
    requires LaysOut(round, fields, measurement, rows, b) && r < |rows| && f in rows[r].fields
    requires TypeIn(fields, f).Some?
    ensures CellAt(b.table, r, f) == Fill(round, TypeIn(fields, f).value, rows[r].fields[f])
  {
    var c := IndexOf(fields, f).value;
    assert IsColumn(round, rows, fields[c], b.table.columns[c]);
  }

  // ---------------------------------------------------------------- one measurement's points

  /** Where the points of one measurement are, in order. */
  ghost function PlacesOf(points: seq<Point>, measurement: string): (places: seq<nat>)
    ensures forall i :: 0 <= i < |places| ==> places[i] < |points| && points[places[i]].measurement == measurement
    ensures forall i, j :: 0 <= i < j < |places| ==> places[i] < places[j]
  {
    if |points| == 0 then []
    else
      var n := |points| - 1;
      var before := PlacesOf(points[..n], measurement);
      if points[n].measurement == measurement then before + [n] else before
  }

  ghost function PointsOf(points: seq<Point>, measurement: string): (group: seq<Point>)
    ensures |group| == |PlacesOf(points, measurement)| && PC.OneMeasurement(group, measurement)
    ensures forall i :: 0 <= i < |group| ==> group[i] == points[PlacesOf(points, measurement)[i]]
  {
    var places := PlacesOf(points, measurement);
    seq(|places|, i requires 0 <= i < |places| => points[places[i]])
  }

  lemma {:induction false} PlaceOf(points: seq<Point>, i: nat) returns (j: nat)
    requires i < |points|
    ensures var places := PlacesOf(points, points[i].measurement); j < |places| && places[j] == i
  {
    var n := |points| - 1;
    if i < n {
      j := PlaceOf(points[..n], i);
    } else {
      j := |PlacesOf(points[..n], points[i].measurement)|;
    }
  }

  /** What a measurement's points supply, the entry's points supply. */
  lemma {:induction false} SuppliedByEntry(points: seq<Point>, measurement: string, j: nat, f: string, v: FieldValue)
    requires j < |PointsOf(points, measurement)| && PC.Supplies(PointsOf(points, measurement), j, f, v)
    ensures PC.Supplies(points, PlacesOf(points, measurement)[j], f, v)
  {
    var group, places := PointsOf(points, measurement), PlacesOf(points, measurement);
    var m :| j <= m < |group| && SameInstant(group[m], group[j]) && HasValue(group[m], f, v);
    assert places[j] <= places[m] && points[places[m]] == group[m];
  }

  ghost function Origins(n: nat, origin: nat): (os: seq<nat>)
    ensures |os| == n
  {
    seq(n, _ => origin)
  }

  /** The rows of one measurement of an entry: its points, partial ones merged. */
  ghost function RowsFor(e: N.Entry, measurement: string): seq<Point> {
    var group := PointsOf(e.points, measurement);
    PC.Merged(group, Origins(|group|, e.origin)).rows
  }

  method GroupOf(points: seq<Point>, measurement: string) returns (group: seq<Point>)
    ensures group == PointsOf(points, measurement)
  {
    group := [];
    for i := 0 to |points|
      invariant group == PointsOf(points[..i], measurement)
    {
      PointsNext(points, measurement, i);
      if points[i].measurement == measurement {
        group := group + [points[i]];
      }
    }
    assert points[..|points|] == points;
  }

  lemma {:induction false} PointsNext(points: seq<Point>, measurement: string, i: nat)
    requires i < |points|
    ensures PointsOf(points[..i + 1], measurement) ==
            PointsOf(points[..i], measurement) + if points[i].measurement == measurement then [points[i]] else []
  {
    assert points[..i + 1][..i] == points[..i];
  }

  // -------------------------------------------------------------------------- a whole slot

  /** The columns a measurement's table is known to have. */
  type Schema = string -> Fields

  /** Every field of every point has a column in its measurement's table. */
  ghost predicate Ensured(schema: Schema, points: seq<Point>) {
    forall i, f :: 0 <= i < |points| && f in points[i].fields ==> TypeIn(schema(points[i].measurement), f).Some?
  }

  ghost function MeasurementsOf(e: N.Entry): set<Key> {
    set i | 0 <= i < |e.points| :: N.KeyOf(e, e.points[i])
  }

  /** A slot that holds, measurement by measurement in order, the entry's rows as columns. */
  ghost predicate IsSlotFor(round: int -> real, schema: Schema, e: N.Entry, slot: P.Slot) {
    var keys := Ascending(MeasurementsOf(e));
    && slot.db == e.db && slot.rp == e.rp && slot.origin == e.origin && |slot.batches| == |keys|
    && forall b :: 0 <= b < |keys| ==>
         LaysOut(round, schema(keys[b].measurement), keys[b].measurement, RowsFor(e, keys[b].measurement),
                 slot.batches[b])
  }

  method PrepareMeasurement(round: int -> real, fields: Fields, e: N.Entry, measurement: string,
                            newSeries: Option<P.SeriesBatch>)
    returns (b: P.Batch)
    ensures LaysOut(round, fields, measurement, RowsFor(e, measurement), b)
  {
    var group := GroupOf(e.points, measurement);
    var origins := seq(|group|, _ => e.origin);
    assert origins == Origins(|group|, e.origin);
    var rows, rowOrigins := PC.CoalescePointsAndOrigins(group, origins);
    b := BuildRecordBatch(round, fields, measurement, rows, newSeries);
  }

  method BuildPreparedWalSlot(round: int -> real, schema: Schema, e: N.Entry,
                              newSeries: string -> Option<P.SeriesBatch>)
    returns (slot: P.Slot)
    ensures IsSlotFor(round, schema, e, slot)
  {
    var found: set<Key> := set i | 0 <= i < |e.points| :: N.KeyOf(e, e.points[i]);
    var keys := SortedKeys(found);
    var batches: seq<P.Batch> := [];
    for b := 0 to |keys|
      invariant |batches| == b
      invariant forall i :: 0 <= i < b ==>
                  LaysOut(round, schema(keys[i].measurement), keys[i].measurement, RowsFor(e, keys[i].measurement),
                          batches[i])
    {
      var m := keys[b].measurement;
      var batch := PrepareMeasurement(round, schema(m), e, m, newSeries(m));
      batches := batches + [batch];
    }
    slot := P.Slot(e.db, e.rp, e.origin, batches);
  }
}
