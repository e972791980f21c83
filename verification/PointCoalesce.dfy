/**
 Merging partial writes of one measurement: rows that share a series-instant
 become one row, fields last-write-wins, origin that of the last contributor.

 The meaning of a row sequence is what a store holds for each series-instant
 after upserting the rows in order. Coalescing preserves that meaning and
 leaves each series-instant in at most one row, so the rows may afterwards be
 written in any order.
 */
module PointCoalesce {
  import opened Points
  import opened Wrappers

  // ---------------------------------------------------------------- meaning

  /** What the store holds for one series-instant. */
  datatype Cell = Cell(fields: map<string, FieldValue>, origin: nat)

  ghost function Upsert(before: Option<Cell>, p: Point, origin: nat): Option<Cell> {
    if before.None? then Some(Cell(p.fields, origin))
    else Some(Cell(before.value.fields + p.fields, origin))
  }

  /** The cell of `at` after writing the rows in order to an empty store. */
  ghost function Lookup(points: seq<Point>, origins: seq<nat>, at: Instant): Option<Cell>
    requires |points| == |origins|
    decreases |points|
  {
    if |points| == 0 then None
    else
      var n := |points| - 1;
      var before := Lookup(points[..n], origins[..n], at);
      if InstantOf(points[n]) != at then before else Upsert(before, points[n], origins[n])
  }

  ghost predicate DistinctInstants(rows: seq<Point>) {
    forall i, j :: 0 <= i < j < |rows| ==> InstantOf(rows[i]) != InstantOf(rows[j])
  }

  // --------------------------------------------------------- merge, one point at a time

  /** Rows to insert and, in parallel, their origins. */
  datatype Table = Table(rows: seq<Point>, origins: seq<nat>) {
    ghost predicate Valid() {
      |rows| == |origins| && DistinctInstants(rows)
    }
  }

  /** The position of series-instant `at` from `from` on, or `|rows|`. */
  ghost function IndexOf(rows: seq<Point>, at: Instant, from: nat): (g: nat)
    requires from <= |rows|
    ensures from <= g <= |rows|
    ensures g < |rows| ==> InstantOf(rows[g]) == at
    ensures forall h :: from <= h < g ==> InstantOf(rows[h]) != at
    decreases |rows| - from
  {
    if from == |rows| || InstantOf(rows[from]) == at then from else IndexOf(rows, at, from + 1)
  }

  ghost function Grown(row: Point, p: Point): Point {
    row.(fields := row.fields + p.fields)
  }

  /** Merge one more point into the table: into its row, or as a new one. */
  ghost function Absorb(t: Table, p: Point, origin: nat): (t': Table)
    requires t.Valid()
    ensures t'.Valid()
  {
    var g := IndexOf(t.rows, InstantOf(p), 0);
    if g < |t.rows| then Table(t.rows[g := Grown(t.rows[g], p)], t.origins[g := origin])
    else Table(t.rows + [p], t.origins + [origin])
  }

  ghost function Merged(points: seq<Point>, origins: seq<nat>): (t: Table)
    requires |points| == |origins|
    ensures t.Valid() && |t.rows| <= |points|
    decreases |points|
  {
    if |points| == 0 then Table([], [])
    else
      var n := |points| - 1;
      Absorb(Merged(points[..n], origins[..n]), points[n], origins[n])
  }

  lemma MergedNext(points: seq<Point>, origins: seq<nat>, i: nat)
    requires i < |points| == |origins|
    ensures Merged(points[..i + 1], origins[..i + 1]) ==
            Absorb(Merged(points[..i], origins[..i]), points[i], origins[i])
  {
    assert points[..i + 1][..i] == points[..i] && origins[..i + 1][..i] == origins[..i];
  }

  lemma MergedLast(points: seq<Point>, origins: seq<nat>)
    requires 0 < |points| == |origins|
    ensures var n := |points| - 1;
            Merged(points, origins) == Absorb(Merged(points[..n], origins[..n]), points[n], origins[n])
  {
  }

  // ------------------------------------------------------------------- plan

  /** Groups of input indices, each group one series-instant, in order of first appearance. */
  type Groups = seq<seq<nat>>

  /** The union of a group's fields, later members overwriting earlier ones. */
  ghost function MergedFields(points: seq<Point>, group: seq<nat>): map<string, FieldValue>
    requires |group| > 0 && forall m :: 0 <= m < |group| ==> group[m] < |points|
    decreases |group|
  {
    var last := |group| - 1;
    if last == 0 then points[group[0]].fields
    else MergedFields(points, group[..last]) + points[group[last]].fields
  }

  /** `group` is what `row` was merged from, its last member being of origin `origin`. */
  ghost predicate IsGroup(points: seq<Point>, origins: seq<nat>, n: nat, group: seq<nat>, row: Point, origin: nat)
    requires n <= |points| == |origins|
  {
    && |group| > 0
    && (forall m :: 0 <= m < |group| ==> group[m] < n)
    && row == points[group[0]].(fields := MergedFields(points, group))
    && origin == origins[group[|group| - 1]]
  }

  ghost predicate Realizes(points: seq<Point>, origins: seq<nat>, n: nat, groups: Groups, t: Table)
    requires n <= |points| == |origins|
  {
    && |groups| == |t.rows| == |t.origins|
    && forall g :: 0 <= g < |groups| ==> IsGroup(points, origins, n, groups[g], t.rows[g], t.origins[g])
  }

  lemma GroupGrows(points: seq<Point>, origins: seq<nat>, n: nat, group: seq<nat>, row: Point, origin: nat)
    requires n < |points| == |origins| && IsGroup(points, origins, n, group, row, origin)
    ensures IsGroup(points, origins, n + 1, group, row, origin)
    ensures IsGroup(points, origins, n + 1, group + [n], Grown(row, points[n]), origins[n])
  {
    assert (group + [n])[..|group|] == group;
  }

  lemma GroupsGrow(points: seq<Point>, origins: seq<nat>, n: nat, groups: Groups, t: Table, groups': Groups)
    requires n < |points| == |origins| && Realizes(points, origins, n, groups, t) && t.Valid()
    requires var g := IndexOf(t.rows, InstantOf(points[n]), 0);
             groups' == if g < |groups| then groups[g := groups[g] + [n]] else groups + [[n]]
    ensures Realizes(points, origins, n + 1, groups', Absorb(t, points[n], origins[n]))
  {
    var g := IndexOf(t.rows, InstantOf(points[n]), 0);
    var t' := Absorb(t, points[n], origins[n]);
    forall h | 0 <= h < |groups'| ensures IsGroup(points, origins, n + 1, groups'[h], t'.rows[h], t'.origins[h]) {
      if h < |groups| {
        GroupGrows(points, origins, n, groups[h], t.rows[h], t.origins[h]);
      } else {
        assert groups'[h] == [n] && t'.rows[h] == points[n];
      }
    }
  }

  /** The group of point `i`'s series-instant, or `|groups|`. */
  method FindGroup(points: seq<Point>, ghost origins: seq<nat>, i: nat, groups: Groups, ghost t: Table) returns (g: nat)
    requires i < |points| == |origins| && Realizes(points, origins, i, groups, t)
    ensures g == IndexOf(t.rows, InstantOf(points[i]), 0)
  {
    g := 0;
    while g < |groups|
      invariant 0 <= g <= |groups|
      invariant IndexOf(t.rows, InstantOf(points[i]), g) == IndexOf(t.rows, InstantOf(points[i]), 0)
    {
      assert IsGroup(points, origins, i, groups[g], t.rows[g], t.origins[g]);
      if InstantOf(points[groups[g][0]]) == InstantOf(points[i]) {
        return;
      }
      g := g + 1;
    }
  }

  /** Put point `i` into the group of its series-instant, or a new one. */
  method PlanOne(points: seq<Point>, ghost origins: seq<nat>, i: nat, groups: Groups) returns (groups': Groups)
    requires i < |points| == |origins| && Realizes(points, origins, i, groups, Merged(points[..i], origins[..i]))
    ensures Realizes(points, origins, i + 1, groups', Merged(points[..i + 1], origins[..i + 1]))
  {
    ghost var t := Merged(points[..i], origins[..i]);
    var g := FindGroup(points, origins, i, groups, t);
    groups' := if g < |groups| then groups[g := groups[g] + [i]] else groups + [[i]];
    GroupsGrow(points, origins, i, groups, t, groups');
    MergedNext(points, origins, i);
  }

  /** Plan the merge of a batch; nothing merges when there are as many groups as points. */
  method CoalescePlan(points: seq<Point>, ghost origins: seq<nat>) returns (groups: Groups, merges: bool)
    requires |points| == |origins|
    ensures Realizes(points, origins, |points|, groups, Merged(points, origins))
    ensures merges <==> |groups| < |points|
  {
    groups := [];
    for i := 0 to |points|
      invariant Realizes(points, origins, i, groups, Merged(points[..i], origins[..i]))
    {
      groups := PlanOne(points, origins, i, groups);
    }
    assert points[..|points|] == points && origins[..|points|] == origins;
    merges := |groups| != |points|;
  }

  method MergePointGroup(points: seq<Point>, group: seq<nat>) returns (row: Point)
    requires |group| > 0 && forall m :: 0 <= m < |group| ==> group[m] < |points|
    ensures row == points[group[0]].(fields := MergedFields(points, group))
  {
    var fields := points[group[0]].fields;
    for m := 1 to |group|
      invariant fields == MergedFields(points, group[..m])
    {
      assert group[..m + 1][..m] == group[..m];
      fields := fields + points[group[m]].fields;
    }
    assert group[..|group|] == group;
    row := points[group[0]].(fields := fields);
  }

  /** The rows and origins to insert; the input unchanged when nothing merges. */
  method CoalescePointsAndOrigins(points: seq<Point>, origins: seq<nat>)
    returns (rows: seq<Point>, rowOrigins: seq<nat>)
    requires |points| == |origins|
    ensures Table(rows, rowOrigins) == Merged(points, origins)
  {
    var groups, merges := CoalescePlan(points, origins);
    ghost var t := Merged(points, origins);
    if !merges {
      NothingMerged(points, origins);
      return points, origins;
    }
    rows, rowOrigins := [], [];
    for g := 0 to |groups|
      invariant rows == t.rows[..g] && rowOrigins == t.origins[..g]
    {
      assert IsGroup(points, origins, |points|, groups[g], t.rows[g], t.origins[g]);
      var row := MergePointGroup(points, groups[g]);
      rows := rows + [row];
      rowOrigins := rowOrigins + [origins[groups[g][|groups[g]| - 1]]];
    }
  }

  /** A table that grows from at most `n` rows to `n + 1` had `n` and took the point as it is. */
  lemma AbsorbAlone(t: Table, p: Point, origin: nat, n: nat)
    requires t.Valid() && |t.rows| <= n && |Absorb(t, p, origin).rows| == n + 1
    ensures |t.rows| == n && Absorb(t, p, origin) == Table(t.rows + [p], t.origins + [origin])
  {
  }

  lemma Rejoined<T>(s: seq<T>, n: nat)
    requires n + 1 == |s|
    ensures s[..n] + [s[n]] == s
  {
  }

  /** With as many rows as points, every point stands alone. */
  lemma {:induction false} NothingMerged(points: seq<Point>, origins: seq<nat>)
    requires |points| == |origins| == |Merged(points, origins).rows|
    ensures Merged(points, origins) == Table(points, origins)
    decreases |points|
  {
    if |points| > 0 {
      var n := |points| - 1;
      MergedLast(points, origins);
      AbsorbAlone(Merged(points[..n], origins[..n]), points[n], origins[n], n);
      NothingMerged(points[..n], origins[..n]);
      Rejoined(points, n);
      Rejoined(origins, n);
    }
  }

  // ---------------------------------------------------------------- theorems

  /** A series-instant no row has is absent. */
  lemma {:induction false} LookupAbsent(rows: seq<Point>, origins: seq<nat>, at: Instant)
    requires |rows| == |origins|
    requires forall k :: 0 <= k < |rows| ==> InstantOf(rows[k]) != at
    ensures Lookup(rows, origins, at) == None
    decreases |rows|
  {
    if |rows| > 0 {
      LookupAbsent(rows[..|rows| - 1], origins[..|rows| - 1], at);
    }
  }

  /** With distinct series-instants, a row's cell is the row itself. */
  lemma {:induction false} LookupDistinct(rows: seq<Point>, origins: seq<nat>, k: nat)
    requires |rows| == |origins| && DistinctInstants(rows) && k < |rows|
    ensures Lookup(rows, origins, InstantOf(rows[k])) == Some(Cell(rows[k].fields, origins[k]))
    decreases |rows|
  {
    var n := |rows| - 1;
    if k == n {
      LookupAbsent(rows[..n], origins[..n], InstantOf(rows[k]));
    } else {
      LookupDistinct(rows[..n], origins[..n], k);
    }
  }

  /** Replacing a row changes no other series-instant. */
  lemma {:induction false} LookupElsewhere(rows: seq<Point>, origins: seq<nat>, g: nat, row: Point, origin: nat,
                                           at: Instant)
    requires |rows| == |origins| && g < |rows|
    requires InstantOf(row) == InstantOf(rows[g]) != at
    ensures Lookup(rows[g := row], origins[g := origin], at) == Lookup(rows, origins, at)
    decreases |rows|
  {
    var n := |rows| - 1;
    if g == n {
      assert rows[g := row][..n] == rows[..n] && origins[g := origin][..n] == origins[..n];
    } else {
      assert rows[g := row][..n] == rows[..n][g := row] && origins[g := origin][..n] == origins[..n][g := origin];
      LookupElsewhere(rows[..n], origins[..n], g, row, origin, at);
    }
  }

  /** Merging a point into the table is an upsert into the store. */
  lemma AbsorbIsUpsert(t: Table, p: Point, origin: nat, at: Instant)
    requires t.Valid()
    ensures var t' := Absorb(t, p, origin);
            Lookup(t'.rows, t'.origins, at) ==
              if InstantOf(p) == at then Upsert(Lookup(t.rows, t.origins, at), p, origin)
              else Lookup(t.rows, t.origins, at)
  {
    var g := IndexOf(t.rows, InstantOf(p), 0);
    var t' := Absorb(t, p, origin);
    if g == |t.rows| {
      assert t'.rows[..g] == t.rows && t'.origins[..g] == t.origins;
    } else if InstantOf(p) == at {
      LookupDistinct(t.rows, t.origins, g);
      LookupDistinct(t'.rows, t'.origins, g);
    } else {
      LookupElsewhere(t.rows, t.origins, g, Grown(t.rows[g], p), origin, at);
    }
  }

  /**
   Coalescing preserves meaning: the rows inserted, with their origins, leave
   every series-instant as writing the original points in order would.
   (No two of the rows share a series-instant: `Merged` ensures `Valid()`.)
   */
  lemma {:induction false} CoalescePreservesMeaning(points: seq<Point>, origins: seq<nat>, at: Instant)
    requires |points| == |origins|
    ensures var t := Merged(points, origins);
            Lookup(t.rows, t.origins, at) == Lookup(points, origins, at)
    decreases |points|
  {
    if |points| > 0 {
      var n := |points| - 1;
      CoalescePreservesMeaning(points[..n], origins[..n], at);
      AbsorbIsUpsert(Merged(points[..n], origins[..n]), points[n], origins[n], at);
    }
  }

  ghost predicate OneMeasurement(points: seq<Point>, measurement: string) {
    forall j :: 0 <= j < |points| ==> points[j].measurement == measurement
  }

  /** The value is that of point `i`, or of a later point of its series-instant. */
  ghost predicate Supplies(points: seq<Point>, i: nat, field: string, value: FieldValue)
    requires i < |points|
  {
    exists m :: i <= m < |points| && SameInstant(points[m], points[i]) && HasValue(points[m], field, value)
  }

  /** The row stands for point `i`: every field of it is there, with its value or a later one. */
  ghost predicate Keeps(points: seq<Point>, i: nat, row: Point)
    requires i < |points|
  {
    && SameInstant(row, points[i])
    && forall f :: f in points[i].fields ==> f in row.fields && Supplies(points, i, f, row.fields[f])
  }

  /** Row `k` of the table stands for point `i`, and all rows are of one measurement. */
  ghost predicate TableKeeps(points: seq<Point>, i: nat, t: Table, measurement: string, k: nat)
    requires i < |points|
  {
    OneMeasurement(t.rows, measurement) && k < |t.rows| && Keeps(points, i, t.rows[k])
  }

  lemma SuppliesStill(points: seq<Point>, n: nat, i: nat, field: string, value: FieldValue)
    requires i < n <= |points| && Supplies(points[..n], i, field, value)
    ensures Supplies(points, i, field, value)
  {
    var m :| i <= m < n && SameInstant(points[..n][m], points[..n][i]) && HasValue(points[..n][m], field, value);
    assert SameInstant(points[m], points[i]) && HasValue(points[m], field, value);
  }

  /** A row that stood for point `i` still does, merged with the next point or not. */
  lemma KeepsStill(points: seq<Point>, n: nat, i: nat, row: Point, row': Point)
    requires i < n && n + 1 == |points| && Keeps(points[..n], i, row)
    requires row' == row || (SameInstant(row, points[n]) && row' == Grown(row, points[n]))
    ensures Keeps(points, i, row')
  {
    var p := points[n];
    forall f | f in points[i].fields ensures f in row'.fields && Supplies(points, i, f, row'.fields[f]) {
      assert f in points[..n][i].fields;
      if row' != row && f in p.fields {
        assert SameInstant(points[n], points[i]) && HasValue(points[n], f, row'.fields[f]);
      } else {
        SuppliesStill(points, n, i, f, row.fields[f]);
      }
    }
  }

  /** The row the last point went into stands for it. */
  lemma KeepsLast(points: seq<Point>, n: nat, row: Point)
    requires n + 1 == |points| && SameInstant(row, points[n])
    requires forall f :: f in points[n].fields ==> f in row.fields && row.fields[f] == points[n].fields[f]
    ensures Keeps(points, n, row)
  {
    forall f | f in points[n].fields ensures Supplies(points, n, f, row.fields[f]) {
      assert SameInstant(points[n], points[n]) && HasValue(points[n], f, row.fields[f]);
    }
  }

  /** What merging one point does to the rows of a table. */
  lemma AbsorbRows(t: Table, p: Point, origin: nat, measurement: string, k: nat)
    requires t.Valid() && OneMeasurement(t.rows, measurement) && p.measurement == measurement
    ensures var t' := Absorb(t, p, origin);
            var g := IndexOf(t.rows, InstantOf(p), 0);
            && OneMeasurement(t'.rows, measurement) && |t.rows| <= |t'.rows|
            && g < |t'.rows| && SameInstant(t'.rows[g], p)
            && (forall f :: f in p.fields ==> f in t'.rows[g].fields && t'.rows[g].fields[f] == p.fields[f])
            && (k < |t.rows| && t'.rows[k] != t.rows[k] ==>
                  SameInstant(t.rows[k], p) && t'.rows[k] == Grown(t.rows[k], p))
  {
  }

  /**
   Every point of a one-measurement batch is kept by a coalesced row: each of its
   fields is there with its own value or that of a later point of its series-instant.
   */
  lemma {:induction false} CoalesceCovers(points: seq<Point>, origins: seq<nat>, measurement: string, i: nat)
    returns (k: nat)
    requires i < |points| == |origins| && OneMeasurement(points, measurement)
    ensures TableKeeps(points, i, Merged(points, origins), measurement, k)
    decreases |points|
  {
    var n := |points| - 1;
    var t := Merged(points[..n], origins[..n]);
    MergedLast(points, origins);
    k := 0;
    if n > 0 {
      k := CoalesceCovers(points[..n], origins[..n], measurement, if i < n then i else 0);
    }
    AbsorbRows(t, points[n], origins[n], measurement, k);
    var t' := Absorb(t, points[n], origins[n]);
    if i < n {
      KeepsStill(points, n, i, t.rows[k], t'.rows[k]);
    } else {
      k := IndexOf(t.rows, InstantOf(points[n]), 0);
      KeepsLast(points, n, t'.rows[k]);
    }
  }

  /** The table has a row of the series-instant with these fields and this origin. */
  ghost predicate HasCell(t: Table, at: Instant, cell: Cell)
    requires |t.rows| == |t.origins|
  {
    exists k :: 0 <= k < |t.rows| && InstantOf(t.rows[k]) == at && cell == Cell(t.rows[k].fields, t.origins[k])
  }

  /** With distinct series-instants the order of the rows does not matter: a cell is there or not. */
  lemma CellIsLookup(t: Table, at: Instant, cell: Cell)
    requires t.Valid()
    ensures Lookup(t.rows, t.origins, at) == Some(cell) <==> HasCell(t, at, cell)
  {
    var g := IndexOf(t.rows, at, 0);
    if g < |t.rows| {
      LookupDistinct(t.rows, t.origins, g);
    } else {
      LookupAbsent(t.rows, t.origins, at);
    }
  }

  /**
   Rows with distinct series-instants mean the same however they are ordered
   and however they are sliced for concurrent inserts: only which rows there
   are matters.
   */
  lemma OrderIrrelevant(t: Table, t': Table, at: Instant)
    requires t.Valid() && t'.Valid() && forall cell :: HasCell(t, at, cell) <==> HasCell(t', at, cell)
    ensures Lookup(t.rows, t.origins, at) == Lookup(t'.rows, t'.origins, at)
  {
    if Lookup(t.rows, t.origins, at).Some? {
      CellIsLookup(t, at, Lookup(t.rows, t.origins, at).value);
      CellIsLookup(t', at, Lookup(t.rows, t.origins, at).value);
    } else if Lookup(t'.rows, t'.origins, at).Some? {
      CellIsLookup(t', at, Lookup(t'.rows, t'.origins, at).value);
      CellIsLookup(t, at, Lookup(t'.rows, t'.origins, at).value);
    }
  }
}
