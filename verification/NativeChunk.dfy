/**
 The native flush path of one chunk: take entries up to the point budget, group
 their points by measurement with each row's origin alongside, coalesce each
 group, and slice it into inserts of at most `max` rows.
 */
module NativeChunk {
  import opened Points
  import opened KeyOrder
  import PointCoalesce

  /** One WAL entry: a whole client write. Origin 0 means this node. */
  datatype Entry = Entry(db: string, rp: string, points: seq<Point>, origin: nat)

  datatype Sequenced = Sequenced(seqno: nat, entry: Entry)

  // ----------------------------------------------------------- taking entries

  function PointCount(entries: seq<Sequenced>): nat {
    if |entries| == 0 then 0
    else PointCount(entries[..|entries| - 1]) + |entries[|entries| - 1].entry.points|
  }

  ghost predicate AscendingSeqs(entries: seq<Sequenced>) {
    forall i, j :: 0 <= i < j < |entries| ==> entries[i].seqno < entries[j].seqno
  }

  /** Whether one more entry is taken: always one, then until the budget is reached. */
  predicate Takes(read: seq<Sequenced>, snapshot: nat, budget: nat, k: nat) {
    k < |read| && read[k].seqno <= snapshot && (PointCount(read[..k]) == 0 || PointCount(read[..k]) < budget)
  }

  /** How many entries of a read the chunk takes, given that it takes the first `k`. */
  ghost function TakeCount(read: seq<Sequenced>, snapshot: nat, budget: nat, k: nat): (n: nat)
    requires k <= |read|
    ensures k <= n <= |read|
    ensures forall i :: k <= i < n ==> Takes(read, snapshot, budget, i)
    ensures !Takes(read, snapshot, budget, n)
    decreases |read| - k
  {
    if Takes(read, snapshot, budget, k) then TakeCount(read, snapshot, budget, k + 1) else k
  }

  /**
   The entries of one read that the chunk takes are a prefix of it, within the
   snapshot, that stays below the budget without its last entry.
   */
  method TakeEntries(read: seq<Sequenced>, snapshot: nat, budget: nat) returns (k: nat)
    requires AscendingSeqs(read)
    ensures k == TakeCount(read, snapshot, budget, 0)
    ensures forall i :: 0 <= i < k ==> read[i].seqno <= snapshot
    ensures k > 0 ==> PointCount(read[..k - 1]) == 0 || PointCount(read[..k - 1]) < budget
    ensures k < |read| ==> read[k].seqno > snapshot || (PointCount(read[..k]) > 0 && PointCount(read[..k]) >= budget)
  {
    var taken := 0;
    k := 0;
    while k < |read| && read[k].seqno <= snapshot && (taken == 0 || taken < budget)
      invariant k <= |read| && taken == PointCount(read[..k])
      invariant TakeCount(read, snapshot, budget, k) == TakeCount(read, snapshot, budget, 0)
      invariant forall i :: 0 <= i < k ==> Takes(read, snapshot, budget, i)
    {
      assert read[..k + 1][..k] == read[..k];
      taken := taken + |read[k].entry.points|;
      k := k + 1;
    }
    forall i | 0 <= i < k ensures read[i].seqno <= snapshot {
      assert Takes(read, snapshot, budget, i);
    }
    assert k > 0 ==> Takes(read, snapshot, budget, k - 1);
  }

  // ------------------------------------------------------------------ grouping

  /** One row of the chunk under its measurement key. */
  datatype KeyedRow = KeyedRow(key: Key, point: Point, origin: nat)

  function KeyOf(e: Entry, p: Point): Key {
    Key(e.db, e.rp, p.measurement)
  }

  /** Direct client writes carry origin 0 and are recorded as this node. */
  function EffectiveOrigin(nodeId: nat, e: Entry): nat {
    if e.origin == 0 then nodeId else e.origin
  }

  /** The first `n` rows of an entry, in order. */
  ghost function EntryRows(nodeId: nat, e: Entry, n: nat): (rows: seq<KeyedRow>)
    requires n <= |e.points|
    ensures |rows| == n
    ensures forall i :: 0 <= i < n ==>
            rows[i] == KeyedRow(KeyOf(e, e.points[i]), e.points[i], EffectiveOrigin(nodeId, e))
  {
    seq(n, i requires 0 <= i < n => KeyedRow(KeyOf(e, e.points[i]), e.points[i], EffectiveOrigin(nodeId, e)))
  }

  /** Every row of the chunk, in WAL order. */
  ghost function ChunkRows(nodeId: nat, entries: seq<Sequenced>): seq<KeyedRow> {
    if |entries| == 0 then []
    else
      var last := entries[|entries| - 1].entry;
      ChunkRows(nodeId, entries[..|entries| - 1]) + EntryRows(nodeId, last, |last.points|)
  }

  /** Points of one measurement and, in parallel, the node each came from. */
  datatype Group = Group(points: seq<Point>, origins: seq<nat>)

  ghost function GroupOf(rows: seq<KeyedRow>, key: Key): (g: Group)
    ensures |g.points| == |g.origins| <= |rows|
  {
    if |rows| == 0 then Group([], [])
    else
      var g := GroupOf(rows[..|rows| - 1], key);
      var last := rows[|rows| - 1];
      if last.key == key then Group(g.points + [last.point], g.origins + [last.origin]) else g
  }

  /** `byMeas` holds exactly the groups of `rows`. */
  ghost predicate Groups(byMeas: map<Key, Group>, rows: seq<KeyedRow>) {
    && (forall i :: 0 <= i < |rows| ==> rows[i].key in byMeas)
    && (forall k :: k in byMeas ==> byMeas[k] == GroupOf(rows, k) && |byMeas[k].points| > 0)
  }

  method AddRow(byMeas: map<Key, Group>, ghost rows: seq<KeyedRow>, row: KeyedRow) returns (byMeas': map<Key, Group>)
    requires Groups(byMeas, rows)
    ensures Groups(byMeas', rows + [row])
  {
    var g := if row.key in byMeas then byMeas[row.key] else Group([], []);
    if row.key !in byMeas { AbsentGroup(rows, row.key); }
    byMeas' := byMeas[row.key := Group(g.points + [row.point], g.origins + [row.origin])];
    forall k | k in byMeas' ensures byMeas'[k] == GroupOf(rows + [row], k) && |byMeas'[k].points| > 0 {
      GroupSnoc(rows, row, k);
    }
  }

  lemma GroupSnoc(rows: seq<KeyedRow>, row: KeyedRow, key: Key)
    ensures var g := GroupOf(rows, key);
            GroupOf(rows + [row], key) ==
              if row.key == key then Group(g.points + [row.point], g.origins + [row.origin]) else g
  {
    assert (rows + [row])[..|rows|] == rows;
  }

  lemma {:induction false} AbsentGroup(rows: seq<KeyedRow>, key: Key)
    requires forall i :: 0 <= i < |rows| ==> rows[i].key != key
    ensures GroupOf(rows, key) == Group([], [])
  {
    if |rows| > 0 { AbsentGroup(rows[..|rows| - 1], key); }
  }

  method GroupByMeasurement(nodeId: nat, entries: seq<Sequenced>) returns (byMeas: map<Key, Group>)
    ensures Groups(byMeas, ChunkRows(nodeId, entries))
  {
    byMeas := map[];
    for i := 0 to |entries|
      invariant Groups(byMeas, ChunkRows(nodeId, entries[..i]))
    {
      var e := entries[i].entry;
      ghost var before := ChunkRows(nodeId, entries[..i]);
      assert before + EntryRows(nodeId, e, 0) == before;
      for j := 0 to |e.points|
        invariant Groups(byMeas, before + EntryRows(nodeId, e, j))
      {
        var row := KeyedRow(KeyOf(e, e.points[j]), e.points[j], EffectiveOrigin(nodeId, e));
        byMeas := AddRow(byMeas, before + EntryRows(nodeId, e, j), row);
        assert before + EntryRows(nodeId, e, j) + [row] == before + EntryRows(nodeId, e, j + 1);
      }
      assert entries[..i + 1][..i] == entries[..i];
    }
    assert entries[..|entries|] == entries;
  }

  // -------------------------------------------------------------------- slicing

  /** One insert: rows of one measurement with their origins. */
  datatype Work = Work(key: Key, points: seq<Point>, origins: seq<nat>)

  ghost function Slices(key: Key, points: seq<Point>, origins: seq<nat>, max: nat): seq<Work>
    requires |points| == |origins| && max > 0
    decreases |points|
  {
    if |points| == 0 then []
    else
      var take := if |points| <= max then |points| else max;
      [Work(key, points[..take], origins[..take])] + Slices(key, points[take..], origins[take..], max)
  }

  method SliceGroup(key: Key, points: seq<Point>, origins: seq<nat>, max: nat) returns (items: seq<Work>)
    requires |points| == |origins| && max > 0
    ensures items == Slices(key, points, origins, max)
  {
    items := [];
    var ps, os := points, origins;
    while |ps| > 0
      invariant |ps| == |os|
      invariant Slices(key, points, origins, max) == items + Slices(key, ps, os, max)
      decreases |ps|
    {
      var take := if |ps| <= max then |ps| else max;
      items := items + [Work(key, ps[..take], os[..take])];
      ps, os := ps[take..], os[take..];
    }
  }

  /** The rows a group is inserted as. */
  ghost function InsertedRows(g: Group, coalesce: bool): (t: PointCoalesce.Table)
    requires |g.points| == |g.origins|
    ensures |t.rows| == |t.origins|
  {
    if coalesce then PointCoalesce.Merged(g.points, g.origins) else PointCoalesce.Table(g.points, g.origins)
  }

  ghost function WorkItems(byMeas: map<Key, Group>, keys: seq<Key>, coalesce: bool, max: nat): seq<Work>
    requires max > 0
    requires forall i :: 0 <= i < |keys| ==> keys[i] in byMeas && |byMeas[keys[i]].points| == |byMeas[keys[i]].origins|
  {
    if |keys| == 0 then []
    else
      var k := keys[|keys| - 1];
      WorkItems(byMeas, keys[..|keys| - 1], coalesce, max) + GroupItems(k, byMeas[k], coalesce, max)
  }

  ghost predicate Parallel(byMeas: map<Key, Group>) {
    forall k :: k in byMeas ==> |byMeas[k].points| == |byMeas[k].origins|
  }

  /** The inserts of one measurement: coalesce over the whole group, then slice. */
  ghost function GroupItems(key: Key, g: Group, coalesce: bool, max: nat): seq<Work>
    requires |g.points| == |g.origins| && max > 0
  {
    var t := InsertedRows(g, coalesce);
    Slices(key, t.rows, t.origins, max)
  }

  method BuildGroupItems(key: Key, g: Group, coalesce: bool, max: nat) returns (items: seq<Work>)
    requires |g.points| == |g.origins| && max > 0
    ensures items == GroupItems(key, g, coalesce, max)
  {
    var points, origins := g.points, g.origins;
    if coalesce {
      points, origins := PointCoalesce.CoalescePointsAndOrigins(points, origins);
    }
    items := SliceGroup(key, points, origins, max);
  }

  lemma WorkItemsNext(byMeas: map<Key, Group>, keys: seq<Key>, i: nat, coalesce: bool, max: nat)
    requires max > 0 && i < |keys| && Parallel(byMeas) && forall j :: 0 <= j < |keys| ==> keys[j] in byMeas
    ensures WorkItems(byMeas, keys[..i + 1], coalesce, max)
         == WorkItems(byMeas, keys[..i], coalesce, max) + GroupItems(keys[i], byMeas[keys[i]], coalesce, max)
  {
    assert keys[..i + 1][..i] == keys[..i];
  }

  method BuildWorkItems(byMeas: map<Key, Group>, coalesce: bool, max: nat) returns (items: seq<Work>)
    requires Parallel(byMeas) && max > 0
    ensures items == WorkItems(byMeas, Ascending(byMeas.Keys), coalesce, max)
  {
    var keys := SortedKeys(byMeas.Keys);
    items := [];
    for i := 0 to |keys|
      invariant items == WorkItems(byMeas, keys[..i], coalesce, max)
    {
      WorkItemsNext(byMeas, keys, i, coalesce, max);
      var more := BuildGroupItems(keys[i], byMeas[keys[i]], coalesce, max);
      items := items + more;
    }
    assert keys[..|keys|] == keys;
  }

  /** The inserts of a whole native chunk. */
  ghost function ChunkItems(nodeId: nat, entries: seq<Sequenced>, coalesce: bool, max: nat): seq<Work>
    requires max > 0
  {
    ItemsOfRows(ChunkRows(nodeId, entries), coalesce, max)
  }

  ghost function KeysOf(rows: seq<KeyedRow>): set<Key> {
    set i | 0 <= i < |rows| :: rows[i].key
  }

  ghost function GroupMap(rows: seq<KeyedRow>): (byMeas: map<Key, Group>)
    ensures byMeas.Keys == KeysOf(rows) && Parallel(byMeas)
  {
    map k | k in KeysOf(rows) :: GroupOf(rows, k)
  }

  ghost function ItemsOfRows(rows: seq<KeyedRow>, coalesce: bool, max: nat): seq<Work>
    requires max > 0
  {
    WorkItems(GroupMap(rows), Ascending(KeysOf(rows)), coalesce, max)
  }

  lemma {:induction false} PresentGroup(rows: seq<KeyedRow>, i: nat)
    requires i < |rows|
    ensures |GroupOf(rows, rows[i].key).points| > 0
  {
    var n := |rows| - 1;
    if i < n { PresentGroup(rows[..n], i); }
  }

  lemma GroupsAreGroupMap(byMeas: map<Key, Group>, rows: seq<KeyedRow>)
    requires Groups(byMeas, rows)
    ensures byMeas == GroupMap(rows)
  {
    forall k | k in byMeas ensures k in KeysOf(rows) {
      if k !in KeysOf(rows) { AbsentGroup(rows, k); }
    }
    assert byMeas.Keys == KeysOf(rows);
  }

  method NativeItems(nodeId: nat, entries: seq<Sequenced>, coalesce: bool, max: nat) returns (items: seq<Work>)
    requires max > 0
    ensures items == ChunkItems(nodeId, entries, coalesce, max)
  {
    var byMeas := GroupByMeasurement(nodeId, entries);
    GroupsAreGroupMap(byMeas, ChunkRows(nodeId, entries));
    items := BuildWorkItems(byMeas, coalesce, max);
  }

  // -------------------------------------------------------------------- theorems

  /** The rows of one key over a sequence of inserts, concatenated. */
  ghost function Inserted(items: seq<Work>, key: Key): (g: Group)
  {
    if |items| == 0 then Group([], [])
    else
      var g := Inserted(items[..|items| - 1], key);
      var last := items[|items| - 1];
      if last.key == key then Group(g.points + last.points, g.origins + last.origins) else g
  }

  ghost predicate WithinLimit(items: seq<Work>, max: nat) {
    forall i :: 0 <= i < |items| ==> 0 < |items[i].points| == |items[i].origins| <= max
  }

  lemma {:induction false} InsertedAppend(a: seq<Work>, b: seq<Work>, key: Key)
    ensures Inserted(a + b, key) == Group(Inserted(a, key).points + Inserted(b, key).points,
                                          Inserted(a, key).origins + Inserted(b, key).origins)
  {
    if |b| == 0 {
      assert a + b == a;
    } else {
      var n := |b| - 1;
      assert (a + b)[..|a| + n] == a + b[..n];
      InsertedAppend(a, b[..n], key);
    }
  }

  lemma {:induction false} SlicesWithinLimit(key: Key, points: seq<Point>, origins: seq<nat>, max: nat)
    requires |points| == |origins| && max > 0
    ensures WithinLimit(Slices(key, points, origins, max), max)
    decreases |points|
  {
    if |points| > 0 {
      var take := if |points| <= max then |points| else max;
      SlicesWithinLimit(key, points[take..], origins[take..], max);
    }
  }

  lemma InsertedOne(w: Work, key: Key)
    ensures Inserted([w], key) == if w.key == key then Group(w.points, w.origins) else Group([], [])
  {
    assert [w][..0] == [];
  }

  /** The slices of a group, concatenated, are the group. */
  lemma {:induction false} SlicesTile(key: Key, points: seq<Point>, origins: seq<nat>, max: nat, other: Key)
    requires |points| == |origins| && max > 0
    ensures Inserted(Slices(key, points, origins, max), other) ==
              if other == key then Group(points, origins) else Group([], [])
    decreases |points|
  {
    if |points| > 0 {
      var take := if |points| <= max then |points| else max;
      var head, tail := Work(key, points[..take], origins[..take]), Slices(key, points[take..], origins[take..], max);
      SlicesTile(key, points[take..], origins[take..], max, other);
      InsertedAppend([head], tail, other);
      InsertedOne(head, other);
      assert points[..take] + points[take..] == points;
      assert origins[..take] + origins[take..] == origins;
    }
  }

  lemma {:induction false} WorkItemsWithinLimit(byMeas: map<Key, Group>, keys: seq<Key>, coalesce: bool, max: nat)
    requires max > 0 && Parallel(byMeas) && forall i :: 0 <= i < |keys| ==> keys[i] in byMeas
    ensures WithinLimit(WorkItems(byMeas, keys, coalesce, max), max)
  {
    if |keys| > 0 {
      var n := |keys| - 1;
      var t := InsertedRows(byMeas[keys[n]], coalesce);
      WorkItemsWithinLimit(byMeas, keys[..n], coalesce, max);
      SlicesWithinLimit(keys[n], t.rows, t.origins, max);
    }
  }

  ghost function InsertedGroup(g: Group, coalesce: bool): Group
    requires |g.points| == |g.origins|
  {
    var t := InsertedRows(g, coalesce);
    Group(t.rows, t.origins)
  }

  lemma GroupItemsTile(key: Key, g: Group, coalesce: bool, max: nat, other: Key)
    requires |g.points| == |g.origins| && max > 0
    ensures Inserted(GroupItems(key, g, coalesce, max), other) ==
            if other == key then InsertedGroup(g, coalesce) else Group([], [])
  {
    var t := InsertedRows(g, coalesce);
    SlicesTile(key, t.rows, t.origins, max, other);
  }

  /**
   Regrouping conserves rows: the inserts of one measurement, concatenated, are
   its group after coalescing, points and origins still aligned.
   */
  lemma {:induction false} WorkItemsConserve(byMeas: map<Key, Group>, keys: seq<Key>, coalesce: bool, max: nat,
                                             key: Key)
    requires max > 0 && Parallel(byMeas)
    requires forall i :: 0 <= i < |keys| ==> keys[i] in byMeas
    requires forall i, j :: 0 <= i < j < |keys| ==> keys[i] != keys[j]
    ensures Inserted(WorkItems(byMeas, keys, coalesce, max), key) ==
              if key in keys then InsertedGroup(byMeas[key], coalesce) else Group([], [])
  {
    if |keys| > 0 {
      var n := |keys| - 1;
      WorkItemsConserve(byMeas, keys[..n], coalesce, max, key);
      GroupItemsTile(keys[n], byMeas[keys[n]], coalesce, max, key);
      InsertedAppend(WorkItems(byMeas, keys[..n], coalesce, max), GroupItems(keys[n], byMeas[keys[n]], coalesce, max),
                     key);
      OneKeyMore(keys, n, key);
    }
  }

  lemma ChunkConserves(nodeId: nat, entries: seq<Sequenced>, coalesce: bool, max: nat, key: Key)
    requires max > 0
    ensures var items, rows := ChunkItems(nodeId, entries, coalesce, max), ChunkRows(nodeId, entries);
            && WithinLimit(items, max)
            && Inserted(items, key) == InsertedGroup(GroupOf(rows, key), coalesce)
  {
    var rows := ChunkRows(nodeId, entries);
    WorkItemsWithinLimit(GroupMap(rows), Ascending(KeysOf(rows)), coalesce, max);
    WorkItemsConserve(GroupMap(rows), Ascending(KeysOf(rows)), coalesce, max, key);
    if key !in KeysOf(rows) {
      AbsentGroup(rows, key);
    }
  }

  /**
   A chunk writes what its entries mean: for every measurement and every
   series-instant, the inserts of the chunk leave what writing the chunk's
   points one by one, in WAL order, would leave.
   */
  lemma ChunkPreservesMeaning(nodeId: nat, entries: seq<Sequenced>, coalesce: bool, max: nat, key: Key, at: Instant)
    requires max > 0
    ensures var g := GroupOf(ChunkRows(nodeId, entries), key);
            var written := Inserted(ChunkItems(nodeId, entries, coalesce, max), key);
            && |written.points| == |written.origins|
            && PointCoalesce.Lookup(written.points, written.origins, at) ==
               PointCoalesce.Lookup(g.points, g.origins, at)
            && (coalesce ==> PointCoalesce.DistinctInstants(written.points))
  {
    ChunkConserves(nodeId, entries, coalesce, max, key);
    var g := GroupOf(ChunkRows(nodeId, entries), key);
    PointCoalesce.CoalescePreservesMeaning(g.points, g.origins, at);
  }

  // ------------------------------------------------------------- nothing is left behind

  ghost predicate WellKeyed(rows: seq<KeyedRow>) {
    forall i :: 0 <= i < |rows| ==> rows[i].key.measurement == rows[i].point.measurement
  }

  lemma {:induction false} ChunkRowsWellKeyed(nodeId: nat, entries: seq<Sequenced>)
    ensures WellKeyed(ChunkRows(nodeId, entries))
  {
    if |entries| > 0 { ChunkRowsWellKeyed(nodeId, entries[..|entries| - 1]); }
  }

  lemma {:induction false} GroupOneMeasurement(rows: seq<KeyedRow>, key: Key)
    requires WellKeyed(rows)
    ensures PointCoalesce.OneMeasurement(GroupOf(rows, key).points, key.measurement)
  {
    if |rows| > 0 { GroupOneMeasurement(rows[..|rows| - 1], key); }
  }

  /** Point `point` of the entry at position `entry`. */
  datatype Place = Place(entry: nat, point: nat)

  predicate Before(a: Place, b: Place) {
    a.entry < b.entry || (a.entry == b.entry && a.point < b.point)
  }

  ghost predicate IsPlace(entries: seq<Sequenced>, at: Place) {
    at.entry < |entries| && at.point < |entries[at.entry].entry.points|
  }

  ghost function PointAt(entries: seq<Sequenced>, at: Place): Point
    requires IsPlace(entries, at)
  {
    entries[at.entry].entry.points[at.point]
  }

  ghost function KeyAt(entries: seq<Sequenced>, at: Place): Key
    requires IsPlace(entries, at)
  {
    KeyOf(entries[at.entry].entry, PointAt(entries, at))
  }

  /** Where each row of the chunk comes from. */
  ghost function Places(entries: seq<Sequenced>): seq<Place> {
    if |entries| == 0 then []
    else
      var n := |entries| - 1;
      Places(entries[..n]) + seq(|entries[n].entry.points|, j requires 0 <= j => Place(n, j))
  }

  /** The row at `x` of the chunk is the point at `x` of its places. */
  ghost predicate Placed(nodeId: nat, entries: seq<Sequenced>, x: nat)
    requires x < |Places(entries)|
  {
    && |ChunkRows(nodeId, entries)| == |Places(entries)|
    && var at := Places(entries)[x];
       && IsPlace(entries, at)
       && ChunkRows(nodeId, entries)[x].key == KeyAt(entries, at)
       && ChunkRows(nodeId, entries)[x].point == PointAt(entries, at)
  }

  lemma {:induction false} PlacesMatch(nodeId: nat, entries: seq<Sequenced>)
    ensures |ChunkRows(nodeId, entries)| == |Places(entries)|
    ensures forall x :: 0 <= x < |Places(entries)| ==> Placed(nodeId, entries, x)
  {
    if |entries| > 0 {
      var n := |entries| - 1;
      PlacesMatch(nodeId, entries[..n]);
      forall x | 0 <= x < |Places(entries)| ensures Placed(nodeId, entries, x) {
        if x < |Places(entries[..n])| {
          assert Placed(nodeId, entries[..n], x);
        }
      }
    }
  }

  lemma {:induction false} PlacesAscend(entries: seq<Sequenced>)
    ensures forall x :: 0 <= x < |Places(entries)| ==> Places(entries)[x].entry < |entries|
    ensures forall x, y :: 0 <= x < y < |Places(entries)| ==> Before(Places(entries)[x], Places(entries)[y])
  {
    if |entries| > 0 { PlacesAscend(entries[..|entries| - 1]); }
  }

  /** Every point has its row. */
  lemma {:induction false} PlaceOf(entries: seq<Sequenced>, at: Place) returns (x: nat)
    requires IsPlace(entries, at)
    ensures x < |Places(entries)| && Places(entries)[x] == at
  {
    var n := |entries| - 1;
    if at.entry < n {
      x := PlaceOf(entries[..n], at);
    } else {
      x := |Places(entries[..n])| + at.point;
    }
  }

  /** Where each point of a group stands among the rows. */
  ghost function Positions(rows: seq<KeyedRow>, key: Key): (ps: seq<nat>)
    ensures |ps| == |GroupOf(rows, key).points|
    ensures forall m :: 0 <= m < |ps| ==>
            ps[m] < |rows| && rows[ps[m]].key == key && rows[ps[m]].point == GroupOf(rows, key).points[m]
    ensures forall m, m' :: 0 <= m < m' < |ps| ==> ps[m] < ps[m']
  {
    if |rows| == 0 then []
    else
      var n := |rows| - 1;
      if rows[n].key == key then Positions(rows[..n], key) + [n] else Positions(rows[..n], key)
  }

  lemma {:induction false} PositionOf(rows: seq<KeyedRow>, x: nat) returns (m: nat)
    requires x < |rows|
    ensures m < |Positions(rows, rows[x].key)| && Positions(rows, rows[x].key)[m] == x
  {
    var n := |rows| - 1;
    if x < n {
      m := PositionOf(rows[..n], x);
    } else {
      m := |Positions(rows[..n], rows[x].key)|;
    }
  }

  lemma {:induction false} RowInItem(items: seq<Work>, key: Key, m: nat) returns (w: nat, r: nat)
    requires m < |Inserted(items, key).points|
    ensures w < |items| && items[w].key == key
    ensures r < |items[w].points| && items[w].points[r] == Inserted(items, key).points[m]
  {
    var n := |items| - 1;
    var before := |Inserted(items[..n], key).points|;
    if m < before {
      w, r := RowInItem(items[..n], key, m);
    } else {
      w, r := n, m - before;
    }
  }

  /** The value is that of the point at `at`, or of a later one of its measurement and series-instant. */
  ghost predicate LaterValue(entries: seq<Sequenced>, at: Place, field: string, value: FieldValue)
    requires IsPlace(entries, at)
  {
    exists b: Place ::
      && IsPlace(entries, b) && !Before(b, at) && KeyAt(entries, b) == KeyAt(entries, at)
      && SameInstant(PointAt(entries, b), PointAt(entries, at)) && HasValue(PointAt(entries, b), field, value)
  }

  /** The row stands for the point at `at`: all its fields, each with its value or a later one. */
  ghost predicate Keeps(entries: seq<Sequenced>, at: Place, row: Point)
    requires IsPlace(entries, at)
  {
    && SameInstant(row, PointAt(entries, at))
    && forall f :: f in PointAt(entries, at).fields ==> f in row.fields && LaterValue(entries, at, f, row.fields[f])
  }

  /** A later point of the group is a later point of the chunk. */
  lemma LaterInChunk(nodeId: nat, entries: seq<Sequenced>, at: Place, x: nat, m: nat, field: string, value: FieldValue)
    requires IsPlace(entries, at) && x < |Places(entries)| && Places(entries)[x] == at
    requires |ChunkRows(nodeId, entries)| == |Places(entries)|
    requires var rows := ChunkRows(nodeId, entries);
             && m < |Positions(rows, KeyAt(entries, at))| && Positions(rows, KeyAt(entries, at))[m] == x
             && PointCoalesce.Supplies(GroupOf(rows, KeyAt(entries, at)).points, m, field, value)
    ensures LaterValue(entries, at, field, value)
  {
    var rows, key := ChunkRows(nodeId, entries), KeyAt(entries, at);
    var points, ps := GroupOf(rows, key).points, Positions(rows, key);
    var m' :| m <= m' < |points| && SameInstant(points[m'], points[m]) && HasValue(points[m'], field, value);
    PlacesMatch(nodeId, entries);
    PlacesAscend(entries);
    assert Placed(nodeId, entries, x) && Placed(nodeId, entries, ps[m']);
    assert IsPlace(entries, Places(entries)[ps[m']]);
  }

  lemma KeptInGroup(nodeId: nat, entries: seq<Sequenced>, at: Place, x: nat, m: nat, row: Point)
    requires IsPlace(entries, at) && x < |Places(entries)| && Places(entries)[x] == at
    requires |ChunkRows(nodeId, entries)| == |Places(entries)|
    requires var rows := ChunkRows(nodeId, entries);
             && m < |Positions(rows, KeyAt(entries, at))| && Positions(rows, KeyAt(entries, at))[m] == x
             && PointCoalesce.Keeps(GroupOf(rows, KeyAt(entries, at)).points, m, row)
    ensures Keeps(entries, at, row)
  {
    PlacesMatch(nodeId, entries);
    assert Placed(nodeId, entries, x);
    forall f | f in PointAt(entries, at).fields ensures f in row.fields && LaterValue(entries, at, f, row.fields[f]) {
      LaterInChunk(nodeId, entries, at, x, m, f, row.fields[f]);
    }
  }

  /** A point stands for itself. */
  lemma KeepsItself(points: seq<Point>, m: nat)
    requires m < |points|
    ensures PointCoalesce.Keeps(points, m, points[m])
  {
    forall f | f in points[m].fields ensures PointCoalesce.Supplies(points, m, f, points[m].fields[f]) {
      assert SameInstant(points[m], points[m]) && HasValue(points[m], f, points[m].fields[f]);
    }
  }

  lemma RowForGroup(g: Group, coalesce: bool, measurement: string, m: nat) returns (k: nat)
    requires m < |g.points| == |g.origins| && PointCoalesce.OneMeasurement(g.points, measurement)
    ensures k < |InsertedGroup(g, coalesce).points|
    ensures PointCoalesce.Keeps(g.points, m, InsertedGroup(g, coalesce).points[k])
  {
    if coalesce {
      k := PointCoalesce.CoalesceCovers(g.points, g.origins, measurement, m);
    } else {
      k := m;
      KeepsItself(g.points, m);
    }
  }

  /**
   Every point of every entry taken is kept by a row of an insert of its
   measurement: each of its fields is there, with its own value or that of a point
   of the same series-instant at or after it in the chunk.
   */
  lemma ChunkCovers(nodeId: nat, entries: seq<Sequenced>, coalesce: bool, max: nat, at: Place) returns (w: nat, r: nat)
    requires max > 0 && IsPlace(entries, at)
    ensures var items := ChunkItems(nodeId, entries, coalesce, max);
            && w < |items| && items[w].key == KeyAt(entries, at)
            && r < |items[w].points| && Keeps(entries, at, items[w].points[r])
  {
    var rows, key := ChunkRows(nodeId, entries), KeyAt(entries, at);
    PlacesMatch(nodeId, entries);
    var x := PlaceOf(entries, at);
    assert Placed(nodeId, entries, x);
    var m := PositionOf(rows, x);
    ChunkRowsWellKeyed(nodeId, entries);
    GroupOneMeasurement(rows, key);
    var k := RowForGroup(GroupOf(rows, key), coalesce, key.measurement, m);
    ChunkConserves(nodeId, entries, coalesce, max, key);
    w, r := RowInItem(ChunkItems(nodeId, entries, coalesce, max), key, k);
    KeptInGroup(nodeId, entries, at, x, m, ChunkItems(nodeId, entries, coalesce, max)[w].points[r]);
  }
}
