/** The inserts of a coalesced chunk run concurrently: in whatever order they complete, they leave the same. */
module InsertOrder {
  import opened Points
  import opened KeyOrder
  import opened PointCoalesce
  import opened NativeChunk

  /** Row `row` of insert `item`. */
  datatype Spot = Spot(item: nat, row: nat)

  ghost predicate IsSpot(items: seq<Work>, key: Key, at: Spot) {
    at.item < |items| && items[at.item].key == key && at.row < |items[at.item].points|
  }

  /** Where each row of a measurement comes from. */
  ghost function Spots(items: seq<Work>, key: Key): seq<Spot> {
    if |items| == 0 then []
    else
      var n := |items| - 1;
      if items[n].key == key then Spots(items[..n], key) + seq(|items[n].points|, r requires 0 <= r => Spot(n, r))
      else Spots(items[..n], key)
  }

  /** Points and origins of every insert in parallel. */
  ghost predicate ParallelItems(items: seq<Work>) {
    forall i :: 0 <= i < |items| ==> |items[i].points| == |items[i].origins|
  }

  ghost predicate RowAt(items: seq<Work>, key: Key, x: nat)
    requires x < |Spots(items, key)| && ParallelItems(items)
  {
    var g, at := Inserted(items, key), Spots(items, key)[x];
    && |g.points| == |g.origins| == |Spots(items, key)| && IsSpot(items, key, at)
    && g.points[x] == items[at.item].points[at.row] && g.origins[x] == items[at.item].origins[at.row]
  }

  lemma {:induction false} SpotsMatch(items: seq<Work>, key: Key)
    requires ParallelItems(items)
    ensures |Inserted(items, key).points| == |Inserted(items, key).origins| == |Spots(items, key)|
    ensures forall x :: 0 <= x < |Spots(items, key)| ==> RowAt(items, key, x)
  {
    if |items| > 0 {
      var n := |items| - 1;
      SpotsMatch(items[..n], key);
      forall x | 0 <= x < |Spots(items, key)| ensures RowAt(items, key, x) {
        if x < |Spots(items[..n], key)| {
          assert RowAt(items[..n], key, x);
        }
      }
    }
  }

  lemma {:induction false} SpotsDistinct(items: seq<Work>, key: Key)
    ensures forall x :: 0 <= x < |Spots(items, key)| ==> Spots(items, key)[x].item < |items|
    ensures forall x, y :: 0 <= x < y < |Spots(items, key)| ==> Spots(items, key)[x] != Spots(items, key)[y]
  {
    if |items| > 0 { SpotsDistinct(items[..|items| - 1], key); }
  }

  lemma {:induction false} SpotOf(items: seq<Work>, key: Key, at: Spot) returns (x: nat)
    requires IsSpot(items, key, at)
    ensures x < |Spots(items, key)| && Spots(items, key)[x] == at
  {
    var n := |items| - 1;
    if at.item < n {
      x := SpotOf(items[..n], key, at);
    } else {
      x := |Spots(items[..n], key)| + at.row;
    }
  }

  /** Each index once. */
  ghost predicate IsOrder(order: seq<nat>, n: nat) {
    && |order| == n
    && (forall x :: 0 <= x < n ==> order[x] < n)
    && (forall x, y :: 0 <= x < y < n ==> order[x] != order[y])
    && (forall i :: 0 <= i < n ==> i in order)
  }

  ghost function Reordered(items: seq<Work>, order: seq<nat>): (items': seq<Work>)
    requires IsOrder(order, |items|)
    ensures |items'| == |items| && forall x :: 0 <= x < |items| ==> items'[x] == items[order[x]]
  {
    seq(|items|, x requires 0 <= x < |items| => items[order[x]])
  }

  ghost function TableOf(items: seq<Work>, key: Key): Table {
    Table(Inserted(items, key).points, Inserted(items, key).origins)
  }

  /** The row at `x` of the reordered inserts is one of the others. */
  lemma SameRow(items: seq<Work>, order: seq<nat>, key: Key, x: nat) returns (y: nat)
    requires IsOrder(order, |items|) && ParallelItems(items) && ParallelItems(Reordered(items, order))
    requires x < |Spots(Reordered(items, order), key)|
    ensures RowAt(Reordered(items, order), key, x) && y < |Spots(items, key)| && RowAt(items, key, y)
    ensures var at := Spots(Reordered(items, order), key)[x];
            at.item < |order| && Spots(items, key)[y] == Spot(order[at.item], at.row)
  {
    var items' := Reordered(items, order);
    SpotsMatch(items', key);
    assert RowAt(items', key, x);
    var at := Spots(items', key)[x];
    y := SpotOf(items, key, Spot(order[at.item], at.row));
    SpotsMatch(items, key);
  }

  lemma ReorderedDistinct(items: seq<Work>, order: seq<nat>, key: Key)
    requires IsOrder(order, |items|) && ParallelItems(items) && TableOf(items, key).Valid()
    ensures TableOf(Reordered(items, order), key).Valid()
  {
    var items' := Reordered(items, order);
    SpotsMatch(items', key);
    SpotsDistinct(items', key);
    var rows := Inserted(items', key).points;
    forall x, x' | 0 <= x < x' < |rows| ensures InstantOf(rows[x]) != InstantOf(rows[x']) {
      var y := SameRow(items, order, key, x);
      var y' := SameRow(items, order, key, x');
      assert Spots(items', key)[x] != Spots(items', key)[x'];
      assert y != y';
    }
  }

  /** A cell of the reordered inserts is one of the others. */
  lemma CellOfReordered(items: seq<Work>, order: seq<nat>, key: Key, at: Instant, cell: Cell)
    requires IsOrder(order, |items|) && ParallelItems(items) && TableOf(items, key).Valid()
    requires TableOf(Reordered(items, order), key).Valid()
    requires HasCell(TableOf(Reordered(items, order), key), at, cell)
    ensures HasCell(TableOf(items, key), at, cell)
  {
    var t' := TableOf(Reordered(items, order), key);
    var x :| 0 <= x < |t'.rows| && InstantOf(t'.rows[x]) == at && cell == Cell(t'.rows[x].fields, t'.origins[x]);
    SpotsMatch(Reordered(items, order), key);
    var y := SameRow(items, order, key, x);
    assert TableOf(items, key).rows[y] == t'.rows[x];
  }

  lemma CellOfItems(items: seq<Work>, order: seq<nat>, key: Key, at: Instant, cell: Cell)
    requires IsOrder(order, |items|) && ParallelItems(items) && TableOf(items, key).Valid()
    requires TableOf(Reordered(items, order), key).Valid()
    requires HasCell(TableOf(items, key), at, cell)
    ensures HasCell(TableOf(Reordered(items, order), key), at, cell)
  {
    var t, items' := TableOf(items, key), Reordered(items, order);
    var y :| 0 <= y < |t.rows| && InstantOf(t.rows[y]) == at && cell == Cell(t.rows[y].fields, t.origins[y]);
    SpotsMatch(items, key);
    SpotsMatch(items', key);
    assert RowAt(items, key, y);
    var spot := Spots(items, key)[y];
    assert spot.item in order;
    var i :| 0 <= i < |order| && order[i] == spot.item;
    var x := SpotOf(items', key, Spot(i, spot.row));
    assert RowAt(items', key, x);
    assert TableOf(items', key).rows[x] == t.rows[y];
  }

  /**
   In whatever order the concurrent inserts of a coalesced chunk complete, every
   series-instant of every measurement ends up as writing the chunk's points one by
   one, in WAL order, would leave it.
   */
  lemma AnyOrderPreservesMeaning(nodeId: nat, entries: seq<Sequenced>, max: nat, order: seq<nat>, key: Key, at: Instant)
    requires max > 0 && IsOrder(order, |ChunkItems(nodeId, entries, true, max)|)
    ensures var g := GroupOf(ChunkRows(nodeId, entries), key);
            var written := Inserted(Reordered(ChunkItems(nodeId, entries, true, max), order), key);
            && |written.points| == |written.origins|
            && Lookup(written.points, written.origins, at) == Lookup(g.points, g.origins, at)
  {
    var items := ChunkItems(nodeId, entries, true, max);
    ChunkConserves(nodeId, entries, true, max, key);
    ChunkPreservesMeaning(nodeId, entries, true, max, key, at);
    ReorderedDistinct(items, order, key);
    var t, t' := TableOf(items, key), TableOf(Reordered(items, order), key);
    forall cell ensures HasCell(t, at, cell) <==> HasCell(t', at, cell) {
      if HasCell(t, at, cell) { CellOfItems(items, order, key, at, cell); }
      if HasCell(t', at, cell) { CellOfReordered(items, order, key, at, cell); }
    }
    OrderIrrelevant(t, t', at);
  }
}
