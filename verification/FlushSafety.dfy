/**
 What every run of the flush keeps: nothing leaves the WAL before its points
 were settled, nothing local leaves it before the peers that count have it,
 and a flush that succeeds leaves nothing behind within its snapshot.
 */
module FlushSafety {
  import opened Points
  import opened FlushService
  import opened Wrappers
  import opened FieldColumns
  import KeyOrder
  import opened C = ColumnStack
  import PointCoalesce
  import N = NativeChunk
  import P = PreparedChunk
  import B = TruncateBarrier

  // --------------------------------------------------------------------- settled

  /** Point `j` of entry `k`. */
  ghost predicate IsPoint(chunk: Chunk, k: nat, j: nat) {
    chunk.Has(k) && j < |chunk.entries[k].points|
  }

  /** The value is that of point `j` of entry `k`, or of a later one of its measurement and series-instant. */
  ghost predicate LaterValue(chunk: Chunk, k: nat, j: nat, field: string, value: FieldValue)
    requires IsPoint(chunk, k, j)
  {
    exists k': nat, j': nat :: LaterPoint(chunk, k, j, k', j') && HasValue(chunk.entries[k'].points[j'], field, value)
  }

  /** At or after point `j` of entry `k` in WAL order, and of its key and series-instant. */
  ghost predicate LaterPoint(chunk: Chunk, k: nat, j: nat, k': nat, j': nat)
    requires IsPoint(chunk, k, j)
  {
    var p := chunk.entries[k].points[j];
    && IsPoint(chunk, k', j') && (k < k' || (k == k' && j <= j'))
    && N.KeyOf(chunk.entries[k'], chunk.entries[k'].points[j']) == N.KeyOf(chunk.entries[k], p)
    && SameInstant(chunk.entries[k'].points[j'], p)
  }

  function FieldOf(r: Point, field: string): Option<FieldValue> {
    if field in r.fields then Some(r.fields[field]) else None
  }

  /** The types entry `k` was prepared with for a column of its measurement; none if it was not prepared. */
  ghost function OwnTypes(chunk: Chunk, k: nat, key: KeyOrder.Key, f: string): seq<Type> {
    if chunk.from <= k < chunk.from + |chunk.run| then P.ColumnTypes([chunk.run[k - chunk.from]], key, f) else []
  }

  /**
   A value that a row for point `j` of entry `k` may have in a field: its own or a later
   one of its series-instant, of its entry where that was prepared, and of the chunk where
   that was not.
   */
  ghost predicate Supplied(chunk: Chunk, k: nat, j: nat, f: string, v: FieldValue)
    requires IsPoint(chunk, k, j)
  {
    if |chunk.run| == 0 then LaterValue(chunk, k, j, f, v)
    else PointCoalesce.Supplies(chunk.entries[k].points, j, f, v)
  }

  /**
   What a row has of a value of entry `k`: the value itself where it was not prepared, and
   otherwise what the column it was prepared with makes of it, cast to the type the
   columns of the chunk come to.
   */
  ghost predicate Stored(cfg: Config, chunk: Chunk, k: nat, key: KeyOrder.Key, f: string, v: FieldValue,
                         got: Option<FieldValue>)
  {
    if |chunk.run| == 0 then got == Some(v)
    else exists from :: from in OwnTypes(chunk, k, key, f) && StackedFrom(cfg, chunk, key, f, from, v, got)
  }

  ghost predicate StackedFrom(cfg: Config, chunk: Chunk, key: KeyOrder.Key, f: string, from: Type, v: FieldValue,
                              got: Option<FieldValue>)
  {
    var ty := C.Widest(P.ColumnTypes(chunk.run, key, f));
    ty.Some? && got == AsStacked(cfg.round, cfg.casts, from, ty.value, v)
  }

  /** The row has, for the field, the point's value or a later one, as its columns take it. */
  ghost predicate FieldKept(cfg: Config, chunk: Chunk, k: nat, j: nat, f: string, r: Point)
    requires IsPoint(chunk, k, j)
  {
    var key := N.KeyOf(chunk.entries[k], chunk.entries[k].points[j]);
    exists v :: Supplied(chunk, k, j, f, v) && Stored(cfg, chunk, k, key, f, v, FieldOf(r, f))
  }

  /** The row stands for point `j` of entry `k`: all its fields. */
  ghost predicate RowKeeps(cfg: Config, chunk: Chunk, k: nat, j: nat, r: Point)
    requires IsPoint(chunk, k, j)
  {
    && SameInstant(r, chunk.entries[k].points[j])
    && forall f :: f in chunk.entries[k].points[j].fields ==> FieldKept(cfg, chunk, k, j, f, r)
  }

  /** The insert is of the point's measurement and has a row that stands for it. */
  ghost predicate Carries(cfg: Config, i: Insert, chunk: Chunk, k: nat, j: nat)
    requires IsPoint(chunk, k, j)
  {
    && i.Key() == N.KeyOf(chunk.entries[k], chunk.entries[k].points[j])
    && exists r :: r in i.Rows() && RowKeeps(cfg, chunk, k, j, r)
  }

  /** Point `j` of entry `k` is in an insert, of a chunk that took the entry, that was written or refused for good. */
  ghost predicate PointSettled(cfg: Config, log: seq<Settled>, k: nat, e: N.Entry, j: nat)
    requires j < |e.points|
  {
    exists x :: 0 <= x < |log| && log[x].chunk.Has(k) && log[x].chunk.entries[k] == e
      && Carries(cfg, log[x].insert, log[x].chunk, k, j)
  }

  ghost predicate EntrySettled(cfg: Config, log: seq<Settled>, k: nat, e: N.Entry) {
    forall j :: 0 <= j < |e.points| ==> PointSettled(cfg, log, k, e, j)
  }

  // -------------------------------------------------------------------- invariant

  /** The slot prepared for an entry stands for all its points, with what their columns take of their values. */
  ghost predicate Represents(cfg: Config, slot: P.Slot, e: N.Entry) {
    && slot.db == e.db && slot.rp == e.rp && slot.origin == e.origin
    && forall j :: 0 <= j < |e.points| ==> SlotKeeps(cfg, slot, e, j)
  }

  ghost predicate SlotKeeps(cfg: Config, slot: P.Slot, e: N.Entry, j: nat)
    requires j < |e.points|
  {
    exists b, r :: 0 <= b < |slot.batches| && 0 <= r < |slot.batches[b].instants|
      && BatchKeeps(cfg, slot.batches[b], r, e, j)
  }

  /** The row is of the point's series-instant and has a cell for each of its fields. */
  ghost predicate BatchKeeps(cfg: Config, b: P.Batch, r: nat, e: N.Entry, j: nat)
    requires j < |e.points| && r < |b.instants|
  {
    && b.measurement == e.points[j].measurement && b.instants[r] == InstantOf(e.points[j])
    && forall f :: f in e.points[j].fields ==> CellKeeps(cfg, b.table, r, e, j, f)
  }

  /** The cell is what the field's column takes of the point's value, or of a later one of its series-instant. */
  ghost predicate CellKeeps(cfg: Config, t: C.RecordBatch, r: nat, e: N.Entry, j: nat, f: string)
    requires j < |e.points| && r < t.rows
  {
    var ty := C.TypeIn(t.fields, f);
    ty.Some? && exists v ::
      PointCoalesce.Supplies(e.points, j, f, v) && C.CellAt(t, r, f) == Fill(cfg.round, ty.value, v)
  }

  ghost predicate WalOk(cfg: Config, wal: Wal) {
    && (forall k :: k in wal.entries ==> 0 < k <= wal.landed)
    && (forall k :: k in wal.cache ==> k in wal.entries && Represents(cfg, wal.cache[k], wal.entries[k]))
  }

  ghost predicate FlushedSettled(cfg: Config, s: State) {
    forall k :: k in s.wal.entries && k <= s.lastFlushed ==> EntrySettled(cfg, s.log, k, s.wal.entries[k])
  }

  /** What is gone was settled when it went. */
  ghost predicate RemovalSettled(cfg: Config, log: seq<Settled>, k: nat, r: Removal) {
    r.logged <= |log| && EntrySettled(cfg, log[..r.logged], k, r.entry)
  }

  ghost predicate RemovedSettled(cfg: Config, s: State) {
    forall k :: k in s.removed ==> RemovalSettled(cfg, s.log, k, s.removed[k])
  }

  ghost predicate Unsharded(cfg: Config) {
    !cfg.barrier.sharded && cfg.barrier.replicated
  }

  /** A flushed local entry has been noticed as such. */
  ghost predicate LocalMarked(cfg: Config, s: State) {
    Unsharded(cfg) ==>
      forall k :: k in s.wal.entries && k <= s.lastFlushed && Local(cfg, s.wal.entries[k].origin) ==> s.lastLocal > 0
  }

  /** The truncation that removed `k` was justified in letting it go. */
  ghost predicate RemovalJustified(cfg: Config, k: nat, r: Removal) {
    k <= r.cause.upTo <= r.cause.through && B.Justified(cfg.barrier, r.cause.view, r.cause.through, k)
  }

  ghost predicate RemovedJustified(cfg: Config, s: State) {
    Unsharded(cfg) ==> forall k ::
      k in s.removed && Local(cfg, s.removed[k].entry.origin) ==> RemovalJustified(cfg, k, s.removed[k])
  }

  /** The sequences ever visible. */
  ghost function Used(s: State): set<nat> {
    s.wal.entries.Keys + s.removed.Keys
  }

  ghost predicate Known(chunk: Chunk, used: set<nat>) {
    forall k :: chunk.Has(k) ==> k in used
  }

  /** Chunks hold only entries that were visible. */
  ghost predicate LogKnown(s: State) {
    forall x :: 0 <= x < |s.log| ==> Known(s.log[x].chunk, Used(s))
  }

  ghost predicate Inv(cfg: Config, s: State) {
    && WalOk(cfg, s.wal) && s.lastFlushed <= s.wal.landed && s.removed.Keys !! s.wal.entries.Keys
    && FlushedSettled(cfg, s) && RemovedSettled(cfg, s) && LogKnown(s)
    && LocalMarked(cfg, s) && RemovedJustified(cfg, s)
  }

  // --------------------------------------------------------------------- landing

  /** A sequence is visible once, and a slot, cached with its entry or read back, represents it. */
  ghost predicate Fresh(cfg: Config, used: set<nat>, a: Arrival) {
    match a
    case Arrival(k, entry, slot) => 0 < k && k !in used && (slot.Some? ==> Represents(cfg, slot.value, entry))
    case Reread(_, stored) => forall e :: Represents(cfg, stored(e), e)
  }

  ghost predicate AllFresh(cfg: Config, used: set<nat>, arrivals: seq<Arrival>)
    decreases |arrivals|
  {
    |arrivals| == 0 || (Fresh(cfg, used, arrivals[0]) && AllFresh(cfg, WithSeq(used, arrivals[0]), arrivals[1..]))
  }

  ghost function WithSeq(used: set<nat>, a: Arrival): set<nat> {
    if a.Arrival? then used + {a.seqno} else used
  }

  /** An entry landing after `above` was passed over does no harm: it lies above, or nothing is owed of it. */
  ghost predicate SafeAt(cfg: Config, above: nat, k: nat, e: N.Entry) {
    above < k || (|e.points| == 0 && !(Unsharded(cfg) && Local(cfg, e.origin)))
  }

  ghost predicate AllSafe(cfg: Config, above: nat, arrivals: seq<Arrival>) {
    forall i :: 0 <= i < |arrivals| && arrivals[i].Arrival? ==> SafeAt(cfg, above, arrivals[i].seqno, arrivals[i].entry)
  }

  ghost predicate Lands(arrivals: seq<Arrival>, k: nat, e: N.Entry) {
    exists i :: 0 <= i < |arrivals| && arrivals[i].Arrival? && arrivals[i].seqno == k && arrivals[i].entry == e
  }

  /** What landing leaves: what was there, and what landed. */
  ghost predicate GrownBy(wal: Wal, wal': Wal, arrivals: seq<Arrival>) {
    && wal.landed <= wal'.landed
    && (forall k :: k in wal.entries ==> k in wal'.entries && wal'.entries[k] == wal.entries[k])
    && (forall k :: k in wal'.entries && k !in wal.entries ==> Lands(arrivals, k, wal'.entries[k]))
    && (forall k, e :: Lands(arrivals, k, e) ==> k !in wal.entries && k in wal'.entries && wal'.entries[k] == e)
  }

  lemma LandOne(cfg: Config, wal: Wal, used: set<nat>, a: Arrival)
    requires WalOk(cfg, wal) && wal.entries.Keys <= used && Fresh(cfg, used, a)
    ensures WalOk(cfg, Land(wal, a)) && GrownBy(wal, Land(wal, a), [a]) && Land(wal, a).entries.Keys <= WithSeq(used, a)
  {
    var wal' := Land(wal, a);
    if a.Arrival? {
      assert [a][0] == a;
    }
  }

  lemma GrownOnce(wal: Wal, wal1: Wal, wal2: Wal, a: Arrival, rest: seq<Arrival>)
    requires GrownBy(wal, wal1, [a]) && GrownBy(wal1, wal2, rest)
    ensures GrownBy(wal, wal2, [a] + rest)
  {
    var all := [a] + rest;
    forall k | k in wal2.entries && k !in wal.entries ensures Lands(all, k, wal2.entries[k]) {
      if k in wal1.entries {
        assert Lands([a], k, wal2.entries[k]);
        assert all[0] == a;
      } else {
        var i :| 0 <= i < |rest| && rest[i].Arrival? && rest[i].seqno == k && rest[i].entry == wal2.entries[k];
        assert all[i + 1] == rest[i];
      }
    }
    forall k, e | Lands(all, k, e) ensures k !in wal.entries && k in wal2.entries && wal2.entries[k] == e {
      var i :| 0 <= i < |all| && all[i].Arrival? && all[i].seqno == k && all[i].entry == e;
      if i == 0 {
        assert [a][0] == a && Lands([a], k, e);
      } else {
        assert rest[i - 1] == all[i] && Lands(rest, k, e);
      }
    }
  }

  lemma {:induction false} LandAllKeeps(cfg: Config, wal: Wal, used: set<nat>, arrivals: seq<Arrival>)
    requires WalOk(cfg, wal) && wal.entries.Keys <= used && AllFresh(cfg, used, arrivals)
    ensures WalOk(cfg, LandAll(wal, arrivals)) && GrownBy(wal, LandAll(wal, arrivals), arrivals)
    ensures forall k, e :: Lands(arrivals, k, e) ==> k !in used
    decreases |arrivals|
  {
    if |arrivals| > 0 {
      var a, rest := arrivals[0], arrivals[1..];
      LandOne(cfg, wal, used, a);
      LandAllKeeps(cfg, Land(wal, a), WithSeq(used, a), rest);
      GrownOnce(wal, Land(wal, a), LandAll(wal, arrivals), a, rest);
      assert arrivals == [a] + rest;
      forall k, e | Lands(arrivals, k, e) ensures k !in used {
        var i :| 0 <= i < |arrivals| && arrivals[i].Arrival? && arrivals[i].seqno == k && arrivals[i].entry == e;
        if i > 0 {
          assert rest[i - 1] == arrivals[i] && Lands(rest, k, e);
        }
      }
    }
  }

  lemma LandingKeepsInv(cfg: Config, s: State, arrivals: seq<Arrival>)
    requires Inv(cfg, s) && AllFresh(cfg, Used(s), arrivals) && AllSafe(cfg, s.lastFlushed, arrivals)
    ensures Inv(cfg, Landed(s, arrivals))
  {
    LandAllKeeps(cfg, s.wal, Used(s), arrivals);
    var s' := Landed(s, arrivals);
    forall k | k in s'.wal.entries && k !in s.wal.entries
      ensures SafeAt(cfg, s.lastFlushed, k, s'.wal.entries[k]) && k !in s.removed
    {
      assert Lands(arrivals, k, s'.wal.entries[k]);
    }
  }

  // -------------------------------------------------------------------- settling

  lemma SettledStays(cfg: Config, log: seq<Settled>, more: seq<Settled>, k: nat, e: N.Entry)
    requires EntrySettled(cfg, log, k, e)
    ensures EntrySettled(cfg, log + more, k, e)
  {
    forall j | 0 <= j < |e.points| ensures PointSettled(cfg, log + more, k, e, j) {
      assert PointSettled(cfg, log, k, e, j);
      var x :| 0 <= x < |log| && log[x].chunk.Has(k) && log[x].chunk.entries[k] == e
          && Carries(cfg, log[x].insert, log[x].chunk, k, j);
      assert (log + more)[x] == log[x];
    }
  }

  lemma RemovalStaysSettled(cfg: Config, log: seq<Settled>, more: seq<Settled>, k: nat, r: Removal)
    requires RemovalSettled(cfg, log, k, r)
    ensures RemovalSettled(cfg, log + more, k, r)
  {
    assert (log + more)[..r.logged] == log[..r.logged];
  }

  /** Everything a chunk settles, it settles as that chunk. */
  lemma {:induction false} SettledByChunk(items: seq<Insert>, outcomes: seq<Outcome>, chunk: Chunk)
    ensures forall x :: 0 <= x < |Settle(items, outcomes, chunk)| ==> Settle(items, outcomes, chunk)[x].chunk == chunk
  {
    if |items| > 0 { SettledByChunk(items[..|items| - 1], outcomes, chunk); }
  }

  lemma {:induction false} EveryInsertSettles(items: seq<Insert>, outcomes: seq<Outcome>, chunk: Chunk, i: nat)
    returns (x: nat)
    requires i < |items| && !AnyFailed(items, outcomes)
    ensures x < |Settle(items, outcomes, chunk)| && Settle(items, outcomes, chunk)[x].insert == items[i]
  {
    var n := |items| - 1;
    assert !OutcomeAt(outcomes, n).Failed?;
    if i < n {
      assert !AnyFailed(items[..n], outcomes);
      x := EveryInsertSettles(items[..n], outcomes, chunk, i);
    } else {
      x := |Settle(items[..n], outcomes, chunk)|;
    }
  }

  ghost predicate PointCovered(cfg: Config, items: seq<Insert>, chunk: Chunk, k: nat, j: nat)
    requires IsPoint(chunk, k, j)
  {
    exists i :: 0 <= i < |items| && Carries(cfg, items[i], chunk, k, j)
  }

  /** Every point of the entry is in one of the inserts. */
  ghost predicate CoveredBy(cfg: Config, items: seq<Insert>, chunk: Chunk, k: nat) {
    chunk.Has(k) && forall j :: 0 <= j < |chunk.entries[k].points| ==> PointCovered(cfg, items, chunk, k, j)
  }

  lemma CoveredSettles(cfg: Config, log: seq<Settled>, items: seq<Insert>, outcomes: seq<Outcome>, chunk: Chunk, k: nat)
    requires CoveredBy(cfg, items, chunk, k) && !AnyFailed(items, outcomes)
    ensures EntrySettled(cfg, log + Settle(items, outcomes, chunk), k, chunk.entries[k])
  {
    var more := Settle(items, outcomes, chunk);
    SettledByChunk(items, outcomes, chunk);
    forall j | 0 <= j < |chunk.entries[k].points| ensures PointSettled(cfg, log + more, k, chunk.entries[k], j) {
      assert PointCovered(cfg, items, chunk, k, j);
      var i :| 0 <= i < |items| && Carries(cfg, items[i], chunk, k, j);
      var x := EveryInsertSettles(items, outcomes, chunk, i);
      assert (log + more)[|log| + x] == more[x];
    }
  }

  /** The entries of a native chunk are those it was read from. */
  ghost predicate ReadFrom(entries: seq<N.Sequenced>, chunk: Chunk) {
    && N.AscendingSeqs(entries)
    && forall i :: 0 <= i < |entries| ==>
       chunk.Has(entries[i].seqno) && chunk.entries[entries[i].seqno] == entries[i].entry
  }

  lemma NativeLater(entries: seq<N.Sequenced>, chunk: Chunk, at: N.Place, f: string, v: FieldValue)
    requires ReadFrom(entries, chunk) && N.IsPlace(entries, at) && N.LaterValue(entries, at, f, v)
    ensures LaterValue(chunk, entries[at.entry].seqno, at.point, f, v)
  {
    var b: N.Place :|
      && N.IsPlace(entries, b) && !N.Before(b, at) && N.KeyAt(entries, b) == N.KeyAt(entries, at)
      && SameInstant(N.PointAt(entries, b), N.PointAt(entries, at)) && HasValue(N.PointAt(entries, b), f, v);
    assert LaterPoint(chunk, entries[at.entry].seqno, at.point, entries[b.entry].seqno, b.point);
  }

  lemma NativeRowKeeps(cfg: Config, entries: seq<N.Sequenced>, chunk: Chunk, at: N.Place, row: Point)
    requires ReadFrom(entries, chunk) && chunk.run == [] && N.IsPlace(entries, at) && N.Keeps(entries, at, row)
    ensures RowKeeps(cfg, chunk, entries[at.entry].seqno, at.point, row)
  {
    forall f | f in N.PointAt(entries, at).fields
      ensures FieldKept(cfg, chunk, entries[at.entry].seqno, at.point, f, row)
    {
      NativeLater(entries, chunk, at, f, row.fields[f]);
      assert Supplied(chunk, entries[at.entry].seqno, at.point, f, row.fields[f]);
    }
  }

  lemma NativeCovers(cfg: Config, entries: seq<N.Sequenced>, base: nat, i: nat, chunk: Chunk)
    requires i < |entries| && ReadFrom(entries, chunk) && chunk.run == []
    ensures CoveredBy(cfg, NativeItems(cfg, base, entries), chunk, entries[i].seqno)
  {
    var e, k := entries[i].entry, entries[i].seqno;
    var works := N.ChunkItems(cfg.barrier.nodeId, entries, cfg.coalesce, Limit(cfg));
    var items := NativeInserts(works, base);
    forall j | 0 <= j < |e.points| ensures PointCovered(cfg, items, chunk, k, j) {
      var at := N.Place(i, j);
      var w, r := N.ChunkCovers(cfg.barrier.nodeId, entries, cfg.coalesce, Limit(cfg), at);
      NativeRowKeeps(cfg, entries, chunk, at, works[w].points[r]);
      assert works[w].points[r] in items[w].Rows();
      assert Carries(cfg, items[w], chunk, k, j);
    }
  }

  /** What the stack has of a cell its column took from a value. */
  lemma {:induction false} CastCellStored(cfg: Config, chunk: Chunk, key: KeyOrder.Key, m: nat, q: nat, f: string,
                                          v: FieldValue)
    requires var group := P.BatchesOf(P.ChunkBatches(chunk.run), key);
             && m < |group| && q < |group[m].instants| && C.TypeIn(group[m].table.fields, f).Some?
             && C.CellAt(group[m].table, q, f) == Fill(cfg.round, C.TypeIn(group[m].table.fields, f).value, v)
    ensures var group := P.BatchesOf(P.ChunkBatches(chunk.run), key);
            StackedFrom(cfg, chunk, key, f, C.TypeIn(group[m].table.fields, f).value, v,
                        FieldOf(P.CastRow(cfg.casts, group, m, q), f))
  {
    var group := P.BatchesOf(P.ChunkBatches(chunk.run), key);
    P.CastCells(cfg.casts, group, m, q, f);
    C.TypeCounts(P.TablesOf(group), f, m);
    C.WidestSome(C.TypesOf(P.TablesOf(group), f));
  }

  /** A batch of the entry's own slot gives its column one of the entry's own types. */
  lemma {:induction false} OwnType(chunk: Chunk, k: nat, b: nat, f: string)
    requires chunk.from <= k < chunk.from + |chunk.run| && b < |chunk.run[k - chunk.from].slot.batches|
    requires var batch := chunk.run[k - chunk.from].slot.batches[b]; C.TypeIn(batch.table.fields, f).Some?
    ensures var slot := chunk.run[k - chunk.from].slot;
            C.TypeIn(slot.batches[b].table.fields, f).value in OwnTypes(chunk, k, P.KeyOf(slot, slot.batches[b]), f)
  {
    var own := [chunk.run[k - chunk.from]];
    var bs, key := P.ChunkBatches(own), P.KeyOf(own[0].slot, own[0].slot.batches[b]);
    var r := P.BatchInChunk(own, 0, b);
    var m := P.BatchInGroup(bs, r);
    C.TypeCounts(P.TablesOf(P.BatchesOf(bs, key)), f, m);
  }

  lemma {:induction false} CastRowKeeps(cfg: Config, chunk: Chunk, k: nat, j: nat, b: nat, m: nat, q: nat)
    requires IsPoint(chunk, k, j) && k < chunk.from + |chunk.run| && b < |chunk.run[k - chunk.from].slot.batches|
    requires var batch := chunk.run[k - chunk.from].slot.batches[b];
             var key := N.KeyOf(chunk.entries[k], chunk.entries[k].points[j]);
             var group := P.BatchesOf(P.ChunkBatches(chunk.run), key);
             && P.KeyOf(chunk.run[k - chunk.from].slot, batch) == key
             && m < |group| && group[m] == batch && q < |batch.instants|
             && group[0].measurement == batch.measurement && BatchKeeps(cfg, batch, q, chunk.entries[k], j)
    ensures var group := P.BatchesOf(P.ChunkBatches(chunk.run), N.KeyOf(chunk.entries[k], chunk.entries[k].points[j]));
            RowKeeps(cfg, chunk, k, j, P.CastRow(cfg.casts, group, m, q))
  {
    var e, key := chunk.entries[k], N.KeyOf(chunk.entries[k], chunk.entries[k].points[j]);
    var group := P.BatchesOf(P.ChunkBatches(chunk.run), key);
    forall f | f in e.points[j].fields ensures FieldKept(cfg, chunk, k, j, f, P.CastRow(cfg.casts, group, m, q)) {
      assert CellKeeps(cfg, group[m].table, q, e, j, f);
      var ty := C.TypeIn(group[m].table.fields, f).value;
      var v :| PointCoalesce.Supplies(e.points, j, f, v) && C.CellAt(group[m].table, q, f) == Fill(cfg.round, ty, v);
      assert Supplied(chunk, k, j, f, v);
      CastCellStored(cfg, chunk, key, m, q, f, v);
      OwnType(chunk, k, b, f);
    }
  }

  lemma {:induction false} StackedRowKeeps(cfg: Config, chunk: Chunk, k: nat, j: nat, b: nat, m: nat, q: nat)
    requires IsPoint(chunk, k, j) && k < chunk.from + |chunk.run| && b < |chunk.run[k - chunk.from].slot.batches|
    requires var batch := chunk.run[k - chunk.from].slot.batches[b];
             var key := N.KeyOf(chunk.entries[k], chunk.entries[k].points[j]);
             var group := P.BatchesOf(P.ChunkBatches(chunk.run), key);
             && P.KeyOf(chunk.run[k - chunk.from].slot, batch) == key
             && m < |group| && group[m] == batch && q < |batch.instants|
             && BatchKeeps(cfg, batch, q, chunk.entries[k], j)
    ensures var group := P.BatchesOf(P.ChunkBatches(chunk.run), N.KeyOf(chunk.entries[k], chunk.entries[k].points[j]));
            RowKeeps(cfg, chunk, k, j, P.CastRow(cfg.casts, group, m, q))
  {
    var key := N.KeyOf(chunk.entries[k], chunk.entries[k].points[j]);
    P.GroupMeasurement(chunk.run, key, 0);
    P.GroupMeasurement(chunk.run, key, m);
    CastRowKeeps(cfg, chunk, k, j, b, m, q);
  }

  lemma {:induction false} PreparedCoversRow(cfg: Config, works: seq<P.Work>, i: nat, chunk: Chunk, k: nat, j: nat,
                                             b: nat, q: nat)
    requires P.ChunkItems(cfg.casts, chunk.run, Limit(cfg)) == Some(works) && IsPoint(chunk, k, j)
    requires i < |chunk.run| && k == chunk.from + i
    requires var slot := chunk.run[i].slot;
             && b < |slot.batches| && q < |slot.batches[b].instants|
             && BatchKeeps(cfg, slot.batches[b], q, chunk.entries[k], j)
             && P.KeyOf(slot, slot.batches[b]) == N.KeyOf(chunk.entries[k], chunk.entries[k].points[j])
    ensures PointCovered(cfg, PreparedInserts(works), chunk, k, j)
  {
    var key := N.KeyOf(chunk.entries[k], chunk.entries[k].points[j]);
    var m, w, r := P.ChunkCovers(cfg.casts, chunk.run, Limit(cfg), works, i, b, q);
    StackedRowKeeps(cfg, chunk, k, j, b, m, q);
    CarriedBy(cfg, works, w, r, chunk, k, j);
  }

  lemma {:induction false} CarriedBy(cfg: Config, works: seq<P.Work>, w: nat, r: nat, chunk: Chunk, k: nat, j: nat)
    requires w < |works| && r < |works[w].batch.instants| && IsPoint(chunk, k, j)
    requires works[w].key == N.KeyOf(chunk.entries[k], chunk.entries[k].points[j])
    requires RowKeeps(cfg, chunk, k, j, P.RowAt(works[w].batch, r))
    ensures PointCovered(cfg, PreparedInserts(works), chunk, k, j)
  {
    var items := PreparedInserts(works);
    assert P.RowsOf(works[w].batch)[r] in items[w].Rows();
    assert Carries(cfg, items[w], chunk, k, j);
  }

  lemma {:induction false} PreparedCoversPoint(cfg: Config, works: seq<P.Work>, i: nat, chunk: Chunk, k: nat, j: nat)
    requires P.ChunkItems(cfg.casts, chunk.run, Limit(cfg)) == Some(works) && i < |chunk.run| && k == chunk.from + i
    requires IsPoint(chunk, k, j) && Represents(cfg, chunk.run[i].slot, chunk.entries[k])
    ensures PointCovered(cfg, PreparedInserts(works), chunk, k, j)
  {
    var slot, e := chunk.run[i].slot, chunk.entries[k];
    assert SlotKeeps(cfg, slot, e, j);
    var b, q :| 0 <= b < |slot.batches| && 0 <= q < |slot.batches[b].instants|
        && BatchKeeps(cfg, slot.batches[b], q, e, j);
    PreparedCoversRow(cfg, works, i, chunk, k, j, b, q);
  }

  lemma {:induction false} PreparedCovers(cfg: Config, items: seq<Insert>, i: nat, chunk: Chunk, k: nat)
    requires PreparedItems(cfg, chunk.run) == Some(items) && i < |chunk.run| && k == chunk.from + i
    requires chunk.Has(k) && Represents(cfg, chunk.run[i].slot, chunk.entries[k])
    ensures CoveredBy(cfg, items, chunk, k)
  {
    var works := P.ChunkItems(cfg.casts, chunk.run, Limit(cfg)).value;
    forall j | 0 <= j < |chunk.entries[k].points| ensures PointCovered(cfg, items, chunk, k, j) {
      PreparedCoversPoint(cfg, works, i, chunk, k, j);
    }
  }

  // ------------------------------------------------------------------ end of chunk

  /** What the end of a chunk relies on: the chunk holds every entry it passes over. */
  ghost predicate ChunkComplete(cfg: Config, s: State, chunk: Chunk, items: seq<Insert>) {
    && chunk.entries == s.wal.entries && chunk.from == s.lastFlushed + 1 && chunk.from <= chunk.upTo <= s.wal.landed
    && forall k :: chunk.Has(k) ==>
         CoveredBy(cfg, items, chunk, k) && (Local(cfg, chunk.entries[k].origin) ==> s.lastLocal > 0)
  }

  lemma SettlingKeepsInv(cfg: Config, s: State, chunk: Chunk, items: seq<Insert>, outcomes: seq<Outcome>)
    requires Inv(cfg, s) && ChunkComplete(cfg, s, chunk, items)
    ensures Inv(cfg, s.(log := s.log + Settle(items, outcomes, chunk), lastFlushed := Through(chunk, items, outcomes)))
  {
    var more := Settle(items, outcomes, chunk);
    SettledByChunk(items, outcomes, chunk);
    forall k | k in s.wal.entries && k <= Through(chunk, items, outcomes)
      ensures EntrySettled(cfg, s.log + more, k, s.wal.entries[k])
    {
      if k <= s.lastFlushed {
        SettledStays(cfg, s.log, more, k, s.wal.entries[k]);
      } else {
        CoveredSettles(cfg, s.log, items, outcomes, chunk, k);
      }
    }
    forall k | k in s.removed ensures RemovalSettled(cfg, s.log + more, k, s.removed[k]) {
      RemovalStaysSettled(cfg, s.log, more, k, s.removed[k]);
    }
  }

  lemma TruncatingSettles(cfg: Config, s: State, safe: nat, view: B.View)
    requires FlushedSettled(cfg, s) && RemovedSettled(cfg, s) && safe <= s.lastFlushed
    ensures RemovedSettled(cfg, Truncated(s, safe, view, s.lastFlushed))
  {
    var s' := Truncated(s, safe, view, s.lastFlushed);
    assert s.log[..|s.log|] == s.log;
    forall k | k in s'.removed ensures RemovalSettled(cfg, s'.log, k, s'.removed[k]) {
      if k !in s.removed {
        assert EntrySettled(cfg, s.log, k, s.wal.entries[k]);
      }
    }
  }

  lemma TruncatingJustifies(cfg: Config, s: State, safe: nat, view: B.View)
    requires Inv(cfg, s) && Unsharded(cfg)
    requires safe == B.SafeTruncate(cfg.barrier, view, s.lastLocal, s.lastFlushed)
    ensures RemovedJustified(cfg, Truncated(s, safe, view, s.lastFlushed))
  {
    B.SafeTruncateBounded(cfg.barrier, view, s.lastLocal, s.lastFlushed);
    var s' := Truncated(s, safe, view, s.lastFlushed);
    forall k | k in s'.removed && Local(cfg, s'.removed[k].entry.origin)
      ensures RemovalJustified(cfg, k, s'.removed[k])
    {
      if k !in s.removed {
        B.BarrierExact(cfg.barrier, view, s.lastLocal, s.lastFlushed, k);
      }
    }
  }

  /** A sharded node's margin stays within what is flushed. */
  ghost predicate MarginHolds(cfg: Config, view: B.View, through: nat) {
    cfg.barrier.sharded ==> B.MarginWithin(view.sizes, through, cfg.barrier.retentionBytes)
  }

  lemma TruncatingKeepsInv(cfg: Config, s: State, safe: nat, view: B.View)
    requires Inv(cfg, s) && MarginHolds(cfg, view, s.lastFlushed)
    requires safe == B.SafeTruncate(cfg.barrier, view, s.lastLocal, s.lastFlushed)
    ensures Inv(cfg, Truncated(s, safe, view, s.lastFlushed))
  {
    B.SafeTruncateBounded(cfg.barrier, view, s.lastLocal, s.lastFlushed);
    TruncatingSettles(cfg, s, safe, view);
    if Unsharded(cfg) {
      TruncatingJustifies(cfg, s, safe, view);
    }
    var s' := Truncated(s, safe, view, s.lastFlushed);
    assert Used(s') == Used(s);
  }

  lemma CacheMayShrink(cfg: Config, s: State, cache: map<nat, P.Slot>)
    requires Inv(cfg, s) && forall k :: k in cache ==> k in s.wal.cache && cache[k] == s.wal.cache[k]
    ensures Inv(cfg, s.(wal := s.wal.(cache := cache)))
  {
  }

  lemma WatermarkMayStay(cfg: Config, s: State, lower: nat)
    requires Inv(cfg, s) && lower <= s.lastFlushed
    ensures Inv(cfg, s.(lastFlushed := lower))
  {
  }

  lemma EndChunkKeepsInv(cfg: Config, s: State, chunk: Chunk, items: seq<Insert>, env: StepEnv)
    requires Inv(cfg, s) && ChunkComplete(cfg, s, chunk, items) && AllFresh(cfg, Used(s), env.lateArrivals)
    requires !env.truncateFault ==> MarginHolds(cfg, env.view, Through(chunk, items, env.outcomes))
    requires AllSafe(cfg, EndChunk(cfg, s, chunk, items, env).state.lastFlushed, env.lateArrivals)
    ensures Inv(cfg, EndChunk(cfg, s, chunk, items, env).state)
  {
    var through := Through(chunk, items, env.outcomes);
    SettlingKeepsInv(cfg, s, chunk, items, env.outcomes);
    var settled := s.(log := s.log + Settle(items, env.outcomes, chunk), lastFlushed := through);
    var safe := B.SafeTruncate(cfg.barrier, env.view, s.lastLocal, through);
    if env.truncateFault {
      var held := settled.(lastFlushed := s.lastFlushed);
      WatermarkMayStay(cfg, settled, s.lastFlushed);
      LandingKeepsInv(cfg, held, env.lateArrivals);
      CacheMayShrink(cfg, Landed(held, env.lateArrivals),
                     DropCached(Landed(held, env.lateArrivals).wal, safe + 1).cache);
    } else {
      LandingKeepsInv(cfg, settled, env.lateArrivals);
      TruncatingKeepsInv(cfg, Landed(settled, env.lateArrivals), safe, env.view);
    }
  }

  // --------------------------------------------------------------------- the paths

  ghost predicate Taken(entries: seq<N.Sequenced>, k: nat) {
    exists i :: 0 <= i < |entries| && entries[i].seqno == k
  }

  lemma TakenLater(first: N.Sequenced, rest: seq<N.Sequenced>, k: nat)
    requires Taken(rest, k)
    ensures Taken([first] + rest, k)
  {
    var i :| 0 <= i < |rest| && rest[i].seqno == k;
    assert ([first] + rest)[i + 1].seqno == k;
  }

  /** A read that stopped short of its limit, or at or after `k`, has `k`. */
  lemma {:induction false} ReadComplete(wal: Wal, from: nat, limit: nat, k: nat)
    requires k in wal.entries && from <= k <= wal.landed
    requires |ReadRange(wal, from, limit)| < limit || (limit > 0 && k <= ReadRange(wal, from, limit)[limit - 1].seqno)
    ensures Taken(ReadRange(wal, from, limit), k)
    decreases wal.landed + 1 - from
  {
    var read := ReadRange(wal, from, limit);
    if from !in wal.entries {
      ReadComplete(wal, from + 1, limit, k);
    } else if from == k {
      assert read[0].seqno == k;
    } else {
      var rest := ReadRange(wal, from + 1, limit - 1);
      assert limit == 1 ==> read[limit - 1].seqno == from;
      ReadComplete(wal, from + 1, limit - 1, k);
      TakenLater(read[0], rest, k);
    }
  }

  lemma {:induction false} MarkNativeNotices(cfg: Config, entries: seq<N.Sequenced>, lastLocal: nat, i: nat)
    requires i < |entries|
    ensures lastLocal <= MarkNative(cfg, entries, lastLocal)
    ensures Local(cfg, entries[i].entry.origin) ==> entries[i].seqno <= MarkNative(cfg, entries, lastLocal)
  {
    var n := |entries| - 1;
    if n > 0 {
      MarkNativeNotices(cfg, entries[..n], lastLocal, if i < n then i else 0);
    }
  }

  lemma {:induction false} MarkPreparedNotices(cfg: Config, run: seq<P.Sequenced>, lastLocal: nat, i: nat)
    requires i < |run|
    ensures lastLocal <= MarkPrepared(cfg, run, lastLocal)
    ensures Local(cfg, run[i].slot.origin) ==> run[i].seqno <= MarkPrepared(cfg, run, lastLocal)
  {
    var n := |run| - 1;
    if n > 0 {
      MarkPreparedNotices(cfg, run[..n], lastLocal, if i < n then i else 0);
    }
  }

  /** No entry between `from` and the last one taken is passed over. */
  ghost predicate Unbroken(wal: Wal, from: nat, entries: seq<N.Sequenced>) {
    |entries| > 0 ==>
      forall k :: k in wal.entries && from <= k <= entries[|entries| - 1].seqno ==> Taken(entries, k)
  }

  /** What is read in order and taken up to some entry is unbroken up to it. */
  lemma PrefixUnbroken(cfg: Config, wal: Wal, from: nat, limit: nat, n: nat)
    requires WalOk(cfg, wal) && n <= |ReadRange(wal, from, limit)|
    ensures Unbroken(wal, from, ReadRange(wal, from, limit)[..n])
  {
    var read := ReadRange(wal, from, limit);
    var entries := read[..n];
    if n > 0 {
      forall k | k in wal.entries && from <= k <= entries[n - 1].seqno ensures Taken(entries, k) {
        ReadComplete(wal, from, limit, k);
        var i :| 0 <= i < |read| && read[i].seqno == k;
        assert entries[i].seqno == k;
      }
    }
  }

  lemma NativeReadUnbroken(cfg: Config, wal: Wal, from: nat, snapshot: nat, page: nat)
    requires WalOk(cfg, wal)
    ensures Unbroken(wal, from, NativeRead(cfg, wal, from, snapshot, page))
  {
    var limit := Min(NativeLimit(cfg, wal, from), Max(1, page));
    var read := ReadRange(wal, from, limit);
    PrefixUnbroken(cfg, wal, from, limit, N.TakeCount(read, snapshot, Limit(cfg) * NATIVE_CHUNK_BATCHES, 0));
  }

  lemma NextPreparedAhead(wal: Wal, from: nat)
    ensures NextPrepared(wal, from).Some? ==> NextPrepared(wal, from).value >= from
    decreases wal.landed + 1 - from
  {
  }

  /** Nothing taken means nothing there within the snapshot. */
  lemma NothingTakenNothingThere(cfg: Config, wal: Wal, from: nat, snapshot: nat, page: nat, k: nat)
    requires WalOk(cfg, wal) && |NativeRead(cfg, wal, from, snapshot, page)| == 0
    requires k in wal.entries && from <= k
    ensures snapshot < k
  {
    var limit := Min(NativeLimit(cfg, wal, from), Max(1, page));
    var read := ReadRange(wal, from, limit);
    NextPreparedAhead(wal, from);
    assert limit > 0;
    if |read| == 0 {
      ReadComplete(wal, from, limit, k);
    } else {
      assert read[..0] == [];
      assert !N.Takes(read, snapshot, Limit(cfg) * NATIVE_CHUNK_BATCHES, 0);
      assert read[0].seqno > snapshot;
      if k < read[0].seqno {
        ReadComplete(wal, from, limit, k);
      }
    }
  }

  /** What lands during a step has sequences never used. */
  ghost predicate FreshStep(cfg: Config, s: State, env: StepEnv) {
    AllFresh(cfg, Used(s), env.arrivals) && AllFresh(cfg, Used(Landed(s, env.arrivals)), env.lateArrivals)
  }

  /** The step has a chunk to insert and gets as far as truncating. */
  ghost predicate Truncates(cfg: Config, s: State, snapshot: nat, env: StepEnv) {
    var read := Landed(s, env.arrivals);
    var route := RouteOf(cfg, read, snapshot, env);
    HasChunk(route) && Inserts(cfg, read, route, env).Some? && !env.truncateFault
  }

  /**
   What no loss needs: what lands before the step reads lies above the watermark, what
   lands after it lies above the watermark the step leaves, and a margin that truncates
   stays within that.
   */
  ghost predicate ValidStep(cfg: Config, s: State, snapshot: nat, env: StepEnv) {
    && FreshStep(cfg, s, env)
    && AllSafe(cfg, s.lastFlushed, env.arrivals)
    && AllSafe(cfg, Step(cfg, s, snapshot, env).state.lastFlushed, env.lateArrivals)
    && (Truncates(cfg, s, snapshot, env) ==> MarginHolds(cfg, env.view, Step(cfg, s, snapshot, env).state.lastFlushed))
  }

  lemma {:induction false} NativeComplete(cfg: Config, s: State, snapshot: nat, entries: seq<N.Sequenced>)
    requires RouteWithin(s, snapshot, NativePath(entries)) && Unbroken(s.wal, s.lastFlushed + 1, entries)
    ensures var route := NativePath(entries);
            ChunkComplete(cfg, MarkedBy(cfg, s, route), ChunkOf(s, route), NativeItems(cfg, s.lastFlushed + 1, entries))
  {
    var route := NativePath(entries);
    var chunk, items := ChunkOf(s, route), NativeItems(cfg, s.lastFlushed + 1, entries);
    assert ReadFrom(entries, chunk);
    forall k: nat | chunk.Has(k)
      ensures CoveredBy(cfg, items, chunk, k)
      ensures (Local(cfg, chunk.entries[k].origin) ==> MarkNative(cfg, entries, s.lastLocal) > 0)
    {
      assert Taken(entries, k);
      var i :| 0 <= i < |entries| && entries[i].seqno == k;
      NativeCovers(cfg, entries, s.lastFlushed + 1, i, chunk);
      MarkNativeNotices(cfg, entries, s.lastLocal, i);
    }
  }

  lemma {:induction false} PreparedComplete(cfg: Config, s: State, snapshot: nat, run: seq<P.Sequenced>,
                                            items: seq<Insert>)
    requires WalOk(cfg, s.wal) && RouteWithin(s, snapshot, PreparedPath(run)) && PreparedItems(cfg, run) == Some(items)
    ensures var route := PreparedPath(run); ChunkComplete(cfg, MarkedBy(cfg, s, route), ChunkOf(s, route), items)
  {
    var route := PreparedPath(run);
    var chunk := ChunkOf(s, route);
    assert chunk.upTo in s.wal.cache;
    forall k: nat | chunk.Has(k)
      ensures CoveredBy(cfg, items, chunk, k)
      ensures (Local(cfg, chunk.entries[k].origin) ==> MarkPrepared(cfg, run, s.lastLocal) > 0)
    {
      var i := k - chunk.from;
      assert run[i].seqno == k && k in s.wal.cache;
      PreparedCovers(cfg, items, i, chunk, k);
      MarkPreparedNotices(cfg, run, s.lastLocal, i);
    }
  }

  /** Whichever way a chunk is taken, it holds all it passes over. */
  lemma {:induction false} RouteComplete(cfg: Config, s: State, snapshot: nat, route: Route, items: seq<Insert>)
    requires WalOk(cfg, s.wal) && RouteWithin(s, snapshot, route) && HasChunk(route)
    requires ItemsOf(cfg, s, route) == Some(items)
    requires route.NativePath? ==> Unbroken(s.wal, s.lastFlushed + 1, route.entries)
    ensures ChunkComplete(cfg, MarkedBy(cfg, s, route), ChunkOf(s, route), items)
  {
    if route.PreparedPath? {
      PreparedComplete(cfg, s, snapshot, route.run, items);
    } else {
      NativeComplete(cfg, s, snapshot, route.entries);
    }
  }

  lemma {:induction false} InsertsComplete(cfg: Config, s: State, snapshot: nat, route: Route, env: StepEnv,
                                           items: Option<seq<Insert>>, marked: State)
    requires WalOk(cfg, s.wal) && RouteWithin(s, snapshot, route) && HasChunk(route)
    requires items == Inserts(cfg, s, route, env) && marked == MarkedBy(cfg, s, route)
    requires route.NativePath? ==> Unbroken(s.wal, s.lastFlushed + 1, route.entries)
    ensures items.Some? ==> ChunkComplete(cfg, marked, ChunkOf(s, route), items.value)
    ensures Used(marked) == Used(s)
  {
    if items.Some? {
      RouteComplete(cfg, s, snapshot, route, items.value);
    }
  }

  /** Taking a chunk and noticing its local entries keeps the invariant. */
  lemma {:induction false} MarkingKeepsInv(cfg: Config, s: State, route: Route)
    requires Inv(cfg, s) && HasChunk(route)
    ensures Inv(cfg, MarkedBy(cfg, s, route))
  {
    if route.PreparedPath? {
      CacheMayShrink(cfg, s, WithoutRun(s.wal, route.run).cache);
      MarkPreparedNotices(cfg, route.run, s.lastLocal, 0);
    } else {
      MarkNativeNotices(cfg, route.entries, s.lastLocal, 0);
    }
  }

  lemma {:induction false} TakeChunkKeepsInv(cfg: Config, marked: State, chunk: Chunk, items: Option<seq<Insert>>,
                                             env: StepEnv, r: Stepped)
    requires Inv(cfg, marked) && AllFresh(cfg, Used(marked), env.lateArrivals)
    requires r == TakeChunk(cfg, marked, chunk, items, env) && AllSafe(cfg, r.state.lastFlushed, env.lateArrivals)
    requires items.Some? ==> ChunkComplete(cfg, marked, chunk, items.value)
    requires items.Some? && !env.truncateFault ==> MarginHolds(cfg, env.view, r.state.lastFlushed)
    ensures Inv(cfg, r.state)
  {
    if items.Some? {
      EndChunkKeepsInv(cfg, marked, chunk, items.value, env);
    }
  }

  lemma {:induction false} RouteKeepsInv(cfg: Config, s: State, snapshot: nat, route: Route, env: StepEnv, r: Stepped)
    requires Inv(cfg, s) && RouteWithin(s, snapshot, route) && AllFresh(cfg, Used(s), env.lateArrivals)
    requires route.NativePath? ==> Unbroken(s.wal, s.lastFlushed + 1, route.entries)
    requires r == TakeRoute(cfg, s, route, env) && AllSafe(cfg, r.state.lastFlushed, env.lateArrivals)
    requires HasChunk(route) && Inserts(cfg, s, route, env).Some? && !env.truncateFault ==>
               MarginHolds(cfg, env.view, r.state.lastFlushed)
    ensures Inv(cfg, r.state)
  {
    if HasChunk(route) {
      var items, marked := Inserts(cfg, s, route, env), MarkedBy(cfg, s, route);
      MarkingKeepsInv(cfg, s, route);
      InsertsComplete(cfg, s, snapshot, route, env, items, marked);
      TakeChunkKeepsInv(cfg, marked, ChunkOf(s, route), items, env, r);
    } else if route.TakeFault? {
      CacheMayShrink(cfg, s, WithoutRun(s.wal, route.run).cache);
    }
  }

  lemma RoutesUnbroken(cfg: Config, s: State, snapshot: nat, env: StepEnv)
    requires WalOk(cfg, s.wal)
    ensures var route := RouteOf(cfg, s, snapshot, env);
            RouteWithin(s, snapshot, route) && (route.NativePath? ==> Unbroken(s.wal, s.lastFlushed + 1, route.entries))
  {
    RoutesWithin(cfg, s, snapshot, env);
    NativeReadUnbroken(cfg, s.wal, s.lastFlushed + 1, snapshot, env.page);
  }

  lemma StepKeepsInv(cfg: Config, s: State, snapshot: nat, env: StepEnv)
    requires Inv(cfg, s) && ValidStep(cfg, s, snapshot, env)
    ensures Inv(cfg, Step(cfg, s, snapshot, env).state)
  {
    var landed := Landed(s, env.arrivals);
    LandingKeepsInv(cfg, s, env.arrivals);
    RoutesUnbroken(cfg, landed, snapshot, env);
    RouteKeepsInv(cfg, landed, snapshot, RouteOf(cfg, landed, snapshot, env), env, Step(cfg, s, snapshot, env));
  }

  // ----------------------------------------------------------------------- flushes

  /** Every step of the flush is as no loss needs it. */
  ghost predicate ValidFlush(cfg: Config, s: State, snapshot: nat, env: nat -> StepEnv, t: nat)
    decreases if s.lastFlushed < snapshot then snapshot - s.lastFlushed else 0
  {
    s.lastFlushed < snapshot ==>
      && ValidStep(cfg, s, snapshot, env(t))
      && var r := Step(cfg, s, snapshot, env(t));
         StepAdvances(cfg, s, snapshot, env(t));
         (r.status.Continue? ==> ValidFlush(cfg, r.state, snapshot, env, t + 1))
  }

  /** No entry is left between the watermark and the snapshot. */
  ghost predicate WindowEmpty(s: State, snapshot: nat) {
    forall k :: k in s.wal.entries && s.lastFlushed < k ==> snapshot < k
  }

  lemma DoneMeansNothingLeft(cfg: Config, s: State, snapshot: nat, env: StepEnv)
    requires Inv(cfg, s) && ValidStep(cfg, s, snapshot, env) && Step(cfg, s, snapshot, env).status.Done?
    ensures WindowEmpty(Step(cfg, s, snapshot, env).state, snapshot)
  {
    var landed := Landed(s, env.arrivals);
    LandingKeepsInv(cfg, s, env.arrivals);
    RoutesWithin(cfg, landed, snapshot, env);
    var route := RouteOf(cfg, landed, snapshot, env);
    OnlyNothingLeftIsDone(cfg, landed, snapshot, route, env);
    forall k | k in landed.wal.entries && landed.lastFlushed < k ensures snapshot < k {
      NothingTakenNothingThere(cfg, landed.wal, landed.lastFlushed + 1, snapshot, env.page, k);
    }
  }

  lemma OnlyNothingLeftIsDone(cfg: Config, s: State, snapshot: nat, route: Route, env: StepEnv)
    requires RouteWithin(s, snapshot, route)
    ensures TakeRoute(cfg, s, route, env).status.Done? ==>
            route.NothingLeft? && TakeRoute(cfg, s, route, env).state == s
  {
    if HasChunk(route) {
      var items := Inserts(cfg, s, route, env);
      if items.Some? {
        EndChunkAdvances(cfg, MarkedBy(cfg, s, route), ChunkOf(s, route), items.value, env);
      }
    }
  }

  /**
   A whole flush keeps the invariant, never moves the watermark back, and when
   it succeeds leaves no entry between the watermark and its snapshot.
   */
  lemma {:induction false} FlushKeepsInv(cfg: Config, s: State, snapshot: nat, env: nat -> StepEnv, t: nat)
    requires Inv(cfg, s) && ValidFlush(cfg, s, snapshot, env, t)
    ensures var f := FlushLoop(cfg, s, snapshot, env, t);
            && Inv(cfg, f.state) && s.lastFlushed <= f.state.lastFlushed
            && (f.ok ==> WindowEmpty(f.state, snapshot))
    decreases if s.lastFlushed < snapshot then snapshot - s.lastFlushed else 0
  {
    if s.lastFlushed < snapshot {
      StepKeepsInv(cfg, s, snapshot, env(t));
      StepAdvances(cfg, s, snapshot, env(t));
      var r := Step(cfg, s, snapshot, env(t));
      match r.status
      case Done => DoneMeansNothingLeft(cfg, s, snapshot, env(t));
      case Error =>
      case Continue => FlushKeepsInv(cfg, r.state, snapshot, env, t + 1);
    }
  }

  // ------------------------------------------------------------------------- runs

  /** A flush, entries landing between flushes, or a restart of the process. */
  datatype Event =
    | Flush(snapshot: nat, env: nat -> StepEnv)
    | Append(arrivals: seq<Arrival>)
    | Restart

  ghost function Apply(cfg: Config, s: State, e: Event): State {
    match e
    case Flush(snapshot, env) => FlushLoop(cfg, s, snapshot, env, 0).state
    case Append(arrivals) => Landed(s, arrivals)
    case Restart => s.(wal := s.wal.(cache := map[]), lastFlushed := 0, lastLocal := 0)
  }

  ghost function Run(cfg: Config, s: State, events: seq<Event>): State {
    if |events| == 0 then s
    else Apply(cfg, Run(cfg, s, events[..|events| - 1]), events[|events| - 1])
  }

  /** Each entry lands, under a sequence never used, above what has been passed over by then. */
  ghost predicate ValidEvent(cfg: Config, s: State, e: Event) {
    match e
    case Flush(snapshot, env) => ValidFlush(cfg, s, snapshot, env, 0)
    case Append(arrivals) => AllFresh(cfg, Used(s), arrivals) && AllSafe(cfg, s.lastFlushed, arrivals)
    case Restart => true
  }

  ghost predicate ValidRun(cfg: Config, s: State, events: seq<Event>) {
    |events| == 0 ||
    (var n := |events| - 1; ValidRun(cfg, s, events[..n]) && ValidEvent(cfg, Run(cfg, s, events[..n]), events[n]))
  }

  /** A new service over whatever WAL an earlier process left. */
  ghost function NewService(wal: Wal): State {
    State(wal, 0, 0, [], map[])
  }

  lemma EventKeepsInv(cfg: Config, s: State, e: Event)
    requires Inv(cfg, s) && ValidEvent(cfg, s, e)
    ensures Inv(cfg, Apply(cfg, s, e))
  {
    match e
    case Flush(snapshot, env) => FlushKeepsInv(cfg, s, snapshot, env, 0);
    case Append(arrivals) => LandingKeepsInv(cfg, s, arrivals);
    case Restart => CacheMayShrink(cfg, s, map[]);
  }

  lemma {:induction false} RunKeepsInv(cfg: Config, wal: Wal, events: seq<Event>)
    requires WalOk(cfg, wal) && ValidRun(cfg, NewService(wal), events)
    ensures Inv(cfg, Run(cfg, NewService(wal), events))
  {
    if |events| > 0 {
      var n := |events| - 1;
      RunKeepsInv(cfg, wal, events[..n]);
      EventKeepsInv(cfg, Run(cfg, NewService(wal), events[..n]), events[n]);
    }
  }

  /**
   No loss over any run: however inserts and ports fail, and across restarts, an
   entry gone from the WAL had, by the time it went, every point of it in an insert
   that succeeded or was refused for good, each field with its own value or that of
   a later point of its series-instant: of its entry where that was prepared, as the
   column it was prepared with takes it and cast to the type the chunk's columns come to,
   and of the chunk, as it is, where that was not. `NoValueLost` says when a prepared
   value is there as it was. What lands when is free,
   but for landing above what has been passed over, and sizes may be recorded in any
   order that leaves a sharded node's margin within what is flushed; `LandingExact`
   and `OverrunLoses` say that this is needed.
   */
  lemma NoLoss(cfg: Config, wal: Wal, events: seq<Event>, k: nat)
    requires WalOk(cfg, wal) && ValidRun(cfg, NewService(wal), events)
    requires k in Run(cfg, NewService(wal), events).removed
    ensures var s := Run(cfg, NewService(wal), events);
            var r := s.removed[k];
            r.logged <= |s.log| && EntrySettled(cfg, s.log[..r.logged], k, r.entry)
  {
    RunKeepsInv(cfg, wal, events);
    assert RemovalSettled(cfg, Run(cfg, NewService(wal), events).log, k, Run(cfg, NewService(wal), events).removed[k]);
  }

  /**
   The truncation barrier over any run of an unsharded replicated cluster: the very
   truncation that removed a locally originated entry had it acknowledged by every
   peer that counts, or found no peer having acknowledged anything and the entry a
   full retention window behind.
   */
  lemma LocalEntriesOutliveTheBarrier(cfg: Config, wal: Wal, events: seq<Event>, k: nat)
    requires WalOk(cfg, wal) && ValidRun(cfg, NewService(wal), events) && Unsharded(cfg)
    requires k in Run(cfg, NewService(wal), events).removed
    requires Local(cfg, Run(cfg, NewService(wal), events).removed[k].entry.origin)
    ensures var cause := Run(cfg, NewService(wal), events).removed[k].cause;
            k <= cause.upTo <= cause.through && B.Justified(cfg.barrier, cause.view, cause.through, k)
  {
    RunKeepsInv(cfg, wal, events);
    assert RemovalJustified(cfg, k, Run(cfg, NewService(wal), events).removed[k]);
  }
}
