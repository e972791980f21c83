/** Batch registration as it runs: against the metadata store, with or without the schema cache. */
module IngestCache {
  import opened Wrappers
  import opened Points
  import opened FieldTypes
  import opened IngestMetadata

  class MetadataStore {
    var d: Durable

    constructor (d: Durable)
      ensures this.d == d
    {
      this.d := d;
    }
  }

  class IngestSchemaCache {
    var schemas: Schemas
    var tagValues: set<TagValue>
    var series: set<Series>

    ghost function Abs(): Cache
      reads this
    {
      Cache(schemas, tagValues, series)
    }

    constructor ()
      ensures Abs() == EMPTY_CACHE
    {
      schemas, tagValues, series := map[], {}, {};
    }

    /** The points of series not seen before, and those series. */
    method UnknownSeries(db: string, rp: string, points: seq<Point>) returns (unseen: seq<Point>, unknown: set<Series>)
      ensures unseen == Unseen(Abs(), db, rp, points) && unknown == AllSeries(db, rp, unseen)
    {
      unseen, unknown := [], {};
      for i := 0 to |points|
        invariant unseen == Unseen(Abs(), db, rp, points[..i])
        invariant unknown == AllSeries(db, rp, unseen)
      {
        assert points[..i + 1][..i] == points[..i];
        var s := SeriesOf(db, rp, points[i]);
        if s !in series {
          ghost var before := unseen;
          unseen := unseen + [points[i]];
          unknown := unknown + {s};
          SeriesAppend(db, rp, before, points[i]);
        }
      }
      assert points[..|points|] == points;
    }

    method MarkTagValues(tags: set<TagValue>)
      modifies this
      ensures Abs() == MarkTags(old(Abs()), tags)
    {
      if |tagValues| > MAX_CACHED_TAG_HASHES {
        tagValues := {};
      }
      tagValues := tagValues + tags;
    }

    method MarkSeriesSeen(unknown: set<Series>)
      modifies this
      ensures Abs() == MarkSeries(old(Abs()), unknown)
    {
      if unknown == {} {
        return;
      }
      if |series| > MAX_CACHED_TAG_HASHES {
        series := {};
      }
      series := series + unknown;
    }
  }

  lemma SeriesAppend(db: string, rp: string, points: seq<Point>, p: Point)
    ensures AllSeries(db, rp, points + [p]) == AllSeries(db, rp, points) + {SeriesOf(db, rp, p)}
  {
    var more := points + [p];
    forall s | s in AllSeries(db, rp, points) + {SeriesOf(db, rp, p)} ensures s in AllSeries(db, rp, more) {
      if s == SeriesOf(db, rp, p) {
        assert more[|points|] == p;
      } else {
        var i :| 0 <= i < |points| && s == SeriesOf(db, rp, points[i]);
        assert more[i] == points[i];
      }
    }
    forall s | s in AllSeries(db, rp, more) ensures s in AllSeries(db, rp, points) + {SeriesOf(db, rp, p)} {
      var i :| 0 <= i < |more| && s == SeriesOf(db, rp, more[i]);
      if i < |points| { assert points[i] == more[i]; }
    }
  }

  /** Widen a measurement's types by one point's fields; nothing when one clashes. */
  method AddFields(types: Types, p: Point) returns (r: Option<Types>)
    ensures r == if Compatible(types, PointTypes(p)) then Some(MergeFieldTypes(types, PointTypes(p))) else None
  {
    ghost var merged := MergeFieldTypes(types, PointTypes(p));
    var acc, todo := types, p.fields.Keys;
    while todo != {}
      invariant todo <= p.fields.Keys
      invariant forall k :: k in p.fields && k !in todo && k in types ==>
                WidenFieldDisc(types[k], TypeDiscriminant(p.fields[k])).Some?
      invariant forall k :: k in acc <==> k in types || (k in p.fields && k !in todo)
      invariant forall k :: k in acc ==> acc[k] == if k in todo then types[k] else merged[k]
      decreases todo
    {
      var k :| k in todo;
      assert k in PointTypes(p);
      var disc := TypeDiscriminant(p.fields[k]);
      if k in acc {
        var w := WidenFieldDisc(acc[k], disc);
        if w.None? {
          return None;
        }
        acc := acc[k := w.value];
      } else {
        acc := acc[k := disc];
      }
      todo := todo - {k};
    }
    assert acc == merged;
    r := Some(acc);
  }

  method CollectSchemas(db: string, rp: string, points: seq<Point>) returns (r: Option<Schemas>)
    ensures r == BatchSchemas(db, rp, points)
  {
    var ms: Schemas := map[];
    for i := 0 to |points|
      invariant BatchSchemas(db, rp, points[..i]) == Some(ms)
    {
      assert points[..i + 1][..i] == points[..i];
      var key := KeyOf(db, rp, points[i]);
      var cur := if key in ms then ms[key] else Schema(map[], {});
      var fields := AddFields(cur.fields, points[i]);
      if fields.None? {
        ConflictPersists(db, rp, points, i + 1);
        return None;
      }
      ms := ms[key := Schema(fields.value, cur.tagKeys + points[i].tags.Keys)];
    }
    assert points[..|points|] == points;
    r := Some(ms);
  }

  lemma {:induction false} ConflictPersists(db: string, rp: string, points: seq<Point>, n: nat)
    requires n <= |points| && BatchSchemas(db, rp, points[..n]).None?
    ensures BatchSchemas(db, rp, points).None?
    decreases |points| - n
  {
    if n < |points| {
      assert points[..n + 1][..n] == points[..n];
      ConflictPersists(db, rp, points, n + 1);
    } else {
      assert points[..n] == points;
    }
  }

  /** The part of the call that runs once every schema is known to the cache. */
  method RegisterNovelTags(meta: MetadataStore, cache: IngestSchemaCache, db: string, rp: string, unseen: seq<Point>,
                           fault: Fault)
    returns (v: Verdict)
    modifies meta, cache
    ensures Fast(meta.d, cache.Abs(), v) == SchemaHit(old(meta.d), old(cache.Abs()), db, rp, unseen, fault)
  {
    var tags := AllTags(db, rp, unseen);
    if !(tags <= cache.tagValues) {
      if fault.RegisterFault? {
        return IoError;
      }
      var novel := tags - cache.tagValues;
      meta.d := Register(meta.d, map[], novel);
      cache.MarkTagValues(novel);
    }
    cache.MarkSeriesSeen(AllSeries(db, rp, unseen));
    v := Accepted;
  }

  /** Full validation and registration, then whatever the cache may remember of it. */
  method RegisterBatch(meta: MetadataStore, cache: IngestSchemaCache, db: string, rp: string, points: seq<Point>,
                       unseen: seq<Point>, ms: Schemas, fault: Fault) returns (v: Verdict)
    modifies meta, cache
    ensures Fast(meta.d, cache.Abs(), v) == SlowPath(old(meta.d), old(cache.Abs()), db, rp, points, unseen, ms, fault)
  {
    if fault.CheckFault? {
      return IoError;
    }
    if !TypesAllowed(meta.d.schemas, ms) {
      return TypeConflict;
    }
    if fault.RegisterFault? {
      return IoError;
    }
    meta.d := Register(meta.d, ms, AllTags(db, rp, points));
    var marked := if fault.MarkFault? then fault.marked else ms.Keys;
    cache.schemas := cache.schemas + map k | k in ms && k in marked :: MergeSchema(meta.d.schemas[k], ms[k]);
    if fault.MarkFault? {
      return IoError;
    }
    cache.MarkTagValues(AllTags(db, rp, points));
    cache.MarkSeriesSeen(AllSeries(db, rp, unseen));
    v := Accepted;
  }

  /** With the cache. */
  method PrepareCached(meta: MetadataStore, cache: IngestSchemaCache, db: string, rp: string, points: seq<Point>,
                       fault: Fault)
    returns (v: Verdict)
    modifies meta, cache
    ensures Fast(meta.d, cache.Abs(), v) == Cached(old(meta.d), old(cache.Abs()), db, rp, points, fault)
  {
    var unseen, unknown := cache.UnknownSeries(db, rp, points);
    if fault.SeriesFault? && |unseen| > 0 {
      meta.d := WithSeries(meta.d, set s | s in unknown && s.key.measurement in fault.done);
      return IoError;
    }
    meta.d := WithSeries(meta.d, unknown);
    var schemas := CollectSchemas(db, rp, points);
    if schemas.None? {
      return TypeConflict;
    }
    if forall k :: k in schemas.value ==> k in cache.schemas && cache.schemas[k] == schemas.value[k] {
      v := RegisterNovelTags(meta, cache, db, rp, unseen, fault);
    } else {
      v := RegisterBatch(meta, cache, db, rp, points, unseen, schemas.value, fault);
    }
  }

  /** Without the cache. */
  method PrepareUncached(meta: MetadataStore, db: string, rp: string, points: seq<Point>, fault: Fault)
    returns (v: Verdict)
    modifies meta
    ensures Plain(meta.d, v) == Uncached(old(meta.d), db, rp, points, fault)
  {
    var all := AllSeries(db, rp, points);
    if fault.SeriesFault? && |points| > 0 {
      meta.d := WithSeries(meta.d, set s | s in all && s.key.measurement in fault.done);
      return IoError;
    }
    meta.d := WithSeries(meta.d, all);
    var schemas := CollectSchemas(db, rp, points);
    if schemas.None? {
      return TypeConflict;
    }
    if fault.CheckFault? {
      return IoError;
    }
    if !TypesAllowed(meta.d.schemas, schemas.value) {
      return TypeConflict;
    }
    if fault.RegisterFault? {
      return IoError;
    }
    meta.d := Register(meta.d, schemas.value, AllTags(db, rp, points));
    v := Accepted;
  }
}
