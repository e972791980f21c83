/**
 Registering the metadata of an ingested batch: series, tag values and
 schemas. The in-memory cache lets steady-state batches skip all I/O; with or
 without it the same batches are accepted and the same metadata is stored.
 */
module IngestMetadata {
  import opened Wrappers
  import opened Points
  import opened KeyOrder
  import opened FieldTypes

  const MAX_CACHED_TAG_HASHES: nat := 1_048_576

  datatype Schema = Schema(fields: Types, tagKeys: set<string>)

  type Schemas = map<Key, Schema>

  datatype Series = Series(key: Key, tags: map<string, string>)

  datatype TagValue = TagValue(key: Key, name: string, value: string)

  /** What the metadata store holds. */
  datatype Durable = Durable(schemas: Schemas, series: set<Series>, tagValues: set<TagValue>)

  /** What the cache remembers having persisted. */
  datatype Cache = Cache(schemas: Schemas, tagValues: set<TagValue>, series: set<Series>)

  datatype Verdict = Accepted | TypeConflict | IoError

  /** A metadata port call that fails, and how far the call had come. */
  datatype Fault =
    | NoFault
    | SeriesFault(done: set<string>) // after the series of these measurements
    | CheckFault
    | RegisterFault
    | MarkFault(marked: set<Key>)    // reading back, after these schemas were marked

  // ------------------------------------------------------------ what a batch carries

  function KeyOf(db: string, rp: string, p: Point): Key {
    Key(db, rp, p.measurement)
  }

  function SeriesOf(db: string, rp: string, p: Point): Series {
    Series(KeyOf(db, rp, p), p.tags)
  }

  function AllSeries(db: string, rp: string, points: seq<Point>): set<Series> {
    set i | 0 <= i < |points| :: SeriesOf(db, rp, points[i])
  }

  function TagsOf(s: Series): set<TagValue> {
    set k | k in s.tags :: TagValue(s.key, k, s.tags[k])
  }

  function AllTags(db: string, rp: string, points: seq<Point>): set<TagValue> {
    set i, k | 0 <= i < |points| && k in points[i].tags :: TagValue(KeyOf(db, rp, points[i]), k, points[i].tags[k])
  }

  /** The schema of a measurement after one more point, unless a field clashes. */
  function AddPoint(ms: Schemas, key: Key, p: Point): Option<Schemas> {
    var cur := if key in ms then ms[key] else Schema(map[], {});
    if Compatible(cur.fields, PointTypes(p)) then
      Some(ms[key := Schema(MergeFieldTypes(cur.fields, PointTypes(p)), cur.tagKeys + p.tags.Keys)])
    else None
  }

  /** The schemas of a batch, or nothing when two of its points clash. */
  ghost function BatchSchemas(db: string, rp: string, points: seq<Point>): Option<Schemas> {
    if |points| == 0 then Some(map[])
    else
      var n := |points| - 1;
      match BatchSchemas(db, rp, points[..n])
      case None => None
      case Some(ms) => AddPoint(ms, KeyOf(db, rp, points[n]), points[n])
  }

  // ------------------------------------------------------------------ the store

  function MergeSchema(existing: Schema, batch: Schema): Schema {
    Schema(MergeFieldTypes(existing.fields, batch.fields), existing.tagKeys + batch.tagKeys)
  }

  function MergeSchemas(stored: Schemas, ms: Schemas): Schemas {
    map k | k in stored.Keys + ms.Keys ::
      if k !in ms then stored[k] else if k !in stored then ms[k] else MergeSchema(stored[k], ms[k])
  }

  predicate TypesAllowed(stored: Schemas, ms: Schemas) {
    forall k :: k in ms && k in stored ==> Compatible(stored[k].fields, ms[k].fields)
  }

  function WithSeries(d: Durable, series: set<Series>): Durable {
    d.(series := d.series + series)
  }

  function Register(d: Durable, ms: Schemas, tags: set<TagValue>): Durable {
    d.(schemas := MergeSchemas(d.schemas, ms), tagValues := d.tagValues + tags)
  }

  // ------------------------------------------------------------- without the cache

  datatype Plain = Plain(durable: Durable, verdict: Verdict)

  ghost function Uncached(d: Durable, db: string, rp: string, points: seq<Point>, fault: Fault): Plain {
    if fault.SeriesFault? && |points| > 0 then
      Plain(WithSeries(d, set s | s in AllSeries(db, rp, points) && s.key.measurement in fault.done), IoError)
    else
      var d1 := WithSeries(d, AllSeries(db, rp, points));
      match BatchSchemas(db, rp, points)
      case None => Plain(d1, TypeConflict)
      case Some(ms) =>
        if fault.CheckFault? then Plain(d1, IoError)
        else if !TypesAllowed(d1.schemas, ms) then Plain(d1, TypeConflict)
        else if fault.RegisterFault? then Plain(d1, IoError)
        else Plain(Register(d1, ms, AllTags(db, rp, points)), Accepted)
  }

  // ---------------------------------------------------------------- with the cache

  /** The points of series the cache has not seen. */
  ghost function Unseen(c: Cache, db: string, rp: string, points: seq<Point>): (unseen: seq<Point>)
    ensures forall p :: p in unseen <==> p in points && SeriesOf(db, rp, p) !in c.series
  {
    if |points| == 0 then []
    else
      var n := |points| - 1;
      var before := Unseen(c, db, rp, points[..n]);
      assert points == points[..n] + [points[n]];
      if SeriesOf(db, rp, points[n]) in c.series then before else before + [points[n]]
  }

  function MarkTags(c: Cache, tags: set<TagValue>): Cache {
    c.(tagValues := (if |c.tagValues| > MAX_CACHED_TAG_HASHES then {} else c.tagValues) + tags)
  }

  function MarkSeries(c: Cache, series: set<Series>): Cache {
    if series == {} then c
    else c.(series := (if |c.series| > MAX_CACHED_TAG_HASHES then {} else c.series) + series)
  }

  /** Remember the schemas of these measurements as the store now merges them. */
  function MarkSchemas(c: Cache, d: Durable, ms: Schemas, marked: set<Key>): Cache
    requires ms.Keys <= d.schemas.Keys
  {
    c.(schemas := c.schemas + map k | k in ms && k in marked :: MergeSchema(d.schemas[k], ms[k]))
  }

  predicate SchemasKnown(c: Cache, ms: Schemas) {
    forall k :: k in ms ==> k in c.schemas && c.schemas[k] == ms[k]
  }

  datatype Fast = Fast(durable: Durable, cache: Cache, verdict: Verdict)

  /** Every schema is known: only tag values of series not seen before can be new. */
  ghost function SchemaHit(d: Durable, c: Cache, db: string, rp: string, unseen: seq<Point>, fault: Fault): Fast {
    var tags := AllTags(db, rp, unseen);
    if tags <= c.tagValues then Fast(d, MarkSeries(c, AllSeries(db, rp, unseen)), Accepted)
    else if fault.RegisterFault? then Fast(d, c, IoError)
    else
      var novel := tags - c.tagValues;
      Fast(Register(d, map[], novel), MarkSeries(MarkTags(c, novel), AllSeries(db, rp, unseen)), Accepted)
  }

  ghost function SlowPath(d: Durable, c: Cache, db: string, rp: string, points: seq<Point>, unseen: seq<Point>,
                          ms: Schemas, fault: Fault): Fast {
    if fault.CheckFault? then Fast(d, c, IoError)
    else if !TypesAllowed(d.schemas, ms) then Fast(d, c, TypeConflict)
    else if fault.RegisterFault? then Fast(d, c, IoError)
    else
      var d' := Register(d, ms, AllTags(db, rp, points));
      if fault.MarkFault? then Fast(d', MarkSchemas(c, d', ms, fault.marked), IoError)
      else
        Fast(d', MarkSeries(MarkTags(MarkSchemas(c, d', ms, ms.Keys), AllTags(db, rp, points)),
                            AllSeries(db, rp, unseen)), Accepted)
  }

  ghost function Cached(d: Durable, c: Cache, db: string, rp: string, points: seq<Point>, fault: Fault): Fast {
    var unseen := Unseen(c, db, rp, points);
    var unknown := AllSeries(db, rp, unseen);
    if fault.SeriesFault? && |unseen| > 0 then
      Fast(WithSeries(d, set s | s in unknown && s.key.measurement in fault.done), c, IoError)
    else
      var d1 := WithSeries(d, unknown);
      match BatchSchemas(db, rp, points)
      case None => Fast(d1, c, TypeConflict)
      case Some(ms) =>
        if SchemasKnown(c, ms) then SchemaHit(d1, c, db, rp, unseen, fault)
        else SlowPath(d1, c, db, rp, points, unseen, ms, fault)
  }

  // -------------------------------------------------------------------- invariant

  predicate SchemaWithin(a: Schema, b: Schema) {
    TypesWithin(a.fields, b.fields) && a.tagKeys <= b.tagKeys
  }

  /**
   The cache never claims more than the store holds; above all, a series marked
   seen has its tag values stored too.
   */
  ghost predicate Sound(d: Durable, c: Cache) {
    && (forall k :: k in c.schemas ==> k in d.schemas && SchemaWithin(c.schemas[k], d.schemas[k]))
    && c.tagValues <= d.tagValues
    && (forall s :: s in c.series ==> s in d.series && TagsOf(s) <= d.tagValues)
  }

  /** The store only grows. */
  ghost predicate Grows(d: Durable, d': Durable) {
    && d.series <= d'.series && d.tagValues <= d'.tagValues
    && forall k :: k in d.schemas ==> k in d'.schemas && SchemaWithin(d.schemas[k], d'.schemas[k])
  }

  lemma SoundStays(d: Durable, d': Durable, c: Cache)
    requires Sound(d, c) && Grows(d, d')
    ensures Sound(d', c)
  {
    forall k | k in c.schemas ensures k in d'.schemas && SchemaWithin(c.schemas[k], d'.schemas[k]) {
      WithinTransitive(c.schemas[k].fields, d.schemas[k].fields, d'.schemas[k].fields);
    }
  }

  lemma WithinReflexive(a: Types)
    ensures TypesWithin(a, a)
  {
  }

  lemma WithSeriesGrows(d: Durable, series: set<Series>)
    ensures Grows(d, WithSeries(d, series))
  {
    forall k | k in d.schemas ensures SchemaWithin(d.schemas[k], d.schemas[k]) {
      WithinReflexive(d.schemas[k].fields);
    }
  }

  lemma RegisterGrows(d: Durable, ms: Schemas, tags: set<TagValue>)
    ensures Grows(d, Register(d, ms, tags))
  {
    forall k | k in d.schemas
      ensures k in MergeSchemas(d.schemas, ms) && SchemaWithin(d.schemas[k], MergeSchemas(d.schemas, ms)[k])
    {
      WithinReflexive(d.schemas[k].fields);
      if k in ms { MergeGrows(d.schemas[k].fields, ms[k].fields); }
    }
  }

  lemma UncachedGrows(d: Durable, db: string, rp: string, points: seq<Point>, fault: Fault)
    ensures Grows(d, Uncached(d, db, rp, points, fault).durable)
  {
    var d1 := WithSeries(d, AllSeries(db, rp, points));
    WithSeriesGrows(d, AllSeries(db, rp, points));
    var done := if fault.SeriesFault? then fault.done else {};
    WithSeriesGrows(d, set s | s in AllSeries(db, rp, points) && s.key.measurement in done);
    match BatchSchemas(db, rp, points)
    case None =>
    case Some(ms) =>
      RegisterGrows(d1, ms, AllTags(db, rp, points));
      GrowsTransitive(d, d1, Register(d1, ms, AllTags(db, rp, points)));
  }

  lemma GrowsTransitive(a: Durable, b: Durable, c: Durable)
    requires Grows(a, b) && Grows(b, c)
    ensures Grows(a, c)
  {
    forall k | k in a.schemas ensures k in c.schemas && SchemaWithin(a.schemas[k], c.schemas[k]) {
      assert k in b.schemas;
      WithinTransitive(a.schemas[k].fields, b.schemas[k].fields, c.schemas[k].fields);
    }
  }

  // -------------------------------------------------------------------- refinement

  /** A known schema is one the store already absorbs: checking it and merging it do nothing. */
  lemma KnownSchemasAbsorbed(d: Durable, c: Cache, ms: Schemas)
    requires Sound(d, c) && SchemasKnown(c, ms)
    ensures TypesAllowed(d.schemas, ms) && MergeSchemas(d.schemas, ms) == d.schemas
  {
    forall k | k in ms
      ensures k in d.schemas && Compatible(d.schemas[k].fields, ms[k].fields)
      ensures MergeSchema(d.schemas[k], ms[k]) == d.schemas[k]
    {
      assert c.schemas[k] == ms[k];
      MergeOfWithin(d.schemas[k].fields, ms[k].fields);
    }
  }

  /** Series the cache has seen are stored already. */
  lemma SeenSeriesStored(d: Durable, c: Cache, db: string, rp: string, points: seq<Point>)
    requires Sound(d, c)
    ensures WithSeries(d, AllSeries(db, rp, Unseen(c, db, rp, points))) == WithSeries(d, AllSeries(db, rp, points))
  {
    var unseen := Unseen(c, db, rp, points);
    forall s | s in AllSeries(db, rp, points) ensures s in d.series + AllSeries(db, rp, unseen) {
      var i :| 0 <= i < |points| && s == SeriesOf(db, rp, points[i]);
      if s !in c.series {
        assert points[i] in unseen;
        var j :| 0 <= j < |unseen| && unseen[j] == points[i];
      }
    }
    UnseenSeries(c, db, rp, points);
    assert d.series + AllSeries(db, rp, unseen) == d.series + AllSeries(db, rp, points);
  }

  lemma UnseenSeries(c: Cache, db: string, rp: string, points: seq<Point>)
    ensures AllSeries(db, rp, Unseen(c, db, rp, points)) <= AllSeries(db, rp, points)
  {
    var unseen := Unseen(c, db, rp, points);
    forall s | s in AllSeries(db, rp, unseen) ensures s in AllSeries(db, rp, points) {
      var i :| 0 <= i < |unseen| && s == SeriesOf(db, rp, unseen[i]);
      assert unseen[i] in points;
    }
  }

  lemma TagsAreSeriesTags(db: string, rp: string, points: seq<Point>, t: TagValue)
    ensures t in AllTags(db, rp, points) <==> exists p :: p in points && t in TagsOf(SeriesOf(db, rp, p))
  {
    if t in AllTags(db, rp, points) {
      var i, k :| 0 <= i < |points| && k in points[i].tags
          && t == TagValue(KeyOf(db, rp, points[i]), k, points[i].tags[k]);
      assert t in TagsOf(SeriesOf(db, rp, points[i]));
    }
  }

  /** Tag values of series the cache has seen are stored already. */
  lemma SeenTagsStored(d: Durable, c: Cache, db: string, rp: string, points: seq<Point>)
    requires Sound(d, c)
    ensures d.tagValues + AllTags(db, rp, Unseen(c, db, rp, points)) == d.tagValues + AllTags(db, rp, points)
  {
    var unseen := Unseen(c, db, rp, points);
    forall t ensures t in d.tagValues + AllTags(db, rp, unseen) <==> t in d.tagValues + AllTags(db, rp, points) {
      TagsAreSeriesTags(db, rp, points, t);
      TagsAreSeriesTags(db, rp, unseen, t);
      if p :| p in points && t in TagsOf(SeriesOf(db, rp, p)) {
        if SeriesOf(db, rp, p) in c.series {
          assert TagsOf(SeriesOf(db, rp, p)) <= d.tagValues;
        } else {
          assert p in unseen;
        }
      }
    }
  }

  lemma HitAgrees(d: Durable, c: Cache, db: string, rp: string, points: seq<Point>, ms: Schemas)
    requires Sound(d, c) && SchemasKnown(c, ms)
    ensures SchemaHit(d, c, db, rp, Unseen(c, db, rp, points), NoFault).durable ==
            Register(d, ms, AllTags(db, rp, points))
  {
    var tags := AllTags(db, rp, Unseen(c, db, rp, points));
    KnownSchemasAbsorbed(d, c, ms);
    SeenTagsStored(d, c, db, rp, points);
    assert MergeSchemas(d.schemas, map[]) == d.schemas;
    if tags <= c.tagValues {
      assert d.tagValues + tags == d.tagValues;
    } else {
      assert d.tagValues + (tags - c.tagValues) == d.tagValues + tags;
    }
  }

  /**
   The cache refines no cache, one batch: from any store a sound cache
   describes, both accept or refuse the batch alike and store the same.
   */
  lemma CachedMatchesUncached(d: Durable, c: Cache, db: string, rp: string, points: seq<Point>)
    requires Sound(d, c)
    ensures var fast, plain := Cached(d, c, db, rp, points, NoFault), Uncached(d, db, rp, points, NoFault);
            fast.durable == plain.durable && fast.verdict == plain.verdict
  {
    var unseen := Unseen(c, db, rp, points);
    var d1 := WithSeries(d, AllSeries(db, rp, unseen));
    SeenSeriesStored(d, c, db, rp, points);
    WithSeriesGrows(d, AllSeries(db, rp, unseen));
    SoundStays(d, d1, c);
    match BatchSchemas(db, rp, points)
    case None =>
    case Some(ms) =>
      if SchemasKnown(c, ms) {
        HitAgrees(d1, c, db, rp, points, ms);
        KnownSchemasAbsorbed(d1, c, ms);
      }
  }

  // ---------------------------------------------------------------- the cache stays sound

  /** Once their tag values are stored, the unseen series may be marked. */
  lemma MarkSeriesSound(d: Durable, c: Cache, db: string, rp: string, unseen: seq<Point>)
    requires Sound(d, c)
    requires AllSeries(db, rp, unseen) <= d.series && AllTags(db, rp, unseen) <= d.tagValues
    ensures Sound(d, MarkSeries(c, AllSeries(db, rp, unseen)))
  {
    forall s | s in AllSeries(db, rp, unseen) ensures TagsOf(s) <= d.tagValues {
      var i :| 0 <= i < |unseen| && s == SeriesOf(db, rp, unseen[i]);
      forall t | t in TagsOf(s) ensures t in d.tagValues {
        TagsAreSeriesTags(db, rp, unseen, t);
        assert unseen[i] in unseen;
      }
    }
  }

  lemma MarkSchemasSound(d: Durable, d': Durable, c: Cache, ms: Schemas, tags: set<TagValue>, marked: set<Key>)
    requires Sound(d, c) && TypesAllowed(d.schemas, ms) && d' == Register(d, ms, tags)
    ensures ms.Keys <= d'.schemas.Keys && Sound(d', MarkSchemas(c, d', ms, marked))
  {
    RegisterGrows(d, ms, tags);
    SoundStays(d, d', c);
    forall k | k in ms ensures k in d'.schemas && SchemaWithin(MergeSchema(d'.schemas[k], ms[k]), d'.schemas[k]) {
      WithinReflexive(ms[k].fields);
      if k in d.schemas { MergeIsUpperBound(d.schemas[k].fields, ms[k].fields); }
      MergeOfWithin(d'.schemas[k].fields, ms[k].fields);
      WithinReflexive(d'.schemas[k].fields);
    }
  }

  lemma HitKeepsSound(d: Durable, c: Cache, db: string, rp: string, unseen: seq<Point>, fault: Fault)
    requires Sound(d, c) && AllSeries(db, rp, unseen) <= d.series
    ensures var r := SchemaHit(d, c, db, rp, unseen, fault); Sound(r.durable, r.cache)
  {
    var tags := AllTags(db, rp, unseen);
    if tags <= c.tagValues {
      MarkSeriesSound(d, c, db, rp, unseen);
    } else if !fault.RegisterFault? {
      var novel := tags - c.tagValues;
      var d' := Register(d, map[], novel);
      RegisterGrows(d, map[], novel);
      SoundStays(d, d', c);
      MarkSeriesSound(d', MarkTags(c, novel), db, rp, unseen);
    }
  }

  lemma SlowKeepsSound(d: Durable, c: Cache, db: string, rp: string, points: seq<Point>, unseen: seq<Point>,
                       ms: Schemas, fault: Fault)
    requires Sound(d, c) && AllSeries(db, rp, unseen) <= d.series && forall p :: p in unseen ==> p in points
    ensures var r := SlowPath(d, c, db, rp, points, unseen, ms, fault); Sound(r.durable, r.cache)
  {
    if !fault.CheckFault? && TypesAllowed(d.schemas, ms) && !fault.RegisterFault? {
      var tags := AllTags(db, rp, points);
      var d' := Register(d, ms, tags);
      var marked := if fault.MarkFault? then fault.marked else ms.Keys;
      MarkSchemasSound(d, d', c, ms, tags, marked);
      if !fault.MarkFault? {
        forall t | t in AllTags(db, rp, unseen) ensures t in tags {
          TagsAreSeriesTags(db, rp, unseen, t);
          TagsAreSeriesTags(db, rp, points, t);
        }
        MarkSeriesSound(d', MarkTags(MarkSchemas(c, d', ms, ms.Keys), tags), db, rp, unseen);
      }
    }
  }

  /** Whatever happens to a batch, including a port failing half way, the cache stays sound. */
  lemma CachedKeepsSound(d: Durable, c: Cache, db: string, rp: string, points: seq<Point>, fault: Fault)
    requires Sound(d, c)
    ensures var r := Cached(d, c, db, rp, points, fault); Sound(r.durable, r.cache)
  {
    var unseen := Unseen(c, db, rp, points);
    var unknown := AllSeries(db, rp, unseen);
    if fault.SeriesFault? && |unseen| > 0 {
      var part := set s | s in unknown && s.key.measurement in fault.done;
      WithSeriesGrows(d, part);
      SoundStays(d, WithSeries(d, part), c);
    } else {
      var d1 := WithSeries(d, unknown);
      WithSeriesGrows(d, unknown);
      SoundStays(d, d1, c);
      match BatchSchemas(db, rp, points)
      case None =>
      case Some(ms) =>
        HitKeepsSound(d1, c, db, rp, unseen, fault);
        SlowKeepsSound(d1, c, db, rp, points, unseen, ms, fault);
    }
  }

  // --------------------------------------------------------------------- histories

  datatype Batch = Batch(db: string, rp: string, points: seq<Point>)

  /** A batch through this cache, a batch by a path without it, or entries evicted. */
  datatype Event =
    | Ingest(batch: Batch, fault: Fault)
    | OtherWriter(batch: Batch, fault: Fault)
    | Evict(keep: Cache)

  datatype World = World(durable: Durable, cache: Cache)

  /** The part of a cache that another one also has. */
  function Kept(c: Cache, keep: Cache): Cache {
    Cache(map k | k in c.schemas && k in keep.schemas :: c.schemas[k],
          c.tagValues * keep.tagValues,
          c.series * keep.series)
  }

  ghost function Apply(w: World, e: Event): World {
    match e
    case Ingest(b, fault) =>
      var r := Cached(w.durable, w.cache, b.db, b.rp, b.points, fault);
      World(r.durable, r.cache)
    case OtherWriter(b, fault) => World(Uncached(w.durable, b.db, b.rp, b.points, fault).durable, w.cache)
    case Evict(keep) => World(w.durable, Kept(w.cache, keep))
  }

  ghost function History(w: World, events: seq<Event>): World {
    if |events| == 0 then w
    else Apply(History(w, events[..|events| - 1]), events[|events| - 1])
  }

  const EMPTY_CACHE := Cache(map[], {}, {})

  lemma EventKeepsSound(w: World, e: Event)
    requires Sound(w.durable, w.cache)
    ensures Sound(Apply(w, e).durable, Apply(w, e).cache)
  {
    match e
    case Ingest(b, fault) => CachedKeepsSound(w.durable, w.cache, b.db, b.rp, b.points, fault);
    case OtherWriter(b, fault) =>
      UncachedGrows(w.durable, b.db, b.rp, b.points, fault);
      SoundStays(w.durable, Uncached(w.durable, b.db, b.rp, b.points, fault).durable, w.cache);
    case Evict(keep) =>
  }

  lemma {:induction false} HistoryKeepsSound(d: Durable, events: seq<Event>)
    ensures var w := History(World(d, EMPTY_CACHE), events); Sound(w.durable, w.cache)
  {
    if |events| > 0 {
      var n := |events| - 1;
      HistoryKeepsSound(d, events[..n]);
      EventKeepsSound(History(World(d, EMPTY_CACHE), events[..n]), events[n]);
    }
  }

  /** What the store comes to hold, and what the batches through this cache are told. */
  datatype Trace = Trace(durable: Durable, verdicts: seq<Verdict>)

  ghost function Verdicts(w: World, events: seq<Event>): seq<Verdict> {
    if |events| == 0 then []
    else
      var n := |events| - 1;
      var w1 := History(w, events[..n]);
      match events[n]
      case Ingest(b, fault) =>
        Verdicts(w, events[..n]) + [Cached(w1.durable, w1.cache, b.db, b.rp, b.points, fault).verdict]
      case _ => Verdicts(w, events[..n])
  }

  /** The same events on a node without the cache. */
  ghost function WithoutCache(d: Durable, events: seq<Event>): Trace {
    if |events| == 0 then Trace(d, [])
    else
      var n := |events| - 1;
      var t := WithoutCache(d, events[..n]);
      match events[n]
      case Ingest(b, fault) =>
        var r := Uncached(t.durable, b.db, b.rp, b.points, fault);
        Trace(r.durable, t.verdicts + [r.verdict])
      case OtherWriter(b, fault) => Trace(Uncached(t.durable, b.db, b.rp, b.points, fault).durable, t.verdicts)
      case Evict(_) => t
  }

  /** No port fails during a batch through this cache. */
  ghost predicate FaultFree(events: seq<Event>) {
    forall i :: 0 <= i < |events| && events[i].Ingest? ==> events[i].fault == NoFault
  }

  lemma {:induction false} SequenceAgrees(w: World, events: seq<Event>)
    requires Sound(w.durable, w.cache) && FaultFree(events)
    ensures var w' := History(w, events);
            Sound(w'.durable, w'.cache) && Trace(w'.durable, Verdicts(w, events)) == WithoutCache(w.durable, events)
  {
    if |events| > 0 {
      var n := |events| - 1;
      SequenceAgrees(w, events[..n]);
      var w1 := History(w, events[..n]);
      EventKeepsSound(w1, events[n]);
      if events[n].Ingest? {
        var b := events[n].batch;
        CachedMatchesUncached(w1.durable, w1.cache, b.db, b.rp, b.points);
      }
    }
  }

  /**
   The cache refines no cache: after any history of batches, failed port calls,
   evictions and writes by other paths, any further mix of batches, evictions and
   other writers' batches, which may fail, gets the same verdicts and leaves the same
   series, tag values and schemas with the cache as without it.
   */
  lemma CacheRefinesNoCache(d: Durable, history: seq<Event>, events: seq<Event>)
    requires FaultFree(events)
    ensures var w := History(World(d, EMPTY_CACHE), history);
            Trace(History(w, events).durable, Verdicts(w, events)) == WithoutCache(w.durable, events)
  {
    HistoryKeepsSound(d, history);
    SequenceAgrees(History(World(d, EMPTY_CACHE), history), events);
  }

  /**
   And in any history at all, each batch that meets no fault fares as it would without
   the cache on the same store.
   */
  lemma EachBatchAgrees(d: Durable, history: seq<Event>, b: Batch)
    ensures var w := History(World(d, EMPTY_CACHE), history);
            var r := Cached(w.durable, w.cache, b.db, b.rp, b.points, NoFault);
            Plain(r.durable, r.verdict) == Uncached(w.durable, b.db, b.rp, b.points, NoFault)
  {
    HistoryKeepsSound(d, history);
    var w := History(World(d, EMPTY_CACHE), history);
    CachedMatchesUncached(w.durable, w.cache, b.db, b.rp, b.points);
  }

  // ------------------------------------------------------------------ stale entries

  /** The store already holds everything the batch would register. */
  ghost predicate Registered(d: Durable, db: string, rp: string, points: seq<Point>, ms: Schemas) {
    && AllSeries(db, rp, points) <= d.series
    && AllTags(db, rp, points) <= d.tagValues
    && MergeSchemas(d.schemas, ms) == d.schemas
  }

  /**
   The cache has no way to learn of a drop. A batch of seen series and known
   schemas is accepted with no I/O whatever the store holds, and fares as an
   uncached registration does exactly when the store still holds all of it in
   types that admit it: not after a drop, nor after a drop and a return with a
   clashing type, which registration refuses.
   */
  lemma StaleHitExact(d: Durable, c: Cache, db: string, rp: string, points: seq<Point>)
    requires Unseen(c, db, rp, points) == []
    requires BatchSchemas(db, rp, points).Some? && SchemasKnown(c, BatchSchemas(db, rp, points).value)
    ensures Cached(d, c, db, rp, points, NoFault) == Fast(d, c, Accepted)
    ensures var ms := BatchSchemas(db, rp, points).value;
            Uncached(d, db, rp, points, NoFault) == Plain(d, Accepted) <==>
              TypesAllowed(d.schemas, ms) && Registered(d, db, rp, points, ms)
  {
    assert AllSeries(db, rp, []) == {} && AllTags(db, rp, []) == {};
    assert WithSeries(d, {}) == d;
    var u := Uncached(d, db, rp, points, NoFault);
    assert u.durable.series == d.series + AllSeries(db, rp, points);
    if u.verdict.Accepted? {
      assert u.durable.tagValues == d.tagValues + AllTags(db, rp, points);
    }
  }
}
