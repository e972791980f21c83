/**
 Splitting off the points of a batch whose field types clash with the stored
 ones, or with those an earlier kept point gave: what is kept registers
 without a conflict.
 */
module ConflictSplit {
  import opened Wrappers
  import opened Points
  import opened KeyOrder
  import opened FieldTypes
  import opened IngestMetadata

  function StoredTypes(d: Durable, key: Key): Types {
    if key in d.schemas then d.schemas[key].fields else map[]
  }

  /** The types known for a measurement so far: as recorded, or as stored. */
  function Known(d: Durable, types: map<Key, Types>, key: Key): Types {
    if key in types then types[key] else StoredTypes(d, key)
  }

  datatype Split = Split(kept: seq<Point>, dropped: seq<Point>, types: map<Key, Types>)

  /** One point more: kept if its types fit those known. */
  ghost function After(d: Durable, s: Split, key: Key, p: Point): Split {
    var known := Known(d, s.types, key);
    if Compatible(known, PointTypes(p)) then
      Split(s.kept + [p], s.dropped, s.types[key := MergeFieldTypes(known, PointTypes(p))])
    else
      Split(s.kept, s.dropped + [p], s.types[key := known])
  }

  ghost function SplitOf(d: Durable, db: string, rp: string, points: seq<Point>): (s: Split)
    ensures |s.kept| + |s.dropped| == |points|
  {
    if |points| == 0 then Split([], [], map[])
    else
      var n := |points| - 1;
      After(d, SplitOf(d, db, rp, points[..n]), KeyOf(db, rp, points[n]), points[n])
  }

  /** The first field of `p` whose type clashes with the known one. */
  method FindConflict(known: Types, p: Point) returns (conflict: Option<string>)
    ensures conflict.None? <==> Compatible(known, PointTypes(p))
    ensures conflict.Some? ==> conflict.value in known && conflict.value in p.fields
    ensures conflict.Some? ==> WidenFieldDisc(known[conflict.value], TypeDiscriminant(p.fields[conflict.value])).None?
  {
    var todo := p.fields.Keys;
    while todo != {}
      invariant todo <= p.fields.Keys
      invariant forall k :: k in p.fields && k !in todo && k in known ==>
                WidenFieldDisc(known[k], TypeDiscriminant(p.fields[k])).Some?
      decreases todo
    {
      var k :| k in todo;
      if k in known && WidenFieldDisc(known[k], TypeDiscriminant(p.fields[k])).None? {
        return Some(k);
      }
      todo := todo - {k};
    }
    conflict := None;
  }

  /** Record the types of a kept point. */
  method Absorb(known: Types, p: Point) returns (types: Types)
    requires Compatible(known, PointTypes(p))
    ensures types == MergeFieldTypes(known, PointTypes(p))
  {
    ghost var merged := MergeFieldTypes(known, PointTypes(p));
    types := known;
    var todo := p.fields.Keys;
    while todo != {}
      invariant todo <= p.fields.Keys
      invariant forall k :: k in types <==> k in known || (k in p.fields && k !in todo)
      invariant forall k :: k in types ==> types[k] == if k in todo then known[k] else merged[k]
      decreases todo
    {
      var k :| k in todo;
      assert k in PointTypes(p);
      var widened := Widened(types, k, TypeDiscriminant(p.fields[k]));
      types := types[k := widened];
      todo := todo - {k};
    }
  }

  function Widened(types: Types, k: string, disc: Disc): Disc {
    if k in types && WidenFieldDisc(types[k], disc).Some? then WidenFieldDisc(types[k], disc).value else disc
  }

  /** One point: keep it and widen the known types, or report the field it clashes on. */
  method SplitPoint(d: Durable, types: map<Key, Types>, key: Key, p: Point)
    returns (types': map<Key, Types>, conflict: Option<string>)
    ensures conflict.None? <==> Compatible(Known(d, types, key), PointTypes(p))
    ensures types' == types[key := if conflict.None?
                                   then MergeFieldTypes(Known(d, types, key), PointTypes(p))
                                   else Known(d, types, key)]
  {
    var known := Known(d, types, key);
    conflict := FindConflict(known, p);
    if conflict.None? {
      known := Absorb(known, p);
    }
    types' := types[key := known];
  }

  /** The points kept, how many were dropped, and the field the first of those clashed on. */
  method SplitFieldTypeConflicts(d: Durable, db: string, rp: string, points: seq<Point>)
    returns (kept: seq<Point>, dropped: nat, first: Option<string>)
    ensures kept == SplitOf(d, db, rp, points).kept
    ensures dropped == |SplitOf(d, db, rp, points).dropped|
    ensures first.Some? <==> dropped > 0
  {
    var types: map<Key, Types> := map[];
    kept, dropped, first := [], 0, None;
    for i := 0 to |points|
      invariant var s := SplitOf(d, db, rp, points[..i]); kept == s.kept && dropped == |s.dropped| && types == s.types
      invariant first.Some? <==> dropped > 0
    {
      assert points[..i + 1][..i] == points[..i];
      var conflict;
      types, conflict := SplitPoint(d, types, KeyOf(db, rp, points[i]), points[i]);
      if conflict.None? {
        kept := kept + [points[i]];
      } else {
        dropped := dropped + 1;
        first := if first.None? then conflict else first;
      }
    }
    assert points[..|points|] == points;
  }

  // ---------------------------------------------------------------------- theorems

  /** The stored types of a measurement joined with those of the kept points. */
  ghost function Joined(d: Durable, db: string, rp: string, kept: seq<Point>, key: Key): Types {
    if |kept| == 0 then StoredTypes(d, key)
    else
      var n := |kept| - 1;
      var before := Joined(d, db, rp, kept[..n], key);
      if KeyOf(db, rp, kept[n]) == key then MergeFieldTypes(before, PointTypes(kept[n])) else before
  }

  /** Point `i` clashes with neither the store nor an earlier kept point. */
  ghost predicate Fits(d: Durable, db: string, rp: string, points: seq<Point>, i: nat)
    requires i < |points|
  {
    Compatible(Joined(d, db, rp, SplitOf(d, db, rp, points[..i]).kept, KeyOf(db, rp, points[i])), PointTypes(points[i]))
  }

  lemma JoinedSnoc(d: Durable, db: string, rp: string, kept: seq<Point>, p: Point, key: Key)
    ensures var before := Joined(d, db, rp, kept, key);
            Joined(d, db, rp, kept + [p], key) ==
              if KeyOf(db, rp, p) == key then MergeFieldTypes(before, PointTypes(p)) else before
  {
    assert (kept + [p])[..|kept|] == kept;
  }

  lemma {:induction false} KnownIsJoined(d: Durable, db: string, rp: string, points: seq<Point>, key: Key)
    ensures var s := SplitOf(d, db, rp, points);
            Known(d, s.types, key) == Joined(d, db, rp, s.kept, key)
  {
    if |points| > 0 {
      var n := |points| - 1;
      KnownIsJoined(d, db, rp, points[..n], key);
      JoinedSnoc(d, db, rp, SplitOf(d, db, rp, points[..n]).kept, points[n], key);
    }
  }

  /** The points of a batch that fit, or that do not, in order. */
  ghost function Select(d: Durable, db: string, rp: string, points: seq<Point>, n: nat, fits: bool): seq<Point>
    requires n <= |points|
  {
    if n == 0 then []
    else
      var before := Select(d, db, rp, points, n - 1, fits);
      if Fits(d, db, rp, points, n - 1) == fits then before + [points[n - 1]] else before
  }

  /**
   Kept and dropped partition the batch in order: a point is dropped exactly
   when it clashes with the stored types joined with the points kept before it.
   */
  lemma {:induction false} SplitIsExact(d: Durable, db: string, rp: string, points: seq<Point>, n: nat)
    requires n <= |points|
    ensures SplitOf(d, db, rp, points[..n]).kept == Select(d, db, rp, points, n, true)
    ensures SplitOf(d, db, rp, points[..n]).dropped == Select(d, db, rp, points, n, false)
  {
    if n > 0 {
      SplitIsExact(d, db, rp, points, n - 1);
      assert points[..n][..n - 1] == points[..n - 1];
      KnownIsJoined(d, db, rp, points[..n - 1], KeyOf(db, rp, points[n - 1]));
    }
  }

  /** The batch schemas of the kept points stay within the types known for them. */
  ghost predicate Bounded(d: Durable, types: map<Key, Types>, ms: Schemas) {
    && (forall k :: k in ms ==> TypesWithin(ms[k].fields, Known(d, types, k)))
    && (forall k :: k in types ==> TypesWithin(StoredTypes(d, k), types[k]))
  }

  /** Types within the known ones stay within them once both have taken the point's. */
  lemma GrownWithin(cur: Types, known: Types, more: Types)
    requires TypesWithin(cur, known) && Compatible(known, more)
    ensures Compatible(cur, more) && TypesWithin(known, MergeFieldTypes(known, more))
    ensures TypesWithin(MergeFieldTypes(cur, more), MergeFieldTypes(known, more))
  {
    var grown := MergeFieldTypes(known, more);
    MergeIsUpperBound(known, more);
    WithinTransitive(cur, known, grown);
    BoundedMeansCompatible(cur, more, grown);
    MergeIsLeast(cur, more, grown);
  }

  /** Another schema under `key`, within the types now known for it, keeps the bound. */
  lemma PutBounded(d: Durable, types: map<Key, Types>, ms: Schemas, key: Key, schema: Schema, grown: Types)
    requires Bounded(d, types, ms) && TypesWithin(schema.fields, grown) && TypesWithin(StoredTypes(d, key), grown)
    ensures Bounded(d, types[key := grown], ms[key := schema])
  {
    var types', ms' := types[key := grown], ms[key := schema];
    forall k | k in ms' ensures TypesWithin(ms'[k].fields, Known(d, types', k)) {
      if k != key {
        assert k in ms && Known(d, types', k) == Known(d, types, k);
      }
    }
  }

  lemma StoredWithinKnown(d: Durable, types: map<Key, Types>, ms: Schemas, key: Key)
    requires Bounded(d, types, ms)
    ensures TypesWithin(StoredTypes(d, key), Known(d, types, key))
  {
    WithinReflexive(StoredTypes(d, key));
  }

  lemma AddPointBounded(d: Durable, types: map<Key, Types>, ms: Schemas, key: Key, p: Point)
    requires Bounded(d, types, ms) && Compatible(Known(d, types, key), PointTypes(p))
    ensures var added := AddPoint(ms, key, p);
            added.Some? && Bounded(d, types[key := MergeFieldTypes(Known(d, types, key), PointTypes(p))], added.value)
  {
    var known, more := Known(d, types, key), PointTypes(p);
    var cur := if key in ms then ms[key] else Schema(map[], {});
    GrownWithin(cur.fields, known, more);
    StoredWithinKnown(d, types, ms, key);
    WithinTransitive(StoredTypes(d, key), known, MergeFieldTypes(known, more));
    PutBounded(d, types, ms, key, Schema(MergeFieldTypes(cur.fields, more), cur.tagKeys + p.tags.Keys),
               MergeFieldTypes(known, more));
  }

  lemma BatchSchemasSnoc(db: string, rp: string, points: seq<Point>, p: Point)
    ensures BatchSchemas(db, rp, points + [p]) ==
      match BatchSchemas(db, rp, points) case None => None case Some(ms) => AddPoint(ms, KeyOf(db, rp, p), p)
  {
    assert (points + [p])[..|points|] == points;
  }

  /** A point that clashes leaves the types as they were known. */
  lemma DropBounded(d: Durable, types: map<Key, Types>, ms: Schemas, key: Key)
    requires Bounded(d, types, ms)
    ensures Bounded(d, types[key := Known(d, types, key)], ms)
  {
    WithinReflexive(StoredTypes(d, key));
  }

  lemma {:induction false} KeptBounded(d: Durable, db: string, rp: string, points: seq<Point>)
    ensures var s := SplitOf(d, db, rp, points);
            var ms := BatchSchemas(db, rp, s.kept);
            ms.Some? && Bounded(d, s.types, ms.value)
  {
    if |points| > 0 {
      var n := |points| - 1;
      KeptBounded(d, db, rp, points[..n]);
      var s, p := SplitOf(d, db, rp, points[..n]), points[n];
      var key, ms := KeyOf(db, rp, p), BatchSchemas(db, rp, s.kept).value;
      BatchSchemasSnoc(db, rp, s.kept, p);
      if Compatible(Known(d, s.types, key), PointTypes(p)) {
        AddPointBounded(d, s.types, ms, key, p);
      } else {
        DropBounded(d, s.types, ms, key);
      }
    }
  }

  lemma KeptTypesAllowed(d: Durable, types: map<Key, Types>, ms: Schemas)
    requires Bounded(d, types, ms)
    ensures TypesAllowed(d.schemas, ms)
  {
    forall k | k in ms && k in d.schemas ensures Compatible(d.schemas[k].fields, ms[k].fields) {
      WithinReflexive(StoredTypes(d, k));
      BoundedMeansCompatible(d.schemas[k].fields, ms[k].fields, Known(d, types, k));
    }
  }

  lemma AllowedMeansAccepted(d: Durable, db: string, rp: string, points: seq<Point>)
    requires var ms := BatchSchemas(db, rp, points); ms.Some? && TypesAllowed(d.schemas, ms.value)
    ensures Uncached(d, db, rp, points, NoFault).verdict == Accepted
  {
  }

  /**
   Splitting makes the later checks pass: the kept points register without a
   field type conflict, with a sound cache or without one.
   */
  lemma KeptPointsRegister(d: Durable, c: Cache, db: string, rp: string, points: seq<Point>)
    requires Sound(d, c)
    ensures Uncached(d, db, rp, SplitOf(d, db, rp, points).kept, NoFault).verdict == Accepted
    ensures Cached(d, c, db, rp, SplitOf(d, db, rp, points).kept, NoFault).verdict == Accepted
  {
    var s := SplitOf(d, db, rp, points);
    KeptBounded(d, db, rp, points);
    KeptTypesAllowed(d, s.types, BatchSchemas(db, rp, s.kept).value);
    AllowedMeansAccepted(d, db, rp, s.kept);
    CachedMatchesUncached(d, c, db, rp, s.kept);
  }
}
