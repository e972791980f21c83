/** Field types and how they widen: a partial join, float over integer and unsigned over integer. */
module FieldTypes {
  import opened Wrappers
  import opened Points

  /** A type discriminant as stored in metadata. */
  type Disc = d: int | 0 <= d < 256

  type Types = map<string, Disc>

  function TypeDiscriminant(v: FieldValue): Disc {
    match v
    case Float(_) => 0
    case Integer(_) => 1
    case UInteger(_) => 2
    case Text(_) => 3
    case Boolean(_) => 4
  }

  function WidenFieldDisc(a: Disc, b: Disc): Option<Disc> {
    if a == b then Some(a)
    else if (a == 0 && b == 1) || (a == 1 && b == 0) then Some(0)
    else if (a == 1 && b == 2) || (a == 2 && b == 1) then Some(2)
    else None
  }

  /** `b` already holds values of type `a`. */
  predicate Absorbed(a: Disc, b: Disc) {
    WidenFieldDisc(a, b) == Some(b)
  }

  /** Union `batch` into `existing`, widening; a type that cannot widen keeps the stored one. */
  function MergeFieldTypes(existing: Types, batch: Types): Types {
    map k | k in existing.Keys + batch.Keys ::
      if k !in existing then batch[k]
      else if k !in batch then existing[k]
      else match WidenFieldDisc(existing[k], batch[k]) case Some(w) => w case None => existing[k]
  }

  /** No field of `batch` clashes with its type in `existing`. */
  predicate Compatible(existing: Types, batch: Types) {
    forall k :: k in existing && k in batch ==> WidenFieldDisc(existing[k], batch[k]).Some?
  }

  /** Every field of `a` is in `b` with a type that absorbs it. */
  predicate TypesWithin(a: Types, b: Types) {
    forall k :: k in a ==> k in b && Absorbed(a[k], b[k])
  }

  function PointTypes(p: Point): Types {
    map k | k in p.fields :: TypeDiscriminant(p.fields[k])
  }

  /**
   The join laws the metadata relies on: a merge is an upper bound of what it
   merges, and of nothing more.
   */
  lemma MergeIsUpperBound(a: Types, b: Types)
    requires Compatible(a, b)
    ensures TypesWithin(a, MergeFieldTypes(a, b)) && TypesWithin(b, MergeFieldTypes(a, b))
  {
  }

  lemma MergeIsLeast(a: Types, b: Types, c: Types)
    requires Compatible(a, b) && TypesWithin(a, c) && TypesWithin(b, c)
    ensures TypesWithin(MergeFieldTypes(a, b), c)
  {
  }

  /** Types that share an upper bound can be merged. */
  lemma BoundedMeansCompatible(a: Types, b: Types, c: Types)
    requires TypesWithin(a, c) && TypesWithin(b, c)
    ensures Compatible(a, b)
  {
  }

  lemma WithinTransitive(a: Types, b: Types, c: Types)
    requires TypesWithin(a, b) && TypesWithin(b, c)
    ensures TypesWithin(a, c)
  {
    forall k | k in a ensures k in c && Absorbed(a[k], c[k]) {
      assert k in b;
    }
  }

  /** Merging what is already absorbed changes nothing. */
  lemma MergeOfWithin(a: Types, b: Types)
    requires TypesWithin(b, a)
    ensures Compatible(a, b) && MergeFieldTypes(a, b) == a
  {
  }

  /** A merge, compatible or not, never loses what was stored. */
  lemma MergeGrows(a: Types, b: Types)
    ensures TypesWithin(a, MergeFieldTypes(a, b))
  {
  }
}
