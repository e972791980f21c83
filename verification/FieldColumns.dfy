/** Points as typed columns: what a field's column takes of each point's value when a batch is prepared. */
module FieldColumns {
  import opened Points
  import opened ColumnStack
  import opened Wrappers

  const I64_MIN: int := -0x8000_0000_0000_0000
  const I64_MAX: int := 0x7FFF_FFFF_FFFF_FFFF

  /** Toward zero. */
  function Whole(f: real): int {
    if f >= 0.0 then f.Floor else -((-f).Floor)
  }

  /** Toward zero, and to the ends of the range beyond it. */
  function AsI64(f: real): (i: int)
    ensures I64_MIN <= i <= I64_MAX
  {
    var t := Whole(f);
    if t < I64_MIN then I64_MIN else if t > I64_MAX then I64_MAX else t
  }

  /** What a column of type `ty` holds for a value; `round` is how an integer becomes a float. */
  function Fill(round: int -> real, ty: Type, v: FieldValue): Option<FieldValue> {
    match ty
    case Int64 =>
      (match v
       case Integer(i) => Some(v)
       case UInteger(u) => if u <= I64_MAX then Some(Integer(u)) else None
       case Float(f) => Some(Integer(AsI64(f)))
       case _ => None)
    case UInt64 =>
      (match v
       case UInteger(u) => Some(v)
       case Integer(i) => if i >= 0 then Some(UInteger(i)) else None
       case _ => None)
    case Utf8 => if v.Text? then Some(v) else None
    case UInt8 => if v.Boolean? then Some(v) else None
    case _ =>
      (match v
       case Float(f) => Some(v)
       case Integer(i) => Some(Float(round(i)))
       case _ => None)
  }

  /** The values a column of a type takes as they are. */
  predicate Fits(round: int -> real, ty: Type, v: FieldValue) {
    match v
    case Integer(i) => ty.Int64? || (ty.UInt64? && i >= 0) || (IsFloat(ty) && round(i) == i as real)
    case UInteger(u) => ty.UInt64? || (ty.Int64? && u <= I64_MAX)
    case Float(f) => IsFloat(ty) || (ty.Int64? && I64_MIN as real <= f <= I64_MAX as real && f == f.Floor as real)
    case Text(s) => ty.Utf8?
    case Boolean(b) => ty.UInt8?
  }

  /** Floats, and what is not otherwise known, are kept as floats. */
  predicate IsFloat(ty: Type) {
    !ty.Int64? && !ty.UInt64? && !ty.Utf8? && !ty.UInt8?
  }

  /** The column holds the value exactly when it is one its type takes as it is. */
  lemma FillExact(round: int -> real, ty: Type, v: FieldValue)
    ensures Kept(v, Fill(round, ty, v)) <==> Fits(round, ty, v)
  {
    if v.Float? && ty.Int64? {
      WholeFloat(v.f);
    }
  }

  lemma TruncatedBounds(f: real)
    ensures f >= 0.0 ==> Whole(f) as real <= f < Whole(f) as real + 1.0
    ensures f < 0.0 ==> Whole(f) as real - 1.0 < f <= Whole(f) as real
  {
    var n := (-f).Floor;
    assert n as real <= -f < n as real + 1.0;
  }

  lemma WholeTruncated(f: real)
    ensures Whole(f) as real == f <==> f == f.Floor as real
  {
    if f == f.Floor as real {
      TruncatedBounds(f);
      assert f.Floor == Whole(f);
    }
  }

  lemma WholeFloat(f: real)
    ensures AsI64(f) as real == f <==> I64_MIN as real <= f <= I64_MAX as real && f == f.Floor as real
  {
    WholeTruncated(f);
    TruncatedBounds(f);
    Clamped(Whole(f), f, I64_MIN, I64_MAX);
  }

  lemma Clamped(t: int, f: real, lo: int, hi: int)
    requires lo < 0 < hi
    requires if f >= 0.0 then t as real <= f < t as real + 1.0 else t as real - 1.0 < f <= t as real
    ensures var c := if t < lo then lo else if t > hi then hi else t;
            c as real == f <==> t as real == f && lo as real <= f <= hi as real
  {
  }

  /** The cells of one field over the points: null where a point lacks it. */
  method BuildFieldColumn(round: int -> real, points: seq<Point>, name: string, ty: Type) returns (column: Column)
    ensures |column| == |points|
    ensures forall i :: 0 <= i < |points| ==>
              column[i] == if name in points[i].fields then Fill(round, ty, points[i].fields[name]) else None
  {
    column := [];
    for i := 0 to |points|
      invariant |column| == i
      invariant forall j :: 0 <= j < i ==>
                  column[j] == if name in points[j].fields then Fill(round, ty, points[j].fields[name]) else None
    {
      var cell := if name in points[i].fields then Fill(round, ty, points[i].fields[name]) else None;
      column := column + [cell];
    }
  }

  // ----------------------------------------------------------------------- and stacked

  /** What a value is once a column of type `from` has taken it, and a stack's column of type `ty` that one. */
  function AsStacked(round: int -> real, casts: Casts, from: Type, ty: Type, v: FieldValue): Option<FieldValue> {
    CastTo(casts, from, ty, Fill(round, from, v))
  }

  /**
   A value its own column takes as it is survives the stack exactly when the types
   agree or the cast gives it back.
   */
  lemma StackedExact(round: int -> real, casts: Casts, from: Type, ty: Type, v: FieldValue)
    requires Fits(round, from, v)
    ensures Fill(round, from, v).Some?
    ensures Kept(v, AsStacked(round, casts, from, ty, v)) <==>
            from == ty || Kept(v, casts.cell(from, ty, Fill(round, from, v).value))
  {
    FillExact(round, from, v);
  }

  /** Signed integers cast to unsigned ones as the engine does it: negative ones do not fit. */
  ghost predicate CastsIntegers(casts: Casts) {
    forall i :: casts.cell(Int64, UInt64, Integer(i)) == if i >= 0 then Some(UInteger(i)) else None
  }

  /** So of signed integers stacked beside unsigned ones, exactly the negative ones are lost, and become null. */
  lemma SignedBesideUnsigned(round: int -> real, casts: Casts, i: int)
    requires CastsIntegers(casts)
    ensures Kept(Integer(i), AsStacked(round, casts, Int64, UInt64, Integer(i))) <==> i >= 0
    ensures i < 0 ==> AsStacked(round, casts, Int64, UInt64, Integer(i)) == None
  {
    assert casts.cell(Int64, UInt64, Integer(i)) == if i >= 0 then Some(UInteger(i)) else None;
  }

  /** Signed integers cast to floats as the engine does it: rounded. */
  ghost predicate CastsToFloats(round: int -> real, casts: Casts) {
    forall i :: casts.cell(Int64, Float64, Integer(i)) == Some(Float(round(i)))
  }

  /** And of signed integers stacked beside floats, exactly those a float cannot hold are changed. */
  lemma SignedBesideFloats(round: int -> real, casts: Casts, i: int)
    requires CastsToFloats(round, casts)
    ensures Kept(Integer(i), AsStacked(round, casts, Int64, Float64, Integer(i))) <==> round(i) == i as real
  {
    assert casts.cell(Int64, Float64, Integer(i)) == Some(Float(round(i)));
  }

  /** What survives a column of type `from` and then a stack's column of type `ty`. */
  ghost predicate Survives(round: int -> real, casts: Casts, from: Type, ty: Type, v: FieldValue) {
    var cell := Fill(round, from, v);
    Fits(round, from, v) && (from == ty || (cell.Some? && Kept(v, casts.cell(from, ty, cell.value))))
  }

  lemma SurvivorKept(round: int -> real, casts: Casts, from: Type, ty: Type, v: FieldValue)
    requires Survives(round, casts, from, ty, v)
    ensures Kept(v, AsStacked(round, casts, from, ty, v))
  {
    StackedExact(round, casts, from, ty, v);
  }

  /**
   So a signed integer survives any stack of numbers exactly when the type its column
   comes to would have taken it as it is.
   */
  lemma SignedSurvives(round: int -> real, casts: Casts, ty: Type, i: int)
    requires CastsIntegers(casts) && CastsToFloats(round, casts) && (ty.Int64? || ty.UInt64? || ty.Float64?)
    ensures Survives(round, casts, Int64, ty, Integer(i)) <==> Fits(round, ty, Integer(i))
  {
    SignedBesideUnsigned(round, casts, i);
    SignedBesideFloats(round, casts, i);
  }
}
