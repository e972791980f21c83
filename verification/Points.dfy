/** The server's points: one measurement, its tags, its fields and a timestamp. */
module Points {
  import opened Wrappers

  datatype FieldValue =
    | Float(f: real)
    | Integer(i: int)
    | UInteger(u: nat)
    | Text(s: string)
    | Boolean(b: bool)

  datatype Point = Point(
    measurement: string,
    tags: map<string, string>,
    fields: map<string, FieldValue>,
    timestamp: int)

  /** A series-instant: the rows of one measurement that share it are one logical point. */
  datatype Instant = Instant(timestamp: int, tags: map<string, string>)

  function InstantOf(p: Point): Instant {
    Instant(p.timestamp, p.tags)
  }

  /** Row `r` is of the measurement and series-instant of point `p`. */
  predicate SameInstant(r: Point, p: Point) {
    r.measurement == p.measurement && InstantOf(r) == InstantOf(p)
  }

  predicate HasValue(p: Point, field: string, value: FieldValue) {
    field in p.fields && p.fields[field] == value
  }

  function Number(v: FieldValue): (r: real)
    requires v.Float? || v.Integer? || v.UInteger?
  {
    match v case Float(f) => f case Integer(i) => i as real case UInteger(u) => u as real
  }

  predicate IsNumber(v: FieldValue) {
    v.Float? || v.Integer? || v.UInteger?
  }

  /** The same value, whichever numeric type it is held in. */
  predicate SameValue(a: FieldValue, b: FieldValue) {
    a == b || (IsNumber(a) && IsNumber(b) && Number(a) == Number(b))
  }

  /** The cell holds the value. */
  predicate Kept(v: FieldValue, cell: Option<FieldValue>) {
    cell.Some? && SameValue(v, cell.value)
  }
}
