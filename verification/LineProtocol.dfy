/** The client's line protocol printer. */
module LineProtocol {
  import opened Decimal
  import opened Wrappers

  /** A float is whether it is finite, and the text its debug format prints. */
  datatype FieldValue =
    | Float(finite: bool, text: string)
    | Integer(i: int)
    | UInteger(u: nat)
    | Boolean(b: bool)
    | Str(s: string)

  datatype Precision = Nanoseconds | Microseconds | Milliseconds | Seconds

  /** `At` counts nanoseconds since the epoch, before it when negative. */
  datatype Time = Raw(t: int) | At(nanos: int)

  datatype Tag = Tag(key: string, value: string)

  datatype Field = Field(key: string, value: FieldValue)

  /** Tags and fields in key order, as their maps iterate. */
  datatype Point = Point(measurement: string, tags: seq<Tag>, fields: seq<Field>, time: Option<Time>)

  datatype Error = NewlineInName(name: string) | IntegerOverflow(u: nat) | NewlineInString(s: string)

  const INT64_MAX: nat := 0x7FFF_FFFF_FFFF_FFFF

  function PerNanos(p: Precision): (n: int)
    ensures n > 0
  {
    match p
    case Nanoseconds => 1
    case Microseconds => 1_000
    case Milliseconds => 1_000_000
    case Seconds => 1_000_000_000
  }

  /** The debug format of a finite float: digits, a sign, a point, an exponent. */
  predicate FloatText(text: string) {
    && |text| > 0
    && forall i :: 0 <= i < |text| ==> IsDigit(text[i]) || text[i] in "-.e"
  }

  /** What is assumed of the float formatter. */
  ghost predicate Formatted(p: Point) {
    forall i :: 0 <= i < |p.fields| && p.fields[i].value.Float? && p.fields[i].value.finite ==>
      FloatText(p.fields[i].value.text)
  }

  predicate Clean(s: string) {
    '\n' !in s
  }

  // ------------------------------------------------------------------ what a line is made of

  /** A backslash before every backslash and every special character. */
  function Escaped(s: string, special: string): string {
    if |s| == 0 then ""
    else if s[0] == '\\' || s[0] in special then ['\\', s[0]] + Escaped(s[1..], special)
    else [s[0]] + Escaped(s[1..], special)
  }

  /** Every `c` replaced by `with`. */
  function Replaced(s: string, c: char, with: string): string {
    if |s| == 0 then "" else (if s[0] == c then with else [s[0]]) + Replaced(s[1..], c, with)
  }

  const NAMES := ",= "
  const MEASUREMENTS := ", "

  function ValueError(v: FieldValue): Option<Error> {
    match v
    case UInteger(u) => if u > INT64_MAX then Some(IntegerOverflow(u)) else None
    case Str(s) => if Clean(s) then None else Some(NewlineInString(s))
    case _ => None
  }

  predicate IsKept(v: FieldValue) {
    v.Float? ==> v.finite
  }

  function ValueText(v: FieldValue): string {
    match v
    case Float(_, text) => text
    case Integer(i) => IntText(i) + "i"
    case UInteger(u) => IntText(u) + "i"
    case Boolean(b) => if b then "true" else "false"
    case Str(s) => "\"" + Escaped(s, "\"") + "\""
  }

  function NameError(name: string): Option<Error> {
    if Clean(name) then None else Some(NewlineInName(name))
  }

  /** The first error met in printing one field, its value before its key. */
  function FieldError(f: Field): Option<Error> {
    if ValueError(f.value).Some? then ValueError(f.value)
    else if IsKept(f.value) then NameError(f.key)
    else None
  }

  function FieldsError(fields: seq<Field>): Option<Error> {
    if |fields| == 0 then None
    else
      var before := FieldsError(fields[..|fields| - 1]);
      if before.Some? then before else FieldError(fields[|fields| - 1])
  }

  function Kept(fields: seq<Field>): (kept: seq<Field>)
    ensures forall i :: 0 <= i < |kept| ==> IsKept(kept[i].value) && kept[i] in fields
  {
    if |fields| == 0 then []
    else
      var before := Kept(fields[..|fields| - 1]);
      if IsKept(fields[|fields| - 1].value) then before + [fields[|fields| - 1]] else before
  }

  function TagError(t: Tag): Option<Error> {
    if t.value == "" then None else if !Clean(t.key) then NameError(t.key) else NameError(t.value)
  }

  function TagsError(tags: seq<Tag>): Option<Error> {
    if |tags| == 0 then None
    else
      var before := TagsError(tags[..|tags| - 1]);
      if before.Some? then before else TagError(tags[|tags| - 1])
  }

  function NonEmpty(tags: seq<Tag>): seq<Tag> {
    if |tags| == 0 then []
    else
      var before := NonEmpty(tags[..|tags| - 1]);
      if tags[|tags| - 1].value == "" then before else before + [tags[|tags| - 1]]
  }

  function FieldText(f: Field): string {
    Escaped(f.key, NAMES) + ("=" + ValueText(f.value))
  }

  function FieldsText(fields: seq<Field>): string {
    if |fields| == 0 then ""
    else if |fields| == 1 then FieldText(fields[0])
    else FieldText(fields[0]) + ("," + FieldsText(fields[1..]))
  }

  function TagText(t: Tag): string {
    "," + (Escaped(t.key, NAMES) + ("=" + Escaped(t.value, NAMES)))
  }

  function TagsText(tags: seq<Tag>): string {
    if |tags| == 0 then "" else TagText(tags[0]) + TagsText(tags[1..])
  }

  /** The time in the precision's units, rounded down. */
  function TimeUnits(t: Time, precision: Precision): int {
    match t
    case Raw(n) => n
    case At(nanos) => nanos / PerNanos(precision)
  }

  function TimeText(time: Option<Time>, precision: Precision): string {
    match time
    case None => ""
    case Some(t) => " " + IntText(TimeUnits(t, precision))
  }

  /** The whole line, for the fields and tags that are written. */
  function LineText(p: Point, precision: Precision): string {
    Escaped(p.measurement, MEASUREMENTS)
    + (TagsText(NonEmpty(p.tags)) + (" " + (FieldsText(Kept(p.fields)) + TimeText(p.time, precision))))
  }

  /** The line, no line, or the first error met. */
  function Line(p: Point, precision: Precision): Result<Option<string>, Error> {
    if FieldsError(p.fields).Some? then Err(FieldsError(p.fields).value)
    else if Kept(p.fields) == [] then Ok(None)
    else if !Clean(p.measurement) then Err(NewlineInName(p.measurement))
    else if TagsError(p.tags).Some? then Err(TagsError(p.tags).value)
    else Ok(Some(LineText(p, precision)))
  }

  // ------------------------------------------------------------------------- the printer

  lemma {:induction false} EscapedSnoc(s: string, c: char, special: string)
    ensures Escaped(s + [c], special) == Escaped(s, special) + (if c == '\\' || c in special then ['\\', c] else [c])
  {
    if |s| == 0 {
      assert s + [c] == [c];
      assert [c][1..] == "";
    } else {
      assert (s + [c])[1..] == s[1..] + [c];
      EscapedSnoc(s[1..], c, special);
    }
  }

  /** `out` grows by the escaped name, unless the name holds a newline. */
  method Escape(out: string, s: string, special: string) returns (r: Result<string, Error>)
    ensures r == if Clean(s) then Ok(out + Escaped(s, special)) else Err(NewlineInName(s))
  {
    var grown := out;
    for i := 0 to |s|
      invariant Clean(s[..i]) && grown == out + Escaped(s[..i], special)
    {
      assert s[..i + 1] == s[..i] + [s[i]];
      if s[i] == '\n' {
        return Err(NewlineInName(s));
      }
      EscapedSnoc(s[..i], s[i], special);
      if s[i] == '\\' || s[i] in special {
        grown := grown + "\\";
      }
      grown := grown + [s[i]];
    }
    assert s[..|s|] == s;
    return Ok(grown);
  }

  /** Doubling backslashes and then escaping quotes is escaping once. */
  lemma {:induction false} QuotedOnce(s: string)
    ensures Replaced(Replaced(s, '\\', "\\\\"), '"', "\\\"") == Escaped(s, "\"")
  {
    if |s| > 0 {
      QuotedOnce(s[1..]);
      var rest := Replaced(s[1..], '\\', "\\\\");
      if s[0] == '\\' {
        assert Replaced(s, '\\', "\\\\") == ['\\'] + (['\\'] + rest);
        assert (['\\'] + rest)[1..] == rest;
        assert (['\\'] + (['\\'] + rest))[1..] == ['\\'] + rest;
      } else {
        assert ([s[0]] + rest)[1..] == rest;
      }
    }
  }

  method PrintValue(v: FieldValue) returns (r: Result<Option<string>, Error>)
    ensures ValueError(v).Some? ==> r == Err(ValueError(v).value)
    ensures ValueError(v).None? ==> r == Ok(if IsKept(v) then Some(ValueText(v)) else None)
  {
    match v
    case Float(finite, text) => r := Ok(if finite then Some(text) else None);
    case Integer(i) => r := Ok(Some(IntText(i) + "i"));
    case UInteger(u) => r := if u > INT64_MAX then Err(IntegerOverflow(u)) else Ok(Some(IntText(u) + "i"));
    case Boolean(b) => r := Ok(Some(if b then "true" else "false"));
    case Str(s) =>
      QuotedOnce(s);
      r := if '\n' in s then Err(NewlineInString(s))
           else Ok(Some("\"" + Replaced(Replaced(s, '\\', "\\\\"), '"', "\\\"") + "\""));
  }

  lemma {:induction false} FieldsSnoc(fields: seq<Field>, f: Field)
    ensures FieldsText(fields + [f]) ==
            if |fields| == 0 then FieldText(f) else FieldsText(fields) + ("," + FieldText(f))
  {
    if |fields| == 0 {
      assert fields + [f] == [f];
    } else {
      assert (fields + [f])[1..] == fields[1..] + [f];
      FieldsSnoc(fields[1..], f);
      if |fields| > 1 {
        assert FieldText(fields[0]) + ("," + (FieldsText(fields[1..]) + ("," + FieldText(f))))
            == (FieldText(fields[0]) + ("," + FieldsText(fields[1..]))) + ("," + FieldText(f));
      }
    }
  }

  lemma FieldsTextNonEmpty(fields: seq<Field>)
    ensures (FieldsText(fields) == "") == (fields == [])
  {
  }

  /** The text so far with one more field, after a comma unless it is the first. */
  function WithField(text: string, f: Field): string {
    if !IsKept(f.value) then text
    else if text == "" then FieldText(f)
    else text + ("," + FieldText(f))
  }

  method PrintField(text: string, f: Field) returns (r: Result<string, Error>)
    ensures r == match FieldError(f) case Some(e) => Err(e) case None => Ok(WithField(text, f))
  {
    var v := PrintValue(f.value);
    if v.Err? {
      return Err(v.error);
    }
    if v.value.None? {
      return Ok(text);
    }
    var k := Escape(if text == "" then "" else text + ",", f.key, NAMES);
    if k.Err? {
      return Err(k.error);
    }
    Joins(if text == "" then "" else text + ",", Escaped(f.key, NAMES), v.value.value);
    assert text != "" ==> (text + ",") + FieldText(f) == text + ("," + FieldText(f));
    assert text == "" ==> "" + FieldText(f) == FieldText(f);
    return Ok(k.value + "=" + v.value.value);
  }

  lemma Joins(start: string, key: string, value: string)
    ensures start + key + "=" + value == start + (key + ("=" + value))
  {
  }

  method PrintFields(fields: seq<Field>) returns (r: Result<string, Error>)
    ensures r == match FieldsError(fields) case Some(e) => Err(e) case None => Ok(FieldsText(Kept(fields)))
  {
    var text := "";
    for i := 0 to |fields|
      invariant FieldsError(fields[..i]).None? && text == FieldsText(Kept(fields[..i]))
    {
      assert fields[..i + 1][..i] == fields[..i];
      FieldsTextNonEmpty(Kept(fields[..i]));
      FieldsSnoc(Kept(fields[..i]), fields[i]);
      var next := PrintField(text, fields[i]);
      if next.Err? {
        ErrorsLast(fields, i);
        return Err(next.error);
      }
      text := next.value;
    }
    assert fields[..|fields|] == fields;
    return Ok(text);
  }

  /** The first error stays the first. */
  lemma {:induction false} ErrorsLast(fields: seq<Field>, i: nat)
    requires i < |fields| && FieldsError(fields[..i + 1]).Some?
    ensures FieldsError(fields) == FieldsError(fields[..i + 1])
    decreases |fields|
  {
    var n := |fields| - 1;
    if i < n {
      assert fields[..n][..i + 1] == fields[..i + 1];
      ErrorsLast(fields[..n], i);
    } else {
      assert fields[..i + 1] == fields;
    }
  }

  lemma {:induction false} TagErrorsLast(tags: seq<Tag>, i: nat)
    requires i < |tags| && TagsError(tags[..i + 1]).Some?
    ensures TagsError(tags) == TagsError(tags[..i + 1])
    decreases |tags|
  {
    var n := |tags| - 1;
    if i < n {
      assert tags[..n][..i + 1] == tags[..i + 1];
      TagErrorsLast(tags[..n], i);
    } else {
      assert tags[..i + 1] == tags;
    }
  }

  lemma {:induction false} TagsSnoc(tags: seq<Tag>, t: Tag)
    ensures TagsText(tags + [t]) == TagsText(tags) + TagText(t)
  {
    if |tags| == 0 {
      assert tags + [t] == [t];
      assert [t][1..] == [];
    } else {
      assert (tags + [t])[1..] == tags[1..] + [t];
      TagsSnoc(tags[1..], t);
    }
  }

  method PrintTag(line: string, t: Tag) returns (r: Result<string, Error>)
    ensures r == match TagError(t)
                 case Some(e) => Err(e)
                 case None => Ok(if t.value == "" then line else line + TagText(t))
  {
    if t.value == "" {
      return Ok(line);
    }
    var k := Escape(line + ",", t.key, NAMES);
    if k.Err? {
      return k;
    }
    var v := Escape(k.value + "=", t.value, NAMES);
    if v.Ok? {
      TagJoins(line, Escaped(t.key, NAMES), Escaped(t.value, NAMES));
    }
    return v;
  }

  lemma TagJoins(line: string, key: string, value: string)
    ensures line + "," + key + "=" + value == line + ("," + (key + ("=" + value)))
  {
  }

  method PrintTags(line: string, tags: seq<Tag>) returns (r: Result<string, Error>)
    ensures r == match TagsError(tags) case Some(e) => Err(e) case None => Ok(line + TagsText(NonEmpty(tags)))
  {
    var text := line;
    for i := 0 to |tags|
      invariant TagsError(tags[..i]).None? && text == line + TagsText(NonEmpty(tags[..i]))
    {
      assert tags[..i + 1][..i] == tags[..i];
      TagsSnoc(NonEmpty(tags[..i]), tags[i]);
      var next := PrintTag(text, tags[i]);
      if next.Err? {
        TagErrorsLast(tags, i);
        return next;
      }
      text := next.value;
    }
    assert tags[..|tags|] == tags;
    return Ok(text);
  }

  method ToLine(p: Point, precision: Precision) returns (r: Result<Option<string>, Error>)
    ensures r == Line(p, precision)
  {
    var fields := PrintFields(p.fields);
    if fields.Err? {
      return Err(fields.error);
    }
    FieldsTextNonEmpty(Kept(p.fields));
    if fields.value == "" {
      return Ok(None);
    }
    var line := Escape("", p.measurement, MEASUREMENTS);
    if line.Err? {
      return Err(line.error);
    }
    line := PrintTags(line.value, p.tags);
    if line.Err? {
      return Err(line.error);
    }
    var time := PrintTime(p.time, precision);
    Joined(Escaped(p.measurement, MEASUREMENTS), TagsText(NonEmpty(p.tags)), fields.value, time);
    return Ok(Some(line.value + " " + fields.value + time));
  }

  method PrintTime(time: Option<Time>, precision: Precision) returns (text: string)
    ensures text == TimeText(time, precision)
  {
    match time
    case None => text := "";
    case Some(Raw(t)) => text := " " + IntText(t);
    case Some(At(nanos)) => text := " " + IntText(nanos / PerNanos(precision));
  }

  lemma Joined(measurement: string, tags: string, fields: string, time: string)
    ensures ("" + measurement) + tags + " " + fields + time == measurement + (tags + (" " + (fields + time)))
  {
    assert "" + measurement == measurement;
  }

  // -------------------------------------------------------------------------- many points

  /** The lines of the points that have one, or the first error. */
  function Lines(points: seq<Point>, precision: Precision): Result<seq<string>, Error> {
    if |points| == 0 then Ok([])
    else
      match Lines(points[..|points| - 1], precision)
      case Err(e) => Err(e)
      case Ok(before) =>
        match Line(points[|points| - 1], precision)
        case Err(e) => Err(e)
        case Ok(line) => Ok(if line.Some? then before + [line.value] else before)
  }

  function Join(lines: seq<string>): string {
    if |lines| == 0 then ""
    else if |lines| == 1 then lines[0]
    else lines[0] + ("\n" + Join(lines[1..]))
  }

  lemma {:induction false} FirstErrorStays(points: seq<Point>, precision: Precision, i: nat)
    requires i <= |points| && Lines(points[..i], precision).Err?
    ensures Lines(points, precision) == Lines(points[..i], precision)
    decreases |points|
  {
    if i < |points| {
      var n := |points| - 1;
      assert points[..n][..i] == points[..i];
      FirstErrorStays(points[..n], precision, i);
    } else {
      assert points[..i] == points;
    }
  }

  method Encode(points: seq<Point>, precision: Precision) returns (r: Result<string, Error>)
    ensures r == match Lines(points, precision) case Err(e) => Err(e) case Ok(lines) => Ok(Join(lines))
  {
    var lines := [];
    for i := 0 to |points|
      invariant Lines(points[..i], precision) == Ok(lines)
    {
      assert points[..i + 1][..i] == points[..i];
      var line := ToLine(points[i], precision);
      if line.Err? {
        FirstErrorStays(points, precision, i + 1);
        return Err(line.error);
      }
      if line.value.Some? {
        lines := lines + [line.value.value];
      }
    }
    assert points[..|points|] == points;
    return Ok(Join(lines));
  }
}
