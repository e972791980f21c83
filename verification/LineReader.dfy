/**
 A reader of line protocol, and the proof that it undoes the printer. It splits at
 delimiters that no backslash precedes, as InfluxDB line protocol is read, and is
 not part of the client.
 */
module LineReader {
  import opened Decimal
  import opened LineProtocol
  import opened Wrappers

  /** A field as a line can express it: unsigned integers are integers, floats their text. */
  datatype Value = FloatValue(text: string) | IntValue(i: int) | BoolValue(b: bool) | StrValue(s: string)

  datatype Pair<T> = Pair(key: string, value: T)

  datatype Parsed = Parsed(measurement: string, tags: seq<Tag>, fields: seq<Pair<Value>>, time: Option<int>)

  // -------------------------------------------------------------------------- the reader

  /** Up to the first stop no backslash precedes; a backslash takes the next character as it is. */
  function ReadName(s: string, stops: string): (r: (string, string))
    ensures |r.1| <= |s|
  {
    if |s| == 0 then ("", "")
    else if s[0] == '\\' && |s| > 1 then
      var (name, rest) := ReadName(s[2..], stops);
      ([s[1]] + name, rest)
    else if s[0] in stops then ("", s)
    else
      var (name, rest) := ReadName(s[1..], stops);
      ([s[0]] + name, rest)
  }

  function ParseInt(s: string): Option<int> {
    if |s| > 0 && AllDigits(s) then Some(ParseNat(s))
    else if |s| > 1 && s[0] == '-' && AllDigits(s[1..]) then
      var n: int := ParseNat(s[1..]);
      Some(-n)
    else None
  }

  /** The type of a bare value shows in its text. */
  function Classify(text: string): Option<Value> {
    if text == "true" then Some(BoolValue(true))
    else if text == "false" then Some(BoolValue(false))
    else if |text| > 0 && text[|text| - 1] == 'i' then
      match ParseInt(text[..|text| - 1]) case Some(i) => Some(IntValue(i)) case None => None
    else if FloatText(text) then Some(FloatValue(text))
    else None
  }

  function ReadValue(s: string): (r: Option<(Value, string)>)
    ensures r.Some? ==> |r.value.1| <= |s|
  {
    if |s| > 0 && s[0] == '"' then
      var (text, rest) := ReadName(s[1..], "\"");
      if |rest| > 0 then Some((StrValue(text), rest[1..])) else None
    else
      var (text, rest) := ReadName(s, ", ");
      match Classify(text) case Some(v) => Some((v, rest)) case None => None
  }

  function ReadTags(s: string): Option<(seq<Tag>, string)>
    decreases |s|
  {
    if |s| == 0 || s[0] != ',' then Some(([], s))
    else
      var (key, rest) := ReadName(s[1..], "=");
      if |rest| == 0 then None
      else
        var (value, rest') := ReadName(rest[1..], ", ");
        match ReadTags(rest')
        case None => None
        case Some((tags, end)) => Some(([Tag(key, value)] + tags, end))
  }

  /** The field at the front of `s`, and what follows it. */
  function ReadField(s: string): (r: Option<(Pair<Value>, string)>)
    ensures r.Some? ==> |r.value.1| < |s|
  {
    var (key, rest) := ReadName(s, "=");
    if |rest| == 0 then None
    else match ReadValue(rest[1..]) case None => None case Some((v, rest')) => Some((Pair(key, v), rest'))
  }

  function ReadFields(s: string): Option<(seq<Pair<Value>>, string)>
    decreases |s|
  {
    match ReadField(s)
    case None => None
    case Some((f, rest)) =>
      if |rest| == 0 || rest[0] != ',' then Some(([f], rest))
      else
        match ReadFields(rest[1..])
        case None => None
        case Some((more, end)) => Some(([f] + more, end))
  }

  function ReadTime(s: string): Option<Option<int>> {
    if s == "" then Some(None)
    else if s[0] != ' ' then None
    else match ParseInt(s[1..]) case Some(t) => Some(Some(t)) case None => None
  }

  function ReadLine(s: string): Option<Parsed> {
    var (measurement, rest) := ReadName(s, ", ");
    match ReadTags(rest)
    case None => None
    case Some((tags, rest')) =>
      if |rest'| == 0 || rest'[0] != ' ' then None
      else
        match ReadFields(rest'[1..])
        case None => None
        case Some((fields, end)) =>
          match ReadTime(end)
          case None => None
          case Some(time) => Some(Parsed(measurement, tags, fields, time))
  }

  // ------------------------------------------------------------------------ names and values

  lemma ReadTaken(c: char, tail: string, stops: string, name: string, rest: string)
    requires ReadName(tail, stops) == (name, rest)
    ensures ReadName(['\\', c] + tail, stops) == ([c] + name, rest)
  {
    assert (['\\', c] + tail)[2..] == tail;
  }

  lemma ReadChar(c: char, tail: string, stops: string, name: string, rest: string)
    requires ReadName(tail, stops) == (name, rest) && c != '\\' && c !in stops
    ensures ReadName([c] + tail, stops) == ([c] + name, rest)
  {
    assert ([c] + tail)[1..] == tail;
  }

  lemma EscapedFirst(s: string, special: string, rest: string)
    requires |s| > 0
    ensures Escaped(s, special) + rest
         == (if s[0] == '\\' || s[0] in special then ['\\', s[0]] else [s[0]]) + (Escaped(s[1..], special) + rest)
  {
  }

  /** Reading up to a stop undoes escaping, whatever follows the stop. */
  lemma {:induction false} ReadEscaped(s: string, special: string, stops: string, rest: string)
    requires '\\' !in stops && forall c :: c in stops ==> c in special
    requires rest == "" || rest[0] in stops
    ensures ReadName(Escaped(s, special) + rest, stops) == (s, rest)
  {
    if |s| == 0 {
      assert Escaped(s, special) + rest == rest;
    } else {
      ReadEscaped(s[1..], special, stops, rest);
      EscapedFirst(s, special, rest);
      assert [s[0]] + s[1..] == s;
      var tail := Escaped(s[1..], special) + rest;
      if s[0] == '\\' || s[0] in special {
        ReadTaken(s[0], tail, stops, s[1..], rest);
      } else {
        ReadChar(s[0], tail, stops, s[1..], rest);
      }
    }
  }

  /** Text without backslash or stop is read as it stands. */
  lemma {:induction false} ReadPlain(s: string, stops: string, rest: string)
    requires forall i :: 0 <= i < |s| ==> s[i] != '\\' && s[i] !in stops
    requires '\\' !in stops && (rest == "" || rest[0] in stops)
    ensures ReadName(s + rest, stops) == (s, rest)
  {
    if |s| == 0 {
      assert s + rest == rest;
    } else {
      ReadPlain(s[1..], stops, rest);
      assert [s[0]] + s[1..] == s;
      assert (s + rest)[1..] == s[1..] + rest;
    }
  }

  lemma ParseIntText(i: int)
    ensures ParseInt(IntText(i)) == Some(i)
  {
    if i < 0 {
      ParseDigits(-i);
      assert ("-" + Digits(-i))[1..] == Digits(-i);
    } else {
      ParseDigits(i);
    }
  }

  lemma IntTextPlain(i: int)
    ensures forall k :: 0 <= k < |IntText(i)| ==> IsDigit(IntText(i)[k]) || IntText(i)[k] == '-'
  {
  }

  /** The value a line keeps of a field's value. */
  function Recovered(v: FieldValue): Value {
    match v
    case Float(_, text) => FloatValue(text)
    case Integer(i) => IntValue(i)
    case UInteger(u) => IntValue(u)
    case Boolean(b) => BoolValue(b)
    case Str(s) => StrValue(s)
  }

  ghost predicate Printable(v: FieldValue) {
    IsKept(v) && ValueError(v).None? && (v.Float? ==> FloatText(v.text))
  }

  lemma ClassifyInt(i: int)
    ensures Classify(IntText(i) + "i") == Some(IntValue(i))
  {
    var text := IntText(i) + "i";
    ParseIntText(i);
    assert text[..|text| - 1] == IntText(i);
  }

  lemma ClassifyFloat(text: string)
    requires FloatText(text)
    ensures Classify(text) == Some(FloatValue(text))
  {
    assert IsDigit(text[0]) || text[0] in "-.e";
    assert IsDigit(text[|text| - 1]) || text[|text| - 1] in "-.e";
  }

  /** The end of a value: the line, a comma or a space. */
  ghost predicate Ends(rest: string) {
    rest == "" || rest[0] in ", "
  }

  lemma ReadBare(text: string, v: Value, rest: string)
    requires |text| > 0 && text[0] != '"' && Ends(rest) && Classify(text) == Some(v)
    requires forall i :: 0 <= i < |text| ==> text[i] != '\\' && text[i] !in ", "
    ensures ReadValue(text + rest) == Some((v, rest))
  {
    ReadPlain(text, ", ", rest);
  }

  lemma ReadQuoted(s: string, rest: string)
    ensures ReadValue(("\"" + Escaped(s, "\"") + "\"") + rest) == Some((StrValue(s), rest))
  {
    var whole := ("\"" + Escaped(s, "\"") + "\"") + rest;
    ReadEscaped(s, "\"", "\"", "\"" + rest);
    assert whole[1..] == Escaped(s, "\"") + ("\"" + rest);
    assert ("\"" + rest)[1..] == rest;
  }

  lemma ReadPrinted(v: FieldValue, rest: string)
    requires Printable(v) && Ends(rest)
    ensures ReadValue(ValueText(v) + rest) == Some((Recovered(v), rest))
  {
    match v
    case Float(_, text) =>
      ClassifyFloat(text);
      ReadBare(text, FloatValue(text), rest);
    case Integer(i) =>
      ClassifyInt(i);
      IntTextPlain(i);
      ReadBare(IntText(i) + "i", IntValue(i), rest);
    case UInteger(u) =>
      ClassifyInt(u);
      IntTextPlain(u);
      ReadBare(IntText(u) + "i", IntValue(u), rest);
    case Boolean(b) =>
      ReadBare(if b then "true" else "false", BoolValue(b), rest);
    case Str(s) =>
      ReadQuoted(s, rest);
  }

  // ------------------------------------------------------------------------- whole lines

  lemma {:induction false} ReadPrintedTags(tags: seq<Tag>, rest: string)
    requires forall i :: 0 <= i < |tags| ==> tags[i].value != ""
    requires |rest| > 0 && rest[0] == ' '
    ensures ReadTags(TagsText(tags) + rest) == Some((tags, rest))
  {
    if |tags| == 0 {
      assert TagsText(tags) + rest == rest;
    } else {
      ReadPrintedTags(tags[1..], rest);
      ReadTag(tags[0], TagsText(tags[1..]) + rest, tags[1..], rest);
      assert TagsText(tags) + rest == TagText(tags[0]) + (TagsText(tags[1..]) + rest);
      assert [tags[0]] + tags[1..] == tags;
    }
  }

  lemma ReadTagPieces(key: string, value: string, keyText: string, valueText: string, after: string, tags: seq<Tag>,
                      end: string)
    requires ReadName(keyText + ("=" + (valueText + after)), "=") == (key, "=" + (valueText + after))
    requires ReadName(valueText + after, ", ") == (value, after) && ReadTags(after) == Some((tags, end))
    ensures ReadTags("," + (keyText + ("=" + (valueText + after)))) == Some(([Tag(key, value)] + tags, end))
  {
    var text := keyText + ("=" + (valueText + after));
    assert ("," + text)[1..] == text;
    assert ("=" + (valueText + after))[1..] == valueText + after;
  }

  lemma ReadTag(t: Tag, after: string, tags: seq<Tag>, end: string)
    requires ReadTags(after) == Some((tags, end)) && |after| > 0 && after[0] in ", "
    ensures ReadTags(TagText(t) + after) == Some(([t] + tags, end))
  {
    var key, value := Escaped(t.key, NAMES), Escaped(t.value, NAMES);
    ReadEscaped(t.key, NAMES, "=", "=" + (value + after));
    ReadEscaped(t.value, NAMES, ", ", after);
    ReadTagPieces(t.key, t.value, key, value, after, tags, end);
    Regroup(key, value, after);
  }

  lemma Regroup(key: string, value: string, after: string)
    ensures ("," + (key + ("=" + value))) + after == "," + (key + ("=" + (value + after)))
    ensures (key + ("=" + value)) + after == key + ("=" + (value + after))
  {
  }

  function RecoveredFields(fields: seq<Field>): (pairs: seq<Pair<Value>>)
    ensures |pairs| == |fields|
    ensures forall i :: 0 <= i < |fields| ==> pairs[i] == Pair(fields[i].key, Recovered(fields[i].value))
  {
    seq(|fields|, i requires 0 <= i < |fields| => Pair(fields[i].key, Recovered(fields[i].value)))
  }

  /** The end of the fields: the line, or the space before the time. */
  ghost predicate EndsFields(rest: string) {
    rest == "" || rest[0] == ' '
  }

  lemma ReadPrintedField(f: Field, after: string)
    requires Printable(f.value) && Ends(after)
    ensures ReadField(FieldText(f) + after) == Some((Pair(f.key, Recovered(f.value)), after))
  {
    var value := ValueText(f.value) + after;
    Regroup(Escaped(f.key, NAMES), ValueText(f.value), after);
    ReadEscaped(f.key, NAMES, "=", "=" + value);
    assert ("=" + value)[1..] == value;
    ReadPrinted(f.value, after);
  }

  lemma ReadLastField(s: string, f: Pair<Value>, rest: string)
    requires ReadField(s) == Some((f, rest)) && EndsFields(rest)
    ensures ReadFields(s) == Some(([f], rest))
  {
  }

  lemma ReadOneMore(s: string, f: Pair<Value>, after: string, fields: seq<Pair<Value>>, rest: string)
    requires ReadField(s) == Some((f, "," + after)) && ReadFields(after) == Some((fields, rest))
    ensures ReadFields(s) == Some(([f] + fields, rest))
  {
    assert ("," + after)[1..] == after;
  }

  lemma CommaJoin(first: string, more: string, rest: string)
    ensures (first + ("," + more)) + rest == first + ("," + (more + rest))
  {
  }

  lemma FieldsSplit(fields: seq<Field>, rest: string)
    requires |fields| > 1
    ensures FieldsText(fields) + rest == FieldText(fields[0]) + ("," + (FieldsText(fields[1..]) + rest))
  {
    CommaJoin(FieldText(fields[0]), FieldsText(fields[1..]), rest);
  }

  lemma RecoveredSplit(fields: seq<Field>)
    requires |fields| > 0
    ensures RecoveredFields(fields) == [Pair(fields[0].key, Recovered(fields[0].value))] + RecoveredFields(fields[1..])
  {
  }

  lemma {:induction false} ReadPrintedFields(fields: seq<Field>, rest: string)
    requires |fields| > 0 && EndsFields(rest)
    requires forall i :: 0 <= i < |fields| ==> Printable(fields[i].value)
    ensures ReadFields(FieldsText(fields) + rest) == Some((RecoveredFields(fields), rest))
  {
    var f := Pair(fields[0].key, Recovered(fields[0].value));
    if |fields| == 1 {
      ReadPrintedField(fields[0], rest);
      ReadLastField(FieldText(fields[0]) + rest, f, rest);
      assert [f] == RecoveredFields(fields);
    } else {
      ReadPrintedFields(fields[1..], rest);
      FieldsSplit(fields, rest);
      RecoveredSplit(fields);
      var after := FieldsText(fields[1..]) + rest;
      assert Ends("," + after);
      ReadPrintedField(fields[0], "," + after);
      ReadOneMore(FieldText(fields[0]) + ("," + after), f, after, RecoveredFields(fields[1..]), rest);
    }
  }

  /** What the printed line of `p` says. */
  function Meaning(p: Point, precision: Precision): Parsed {
    Parsed(p.measurement, NonEmpty(p.tags), RecoveredFields(Kept(p.fields)),
           match p.time case None => None case Some(t) => Some(TimeUnits(t, precision)))
  }

  lemma ReadPrintedTime(time: Option<Time>, precision: Precision)
    ensures EndsFields(TimeText(time, precision))
    ensures ReadTime(TimeText(time, precision)) ==
            Some(match time case None => None case Some(t) => Some(TimeUnits(t, precision)))
  {
    if time.Some? {
      var text := IntText(TimeUnits(time.value, precision));
      ParseIntText(TimeUnits(time.value, precision));
      assert (" " + text)[1..] == text;
    }
  }

  lemma {:induction false} NonEmptyTags(tags: seq<Tag>)
    ensures forall i :: 0 <= i < |NonEmpty(tags)| ==> NonEmpty(tags)[i].value != ""
  {
    if |tags| > 0 {
      NonEmptyTags(tags[..|tags| - 1]);
    }
  }

  lemma {:induction false} NoFieldError(fields: seq<Field>, i: nat)
    requires FieldsError(fields).None? && i < |fields|
    ensures FieldError(fields[i]).None?
  {
    var n := |fields| - 1;
    if i < n {
      NoFieldError(fields[..n], i);
    }
  }

  lemma KeptPrintable(p: Point)
    requires FieldsError(p.fields).None? && Formatted(p)
    ensures forall i :: 0 <= i < |Kept(p.fields)| ==> Printable(Kept(p.fields)[i].value)
  {
    forall i | 0 <= i < |Kept(p.fields)| ensures Printable(Kept(p.fields)[i].value) {
      var k :| 0 <= k < |p.fields| && p.fields[k] == Kept(p.fields)[i];
      NoFieldError(p.fields, k);
    }
  }

  lemma ReadPieces(measurement: string, tags: string, fields: string, time: string,
                   ts: seq<Tag>, fs: seq<Pair<Value>>, t: Option<int>)
    requires ReadTags(tags + (" " + (fields + time))) == Some((ts, " " + (fields + time)))
    requires tags == "" || tags[0] == ','
    requires ReadFields(fields + time) == Some((fs, time)) && ReadTime(time) == Some(t)
    ensures ReadLine(Escaped(measurement, MEASUREMENTS) + (tags + (" " + (fields + time)))) ==
            Some(Parsed(measurement, ts, fs, t))
  {
    var body := " " + (fields + time);
    assert (tags + body)[0] in ", ";
    ReadEscaped(measurement, MEASUREMENTS, ", ", tags + body);
    assert body[1..] == fields + time;
  }

  /** Every line the printer emits reads back as the point it printed. */
  lemma LineReadsBack(p: Point, precision: Precision, line: string)
    requires Formatted(p) && Line(p, precision) == Ok(Some(line))
    ensures ReadLine(line) == Some(Meaning(p, precision))
  {
    var fields, time := Kept(p.fields), TimeText(p.time, precision);
    NonEmptyTags(p.tags);
    ReadPrintedTime(p.time, precision);
    ReadPrintedTags(NonEmpty(p.tags), " " + (FieldsText(fields) + time));
    KeptPrintable(p);
    ReadPrintedFields(fields, time);
    ReadPieces(p.measurement, TagsText(NonEmpty(p.tags)), FieldsText(fields), time,
               NonEmpty(p.tags), RecoveredFields(fields), Meaning(p, precision).time);
  }

  // -------------------------------------------------------------------------- many lines

  lemma {:induction false} EscapedClean(s: string, special: string)
    requires Clean(s)
    ensures Clean(Escaped(s, special))
  {
    if |s| > 0 {
      EscapedClean(s[1..], special);
    }
  }

  lemma IntTextClean(i: int)
    ensures Clean(IntText(i))
  {
    IntTextPlain(i);
  }

  lemma ValueTextClean(v: FieldValue)
    requires Printable(v)
    ensures Clean(ValueText(v))
  {
    match v
    case Float(_, text) =>
    case Integer(i) => IntTextClean(i);
    case UInteger(u) => IntTextClean(u);
    case Boolean(b) =>
    case Str(s) => EscapedClean(s, "\"");
  }

  lemma {:induction false} FieldsClean(fields: seq<Field>)
    requires forall i :: 0 <= i < |fields| ==> Printable(fields[i].value) && Clean(fields[i].key)
    ensures Clean(FieldsText(fields))
  {
    if |fields| > 0 {
      EscapedClean(fields[0].key, NAMES);
      ValueTextClean(fields[0].value);
      FieldsClean(fields[1..]);
    }
  }

  lemma {:induction false} TagsClean(tags: seq<Tag>)
    requires forall i :: 0 <= i < |tags| ==> Clean(tags[i].key) && Clean(tags[i].value)
    ensures Clean(TagsText(tags))
  {
    if |tags| > 0 {
      EscapedClean(tags[0].key, NAMES);
      EscapedClean(tags[0].value, NAMES);
      TagsClean(tags[1..]);
    }
  }

  lemma {:induction false} WrittenTagsClean(tags: seq<Tag>)
    requires TagsError(tags).None?
    ensures forall i :: 0 <= i < |NonEmpty(tags)| ==> Clean(NonEmpty(tags)[i].key) && Clean(NonEmpty(tags)[i].value)
  {
    if |tags| > 0 {
      WrittenTagsClean(tags[..|tags| - 1]);
    }
  }

  lemma KeptKeysClean(p: Point)
    requires FieldsError(p.fields).None?
    ensures forall i :: 0 <= i < |Kept(p.fields)| ==> Clean(Kept(p.fields)[i].key)
  {
    forall i | 0 <= i < |Kept(p.fields)| ensures Clean(Kept(p.fields)[i].key) {
      var k :| 0 <= k < |p.fields| && p.fields[k] == Kept(p.fields)[i];
      NoFieldError(p.fields, k);
    }
  }

  /** No line holds a newline or is empty, so lines can be told apart again. */
  lemma LineIsOneLine(p: Point, precision: Precision, line: string)
    requires Formatted(p) && Line(p, precision) == Ok(Some(line))
    ensures Clean(line) && line != ""
  {
    EscapedClean(p.measurement, MEASUREMENTS);
    WrittenTagsClean(p.tags);
    TagsClean(NonEmpty(p.tags));
    KeptPrintable(p);
    KeptKeysClean(p);
    FieldsClean(Kept(p.fields));
    if p.time.Some? {
      IntTextClean(TimeUnits(p.time.value, precision));
    }
  }

  function SplitLines(text: string): (lines: seq<string>)
    ensures |lines| > 0
  {
    if |text| == 0 then [""]
    else
      var rest := SplitLines(text[1..]);
      if text[0] == '\n' then [""] + rest else [[text[0]] + rest[0]] + rest[1..]
  }

  lemma {:induction false} SplitOne(line: string)
    requires Clean(line)
    ensures SplitLines(line) == [line]
  {
    if |line| > 0 {
      SplitOne(line[1..]);
      assert [line[0]] + line[1..] == line;
    }
  }

  lemma {:induction false} SplitFirst(line: string, rest: string)
    requires Clean(line)
    ensures SplitLines(line + ("\n" + rest)) == [line] + SplitLines(rest)
  {
    if |line| == 0 {
      assert line + ("\n" + rest) == "\n" + rest;
      assert ("\n" + rest)[1..] == rest;
    } else {
      SplitFirst(line[1..], rest);
      assert (line + ("\n" + rest))[1..] == line[1..] + ("\n" + rest);
      assert [line[0]] + line[1..] == line;
    }
  }

  lemma {:induction false} SplitJoined(lines: seq<string>)
    requires |lines| > 0 && forall i :: 0 <= i < |lines| ==> Clean(lines[i])
    ensures SplitLines(Join(lines)) == lines
  {
    if |lines| == 1 {
      SplitOne(lines[0]);
    } else {
      SplitJoined(lines[1..]);
      SplitFirst(lines[0], Join(lines[1..]));
    }
  }

  /** Every line of a body, read. */
  function ReadBody(text: string): seq<Option<Parsed>> {
    if text == "" then [] else ReadLines(SplitLines(text))
  }

  function ReadLines(lines: seq<string>): seq<Option<Parsed>> {
    if |lines| == 0 then [] else ReadLines(lines[..|lines| - 1]) + [ReadLine(lines[|lines| - 1])]
  }

  /** What the points that have a line say, in order. */
  function Meanings(points: seq<Point>, precision: Precision): seq<Option<Parsed>> {
    if |points| == 0 then []
    else
      var before := Meanings(points[..|points| - 1], precision);
      var p := points[|points| - 1];
      if Kept(p.fields) == [] then before else before + [Some(Meaning(p, precision))]
  }

  /** All that the lemmas below need of a line. */
  lemma LineFacts(p: Point, precision: Precision)
    requires Formatted(p) && Line(p, precision).Ok?
    ensures Line(p, precision).value.None? <==> Kept(p.fields) == []
    ensures Line(p, precision).value.Some? ==>
      var line := Line(p, precision).value.value;
      ReadLine(line) == Some(Meaning(p, precision)) && Clean(line) && line != ""
  {
    if Line(p, precision).value.Some? {
      var line := Line(p, precision).value.value;
      LineReadsBack(p, precision, line);
      LineIsOneLine(p, precision, line);
    }
  }

  lemma ReadLinesSnoc(lines: seq<string>, line: string)
    ensures ReadLines(lines + [line]) == ReadLines(lines) + [ReadLine(line)]
  {
    assert (lines + [line])[..|lines|] == lines;
  }

  /** Line by line, with the line of each point given. */
  lemma ReadOneMoreLine(before: seq<string>, line: Option<string>, read: seq<Option<Parsed>>, m: Parsed,
                        lines: seq<string>, kept: bool)
    requires ReadLines(before) == read && lines == (if line.Some? then before + [line.value] else before)
    requires kept == line.Some? && (line.Some? ==> ReadLine(line.value) == Some(m))
    ensures ReadLines(lines) == if kept then read + [Some(m)] else read
  {
    if line.Some? {
      ReadLinesSnoc(before, line.value);
    }
  }

  lemma {:induction false} LinesReadBack(points: seq<Point>, precision: Precision, lines: seq<string>)
    requires (forall i :: 0 <= i < |points| ==> Formatted(points[i])) && Lines(points, precision) == Ok(lines)
    ensures ReadLines(lines) == Meanings(points, precision)
    decreases |points|
  {
    if |points| > 0 {
      var n := |points| - 1;
      var before := Lines(points[..n], precision).value;
      LinesReadBack(points[..n], precision, before);
      LineFacts(points[n], precision);
      ReadOneMoreLine(before, Line(points[n], precision).value, Meanings(points[..n], precision),
                      Meaning(points[n], precision), lines, Kept(points[n].fields) != []);
    }
  }

  lemma {:induction false} LinesClean(points: seq<Point>, precision: Precision, lines: seq<string>)
    requires (forall i :: 0 <= i < |points| ==> Formatted(points[i])) && Lines(points, precision) == Ok(lines)
    ensures forall i :: 0 <= i < |lines| ==> Clean(lines[i]) && lines[i] != ""
    decreases |points|
  {
    if |points| > 0 {
      var n := |points| - 1;
      LinesClean(points[..n], precision, Lines(points[..n], precision).value);
      LineFacts(points[n], precision);
    }
  }

  /** A whole body reads back as the points that had a field to write, in order. */
  lemma EncodeReadsBack(points: seq<Point>, precision: Precision, lines: seq<string>)
    requires (forall i :: 0 <= i < |points| ==> Formatted(points[i])) && Lines(points, precision) == Ok(lines)
    ensures ReadBody(Join(lines)) == Meanings(points, precision)
  {
    LinesReadBack(points, precision, lines);
    LinesClean(points, precision, lines);
    if |lines| > 0 {
      SplitJoined(lines);
    }
  }
}
