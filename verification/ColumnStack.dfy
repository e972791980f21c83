/**
 Stacking record batches by column name: the result has every column of any
 batch, each batch's cells under their own names, cast where batches disagree on a
 type and filled where a batch lacks a column. Which types can be cast, and what a
 cell becomes, is a parameter.
 */
module ColumnStack {
  import opened Points
  import opened Wrappers

  datatype Type = Int64 | UInt64 | UInt8 | Float64 | Utf8 | Dictionary(keys: string) | Other(name: string)

  datatype Field = Field(name: string, ty: Type, nullable: bool)

  type Column = seq<Option<FieldValue>>

  datatype Table = Table(fields: seq<Field>, columns: seq<Column>, rows: nat) {
    ghost predicate Valid() {
      && |columns| == |fields| && Distinct(fields)
      && forall c :: 0 <= c < |columns| ==> |columns[c]| == rows
    }
  }

  /** Columns of one length under distinct names. */
  type RecordBatch = t: Table | t.Valid() witness Table([], [], 0)

  /** Casting a column: whether it can be done at all, and what each cell becomes, null if it does not fit. */
  datatype Casts = Casts(can: (Type, Type) -> bool, cell: (Type, Type, FieldValue) -> Option<FieldValue>)

  datatype Missing = Null | EmptyString

  ghost predicate Distinct(fields: seq<Field>) {
    forall i, j :: 0 <= i < j < |fields| ==> fields[i].name != fields[j].name
  }

  // ---------------------------------------------------------------------- the columns

  predicate IsText(t: Type) {
    t.Utf8? || t.Dictionary?
  }

  function WiderType(a: Type, b: Type): Type {
    if a == b then a
    else if (a.Float64? && b.Int64?) || (a.Int64? && b.Float64?) then Float64
    else if (a.Int64? && b.UInt64?) || (a.UInt64? && b.Int64?) then UInt64
    else if IsText(a) && IsText(b) then Utf8
    else a
  }

  function IndexOf(fields: seq<Field>, name: string): (r: Option<nat>)
    ensures r.Some? ==> r.value < |fields| && fields[r.value].name == name
    ensures r.None? ==> forall i :: 0 <= i < |fields| ==> fields[i].name != name
  {
    if |fields| == 0 then None
    else
      var n := |fields| - 1;
      match IndexOf(fields[..n], name)
      case Some(i) => Some(i)
      case None => if fields[n].name == name then Some(n) else None
  }

  function WithField(fields: seq<Field>, f: Field): seq<Field> {
    match IndexOf(fields, f.name)
    case None => fields + [f]
    case Some(i) => fields[i := Field(f.name, WiderType(fields[i].ty, f.ty), fields[i].nullable || f.nullable)]
  }

  ghost function WithFields(fields: seq<Field>, more: seq<Field>): seq<Field> {
    if |more| == 0 then fields else WithField(WithFields(fields, more[..|more| - 1]), more[|more| - 1])
  }

  /** Every column of any batch, in order of first appearance. */
  ghost function Union(batches: seq<RecordBatch>): seq<Field> {
    if |batches| == 0 then [] else WithFields(Union(batches[..|batches| - 1]), batches[|batches| - 1].fields)
  }

  predicate Everywhere(batches: seq<RecordBatch>, name: string) {
    forall k :: 0 <= k < |batches| ==> IndexOf(batches[k].fields, name).Some?
  }

  function Filled(batches: seq<RecordBatch>, missing: Missing, f: Field): Field {
    if missing.Null? && !Everywhere(batches, f.name) then f.(nullable := true) else f
  }

  ghost function Schema(batches: seq<RecordBatch>, missing: Missing): (fields: seq<Field>)
    ensures |fields| == |Union(batches)|
    ensures forall c :: 0 <= c < |fields| ==> fields[c] == Filled(batches, missing, Union(batches)[c])
  {
    var union := Union(batches);
    seq(|union|, c requires 0 <= c < |union| => Filled(batches, missing, union[c]))
  }

  method MergeFields(fields: seq<Field>, more: seq<Field>) returns (merged: seq<Field>)
    ensures merged == WithFields(fields, more)
  {
    merged := fields;
    for j := 0 to |more|
      invariant merged == WithFields(fields, more[..j])
    {
      assert more[..j + 1][..j] == more[..j];
      var at := IndexOf(merged, more[j].name);
      if at.Some? {
        var i := at.value;
        merged := merged[i := Field(merged[i].name,
                                    WiderType(merged[i].ty, more[j].ty),
                                    merged[i].nullable || more[j].nullable)];
      } else {
        merged := merged + [more[j]];
      }
    }
    assert more[..|more|] == more;
  }

  method MarkNullable(batches: seq<RecordBatch>, missing: Missing, fields: seq<Field>) returns (marked: seq<Field>)
    ensures |marked| == |fields| && forall c :: 0 <= c < |fields| ==> marked[c] == Filled(batches, missing, fields[c])
  {
    marked := fields;
    for c := 0 to |fields|
      invariant |marked| == |fields|
      invariant forall i :: 0 <= i < c ==> marked[i] == Filled(batches, missing, fields[i])
      invariant forall i :: c <= i < |fields| ==> marked[i] == fields[i]
    {
      if missing.Null? && !Everywhere(batches, marked[c].name) {
        marked := marked[c := marked[c].(nullable := true)];
      }
    }
  }

  method MergedSchema(batches: seq<RecordBatch>, missing: Missing) returns (schema: seq<Field>)
    ensures schema == Schema(batches, missing)
  {
    var fields := [];
    for k := 0 to |batches|
      invariant fields == Union(batches[..k])
    {
      assert batches[..k + 1][..k] == batches[..k];
      fields := MergeFields(fields, batches[k].fields);
    }
    assert batches[..|batches|] == batches;
    schema := MarkNullable(batches, missing, fields);
  }

  // ------------------------------------------------------------------------ the cells

  function CastCell(casts: Casts, from: Type, ty: Type, cell: Option<FieldValue>): Option<FieldValue> {
    if cell.None? then None else casts.cell(from, ty, cell.value)
  }

  /** The cells of one batch under one column of the result. */
  ghost function ColumnFor(casts: Casts, b: RecordBatch, f: Field, missing: Missing): (r: Option<Column>)
    ensures r.Some? ==> |r.value| == b.rows
  {
    match IndexOf(b.fields, f.name)
    case Some(i) =>
      var from := b.fields[i].ty;
      if from == f.ty then Some(b.columns[i])
      else if !casts.can(from, f.ty) then None
      else Some(seq(b.rows, r requires 0 <= r < b.rows => CastCell(casts, from, f.ty, b.columns[i][r])))
    case None =>
      match missing
      case Null => Some(seq(b.rows, _ => None))
      case EmptyString =>
        if !casts.can(Utf8, f.ty) then None else Some(seq(b.rows, _ => casts.cell(Utf8, f.ty, Text(""))))
  }

  method CellsUnder(casts: Casts, b: RecordBatch, f: Field, missing: Missing) returns (r: Option<Column>)
    ensures r == ColumnFor(casts, b, f, missing)
  {
    var at := IndexOf(b.fields, f.name);
    if at.Some? && b.fields[at.value].ty == f.ty {
      return Some(b.columns[at.value]);
    }
    var from := if at.Some? then b.fields[at.value].ty else Utf8;
    if (at.Some? || missing.EmptyString?) && !casts.can(from, f.ty) {
      return None;
    }
    var cells: Column := [];
    for i := 0 to b.rows
      invariant |cells| == i
      invariant forall r :: 0 <= r < i ==> cells[r] == ColumnFor(casts, b, f, missing).value[r]
    {
      var cell := if at.Some? then b.columns[at.value][i] else if missing.Null? then None else Some(Text(""));
      cells := cells + [CastCell(casts, from, f.ty, cell)];
    }
    assert cells == ColumnFor(casts, b, f, missing).value;
    return Some(cells);
  }

  /** A column that is not nullable has no nulls. */
  predicate Accepts(f: Field, column: Column) {
    f.nullable || forall i :: 0 <= i < |column| ==> column[i].Some?
  }

  /** One batch under the first `n` columns of the result. */
  ghost function Aligned(casts: Casts, b: RecordBatch, schema: seq<Field>, missing: Missing,
                         n: nat): (r: Option<seq<Column>>)
    requires n <= |schema|
    ensures r.Some? ==> |r.value| == n
  {
    if n == 0 then Some([])
    else
      match Aligned(casts, b, schema, missing, n - 1)
      case None => None
      case Some(columns) =>
        match ColumnFor(casts, b, schema[n - 1], missing)
        case None => None
        case Some(column) => if Accepts(schema[n - 1], column) then Some(columns + [column]) else None
  }

  ghost function Joined(a: seq<Column>, b: seq<Column>): (r: seq<Column>)
    requires |a| == |b|
    ensures |r| == |a| && forall c :: 0 <= c < |a| ==> r[c] == a[c] + b[c]
  {
    seq(|a|, c requires 0 <= c < |a| => a[c] + b[c])
  }

  function RowsBefore(batches: seq<RecordBatch>, k: nat): nat
    requires k <= |batches|
  {
    if k == 0 then 0 else RowsBefore(batches, k - 1) + batches[k - 1].rows
  }

  /** The first `k` batches, one under the other. */
  ghost function Stacked(casts: Casts, batches: seq<RecordBatch>, schema: seq<Field>, missing: Missing,
                         k: nat): (r: Option<seq<Column>>)
    requires k <= |batches|
    ensures r.Some? ==> |r.value| == |schema|
  {
    if k == 0 then Some(seq(|schema|, _ => []))
    else
      match Stacked(casts, batches, schema, missing, k - 1)
      case None => None
      case Some(above) =>
        match Aligned(casts, batches[k - 1], schema, missing, |schema|)
        case None => None
        case Some(columns) => if |schema| == 0 then None else Some(Joined(above, columns))
  }

  ghost function Concat(casts: Casts, batches: seq<RecordBatch>, missing: Missing): Option<RecordBatch>
  {
    var schema := Schema(batches, missing);
    match Stacked(casts, batches, schema, missing, |batches|)
    case None => None
    case Some(columns) =>
      StackValid(casts, batches, missing, columns);
      Some(Table(schema, columns, RowsBefore(batches, |batches|)))
  }

  method AlignBatch(casts: Casts, b: RecordBatch, schema: seq<Field>, missing: Missing) returns (r: Option<seq<Column>>)
    ensures r == Aligned(casts, b, schema, missing, |schema|)
  {
    var columns: seq<Column> := [];
    for c := 0 to |schema|
      invariant Aligned(casts, b, schema, missing, c) == Some(columns)
    {
      var column := CellsUnder(casts, b, schema[c], missing);
      if column.None? || !Accepts(schema[c], column.value) {
        AlignFails(casts, b, schema, missing, c + 1);
        return None;
      }
      columns := columns + [column.value];
    }
    return Some(columns);
  }

  lemma {:induction false} AlignFails(casts: Casts, b: RecordBatch, schema: seq<Field>, missing: Missing, n: nat)
    requires n <= |schema| && Aligned(casts, b, schema, missing, n).None?
    ensures Aligned(casts, b, schema, missing, |schema|).None?
    decreases |schema| - n
  {
    if n < |schema| { AlignFails(casts, b, schema, missing, n + 1); }
  }

  method JoinColumns(a: seq<Column>, b: seq<Column>) returns (r: seq<Column>)
    requires |a| == |b|
    ensures r == Joined(a, b)
  {
    r := [];
    for c := 0 to |a|
      invariant |r| == c && forall i :: 0 <= i < c ==> r[i] == a[i] + b[i]
    {
      r := r + [a[c] + b[c]];
    }
  }

  lemma {:induction false} StackValid(casts: Casts, batches: seq<RecordBatch>, missing: Missing, columns: seq<Column>)
    requires Stacked(casts, batches, Schema(batches, missing), missing, |batches|) == Some(columns)
    ensures Table(Schema(batches, missing), columns, RowsBefore(batches, |batches|)).Valid()
  {
    var schema := Schema(batches, missing);
    SchemaTypes(batches, missing, "");
    forall c | 0 <= c < |columns| ensures |columns[c]| == RowsBefore(batches, |batches|) {
      StackedRows(casts, batches, schema, missing, |batches|, columns, c);
    }
  }

  method ConcatByName(casts: Casts, batches: seq<RecordBatch>, missing: Missing) returns (r: Option<RecordBatch>)
    ensures r == Concat(casts, batches, missing)
  {
    var schema := MergedSchema(batches, missing);
    var columns: seq<Column> := seq(|schema|, _ => []);
    var rows := 0;
    for k := 0 to |batches|
      invariant rows == RowsBefore(batches, k)
      invariant Stacked(casts, batches, schema, missing, k) == Some(columns)
    {
      var more := AlignBatch(casts, batches[k], schema, missing);
      if more.None? || |schema| == 0 {
        StackFails(casts, batches, schema, missing, k + 1);
        return None;
      }
      columns := JoinColumns(columns, more.value);
      rows := rows + batches[k].rows;
    }
    StackValid(casts, batches, missing, columns);
    return Some(Table(schema, columns, rows));
  }

  lemma {:induction false} StackFails(casts: Casts, batches: seq<RecordBatch>, schema: seq<Field>, missing: Missing,
                                      k: nat)
    requires k <= |batches| && Stacked(casts, batches, schema, missing, k).None?
    ensures Stacked(casts, batches, schema, missing, |batches|).None?
    decreases |batches| - k
  {
    if k < |batches| { StackFails(casts, batches, schema, missing, k + 1); }
  }

  // ----------------------------------------------------------------- which columns, of what type

  lemma {:induction false} IndexIs(fields: seq<Field>, c: nat)
    requires Distinct(fields) && c < |fields|
    ensures IndexOf(fields, fields[c].name) == Some(c)
  {
    var n := |fields| - 1;
    if c < n { IndexIs(fields[..n], c); }
  }

  /** Columns stay where they are, and names distinct. */
  ghost predicate Keeps(fields: seq<Field>, fields': seq<Field>) {
    && |fields| <= |fields'| && Distinct(fields')
    && forall i :: 0 <= i < |fields| ==> fields'[i].name == fields[i].name
  }

  lemma {:induction false} WithFieldKeeps(fields: seq<Field>, f: Field)
    requires Distinct(fields)
    ensures Keeps(fields, WithField(fields, f))
  {
  }

  /** The type of a column, if there is one. */
  ghost function TypeIn(fields: seq<Field>, name: string): Option<Type> {
    match IndexOf(fields, name) case None => None case Some(i) => Some(fields[i].ty)
  }

  /** A column met with one more type. */
  ghost function Met(known: Option<Type>, more: Option<Type>): Option<Type> {
    match more
    case None => known
    case Some(t) => if known.None? then more else Some(WiderType(known.value, t))
  }

  lemma {:induction false} WithFieldType(fields: seq<Field>, f: Field, name: string)
    requires Distinct(fields)
    ensures TypeIn(WithField(fields, f), name) ==
            if f.name == name then Met(TypeIn(fields, name), Some(f.ty)) else TypeIn(fields, name)
  {
    var fields' := WithField(fields, f);
    WithFieldKeeps(fields, f);
    if at: nat :| at < |fields'| && fields'[at].name == name {
      IndexIs(fields', at);
      if at < |fields| { IndexIs(fields, at); }
    }
  }

  lemma {:induction false} WithFieldsKeeps(fields: seq<Field>, more: seq<Field>)
    requires Distinct(fields)
    ensures Keeps(fields, WithFields(fields, more))
  {
    if |more| > 0 {
      var n := |more| - 1;
      WithFieldsKeeps(fields, more[..n]);
      WithFieldKeeps(WithFields(fields, more[..n]), more[n]);
    }
  }

  lemma {:induction false} TypeOfLast(fields: seq<Field>, name: string)
    requires Distinct(fields) && |fields| > 0
    ensures var n := |fields| - 1;
            && TypeIn(fields, name) ==
               (if fields[n].name == name then Some(fields[n].ty) else TypeIn(fields[..n], name))
            && (fields[n].name == name ==> TypeIn(fields[..n], name) == None)
  {
  }

  lemma {:induction false} WithFieldsType(fields: seq<Field>, more: seq<Field>, name: string)
    requires Distinct(fields) && Distinct(more)
    ensures TypeIn(WithFields(fields, more), name) == Met(TypeIn(fields, name), TypeIn(more, name))
  {
    if |more| > 0 {
      var n := |more| - 1;
      WithFieldsType(fields, more[..n], name);
      WithFieldsKeeps(fields, more[..n]);
      WithFieldType(WithFields(fields, more[..n]), more[n], name);
      TypeOfLast(more, name);
    }
  }

  /** The types batches give a column, in order. */
  ghost function TypesOf(batches: seq<RecordBatch>, name: string): seq<Type> {
    if |batches| == 0 then []
    else
      var before := TypesOf(batches[..|batches| - 1], name);
      match TypeIn(batches[|batches| - 1].fields, name) case None => before case Some(t) => before + [t]
  }

  ghost function Widest(types: seq<Type>): Option<Type> {
    if |types| == 0 then None else Met(Widest(types[..|types| - 1]), Some(types[|types| - 1]))
  }

  /** The result has a column exactly when some batch has, of the types met in order. */
  lemma {:induction false} UnionTypes(batches: seq<RecordBatch>, name: string)
    ensures Distinct(Union(batches)) && TypeIn(Union(batches), name) == Widest(TypesOf(batches, name))
  {
    if |batches| > 0 {
      var n := |batches| - 1;
      UnionTypes(batches[..n], name);
      WithFieldsKeeps(Union(batches[..n]), batches[n].fields);
      WithFieldsType(Union(batches[..n]), batches[n].fields, name);
      var before := TypesOf(batches[..n], name);
      if TypeIn(batches[n].fields, name).Some? {
        assert (before + [TypeIn(batches[n].fields, name).value])[..|before|] == before;
      }
    }
  }

  lemma {:induction false} SchemaTypes(batches: seq<RecordBatch>, missing: Missing, name: string)
    ensures Distinct(Schema(batches, missing))
    ensures TypeIn(Schema(batches, missing), name) == Widest(TypesOf(batches, name))
  {
    UnionTypes(batches, name);
    var schema, union := Schema(batches, missing), Union(batches);
    assert forall c :: 0 <= c < |schema| ==> schema[c].name == union[c].name && schema[c].ty == union[c].ty;
    if c: nat :| c < |schema| && schema[c].name == name {
      IndexIs(schema, c);
      IndexIs(union, c);
    }
  }

  ghost predicate Numeric(t: Type) {
    t.Int64? || t.UInt64? || t.Float64?
  }

  /** The first type that is not a signed integer, if any. */
  ghost function FirstWide(types: seq<Type>): Option<Type> {
    if |types| == 0 then None
    else
      var before := FirstWide(types[..|types| - 1]);
      if before.Some? then before else if types[|types| - 1].Int64? then None else Some(types[|types| - 1])
  }

  /**
   Numbers of several types: the column takes the first type that is not a signed
   integer. So order does not matter but where floats and unsigned integers meet.
   */
  lemma {:induction false} WidestNumber(types: seq<Type>)
    requires |types| > 0 && forall i :: 0 <= i < |types| ==> Numeric(types[i])
    ensures Widest(types) == if FirstWide(types).Some? then FirstWide(types) else Some(Int64)
  {
    var n := |types| - 1;
    if n > 0 {
      WidestNumber(types[..n]);
      assert types[..n][0] == types[0];
      FirstWideNumeric(types[..n]);
    }
  }

  lemma {:induction false} FirstWideNumeric(types: seq<Type>)
    requires forall i :: 0 <= i < |types| ==> Numeric(types[i])
    ensures FirstWide(types).Some? ==> FirstWide(types).value == UInt64 || FirstWide(types).value == Float64
  {
    if |types| > 0 { FirstWideNumeric(types[..|types| - 1]); }
  }

  lemma {:induction false} WidestSame(types: seq<Type>, t: Type)
    requires |types| > 0 && forall u :: u in types ==> u == t
    ensures Widest(types) == Some(t)
  {
    var n := |types| - 1;
    assert types[n] in types;
    if n > 0 {
      assert forall u :: u in types[..n] ==> u in types;
      WidestSame(types[..n], t);
    }
  }

  // -------------------------------------------------------------------- every cell in its place

  /** The cells are those of the whole from row `row` on. */
  ghost predicate SitsAt(whole: Column, part: Column, row: nat) {
    row + |part| <= |whole| && whole[row..row + |part|] == part
  }

  lemma {:induction false} StillSits(whole: Column, more: Column, part: Column, row: nat)
    requires SitsAt(whole, part, row)
    ensures SitsAt(whole + more, part, row)
  {
    assert (whole + more)[row..row + |part|] == whole[row..row + |part|];
  }

  lemma {:induction false} SitsBelow(above: Column, part: Column)
    ensures SitsAt(above + part, part, |above|)
  {
  }

  lemma {:induction false} AlignedAt(casts: Casts, b: RecordBatch, schema: seq<Field>, missing: Missing, n: nat,
                                     columns: seq<Column>, c: nat)
    requires c < n <= |schema| && Aligned(casts, b, schema, missing, n) == Some(columns)
    ensures ColumnFor(casts, b, schema[c], missing) == Some(columns[c]) && |columns[c]| == b.rows
  {
    if c < n - 1 {
      AlignedAt(casts, b, schema, missing, n - 1, columns[..n - 1], c);
    }
  }

  lemma {:induction false} StackedRows(casts: Casts, batches: seq<RecordBatch>, schema: seq<Field>, missing: Missing,
                                       k: nat, stack: seq<Column>, c: nat)
    requires k <= |batches| && Stacked(casts, batches, schema, missing, k) == Some(stack) && c < |schema|
    ensures |stack[c]| == RowsBefore(batches, k)
  {
    if k > 0 {
      StackedRows(casts, batches, schema, missing, k - 1, Stacked(casts, batches, schema, missing, k - 1).value, c);
      AlignedAt(casts, batches[k - 1], schema, missing, |schema|,
                Aligned(casts, batches[k - 1], schema, missing, |schema|).value, c);
    }
  }

  /** The last batch's cells are under those above it. */
  lemma {:induction false} OneBatchMore(casts: Casts, batches: seq<RecordBatch>, schema: seq<Field>, missing: Missing,
                                        k: nat, stack: seq<Column>, c: nat)
    returns (above: seq<Column>, column: Column)
    requires k < |batches| && Stacked(casts, batches, schema, missing, k + 1) == Some(stack) && c < |schema|
    ensures Stacked(casts, batches, schema, missing, k) == Some(above) && |above| == |stack| == |schema|
    ensures ColumnFor(casts, batches[k], schema[c], missing) == Some(column)
    ensures |above[c]| == RowsBefore(batches, k) && stack[c] == above[c] + column
  {
    above := Stacked(casts, batches, schema, missing, k).value;
    var columns := Aligned(casts, batches[k], schema, missing, |schema|).value;
    column := columns[c];
    AlignedAt(casts, batches[k], schema, missing, |schema|, columns, c);
    StackedRows(casts, batches, schema, missing, k, above, c);
  }

  lemma {:induction false} StackedAt(casts: Casts, batches: seq<RecordBatch>, schema: seq<Field>, missing: Missing,
                                     k: nat, stack: seq<Column>, b: nat, c: nat)
    returns (column: Column)
    requires b < k <= |batches| && Stacked(casts, batches, schema, missing, k) == Some(stack) && c < |schema|
    ensures ColumnFor(casts, batches[b], schema[c], missing) == Some(column) && |stack| == |schema|
    ensures SitsAt(stack[c], column, RowsBefore(batches, b))
  {
    var above, last := OneBatchMore(casts, batches, schema, missing, k - 1, stack, c);
    if b < k - 1 {
      column := StackedAt(casts, batches, schema, missing, k - 1, above, b, c);
      StillSits(above[c], last, column, RowsBefore(batches, b));
    } else {
      column := last;
      SitsBelow(above[c], last);
    }
  }

  // ----------------------------------------------------------------------- by name

  /** The cell of row `i` under a name, if there is one that is not null. */
  function CellAt(t: RecordBatch, i: nat, name: string): Option<FieldValue>
    requires i < t.rows
  {
    match IndexOf(t.fields, name)
    case None => None
    case Some(c) => t.columns[c][i]
  }

  /** What a cell of one type is in a column of another. */
  function CastTo(casts: Casts, from: Type, ty: Type, cell: Option<FieldValue>): Option<FieldValue> {
    if from == ty then cell else CastCell(casts, from, ty, cell)
  }

  /** The cell of one batch's row in the stack: its own, cast to the type the batches come to under that name. */
  ghost function StackedCell(casts: Casts, batches: seq<RecordBatch>, b: nat, i: nat, name: string): Option<FieldValue>
    requires b < |batches| && i < batches[b].rows
  {
    match TypeIn(batches[b].fields, name)
    case None => None
    case Some(from) =>
      TypeCounts(batches, name, b);
      WidestSome(TypesOf(batches, name));
      CastTo(casts, from, Widest(TypesOf(batches, name)).value, CellAt(batches[b], i, name))
  }

  lemma {:induction false} ColumnCell(casts: Casts, b: RecordBatch, f: Field, column: Column, i: nat)
    requires ColumnFor(casts, b, f, Null) == Some(column) && i < b.rows
    ensures column[i] == match TypeIn(b.fields, f.name)
                         case None => None
                         case Some(from) => CastTo(casts, from, f.ty, CellAt(b, i, f.name))
  {
  }

  lemma {:induction false} RowPlaced(casts: Casts, batches: seq<RecordBatch>, out: RecordBatch, b: nat, i: nat, c: nat)
    requires Concat(casts, batches, Null) == Some(out) && b < |batches| && i < batches[b].rows && c < |out.fields|
    ensures RowsBefore(batches, b) + i < out.rows
    ensures out.columns[c][RowsBefore(batches, b) + i] ==
            match TypeIn(batches[b].fields, out.fields[c].name)
            case None => None
            case Some(from) => CastTo(casts, from, out.fields[c].ty, CellAt(batches[b], i, out.fields[c].name))
  {
    var row := RowsBefore(batches, b);
    var column := StackedAt(casts, batches, out.fields, Null, |batches|, out.columns, b, c);
    ColumnCell(casts, batches[b], out.fields[c], column, i);
    assert out.columns[c][row..row + |column|][i] == column[i];
  }

  /** The stack is long enough for the rows of every batch. */
  lemma {:induction false} RowsFit(casts: Casts, batches: seq<RecordBatch>, out: RecordBatch, b: nat)
    requires Concat(casts, batches, Null) == Some(out) && b < |batches|
    ensures RowsBefore(batches, b) + batches[b].rows <= out.rows
  {
    RowsGrow(batches, b, |batches|);
  }

  lemma {:induction false} RowsGrow(batches: seq<RecordBatch>, b: nat, k: nat)
    requires b < k <= |batches|
    ensures RowsBefore(batches, b) + batches[b].rows <= RowsBefore(batches, k)
  {
    if b < k - 1 { RowsGrow(batches, b, k - 1); }
  }

  /**
   Stacking by name keeps every value under its own name: row `i` of batch `b` is row
   `RowsBefore(batches, b) + i` of the stack, with each of its cells under its name, cast
   to the type the column comes to if that is another, and null under every other name.
   */
  lemma {:induction false} StackKeepsRows(casts: Casts, batches: seq<RecordBatch>, out: RecordBatch, b: nat, i: nat,
                                          name: string)
    requires Concat(casts, batches, Null) == Some(out) && b < |batches| && i < batches[b].rows
    ensures RowsBefore(batches, b) + i < out.rows
    ensures CellAt(out, RowsBefore(batches, b) + i, name) == StackedCell(casts, batches, b, i, name)
  {
    RowsFit(casts, batches, out, b);
    SchemaTypes(batches, Null, name);
    WidestSome(TypesOf(batches, name));
    if IndexOf(out.fields, name).Some? {
      RowPlaced(casts, batches, out, b, i, IndexOf(out.fields, name).value);
    } else {
      NoTypeNoColumn(batches, name, b);
    }
  }

  lemma {:induction false} NoTypeNoColumn(batches: seq<RecordBatch>, name: string, b: nat)
    requires |TypesOf(batches, name)| == 0 && b < |batches|
    ensures TypeIn(batches[b].fields, name) == None
  {
    if TypeIn(batches[b].fields, name).Some? { TypeCounts(batches, name, b); }
  }

  lemma {:induction false} TypeCounts(batches: seq<RecordBatch>, name: string, b: nat)
    requires b < |batches| && TypeIn(batches[b].fields, name).Some?
    ensures TypeIn(batches[b].fields, name).value in TypesOf(batches, name)
  {
    var n := |batches| - 1;
    if b < n { TypeCounts(batches[..n], name, b); }
  }

  lemma {:induction false} WidestSome(types: seq<Type>)
    ensures Widest(types).Some? <==> |types| > 0
  {
  }

  /** A missing column is filled the same way, under the type it comes to. */
  lemma {:induction false} MissingFilled(casts: Casts, batches: seq<RecordBatch>, out: RecordBatch, b: nat, i: nat,
                                         c: nat)
    requires Concat(casts, batches, EmptyString) == Some(out) && b < |batches| && i < batches[b].rows
    requires c < |out.fields|
    requires TypeIn(batches[b].fields, out.fields[c].name) == None
    ensures RowsBefore(batches, b) + i < out.rows
    ensures out.columns[c][RowsBefore(batches, b) + i] == casts.cell(Utf8, out.fields[c].ty, Text(""))
  {
    var row := RowsBefore(batches, b);
    var column := StackedAt(casts, batches, out.fields, EmptyString, |batches|, out.columns, b, c);
    RowsGrow(batches, b, |batches|);
    assert out.columns[c][row..row + |column|][i] == column[i];
  }

  /** And nothing is dropped: each column of each batch is a column of the result. */
  lemma {:induction false} EveryColumnStacked(casts: Casts, batches: seq<RecordBatch>, missing: Missing,
                                              out: RecordBatch, b: nat, j: nat)
    requires Concat(casts, batches, missing) == Some(out) && b < |batches| && j < |batches[b].fields|
    ensures IndexOf(out.fields, batches[b].fields[j].name).Some?
  {
    var name := batches[b].fields[j].name;
    IndexIs(batches[b].fields, j);
    TypeCounts(batches, name, b);
    SchemaTypes(batches, missing, name);
    WidestSome(TypesOf(batches, name));
  }

  // ---------------------------------------------------------------- which values are kept

  /**
   A value is kept in the stack exactly when its column already has the type the
   column comes to, or the cast to that type gives the value back.
   */
  lemma {:induction false} CellKeptExactly(casts: Casts, batches: seq<RecordBatch>, out: RecordBatch, b: nat, i: nat,
                                           name: string, v: FieldValue)
    requires Concat(casts, batches, Null) == Some(out) && b < |batches| && i < batches[b].rows
    requires CellAt(batches[b], i, name) == Some(v)
    ensures RowsBefore(batches, b) + i < out.rows && TypeIn(batches[b].fields, name).Some?
    ensures Widest(TypesOf(batches, name)).Some?
    ensures var from, ty := TypeIn(batches[b].fields, name).value, Widest(TypesOf(batches, name)).value;
            Kept(v, CellAt(out, RowsBefore(batches, b) + i, name)) <==> from == ty || Kept(v, casts.cell(from, ty, v))
  {
    StackKeepsRows(casts, batches, out, b, i, name);
    StackedCellKept(casts, batches, b, i, name, v);
  }

  lemma {:induction false} StackedCellKept(casts: Casts, batches: seq<RecordBatch>, b: nat, i: nat, name: string,
                                           v: FieldValue)
    requires b < |batches| && i < batches[b].rows && CellAt(batches[b], i, name) == Some(v)
    ensures TypeIn(batches[b].fields, name).Some? && Widest(TypesOf(batches, name)).Some?
    ensures var from, ty := TypeIn(batches[b].fields, name).value, Widest(TypesOf(batches, name)).value;
            Kept(v, StackedCell(casts, batches, b, i, name)) <==> from == ty || Kept(v, casts.cell(from, ty, v))
  {
    TypeCounts(batches, name, b);
    WidestSome(TypesOf(batches, name));
  }

  /** A column on whose type the batches that have it agree loses and changes nothing. */
  lemma {:induction false} AgreedColumnUnchanged(casts: Casts, batches: seq<RecordBatch>, out: RecordBatch, b: nat,
                                                 i: nat, name: string, ty: Type)
    requires Concat(casts, batches, Null) == Some(out) && b < |batches| && i < batches[b].rows
    requires forall t :: t in TypesOf(batches, name) ==> t == ty
    ensures RowsBefore(batches, b) + i < out.rows
    ensures CellAt(out, RowsBefore(batches, b) + i, name) == CellAt(batches[b], i, name)
  {
    StackKeepsRows(casts, batches, out, b, i, name);
    if TypeIn(batches[b].fields, name).Some? {
      TypeCounts(batches, name, b);
      WidestSame(TypesOf(batches, name), ty);
    }
  }

  lemma {:induction false} TypesOfTwo(a: RecordBatch, b: RecordBatch, name: string, t: Type, u: Type)
    requires TypeIn(a.fields, name) == Some(t) && TypeIn(b.fields, name) == Some(u)
    ensures TypesOf([a, b], name) == [t, u]
  {
    assert [a][..0] == [] && TypesOf([], name) == [];
    assert TypesOf([a], name) == [t];
    assert [a, b][..1] == [a];
  }

  lemma {:induction false} WidestOfTwo(t: Type, u: Type)
    ensures Widest([t, u]) == Some(WiderType(t, u))
  {
    WidestSame([t], t);
    assert [t, u][..1] == [t];
  }

  // ------------------------------------------------------------------------- when it succeeds

  ghost predicate AllNullable(fields: seq<Field>) {
    forall i :: 0 <= i < |fields| ==> fields[i].nullable
  }

  lemma {:induction false} WithFieldsNullable(fields: seq<Field>, more: seq<Field>)
    requires AllNullable(fields) && AllNullable(more)
    ensures AllNullable(WithFields(fields, more))
  {
    if |more| > 0 { WithFieldsNullable(fields, more[..|more| - 1]); }
  }

  lemma {:induction false} UnionNullable(batches: seq<RecordBatch>)
    requires forall b :: 0 <= b < |batches| ==> AllNullable(batches[b].fields)
    ensures AllNullable(Union(batches))
  {
    if |batches| > 0 {
      var n := |batches| - 1;
      UnionNullable(batches[..n]);
      WithFieldsNullable(Union(batches[..n]), batches[n].fields);
    }
  }

  /** Every column of every batch can be cast to the type it comes to. */
  ghost predicate Castable(casts: Casts, batches: seq<RecordBatch>, name: string) {
    forall b :: 0 <= b < |batches| && TypeIn(batches[b].fields, name).Some? ==>
      var t := TypeIn(batches[b].fields, name);
      t == Widest(TypesOf(batches, name))
        || (Widest(TypesOf(batches, name)).Some? && casts.can(t.value, Widest(TypesOf(batches, name)).value))
  }

  lemma {:induction false} AlignsBatch(casts: Casts, batches: seq<RecordBatch>, b: nat, n: nat)
    requires b < |batches| && n <= |Schema(batches, Null)| && AllNullable(Schema(batches, Null))
    requires forall name :: Castable(casts, batches, name)
    ensures Aligned(casts, batches[b], Schema(batches, Null), Null, n).Some?
  {
    if n > 0 {
      AlignsBatch(casts, batches, b, n - 1);
      var f := Schema(batches, Null)[n - 1];
      SchemaTypes(batches, Null, f.name);
      IndexIs(Schema(batches, Null), n - 1);
      assert Castable(casts, batches, f.name);
    }
  }

  lemma {:induction false} StacksBatches(casts: Casts, batches: seq<RecordBatch>, k: nat)
    requires k <= |batches| && AllNullable(Schema(batches, Null)) && |Schema(batches, Null)| > 0
    requires forall name :: Castable(casts, batches, name)
    ensures Stacked(casts, batches, Schema(batches, Null), Null, k).Some?
  {
    if k > 0 {
      StacksBatches(casts, batches, k - 1);
      AlignsBatch(casts, batches, k - 1, |Schema(batches, Null)|);
    }
  }

  /** Nullable columns that can be cast to the type they come to always stack. */
  lemma {:induction false} NullableStacks(casts: Casts, batches: seq<RecordBatch>)
    requires |batches| > 0 && |batches[0].fields| > 0
    requires forall b :: 0 <= b < |batches| ==> AllNullable(batches[b].fields)
    requires forall name :: Castable(casts, batches, name)
    ensures Concat(casts, batches, Null).Some?
  {
    UnionNullable(batches);
    var name := batches[0].fields[0].name;
    IndexIs(batches[0].fields, 0);
    TypeCounts(batches, name, 0);
    WidestSome(TypesOf(batches, name));
    SchemaTypes(batches, Null, name);
    StacksBatches(casts, batches, |batches|);
  }
}
