/** Skipping undoes encoding. */
module MsgPackSkip {
  import opened Bytes
  import opened MsgPack
  import opened Wrappers

  // ---------------------------------------------------------------------------- lengths

  /** A bare length reads back; read as a number it is refused unless its first byte passes for the number's marker. */
  lemma LengthReads(m: Lengths, n: nat, width: nat, rest: seq<Byte>)
    requires (width == 1 || width == 2 || width == 4) && n < Room(width)
    requires m.Tagged? ==> BigEndian(n, width)[0] != TagOf(width)
    ensures ReadLength(m, width, BigEndian(n, width) + rest) == if m.Bare? then Some((n, rest)) else None
  {
    PowersOf256();
    BigEndianReads(n, width);
    var s := BigEndian(n, width) + rest;
    assert s[..width] == BigEndian(n, width) && s[width..] == rest;
  }

  // ------------------------------------------------------------------------- which values

  /** Every length is in its marker. */
  ghost predicate AllFix(v: Value) {
    match v
    case Str(form, _) => form.Fix?
    case Bin(form, _) => form.Fix?
    case Ext(form, _, _) => form.Fix?
    case Array(form, items) => form.Fix? && forall i :: 0 <= i < |items| ==> AllFix(items[i])
    case Map(form, items) => form.Fix? && forall i :: 0 <= i < |items| ==> AllFix(items[i])
    case _ => true
  }

  ghost predicate Skippable(m: Lengths, v: Value) {
    m.Bare? || AllFix(v)
  }

  ghost predicate AllSkippable(m: Lengths, items: seq<Value>) {
    forall i :: 0 <= i < |items| ==> Skippable(m, items[i])
  }

  /** The length is read and what follows it is skipped. */
  ghost predicate Opens(m: Lengths, form: Form) {
    m.Bare? || form.Fix?
  }

  /** Read as a number, the length's first byte is not by chance the marker of one as wide. */
  ghost predicate Plainly(m: Lengths, form: Form, len: nat) {
    m.Tagged? && form.Wide? && form.width > 0 ==> BigEndian(len, form.width)[0] != TagOf(form.width)
  }

  /**
   What is supposed of the lengths that skipping reaches: none is taken for a number
   by chance, and no extension has the one length whose sum with the type byte
   saturates. Nothing is supposed of what comes after a value that is refused.
   */
  ghost predicate LengthsReached(m: Lengths, v: Value)
    decreases v, 1
  {
    match v
    case Str(form, data) => Plainly(m, form, |data|)
    case Bin(form, data) => Plainly(m, form, |data|)
    case Ext(form, _, data) => Plainly(m, form, |data|) && (Opens(m, form) ==> |data| < UINT32_MAX)
    case Array(form, items) => Plainly(m, form, |items|) && (Opens(m, form) ==> AllLengthsReached(m, items))
    case Map(form, items) => Plainly(m, form, |items| / 2) && (Opens(m, form) ==> AllLengthsReached(m, items))
    case _ => true
  }

  ghost predicate AllLengthsReached(m: Lengths, items: seq<Value>)
    decreases items, 0
  {
    |items| == 0 || (LengthsReached(m, items[0]) && (Skippable(m, items[0]) ==> AllLengthsReached(m, items[1..])))
  }

  /** What the results below suppose of a value, by how lengths are read. */
  ghost predicate Supposed(m: Lengths, v: Value) {
    WellFormed(v) && LengthsReached(m, v)
  }

  // ------------------------------------------------------------------------- one shape each

  lemma SkipBytesShape(m: Lengths, b: Byte, data: seq<Byte>, suffix: seq<Byte>)
    requires ShapeOf(b) == Plain(|data|)
    ensures Skip(m, ([b] + data) + suffix) == Some(suffix)
  {
    var s := ([b] + data) + suffix;
    assert s[1..] == data + suffix;
    assert (data + suffix)[|data|..] == suffix;
  }

  lemma SkipSizedBytes(m: Lengths, b: Byte, width: nat, extra: nat, len: nat, data: seq<Byte>, suffix: seq<Byte>)
    requires ShapeOf(b) == Sized(width, extra) && (width == 1 || width == 2 || width == 4) && len < Room(width)
    requires m.Bare? ==> |data| == SaturatingAdd(len, extra)
    requires m.Tagged? ==> BigEndian(len, width)[0] != TagOf(width)
    ensures Skip(m, ([b] + (BigEndian(len, width) + data)) + suffix) == if m.Bare? then Some(suffix) else None
  {
    var s := ([b] + (BigEndian(len, width) + data)) + suffix;
    assert s[1..] == BigEndian(len, width) + (data + suffix);
    LengthReads(m, len, width, data + suffix);
    assert (data + suffix)[|data|..] == suffix;
  }

  lemma SkipValuesShape(m: Lengths, b: Byte, n: nat, per: nat, rest: seq<Byte>, suffix: seq<Byte>)
    requires ShapeOf(b) == Values(n, per)
    ensures Skip(m, ([b] + rest) + suffix) == SkipMany(m, rest + suffix, n * per)
  {
    assert (([b] + rest) + suffix)[1..] == rest + suffix;
  }

  lemma SkipSizedValues(m: Lengths, b: Byte, width: nat, per: nat, len: nat, rest: seq<Byte>, suffix: seq<Byte>)
    requires ShapeOf(b) == SizedValues(width, per) && (width == 2 || width == 4) && len < Room(width)
    requires m.Tagged? ==> BigEndian(len, width)[0] != TagOf(width)
    ensures Skip(m, ([b] + (BigEndian(len, width) + rest)) + suffix)
         == if m.Bare? then SkipMany(m, rest + suffix, len * per) else None
  {
    var s := ([b] + (BigEndian(len, width) + rest)) + suffix;
    assert s[1..] == BigEndian(len, width) + (rest + suffix);
    LengthReads(m, len, width, rest + suffix);
  }

  // --------------------------------------------------------------------------- every value

  /** A string, blob or extension, after its length. */
  lemma SkipBlob(m: Lengths, b: Byte, form: Form, extra: nat, len: nat, data: seq<Byte>, suffix: seq<Byte>)
    requires match form
             case Fix => ShapeOf(b) == Plain(|data|)
             case Wide(w) => (w == 1 || w == 2 || w == 4) && len < Room(w) && ShapeOf(b) == Sized(w, extra)
    requires |data| == len + extra && (Opens(m, form) ==> len + extra <= UINT32_MAX) && Plainly(m, form, len)
    ensures Skip(m, ([b] + (LengthBytes(form, len) + data)) + suffix) == if Opens(m, form) then Some(suffix) else None
  {
    match form
    case Fix =>
      assert [] + data == data;
      SkipBytesShape(m, b, data, suffix);
    case Wide(w) => SkipSizedBytes(m, b, w, extra, len, data, suffix);
  }

  lemma SkipBytesValue(m: Lengths, v: Value, suffix: seq<Byte>)
    requires Supposed(m, v) && !v.Array? && !v.Map?
    ensures Skip(m, Encode(v) + suffix) == if Skippable(m, v) then Some(suffix) else None
  {
    var b := Marker(v);
    if v.Str? || v.Bin? {
      SkipBlob(m, b, v.form, 0, |v.data|, v.data, suffix);
    } else if v.Ext? {
      SkipBlob(m, b, v.form, 1, |v.data|, [v.kindByte] + v.data, suffix);
    } else if v.Num? {
      SkipBytesShape(m, b, v.data, suffix);
    } else {
      SkipBytesShape(m, b, [], suffix);
    }
  }

  lemma SkipGroup(m: Lengths, b: Byte, form: Form, per: nat, len: nat, rest: seq<Byte>, suffix: seq<Byte>)
    requires match form
             case Fix => ShapeOf(b) == Values(len, per)
             case Wide(w) => (w == 2 || w == 4) && len < Room(w) && ShapeOf(b) == SizedValues(w, per)
    requires Plainly(m, form, len)
    ensures Skip(m, ([b] + (LengthBytes(form, len) + rest)) + suffix)
         == if Opens(m, form) then SkipMany(m, rest + suffix, len * per) else None
  {
    match form
    case Fix =>
      assert [] + rest == rest;
      SkipValuesShape(m, b, len, per, rest, suffix);
    case Wide(w) => SkipSizedValues(m, b, w, per, len, rest, suffix);
  }

  /** The marker and length of a group lead to skipping its items. */
  lemma SkipHeader(m: Lengths, v: Value, suffix: seq<Byte>)
    requires Supposed(m, v) && (v.Array? || v.Map?)
    ensures Skip(m, Encode(v) + suffix)
         == if Opens(m, v.form) then SkipMany(m, EncodeAll(v.items) + suffix, |v.items|) else None
  {
    match v
    case Array(form, items) => SkipGroup(m, Marker(v), form, 1, |items|, EncodeAll(items), suffix);
    case Map(form, items) => SkipGroup(m, Marker(v), form, 2, |items| / 2, EncodeAll(items), suffix);
  }

  /**
   Skipping undoes encoding, for every value and whatever follows it. With lengths
   read bare, every value is skipped exactly; with lengths read as numbers, exactly
   those whose lengths are all in their markers, and the others are refused.
   */
  lemma {:induction false} SkipUndoesEncode(m: Lengths, v: Value, suffix: seq<Byte>)
    requires Supposed(m, v)
    ensures Skip(m, Encode(v) + suffix) == if Skippable(m, v) then Some(suffix) else None
    decreases v, 1
  {
    if v.Array? || v.Map? {
      SkipHeader(m, v, suffix);
      if Opens(m, v.form) {
        SkipItems(m, v.items, suffix);
      }
    } else {
      SkipBytesValue(m, v, suffix);
    }
  }

  lemma {:induction false} SkipItems(m: Lengths, items: seq<Value>, suffix: seq<Byte>)
    requires AllWellFormed(items) && AllLengthsReached(m, items)
    ensures SkipMany(m, EncodeAll(items) + suffix, |items|) == if AllSkippable(m, items) then Some(suffix) else None
    decreases items, 0
  {
    if |items| == 0 {
      assert EncodeAll(items) + suffix == suffix;
    } else {
      var rest := EncodeAll(items[1..]) + suffix;
      assert EncodeAll(items) + suffix == Encode(items[0]) + rest;
      assert WellFormed(items[0]);
      SkipUndoesEncode(m, items[0], rest);
      if Skippable(m, items[0]) {
        SkipItems(m, items[1..], suffix);
      }
      assert AllSkippable(m, items) <==> Skippable(m, items[0]) && AllSkippable(m, items[1..]);
    }
  }

  lemma OneByteLength(n: nat)
    requires n < 0x100
    ensures BigEndian(n, 1) == [n]
  {
    assert BigEndian(n / 0x100, 0) == [];
  }

  /** So a string too long for its marker is skipped with bare lengths, and refused otherwise. */
  lemma LongStringRefused(data: seq<Byte>, suffix: seq<Byte>)
    requires 0x20 <= |data| < 0x100 && |data| != TagOf(1)
    ensures Skip(Bare, Encode(Str(Wide(1), data)) + suffix) == Some(suffix)
    ensures Skip(Tagged, Encode(Str(Wide(1), data)) + suffix) == None
  {
    var v := Str(Wide(1), data);
    OneByteLength(|data|);
    assert Supposed(Bare, v) && Supposed(Tagged, v) && !AllFix(v);
    SkipUndoesEncode(Bare, v, suffix);
    SkipUndoesEncode(Tagged, v, suffix);
  }

  /** The extension left out above: the saturated sum leaves its last byte behind. */
  lemma LongestExtFallsShort(k: Byte, data: seq<Byte>, suffix: seq<Byte>)
    requires |data| == UINT32_MAX
    ensures WellFormed(Ext(Wide(4), k, data))
    ensures Skip(Bare, Encode(Ext(Wide(4), k, data)) + suffix) == Some([data[|data| - 1]] + suffix)
  {
    var v := Ext(Wide(4), k, data);
    var n := |data| - 1;
    var b, len := Marker(v), BigEndian(|data|, 4);
    SkipSizedBytes(Bare, b, 4, 1, |data|, [k] + data[..n], [data[n]] + suffix);
    LeaveLast(b, len, k, data, suffix);
  }

  lemma LeaveLast(b: Byte, len: seq<Byte>, k: Byte, data: seq<Byte>, suffix: seq<Byte>)
    requires |data| > 0
    ensures var n := |data| - 1;
            ([b] + (len + ([k] + data))) + suffix == ([b] + (len + ([k] + data[..n]))) + ([data[n]] + suffix)
  {
  }
}
