/**
 Lengths read as whole numbers whose first byte is by chance the marker of one: that
 byte is taken for the marker, and the length is made of the rest of them and of one
 byte of what follows.
 */
module MsgPackTags {
  import opened Bytes
  import opened MsgPack
  import opened MsgPackSkip
  import opened Wrappers

  ghost predicate IsWidth(width: nat) {
    width == 1 || width == 2 || width == 4
  }

  /** The first byte of the length is the marker of a number as wide. */
  ghost predicate LooksTagged(len: nat, width: nat)
    requires IsWidth(width)
  {
    BigEndian(len, width)[0] == TagOf(width)
  }

  /** The length taken instead, given the byte after the real one. */
  ghost function Misread(len: nat, width: nat, next: Byte): nat
    requires IsWidth(width)
  {
    FromBigEndian(BigEndian(len, width)[1..] + [next])
  }

  lemma TakesNext(len: nat, width: nat, rest: seq<Byte>)
    requires IsWidth(width) && LooksTagged(len, width)
    ensures ReadLength(Tagged, width, BigEndian(len, width) + rest) ==
            if |rest| == 0 then None else Some((Misread(len, width, rest[0]), rest[1..]))
  {
    var s := BigEndian(len, width) + rest;
    if |rest| > 0 {
      assert s[1..1 + width] == BigEndian(len, width)[1..] + [rest[0]] && s[1 + width..] == rest[1..];
    }
  }

  lemma AfterTag(b: Byte, len: seq<Byte>, data: seq<Byte>, suffix: seq<Byte>)
    ensures (([b] + (len + data)) + suffix)[1..] == len + (data + suffix)
  {
  }

  /**
   A string, blob or extension whose length looks tagged: as many bytes as misread are
   dropped, from the second on.
   */
  lemma BlobMisread(b: Byte, width: nat, extra: nat, len: nat, data: seq<Byte>, suffix: seq<Byte>)
    requires IsWidth(width) && ShapeOf(b) == Sized(width, extra) && LooksTagged(len, width) && |data| > 0
    ensures Skip(Tagged, ([b] + (BigEndian(len, width) + data)) + suffix)
         == Drop(data[1..] + suffix, SaturatingAdd(Misread(len, width, data[0]), extra))
  {
    AfterTag(b, BigEndian(len, width), data, suffix);
    TakesNext(len, width, data + suffix);
    assert (data + suffix)[1..] == data[1..] + suffix;
  }

  lemma DropExact(data: seq<Byte>, suffix: seq<Byte>, n: nat)
    ensures Drop(data + suffix, n) == Some(suffix) <==> n == |data|
  {
    if n == |data| {
      assert (data + suffix)[n..] == suffix;
    }
  }

  /** What follows the length of a string, blob or extension. */
  ghost function Payload(v: Value): seq<Byte>
    requires v.Str? || v.Bin? || v.Ext?
  {
    if v.Ext? then [v.kindByte] + v.data else v.data
  }

  ghost function Extra(v: Value): nat {
    if v.Ext? then 1 else 0
  }

  lemma EncodedBlob(v: Value)
    requires WellFormed(v) && (v.Str? || v.Bin? || v.Ext?) && v.form.Wide?
    ensures IsWidth(v.form.width) && ShapeOf(Marker(v)) == Sized(v.form.width, Extra(v))
    ensures Encode(v) == [Marker(v)] + (BigEndian(|v.data|, v.form.width) + Payload(v))
  {
  }

  /** So such a value is skipped exactly when what is misread is just what is left of it. */
  lemma MisreadExact(v: Value, suffix: seq<Byte>)
    requires WellFormed(v) && (v.Str? || v.Bin? || v.Ext?) && v.form.Wide? && LooksTagged(|v.data|, v.form.width)
    ensures |Payload(v)| > 0
    ensures Skip(Tagged, Encode(v) + suffix) == Some(suffix) <==>
            SaturatingAdd(Misread(|v.data|, v.form.width, Payload(v)[0]), Extra(v)) == |Payload(v)| - 1
  {
    LooksLong(|v.data|, v.form.width);
    EncodedBlob(v);
    BlobMisread(Marker(v), v.form.width, Extra(v), |v.data|, Payload(v), suffix);
    DropExact(Payload(v)[1..], suffix, SaturatingAdd(Misread(|v.data|, v.form.width, Payload(v)[0]), Extra(v)));
  }

  lemma {:induction false} ZeroBytes(width: nat)
    ensures forall i :: 0 <= i < width ==> BigEndian(0, width)[i] == 0
  {
    if width > 0 { ZeroBytes(width - 1); }
  }

  lemma LooksLong(len: nat, width: nat)
    requires IsWidth(width) && LooksTagged(len, width)
    ensures len > 0
  {
    ZeroBytes(width);
  }

  /** What skipping as many items as misread comes to, from the second byte on. */
  ghost function SkipMisread(len: nat, width: nat, per: nat, rest: seq<Byte>): Option<seq<Byte>>
    requires IsWidth(width)
  {
    if |rest| == 0 then None else SkipMany(Tagged, rest[1..], Misread(len, width, rest[0]) * per)
  }

  lemma ItemsMisread(b: Byte, width: nat, per: nat, len: nat, items: seq<Byte>, suffix: seq<Byte>)
    requires IsWidth(width) && ShapeOf(b) == SizedValues(width, per) && LooksTagged(len, width)
    ensures Skip(Tagged, ([b] + (BigEndian(len, width) + items)) + suffix) ==
            SkipMisread(len, width, per, items + suffix)
  {
    AfterTag(b, BigEndian(len, width), items, suffix);
    TakesNext(len, width, items + suffix);
  }

  /** An array or map whose length looks tagged has as many items skipped as are misread. */
  lemma GroupMisread(v: Value, suffix: seq<Byte>)
    requires WellFormed(v) && (v.Array? || v.Map?) && v.form.Wide?
    requires LooksTagged(if v.Map? then |v.items| / 2 else |v.items|, v.form.width)
    ensures Skip(Tagged, Encode(v) + suffix) ==
            if v.Map? then SkipMisread(|v.items| / 2, v.form.width, 2, EncodeAll(v.items) + suffix)
            else SkipMisread(|v.items|, v.form.width, 1, EncodeAll(v.items) + suffix)
  {
    match v
    case Array(form, items) => ItemsMisread(Marker(v), form.width, 1, |items|, EncodeAll(items), suffix);
    case Map(form, items) => ItemsMisread(Marker(v), form.width, 2, |items| / 2, EncodeAll(items), suffix);
  }

  /** The one such string of a single length byte: of 204 bytes, it is skipped exactly when its first byte is 203. */
  lemma String204(data: seq<Byte>, suffix: seq<Byte>)
    requires |data| == 204
    ensures Skip(Tagged, Encode(Str(Wide(1), data)) + suffix) == Some(suffix) <==> data[0] == 203
  {
    var v := Str(Wide(1), data);
    OneByteLength(204);
    MisreadExact(v, suffix);
    var next: seq<Byte> := [data[0]];
    assert BigEndian(204, 1)[1..] + next == next && next[..0] == [];
    assert FromBigEndian(next) == FromBigEndian(next[..0]) * 0x100 + data[0];
  }

  // ----------------------------------------------------------------------- every value at all

  /** A length as it is read before `rest`, and what is then left to skip. */
  ghost function LengthTaken(m: Lengths, len: nat, width: nat, rest: seq<Byte>): Option<(nat, seq<Byte>)>
    requires IsWidth(width)
  {
    if m.Bare? then Some((len, rest))
    else if !LooksTagged(len, width) || |rest| == 0 then None
    else Some((Misread(len, width, rest[0]), rest[1..]))
  }

  lemma LengthIs(m: Lengths, len: nat, width: nat, rest: seq<Byte>)
    requires IsWidth(width) && len < Room(width)
    ensures ReadLength(m, width, BigEndian(len, width) + rest) == LengthTaken(m, len, width, rest)
  {
    if m.Tagged? && LooksTagged(len, width) {
      TakesNext(len, width, rest);
    } else {
      LengthReads(m, len, width, rest);
    }
  }

  ghost function Count(v: Value): nat
    requires v.Array? || v.Map?
  {
    if v.Map? then |v.items| / 2 else |v.items|
  }

  ghost function Per(v: Value): nat {
    if v.Map? then 2 else 1
  }

  /**
   What skipping a value comes to, whatever its lengths and whatever follows it: a length
   outside its marker is read as it is, refused, or misread, and only past one misread
   are bytes skipped that need not be where a value begins.
   */
  ghost function Skipped(m: Lengths, v: Value, suffix: seq<Byte>): Option<seq<Byte>>
    requires WellFormed(v)
    decreases v, 1
  {
    if v.Str? || v.Bin? || v.Ext? then
      if v.form.Fix? then Some(suffix)
      else match LengthTaken(m, |v.data|, v.form.width, Payload(v) + suffix)
        case None => None
        case Some((n, rest)) => Drop(rest, SaturatingAdd(n, Extra(v)))
    else if v.Array? || v.Map? then
      if v.form.Fix? || m.Bare? then SkippedItems(m, v.items, suffix)
      else match LengthTaken(m, Count(v), v.form.width, EncodeAll(v.items) + suffix)
        case None => None
        case Some((n, rest)) => SkipMany(m, rest, n * Per(v))
    else Some(suffix)
  }

  ghost function SkippedItems(m: Lengths, items: seq<Value>, suffix: seq<Byte>): Option<seq<Byte>>
    requires AllWellFormed(items)
    decreases items, 0
  {
    if |items| == 0 then Some(suffix)
    else
      var next := EncodeAll(items[1..]) + suffix;
      match Skipped(m, items[0], next)
      case None => None
      case Some(rest) => if rest == next then SkippedItems(m, items[1..], suffix) else SkipMany(m, rest, |items| - 1)
  }

  lemma EncodedFixBlob(v: Value)
    requires WellFormed(v) && (v.Str? || v.Bin? || v.Ext?) && v.form.Fix?
    ensures ShapeOf(Marker(v)) == Plain(|Payload(v)|) && Encode(v) == [Marker(v)] + Payload(v)
  {
    assert [] + Payload(v) == Payload(v);
  }

  lemma SkipWideBlobIs(m: Lengths, b: Byte, width: nat, extra: nat, len: nat, data: seq<Byte>, suffix: seq<Byte>)
    requires IsWidth(width) && len < Room(width) && ShapeOf(b) == Sized(width, extra)
    ensures Skip(m, ([b] + (BigEndian(len, width) + data)) + suffix) ==
            match LengthTaken(m, len, width, data + suffix)
            case None => None
            case Some((n, rest)) => Drop(rest, SaturatingAdd(n, extra))
  {
    AfterTag(b, BigEndian(len, width), data, suffix);
    LengthIs(m, len, width, data + suffix);
  }

  lemma SkipBlobIs(m: Lengths, v: Value, suffix: seq<Byte>)
    requires WellFormed(v) && (v.Str? || v.Bin? || v.Ext?)
    ensures Skip(m, Encode(v) + suffix) == Skipped(m, v, suffix)
  {
    if v.form.Fix? {
      EncodedFixBlob(v);
      SkipBytesShape(m, Marker(v), Payload(v), suffix);
    } else {
      EncodedBlob(v);
      SkipWideBlobIs(m, Marker(v), v.form.width, Extra(v), |v.data|, Payload(v), suffix);
    }
  }

  lemma EncodedGroup(v: Value)
    requires WellFormed(v) && (v.Array? || v.Map?)
    ensures v.form.Wide? ==> IsWidth(v.form.width) && Count(v) < Room(v.form.width)
    ensures v.form.Wide? ==> ShapeOf(Marker(v)) == SizedValues(v.form.width, Per(v))
    ensures v.form.Fix? ==> ShapeOf(Marker(v)) == Values(Count(v), Per(v))
    ensures Encode(v) == [Marker(v)] + (LengthBytes(v.form, Count(v)) + EncodeAll(v.items))
    ensures Count(v) * Per(v) == |v.items|
  {
  }

  lemma SkipGroupIs(m: Lengths, v: Value, suffix: seq<Byte>)
    requires WellFormed(v) && (v.Array? || v.Map?)
    ensures Skip(m, Encode(v) + suffix) ==
            if v.form.Fix? || m.Bare? then SkipMany(m, EncodeAll(v.items) + suffix, |v.items|)
            else Skipped(m, v, suffix)
  {
    EncodedGroup(v);
    AfterTag(Marker(v), LengthBytes(v.form, Count(v)), EncodeAll(v.items), suffix);
    if v.form.Fix? {
      assert [] + (EncodeAll(v.items) + suffix) == EncodeAll(v.items) + suffix;
    } else {
      LengthIs(m, Count(v), v.form.width, EncodeAll(v.items) + suffix);
    }
  }

  /** Skipping any value of any format, in either reading, with nothing supposed of its lengths. */
  lemma {:induction false} SkipIs(m: Lengths, v: Value, suffix: seq<Byte>)
    requires WellFormed(v)
    ensures Skip(m, Encode(v) + suffix) == Skipped(m, v, suffix)
    decreases v, 1
  {
    if v.Str? || v.Bin? || v.Ext? {
      SkipBlobIs(m, v, suffix);
    } else if v.Array? || v.Map? {
      SkipGroupIs(m, v, suffix);
      if v.form.Fix? || m.Bare? {
        SkipItemsIs(m, v.items, suffix);
      }
    } else {
      SkipBytesValue(m, v, suffix);
    }
  }

  lemma {:induction false} SkipItemsIs(m: Lengths, items: seq<Value>, suffix: seq<Byte>)
    requires AllWellFormed(items)
    ensures SkipMany(m, EncodeAll(items) + suffix, |items|) == SkippedItems(m, items, suffix)
    decreases items, 0
  {
    if |items| == 0 {
      assert EncodeAll(items) + suffix == suffix;
    } else {
      var next := EncodeAll(items[1..]) + suffix;
      assert EncodeAll(items) + suffix == Encode(items[0]) + next;
      assert WellFormed(items[0]);
      SkipIs(m, items[0], next);
      SkipItemsIs(m, items[1..], suffix);
    }
  }
}
