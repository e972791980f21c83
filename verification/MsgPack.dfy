/**
 The MessagePack skipper that guards sizes before a body is decoded, against the
 formats of the MessagePack specification.
 */
module MsgPack {
  import opened Bytes
  import opened Wrappers

  const UINT32_MAX: nat := 0xFFFF_FFFF

  /**
   How a length after a wide marker is read. The formats put it there bare; the
   decoder's `read_u8`, `read_u16` and `read_u32` read a whole MessagePack number,
   that is its own marker first.
   */
  datatype Lengths = Bare | Tagged

  // ------------------------------------------------------------------------ the formats

  datatype Number = U8 | U16 | U32 | U64 | I8 | I16 | I32 | I64 | F32 | F64

  /** How a length is written: in the marker, or in 1, 2 or 4 bytes after it. */
  datatype Form = Fix | Wide(width: nat)

  /** A value together with the format it is written in. A map lists each key before its value. */
  datatype Value =
    | Nil
    | Bool(b: bool)
    | PosFix(n: nat)
    | NegFix(n: nat)
    | Num(kind: Number, data: seq<Byte>)
    | Str(form: Form, data: seq<Byte>)
    | Bin(form: Form, data: seq<Byte>)
    | Ext(form: Form, kindByte: Byte, data: seq<Byte>)
    | Array(form: Form, items: seq<Value>)
    | Map(form: Form, items: seq<Value>)

  function NumberWidth(k: Number): nat {
    match k
    case U8 => 1 case I8 => 1
    case U16 => 2 case I16 => 2
    case U32 => 4 case I32 => 4 case F32 => 4
    case U64 => 8 case I64 => 8 case F64 => 8
  }

  /** One past the largest length `width` bytes can hold. */
  function Room(width: nat): nat {
    if width == 1 then 0x100 else if width == 2 then 0x1_0000 else 0x1_0000_0000
  }

  /** Whether a length fits the form: `inMarker` says it fits the marker, `oneByte` that a one-byte form exists. */
  ghost predicate Fits(form: Form, inMarker: bool, oneByte: bool, len: nat) {
    match form
    case Fix => inMarker
    case Wide(w) => ((w == 1 && oneByte) || w == 2 || w == 4) && len < Room(w)
  }

  ghost predicate WellFormed(v: Value) {
    match v
    case Nil => true
    case Bool(_) => true
    case PosFix(n) => n < 0x80
    case NegFix(n) => 1 <= n <= 0x20
    case Num(k, data) => |data| == NumberWidth(k)
    case Str(form, data) => Fits(form, |data| < 0x20, true, |data|)
    case Bin(form, data) => Fits(form, false, true, |data|)
    case Ext(form, _, data) => Fits(form, |data| in {1, 2, 4, 8, 16}, true, |data|)
    case Array(form, items) => Fits(form, |items| < 0x10, false, |items|) && AllWellFormed(items)
    case Map(form, items) =>
      |items| % 2 == 0 && Fits(form, |items| / 2 < 0x10, false, |items| / 2) && AllWellFormed(items)
  }

  ghost predicate AllWellFormed(items: seq<Value>) {
    forall i :: 0 <= i < |items| ==> WellFormed(items[i])
  }

  function NumberMarker(k: Number): Byte {
    match k
    case F32 => 0xCA case F64 => 0xCB
    case U8 => 0xCC case U16 => 0xCD case U32 => 0xCE case U64 => 0xCF
    case I8 => 0xD0 case I16 => 0xD1 case I32 => 0xD2 case I64 => 0xD3
  }

  /** Of the markers of one family, that for a width. */
  function ByWidth(w: nat, one: Byte, two: Byte, four: Byte): Byte {
    if w == 1 then one else if w == 2 then two else four
  }

  ghost function Marker(v: Value): Byte
    requires WellFormed(v)
  {
    match v
    case Nil => 0xC0
    case Bool(b) => if b then 0xC3 else 0xC2
    case PosFix(n) => n
    case NegFix(n) => 0x100 - n
    case Num(k, _) => NumberMarker(k)
    case Str(form, data) => (match form case Fix => 0xA0 + |data| case Wide(w) => ByWidth(w, 0xD9, 0xDA, 0xDB))
    case Bin(form, data) => (match form case Fix => 0xC0 case Wide(w) => ByWidth(w, 0xC4, 0xC5, 0xC6))
    case Ext(form, _, data) =>
      (match form
       case Fix => (match |data| case 1 => 0xD4 case 2 => 0xD5 case 4 => 0xD6 case 8 => 0xD7 case _ => 0xD8)
       case Wide(w) => ByWidth(w, 0xC7, 0xC8, 0xC9))
    case Array(form, items) => (match form case Fix => 0x90 + |items| case Wide(w) => ByWidth(w, 0xDC, 0xDC, 0xDD))
    case Map(form, items) => (match form case Fix => 0x80 + |items| / 2 case Wide(w) => ByWidth(w, 0xDE, 0xDE, 0xDF))
  }

  ghost function LengthBytes(form: Form, len: nat): seq<Byte> {
    match form case Fix => [] case Wide(w) => BigEndian(len, w)
  }

  /** Everything after the marker. */
  ghost function Body(v: Value): seq<Byte>
    requires WellFormed(v)
    decreases v, 0
  {
    match v
    case Num(_, data) => data
    case Str(form, data) => LengthBytes(form, |data|) + data
    case Bin(form, data) => LengthBytes(form, |data|) + data
    case Ext(form, k, data) => LengthBytes(form, |data|) + ([k] + data)
    case Array(form, items) => LengthBytes(form, |items|) + EncodeAll(items)
    case Map(form, items) => LengthBytes(form, |items| / 2) + EncodeAll(items)
    case _ => []
  }

  ghost function Encode(v: Value): seq<Byte>
    requires WellFormed(v)
    decreases v, 1
  {
    [Marker(v)] + Body(v)
  }

  ghost function EncodeAll(items: seq<Value>): seq<Byte>
    requires AllWellFormed(items)
    decreases items
  {
    if |items| == 0 then [] else Encode(items[0]) + EncodeAll(items[1..])
  }

  // ------------------------------------------------------------------------ the skipper

  /** What a marker says follows it. */
  datatype Shape =
    | Plain(n: nat)
    | Sized(width: nat, extra: nat)
    | Values(n: nat, per: nat)
    | SizedValues(width: nat, per: nat)
    | Reserved

  function ShapeOf(b: Byte): Shape {
    if b < 0x80 then Plain(0)
    else if b < 0x90 then Values(b - 0x80, 2)
    else if b < 0xA0 then Values(b - 0x90, 1)
    else if b < 0xC0 then Plain(b - 0xA0)
    else if b >= 0xE0 then Plain(0)
    else
      match b
      case 0xC0 => Plain(0)
      case 0xC1 => Reserved
      case 0xC2 => Plain(0)
      case 0xC3 => Plain(0)
      case 0xC4 => Sized(1, 0)
      case 0xC5 => Sized(2, 0)
      case 0xC6 => Sized(4, 0)
      case 0xC7 => Sized(1, 1)
      case 0xC8 => Sized(2, 1)
      case 0xC9 => Sized(4, 1)
      case 0xCA => Plain(4)
      case 0xCB => Plain(8)
      case 0xCC => Plain(1)
      case 0xCD => Plain(2)
      case 0xCE => Plain(4)
      case 0xCF => Plain(8)
      case 0xD0 => Plain(1)
      case 0xD1 => Plain(2)
      case 0xD2 => Plain(4)
      case 0xD3 => Plain(8)
      case 0xD4 => Plain(2)
      case 0xD5 => Plain(3)
      case 0xD6 => Plain(5)
      case 0xD7 => Plain(9)
      case 0xD8 => Plain(17)
      case 0xD9 => Sized(1, 0)
      case 0xDA => Sized(2, 0)
      case 0xDB => Sized(4, 0)
      case 0xDC => SizedValues(2, 1)
      case 0xDD => SizedValues(4, 1)
      case 0xDE => SizedValues(2, 2)
      case _ => SizedValues(4, 2)
  }

  /** The marker of an unsigned number of `width` bytes. */
  function TagOf(width: nat): Byte {
    ByWidth(width, 0xCC, 0xCD, 0xCE)
  }

  /** A length of `width` bytes at the front, and what follows it. */
  function ReadLength(m: Lengths, width: nat, s: seq<Byte>): (r: Option<(nat, seq<Byte>)>)
    ensures r.Some? ==> |r.value.1| + width <= |s|
  {
    match m
    case Bare => if |s| < width then None else Some((FromBigEndian(s[..width]), s[width..]))
    case Tagged =>
      if |s| < 1 + width || s[0] != TagOf(width) then None
      else Some((FromBigEndian(s[1..1 + width]), s[1 + width..]))
  }

  function SaturatingAdd(n: nat, extra: nat): nat {
    if n + extra > UINT32_MAX then UINT32_MAX else n + extra
  }

  function Drop(s: seq<Byte>, n: nat): (r: Option<seq<Byte>>)
    ensures r.Some? ==> |r.value| <= |s|
  {
    if |s| < n then None else Some(s[n..])
  }

  /** What is left after one value, or nothing when the bytes are refused. */
  function Skip(m: Lengths, s: seq<Byte>): (r: Option<seq<Byte>>)
    ensures r.Some? ==> |r.value| < |s|
    decreases |s|, 0
  {
    if |s| == 0 then None
    else
      match ShapeOf(s[0])
      case Plain(n) => Drop(s[1..], n)
      case Sized(w, extra) =>
        (match ReadLength(m, w, s[1..])
         case None => None
         case Some((len, rest)) => Drop(rest, SaturatingAdd(len, extra)))
      case Values(n, per) => SkipMany(m, s[1..], n * per)
      case SizedValues(w, per) =>
        (match ReadLength(m, w, s[1..])
         case None => None
         case Some((len, rest)) => SkipMany(m, rest, len * per))
      case Reserved => None
  }

  function SkipMany(m: Lengths, s: seq<Byte>, n: nat): (r: Option<seq<Byte>>)
    ensures r.Some? ==> |r.value| <= |s|
    decreases |s|, 1 + n
  {
    if n == 0 then Some(s)
    else match Skip(m, s) case None => None case Some(rest) => SkipMany(m, rest, n - 1)
  }

  /** Two values off the front. */
  lemma SkipPair(m: Lengths, s: seq<Byte>, n: nat)
    ensures SkipMany(m, s, (n + 1) * 2) ==
      match Skip(m, s)
      case None => None
      case Some(rest) => match Skip(m, rest) case None => None case Some(rest') => SkipMany(m, rest', n * 2)
  {
    assert (n + 1) * 2 == n * 2 + 1 + 1;
  }
}
