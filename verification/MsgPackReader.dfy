/**
 The cursor that skips MessagePack values in place, and the size guard of columnar
 bodies built on it.
 */
module MsgPackReader {
  import opened Bytes
  import opened MsgPack
  import opened MsgPackSkip
  import opened Wrappers

  datatype Refusal = Malformed

  // ------------------------------------------------------------------- lengths and strings

  function ReadMapLen(s: seq<Byte>): (r: Option<(nat, seq<Byte>)>)
    ensures r.Some? ==> |r.value.1| < |s|
  {
    if |s| == 0 then None
    else if 0x80 <= s[0] < 0x90 then Some((s[0] - 0x80, s[1..]))
    else if s[0] == 0xDE then ReadLength(Bare, 2, s[1..])
    else if s[0] == 0xDF then ReadLength(Bare, 4, s[1..])
    else None
  }

  function ReadArrayLen(s: seq<Byte>): (r: Option<(nat, seq<Byte>)>)
    ensures r.Some? ==> |r.value.1| < |s|
  {
    if |s| == 0 then None
    else if 0x90 <= s[0] < 0xA0 then Some((s[0] - 0x90, s[1..]))
    else if s[0] == 0xDC then ReadLength(Bare, 2, s[1..])
    else if s[0] == 0xDD then ReadLength(Bare, 4, s[1..])
    else None
  }

  function ReadStrLen(m: Lengths, s: seq<Byte>): (r: Option<(nat, seq<Byte>)>)
    ensures r.Some? ==> |r.value.1| < |s|
  {
    if |s| == 0 then None
    else if 0xA0 <= s[0] < 0xC0 then Some((s[0] - 0xA0, s[1..]))
    else if s[0] == 0xD9 then ReadLength(m, 1, s[1..])
    else if s[0] == 0xDA then ReadLength(m, 2, s[1..])
    else if s[0] == 0xDB then ReadLength(m, 4, s[1..])
    else None
  }

  predicate Continues(s: seq<Byte>, from: nat, to: nat) {
    to <= |s| && forall i :: from <= i < to ==> 0x80 <= s[i] < 0xC0
  }

  /** The length of the first character, or 0 (section 4 of RFC 3629). */
  function CharLength(s: seq<Byte>): nat
    requires |s| > 0
  {
    var b := s[0];
    if b < 0x80 then 1
    else if 0xC2 <= b < 0xE0 then (if Continues(s, 1, 2) then 2 else 0)
    else if 0xE0 <= b < 0xF0 then
      (if Continues(s, 1, 3) && (b == 0xE0 ==> s[1] >= 0xA0) && (b == 0xED ==> s[1] < 0xA0) then 3 else 0)
    else if 0xF0 <= b < 0xF5 then
      (if Continues(s, 1, 4) && (b == 0xF0 ==> s[1] >= 0x90) && (b == 0xF4 ==> s[1] < 0x90) then 4 else 0)
    else 0
  }

  predicate Utf8(s: seq<Byte>)
    decreases |s|
  {
    |s| == 0 || (CharLength(s) > 0 && CharLength(s) <= |s| && Utf8(s[CharLength(s)..]))
  }

  /** A string at the front, as its bytes. */
  function ReadStr(m: Lengths, s: seq<Byte>): (r: Option<(seq<Byte>, seq<Byte>)>)
    ensures r.Some? ==> |r.value.1| < |s|
  {
    match ReadStrLen(m, s)
    case None => None
    case Some((len, rest)) =>
      if |rest| < len || !Utf8(rest[..len]) then None else Some((rest[..len], rest[len..]))
  }

  /** `values`. */
  const VALUES: seq<Byte> := [0x76, 0x61, 0x6C, 0x75, 0x65, 0x73]

  /** What one entry of a map comes to: refused, the length sought, or on to the next. */
  datatype Entry = Refused | Found(len: nat) | Next(rest: seq<Byte>)

  type EntryReader = seq<Byte> -> Entry

  function ReadEntry(m: Lengths, s: seq<Byte>): Entry {
    match ReadStr(m, s)
    case None => Refused
    case Some((key, rest)) =>
      if key == VALUES then
        match ReadArrayLen(rest) case None => Refused case Some((len, _)) => Found(len)
      else
        match Skip(m, rest) case None => Refused case Some(rest') => Next(rest')
  }

  ghost predicate Reads(m: Lengths, entry: EntryReader) {
    forall s {:trigger ReadEntry(m, s)} :: entry(s) == ReadEntry(m, s)
  }

  function EntriesOf(m: Lengths): (entry: EntryReader)
    ensures Reads(m, entry)
  {
    s => ReadEntry(m, s)
  }

  /** Entry by entry, up to the length sought. */
  function PeekEntries(entry: EntryReader, s: seq<Byte>, n: nat): Result<Option<nat>, Refusal>
    decreases n
  {
    if n == 0 then Ok(None)
    else
      match entry(s)
      case Refused => Err(Malformed)
      case Found(len) => Ok(Some(len))
      case Next(rest) => PeekEntries(entry, rest, n - 1)
  }

  function Peek(m: Lengths, body: seq<Byte>): Result<Option<nat>, Refusal> {
    if |body| == 0 then Ok(None)
    else match ReadMapLen(body) case None => Err(Malformed) case Some((n, rest)) => PeekEntries(EntriesOf(m), rest, n)
  }

  // ------------------------------------------------------------------------- the cursor

  class Reader {
    const data: seq<Byte>
    const lengths: Lengths
    var pos: nat

    ghost predicate Valid()
      reads this
    {
      pos <= |data|
    }

    ghost function Rest(): seq<Byte>
      requires Valid()
      reads this
    {
      data[pos..]
    }

    constructor (lengths: Lengths, data: seq<Byte>)
      ensures Valid() && Rest() == data && this.lengths == lengths
    {
      this.data, this.lengths, pos := data, lengths, 0;
    }

    /** In pieces of at most 4096 bytes, as the buffer holds. */
    method SkipBytes(n: nat) returns (ok: bool)
      requires Valid()
      modifies this
      ensures Valid() && ok == Drop(old(Rest()), n).Some?
      ensures ok ==> Rest() == Drop(old(Rest()), n).value
    {
      var remaining := n;
      while remaining > 0
        invariant Valid() && 0 <= remaining <= n && pos == old(pos) + (n - remaining)
      {
        var chunk := if remaining < 4096 then remaining else 4096;
        if |data| - pos < chunk {
          return false;
        }
        pos := pos + chunk;
        remaining := remaining - chunk;
      }
      assert data[pos..] == data[old(pos)..][n..];
      return true;
    }

    method TakeByte() returns (b: Option<Byte>)
      requires Valid()
      modifies this
      ensures Valid() && b.Some? == (|old(Rest())| > 0)
      ensures b.Some? ==> b.value == old(Rest())[0] && Rest() == old(Rest())[1..]
    {
      if pos == |data| {
        return None;
      }
      b := Some(data[pos]);
      pos := pos + 1;
    }

    /** A length of `width` bytes, after its own marker where the decoder wants one. */
    method TakeLength(m: Lengths, width: nat) returns (len: Option<nat>)
      requires Valid()
      modifies this
      ensures Valid() && len.Some? == ReadLength(m, width, old(Rest())).Some?
      ensures len.Some? ==> (len.value, Rest()) == ReadLength(m, width, old(Rest())).value
    {
      ghost var before := Rest();
      if m.Tagged? {
        var tag := TakeByte();
        if tag.None? || tag.value != TagOf(width) {
          return None;
        }
        assert |Rest()| >= width ==> Rest()[..width] == before[1..1 + width] && Rest()[width..] == before[1 + width..];
      }
      if |data| - pos < width {
        return None;
      }
      len := Some(FromBigEndian(data[pos..pos + width]));
      assert data[pos..pos + width] == Rest()[..width];
      pos := pos + width;
    }

    method SkipValue() returns (ok: bool)
      requires Valid()
      modifies this
      ensures Valid() && ok == Skip(lengths, old(Rest())).Some?
      ensures ok ==> Rest() == Skip(lengths, old(Rest())).value
      decreases |data| - pos, 0
    {
      var b := TakeByte();
      if b.None? {
        return false;
      }
      match ShapeOf(b.value)
      case Plain(n) => ok := SkipBytes(n);
      case Sized(w, extra) =>
        var len := TakeLength(lengths, w);
        if len.None? {
          return false;
        }
        ok := SkipBytes(SaturatingAdd(len.value, extra));
      case Values(n, per) => ok := SkipGroup(n, per);
      case SizedValues(w, per) =>
        var len := TakeLength(lengths, w);
        if len.None? {
          return false;
        }
        ok := SkipGroup(len.value, per);
      case Reserved => ok := false;
    }

    method SkipGroup(n: nat, per: nat) returns (ok: bool)
      requires Valid() && (per == 1 || per == 2)
      modifies this
      ensures Valid() && ok == SkipMany(lengths, old(Rest()), n * per).Some?
      ensures ok ==> Rest() == SkipMany(lengths, old(Rest()), n * per).value
      decreases |data| - pos, 2
    {
      if per == 1 {
        ok := SkipArrayElements(n);
      } else {
        ok := SkipMapEntries(n);
      }
    }

    method SkipArrayElements(n: nat) returns (ok: bool)
      requires Valid()
      modifies this
      ensures Valid() && ok == SkipMany(lengths, old(Rest()), n).Some?
      ensures ok ==> Rest() == SkipMany(lengths, old(Rest()), n).value
      decreases |data| - pos, 1
    {
      for i := 0 to n
        invariant Valid() && old(pos) <= pos
        invariant SkipMany(lengths, Rest(), n - i) == SkipMany(lengths, old(Rest()), n)
      {
        ok := SkipValue();
        if !ok {
          return;
        }
      }
      return true;
    }

    method SkipMapEntries(n: nat) returns (ok: bool)
      requires Valid()
      modifies this
      ensures Valid() && ok == SkipMany(lengths, old(Rest()), n * 2).Some?
      ensures ok ==> Rest() == SkipMany(lengths, old(Rest()), n * 2).value
      decreases |data| - pos, 1
    {
      for i := 0 to n
        invariant Valid() && old(pos) <= pos
        invariant SkipMany(lengths, Rest(), (n - i) * 2) == SkipMany(lengths, old(Rest()), n * 2)
      {
        SkipPair(lengths, Rest(), n - i - 1);
        ok := SkipValue();
        if !ok {
          return;
        }
        ok := SkipValue();
        if !ok {
          return;
        }
      }
      return true;
    }

    method TakeStr() returns (key: Option<seq<Byte>>)
      requires Valid()
      modifies this
      ensures Valid() && key.Some? == ReadStr(lengths, old(Rest())).Some?
      ensures key.Some? ==> (key.value, Rest()) == ReadStr(lengths, old(Rest())).value
    {
      var b := TakeByte();
      if b.None? {
        return None;
      }
      var len := None;
      if 0xA0 <= b.value < 0xC0 {
        len := Some(b.value - 0xA0);
      } else if b.value == 0xD9 {
        len := TakeLength(lengths, 1);
      } else if b.value == 0xDA {
        len := TakeLength(lengths, 2);
      } else if b.value == 0xDB {
        len := TakeLength(lengths, 4);
      }
      if len.None? || |data| - pos < len.value {
        return None;
      }
      var bytes := data[pos..pos + len.value];
      assert bytes == Rest()[..len.value];
      if !Utf8(bytes) {
        return None;
      }
      pos := pos + len.value;
      return Some(bytes);
    }

    method TakeMapLen() returns (len: Option<nat>)
      requires Valid()
      modifies this
      ensures Valid() && len.Some? == ReadMapLen(old(Rest())).Some?
      ensures len.Some? ==> (len.value, Rest()) == ReadMapLen(old(Rest())).value
    {
      var b := TakeByte();
      if b.None? {
        return None;
      }
      if 0x80 <= b.value < 0x90 {
        return Some(b.value - 0x80);
      } else if b.value == 0xDE {
        len := TakeLength(Bare, 2);
      } else if b.value == 0xDF {
        len := TakeLength(Bare, 4);
      } else {
        return None;
      }
    }

    method TakeArrayLen() returns (len: Option<nat>)
      requires Valid()
      modifies this
      ensures Valid() && len.Some? == ReadArrayLen(old(Rest())).Some?
      ensures len.Some? ==> (len.value, Rest()) == ReadArrayLen(old(Rest())).value
    {
      var b := TakeByte();
      if b.None? {
        return None;
      }
      if 0x90 <= b.value < 0xA0 {
        return Some(b.value - 0x90);
      } else if b.value == 0xDC {
        len := TakeLength(Bare, 2);
      } else if b.value == 0xDD {
        len := TakeLength(Bare, 4);
      } else {
        return None;
      }
    }

    method PeekOne(ghost entry: EntryReader) returns (r: Result<Option<nat>, Refusal>)
      requires Valid() && Reads(lengths, entry)
      modifies this
      ensures Valid()
      ensures match entry(old(Rest()))
              case Refused => r == Err(Malformed)
              case Found(len) => r == Ok(Some(len))
              case Next(rest) => r == Ok(None) && Rest() == rest
    {
      assert entry(Rest()) == ReadEntry(lengths, Rest());
      var key := TakeStr();
      if key.None? {
        return Err(Malformed);
      }
      if key.value == VALUES {
        var len := TakeArrayLen();
        return if len.Some? then Ok(Some(len.value)) else Err(Malformed);
      }
      var ok := SkipValue();
      return if ok then Ok(None) else Err(Malformed);
    }

    /** The first `n` entries, up to the one sought. */
    method PeekMany(n: nat, ghost entry: EntryReader) returns (r: Result<Option<nat>, Refusal>)
      requires Valid() && Reads(lengths, entry)
      modifies this
      ensures Valid() && r == PeekEntries(entry, old(Rest()), n)
    {
      for i := 0 to n
        invariant Valid() && PeekEntries(entry, Rest(), n - i) == PeekEntries(entry, old(Rest()), n)
      {
        r := PeekOne(entry);
        if r != Ok(None) {
          return;
        }
      }
      return Ok(None);
    }
  }

  method PeekColumnarValuesLen(m: Lengths, body: seq<Byte>) returns (r: Result<Option<nat>, Refusal>)
    ensures r == Peek(m, body)
  {
    if body == [] {
      return Ok(None);
    }
    var rd := new Reader(m, body);
    var n := rd.TakeMapLen();
    if n.None? {
      return Err(Malformed);
    }
    r := rd.PeekMany(n.value, EntriesOf(m));
  }

  // ------------------------------------------------------------- what the guard reads

  lemma ReadsStrLen(m: Lengths, v: Value, suffix: seq<Byte>)
    requires v.Str? && Supposed(m, v)
    ensures ReadStrLen(m, Encode(v) + suffix) == if Skippable(m, v) then Some((|v.data|, v.data + suffix)) else None
  {
    var len := LengthBytes(v.form, |v.data|);
    AfterMarker(Marker(v), len, v.data, suffix);
    match v.form
    case Fix => assert len + (v.data + suffix) == v.data + suffix;
    case Wide(w) => LengthReads(m, |v.data|, w, v.data + suffix);
  }

  /** The value is a string that can be read as a key. */
  ghost predicate IsKey(m: Lengths, v: Value) {
    v.Str? && Skippable(m, v) && Utf8(v.data)
  }

  /** A string is read; anything else is refused. */
  lemma ReadsStr(m: Lengths, v: Value, suffix: seq<Byte>)
    requires WellFormed(v) && (v.Str? ==> Supposed(m, v))
    ensures ReadStr(m, Encode(v) + suffix) == if IsKey(m, v) then Some((v.data, suffix)) else None
  {
    if v.Str? {
      ReadsStrLen(m, v, suffix);
      var after := v.data + suffix;
      assert after[..|v.data|] == v.data && after[|v.data|..] == suffix;
    } else {
      NotStrMarker(v);
    }
  }

  lemma NotStrMarker(v: Value)
    requires WellFormed(v) && !v.Str?
    ensures !(0xA0 <= Marker(v) < 0xC0) && Marker(v) != 0xD9 && Marker(v) != 0xDA && Marker(v) != 0xDB
  {
  }

  lemma AfterMarker(b: Byte, len: seq<Byte>, data: seq<Byte>, suffix: seq<Byte>)
    ensures (([b] + (len + data)) + suffix)[1..] == len + (data + suffix)
    ensures (([b] + (len + data)) + suffix)[0] == b
  {
  }

  lemma ReadsGroupLen(b: Byte, form: Form, len: nat, rest: seq<Byte>, suffix: seq<Byte>)
    requires form.Wide? ==> (form.width == 2 || form.width == 4) && len < Room(form.width)
    ensures var s := ([b] + (LengthBytes(form, len) + rest)) + suffix;
            && (form.Fix? ==> s[1..] == rest + suffix)
            && (form.Wide? ==> ReadLength(Bare, form.width, s[1..]) == Some((len, rest + suffix)))
  {
    AfterMarker(b, LengthBytes(form, len), rest, suffix);
    match form
    case Fix => assert [] + (rest + suffix) == rest + suffix;
    case Wide(w) => LengthReads(Bare, len, w, rest + suffix);
  }

  lemma ReadsMapLen(v: Value, suffix: seq<Byte>)
    requires v.Map? && WellFormed(v)
    ensures ReadMapLen(Encode(v) + suffix) == Some((|v.items| / 2, EncodeAll(v.items) + suffix))
  {
    ReadsGroupLen(Marker(v), v.form, |v.items| / 2, EncodeAll(v.items), suffix);
  }

  /** An array's length is read; anything else is refused. */
  lemma ReadsArrayLen(v: Value, suffix: seq<Byte>)
    requires WellFormed(v)
    ensures ReadArrayLen(Encode(v) + suffix) ==
            if v.Array? then Some((|v.items|, EncodeAll(v.items) + suffix)) else None
  {
    if v.Array? {
      ReadsGroupLen(Marker(v), v.form, |v.items|, EncodeAll(v.items), suffix);
    } else {
      NotArrayMarker(v);
    }
  }

  lemma NotArrayMarker(v: Value)
    requires WellFormed(v) && !v.Array?
    ensures !(0x90 <= Marker(v) < 0xA0) && Marker(v) != 0xDC && Marker(v) != 0xDD
  {
  }

  /** What is supposed of the lengths the guard reaches: those before the array sought, up to where it refuses. */
  ghost predicate EntriesReached(m: Lengths, items: seq<Value>) {
    |items| < 2 ||
    (&& EntryReached(m, items[0], items[1])
     && (PassesEntry(m, items[0], items[1]) ==> EntriesReached(m, items[2..])))
  }

  ghost predicate EntryReached(m: Lengths, key: Value, value: Value) {
    && (key.Str? ==> LengthsReached(m, key))
    && (IsKey(m, key) && key.data != VALUES ==> LengthsReached(m, value))
  }

  /** The guard skips the entry and goes on. */
  ghost predicate PassesEntry(m: Lengths, key: Value, value: Value) {
    IsKey(m, key) && key.data != VALUES && Skippable(m, value)
  }

  /**
   The length of the array under the first key `values`, if every key up to it is a
   string and what comes before can be skipped.
   */
  ghost function ValuesLen(m: Lengths, items: seq<Value>): Result<Option<nat>, Refusal> {
    if |items| < 2 then Ok(None)
    else if PassesEntry(m, items[0], items[1]) then ValuesLen(m, items[2..])
    else StopsAt(m, items[0], items[1])
  }

  ghost function StopsAt(m: Lengths, key: Value, value: Value): Result<Option<nat>, Refusal> {
    if IsKey(m, key) && key.data == VALUES && value.Array? then Ok(Some(|value.items|)) else Err(Malformed)
  }

  lemma EntriesSplit(items: seq<Value>, suffix: seq<Byte>)
    requires AllWellFormed(items) && |items| >= 2
    ensures EncodeAll(items) + suffix == Encode(items[0]) + (Encode(items[1]) + (EncodeAll(items[2..]) + suffix))
  {
    assert items[1..][1..] == items[2..];
    ThreeParts(Encode(items[0]), Encode(items[1]), EncodeAll(items[2..]), suffix);
  }

  lemma ThreeParts(a: seq<Byte>, b: seq<Byte>, c: seq<Byte>, d: seq<Byte>)
    ensures (a + (b + c)) + d == a + (b + (c + d))
  {
  }

  /** The first entry of a map, whatever follows it. */
  lemma ReadsEntry(m: Lengths, key: Value, value: Value, rest: seq<Byte>)
    requires WellFormed(key) && WellFormed(value) && EntryReached(m, key, value)
    ensures ReadEntry(m, Encode(key) + (Encode(value) + rest))
         == if PassesEntry(m, key, value) then Next(rest)
            else match StopsAt(m, key, value) case Ok(Some(len)) => Found(len) case _ => Refused
  {
    ReadsStr(m, key, Encode(value) + rest);
    if IsKey(m, key) {
      if key.data == VALUES {
        ReadsArrayLen(value, rest);
      } else {
        SkipUndoesEncode(m, value, rest);
      }
    }
  }

  lemma PeeksFirst(m: Lengths, entry: EntryReader, items: seq<Value>, n: nat, suffix: seq<Byte>)
    requires AllWellFormed(items) && |items| >= 2 && EntryReached(m, items[0], items[1]) && Reads(m, entry)
    ensures PeekEntries(entry, EncodeAll(items) + suffix, n + 1)
         == if PassesEntry(m, items[0], items[1]) then PeekEntries(entry, EncodeAll(items[2..]) + suffix, n)
            else StopsAt(m, items[0], items[1])
  {
    EntriesSplit(items, suffix);
    ReadsEntry(m, items[0], items[1], EncodeAll(items[2..]) + suffix);
  }

  lemma {:induction false} PeeksEntries(m: Lengths, entry: EntryReader, items: seq<Value>, n: nat, suffix: seq<Byte>)
    requires EntriesReached(m, items) && AllWellFormed(items) && |items| == 2 * n && Reads(m, entry)
    ensures PeekEntries(entry, EncodeAll(items) + suffix, n) == ValuesLen(m, items)
    decreases n
  {
    if n > 0 {
      PeeksFirst(m, entry, items, n - 1, suffix);
      if PassesEntry(m, items[0], items[1]) {
        PeeksEntries(m, entry, items[2..], n - 1, suffix);
      }
    }
  }

  /**
   On the encoding of any map, whatever follows it, the guard gives the length of the
   array under the first key `values`, unless a key up to it is not a string. With
   lengths read bare it refuses no other; with lengths read as numbers it refuses
   every body that has a length outside its marker before that array.
   */
  lemma PeekFindsValues(m: Lengths, form: Form, items: seq<Value>, suffix: seq<Byte>)
    requires WellFormed(Map(form, items)) && EntriesReached(m, items)
    ensures Peek(m, Encode(Map(form, items)) + suffix) == ValuesLen(m, items)
  {
    ReadsMapLen(Map(form, items), suffix);
    PeeksEntries(m, EntriesOf(m), items, |items| / 2, suffix);
  }
}
