/** The size guard on the encoding of any map, with nothing supposed of the lengths in it. */
module MsgPackPeek {
  import opened Bytes
  import opened MsgPack
  import opened MsgPackSkip
  import opened MsgPackTags
  import opened MsgPackReader
  import opened Wrappers

  /** A string's length as it is read, and what is then left. */
  ghost function KeyLength(m: Lengths, v: Value, next: seq<Byte>): Option<(nat, seq<Byte>)>
    requires WellFormed(v) && v.Str?
  {
    if v.form.Fix? then Some((|v.data|, v.data + next)) else LengthTaken(m, |v.data|, v.form.width, v.data + next)
  }

  /** What reading a key comes to: its text and what is left, if it is a string read as UTF-8. */
  ghost function KeyTaken(m: Lengths, v: Value, next: seq<Byte>): Option<(seq<Byte>, seq<Byte>)>
    requires WellFormed(v)
  {
    if !v.Str? then None
    else match KeyLength(m, v, next)
      case None => None
      case Some((n, rest)) => if |rest| < n || !Utf8(rest[..n]) then None else Some((rest[..n], rest[n..]))
  }

  lemma FixKeyLength(m: Lengths, b: Byte, data: seq<Byte>, next: seq<Byte>)
    requires b == 0xA0 + |data| && |data| < 0x20
    ensures ReadStrLen(m, ([b] + data) + next) == Some((|data|, data + next))
  {
    assert (([b] + data) + next)[1..] == data + next;
  }

  lemma WideIsLength(m: Lengths, s: seq<Byte>, width: nat)
    requires IsWidth(width) && |s| > 0 && s[0] == ByWidth(width, 0xD9, 0xDA, 0xDB)
    ensures ReadStrLen(m, s) == ReadLength(m, width, s[1..])
  {
  }

  lemma WideKeyLength(m: Lengths, b: Byte, width: nat, data: seq<Byte>, next: seq<Byte>)
    requires IsWidth(width) && |data| < Room(width) && b == ByWidth(width, 0xD9, 0xDA, 0xDB)
    ensures ReadStrLen(m, ([b] + (BigEndian(|data|, width) + data)) + next)
         == LengthTaken(m, |data|, width, data + next)
  {
    AfterMarker(b, BigEndian(|data|, width), data, next);
    WideIsLength(m, ([b] + (BigEndian(|data|, width) + data)) + next, width);
    LengthIs(m, |data|, width, data + next);
  }

  lemma KeyLengthIs(m: Lengths, v: Value, next: seq<Byte>)
    requires WellFormed(v) && v.Str?
    ensures ReadStrLen(m, Encode(v) + next) == KeyLength(m, v, next)
  {
    if v.form.Fix? {
      EncodedFixBlob(v);
      FixKeyLength(m, Marker(v), v.data, next);
    } else {
      EncodedBlob(v);
      WideKeyLength(m, Marker(v), v.form.width, v.data, next);
    }
  }

  lemma KeyIs(m: Lengths, v: Value, next: seq<Byte>)
    requires WellFormed(v)
    ensures ReadStr(m, Encode(v) + next) == KeyTaken(m, v, next)
  {
    if v.Str? {
      KeyLengthIs(m, v, next);
    } else {
      NotStrMarker(v);
    }
  }

  /** What an entry comes to once its key is read. */
  ghost function AfterKey(m: Lengths, text: seq<Byte>, after: seq<Byte>): Entry {
    if text == VALUES then
      match ReadArrayLen(after) case None => Refused case Some((len, _)) => Found(len)
    else
      match Skip(m, after) case None => Refused case Some(left) => Next(left)
  }

  lemma ReadEntryIs(m: Lengths, s: seq<Byte>)
    ensures ReadEntry(m, s) ==
            match ReadStr(m, s) case None => Refused case Some((text, after)) => AfterKey(m, text, after)
  {
  }

  lemma ValueIs(m: Lengths, text: seq<Byte>, value: Value, rest: seq<Byte>)
    requires WellFormed(value)
    ensures AfterKey(m, text, Encode(value) + rest) ==
            if text == VALUES then (if value.Array? then Found(|value.items|) else Refused)
            else match Skipped(m, value, rest) case None => Refused case Some(left) => Next(left)
  {
    if text == VALUES {
      ReadsArrayLen(value, rest);
    } else {
      SkipIs(m, value, rest);
    }
  }

  /**
   What the first entry comes to. A key read as it was written is followed by its value;
   past one misread, bytes are read that need not be where a value begins.
   */
  ghost function EntryTaken(m: Lengths, taken: Option<(seq<Byte>, seq<Byte>)>, value: Value, rest: seq<Byte>): Entry
    requires WellFormed(value)
  {
    match taken
    case None => Refused
    case Some((text, after)) =>
      if after != Encode(value) + rest then AfterKey(m, text, after)
      else if text == VALUES then (if value.Array? then Found(|value.items|) else Refused)
      else match Skipped(m, value, rest) case None => Refused case Some(left) => Next(left)
  }

  lemma EntryIs(m: Lengths, s: seq<Byte>, taken: Option<(seq<Byte>, seq<Byte>)>, value: Value, rest: seq<Byte>)
    requires WellFormed(value) && ReadStr(m, s) == taken
    ensures ReadEntry(m, s) == EntryTaken(m, taken, value, rest)
  {
    ReadEntryIs(m, s);
    match taken
    case None =>
    case Some((text, after)) => ValueIs(m, text, value, rest);
  }

  ghost function FirstEntry(m: Lengths, items: seq<Value>, suffix: seq<Byte>): Entry
    requires AllWellFormed(items) && |items| >= 2
  {
    var rest := EncodeAll(items[2..]) + suffix;
    EntryTaken(m, KeyTaken(m, items[0], Encode(items[1]) + rest), items[1], rest)
  }

  lemma FirstEntryIs(m: Lengths, items: seq<Value>, suffix: seq<Byte>)
    requires AllWellFormed(items) && |items| >= 2
    ensures ReadEntry(m, EncodeAll(items) + suffix) == FirstEntry(m, items, suffix)
  {
    var rest := EncodeAll(items[2..]) + suffix;
    var next := Encode(items[1]) + rest;
    EntriesSplit(items, suffix);
    KeyIs(m, items[0], next);
    EntryIs(m, Encode(items[0]) + next, KeyTaken(m, items[0], next), items[1], rest);
  }

  /** What the guard finds once an entry came to `first`, with `n` more to come. */
  ghost function AfterFirst(entry: EntryReader, first: Entry, n: nat): Result<Option<nat>, Refusal> {
    match first
    case Refused => Err(Malformed)
    case Found(len) => Ok(Some(len))
    case Next(left) => PeekEntries(entry, left, n)
  }

  /** What it finds is what it finds `later` where the first entry leaves just what is `next`. */
  ghost function Joined(entry: EntryReader, first: Entry, next: seq<Byte>, later: Result<Option<nat>, Refusal>, n: nat)
    : Result<Option<nat>, Refusal>
  {
    if first == Next(next) then later else AfterFirst(entry, first, n)
  }

  /**
   What the guard finds from entry `i` on, each entry coming to `firsts` where it begins as
   written, at `tails`, and past one misread in the bytes left.
   */
  ghost function Peeked(entry: EntryReader, firsts: seq<Entry>, tails: seq<seq<Byte>>, i: nat)
    : Result<Option<nat>, Refusal>
    requires i <= |firsts| < |tails|
    decreases |firsts| - i
  {
    if i == |firsts| then Ok(None)
    else Joined(entry, firsts[i], tails[i + 1], Peeked(entry, firsts, tails, i + 1), |firsts| - i - 1)
  }

  lemma {:induction false} PeekJoins(entry: EntryReader, s: seq<Byte>, first: Entry, next: seq<Byte>, n: nat)
    requires entry(s) == first
    ensures PeekEntries(entry, s, n + 1) == Joined(entry, first, next, PeekEntries(entry, next, n), n)
  {
  }

  lemma {:induction false} PeekedIs(entry: EntryReader, firsts: seq<Entry>, tails: seq<seq<Byte>>, i: nat)
    requires i <= |firsts| < |tails| && forall k :: 0 <= k < |firsts| ==> entry(tails[k]) == firsts[k]
    ensures PeekEntries(entry, tails[i], |firsts| - i) == Peeked(entry, firsts, tails, i)
    decreases |firsts| - i
  {
    if i < |firsts| {
      PeekJoins(entry, tails[i], firsts[i], tails[i + 1], |firsts| - i - 1);
      PeekedIs(entry, firsts, tails, i + 1);
    }
  }

  /** The encoding of a map's entries from each one on. */
  ghost function Tails(items: seq<Value>, suffix: seq<Byte>): (tails: seq<seq<Byte>>)
    requires AllWellFormed(items) && |items| % 2 == 0
    ensures |tails| == |items| / 2 + 1
    ensures forall k :: 0 <= k <= |items| / 2 ==> tails[k] == EncodeAll(items[2 * k..]) + suffix
  {
    seq(|items| / 2 + 1, k requires 0 <= k <= |items| / 2 => EncodeAll(items[2 * k..]) + suffix)
  }

  /** What each entry of a map comes to where it begins as written. */
  ghost function Firsts(m: Lengths, items: seq<Value>, suffix: seq<Byte>): (firsts: seq<Entry>)
    requires AllWellFormed(items) && |items| % 2 == 0
    ensures |firsts| == |items| / 2
    ensures forall k :: 0 <= k < |items| / 2 ==> firsts[k] == FirstEntry(m, items[2 * k..], suffix)
  {
    seq(|items| / 2, k requires 0 <= k < |items| / 2 => FirstEntry(m, items[2 * k..], suffix))
  }

  lemma FirstRead(m: Lengths, entry: EntryReader, items: seq<Value>, suffix: seq<Byte>)
    requires AllWellFormed(items) && |items| >= 2 && Reads(m, entry)
    ensures entry(EncodeAll(items) + suffix) == FirstEntry(m, items, suffix)
  {
    FirstEntryIs(m, items, suffix);
  }

  lemma EntriesPeeked(m: Lengths, entry: EntryReader, items: seq<Value>, suffix: seq<Byte>)
    requires AllWellFormed(items) && |items| % 2 == 0 && Reads(m, entry)
    ensures PeekEntries(entry, EncodeAll(items) + suffix, |items| / 2) ==
            Peeked(entry, Firsts(m, items, suffix), Tails(items, suffix), 0)
  {
    var firsts, tails := Firsts(m, items, suffix), Tails(items, suffix);
    forall k | 0 <= k < |firsts| ensures entry(tails[k]) == firsts[k] {
      FirstRead(m, entry, items[2 * k..], suffix);
    }
    assert items[2 * 0..] == items;
    PeekedIs(entry, firsts, tails, 0);
  }

  /** The guard on any map of any format, in either reading, whatever follows it. */
  lemma PeekIs(m: Lengths, form: Form, items: seq<Value>, suffix: seq<Byte>)
    requires WellFormed(Map(form, items))
    ensures Peek(m, Encode(Map(form, items)) + suffix) ==
            Peeked(EntriesOf(m), Firsts(m, items, suffix), Tails(items, suffix), 0)
  {
    ReadsMapLen(Map(form, items), suffix);
    EntriesPeeked(m, EntriesOf(m), items, suffix);
  }
}
