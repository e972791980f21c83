/**
 Binary points frames: a marker, a length, and a payload in the codec of the
 points. The codec is given by what it encodes and decodes.
 */
module Frames {
  import opened Bytes
  import opened Wrappers

  const MAGIC: seq<Byte> := [0x00, 0x48, 0x42, 0x50]

  datatype Error = Unencodable | TooLarge | Malformed

  type Encoder<!P> = seq<P> -> Option<seq<Byte>>

  type Decoder<!P> = seq<Byte> -> Option<seq<P>>

  predicate IsSpace(b: Byte) {
    b == 0x20 || b == 0x09 || b == 0x0A || b == 0x0C || b == 0x0D
  }

  predicate IsBinaryPoints(body: seq<Byte>) {
    |body| >= |MAGIC| && body[..|MAGIC|] == MAGIC
  }

  /** One frame around a payload whose length fits in four bytes. */
  ghost function Frame(payload: seq<Byte>): seq<Byte> {
    MAGIC + (LittleEndian(|payload|, 4) + payload)
  }

  // ---------------------------------------------------------------------------- writing

  /** The length is written over four zeros once the payload is there. */
  method EncodePoints<P>(points: seq<P>, encode: Encoder<P>) returns (r: Result<seq<Byte>, Error>)
    ensures encode(points).None? ==> r == Err(Unencodable)
    ensures encode(points).Some? && |encode(points).value| >= 0x1_0000_0000 ==> r == Err(TooLarge)
    ensures encode(points).Some? && |encode(points).value| < 0x1_0000_0000 ==> r == Ok(Frame(encode(points).value))
  {
    var out := MAGIC + [0, 0, 0, 0];
    var payload := encode(points);
    if payload.None? {
      return Err(Unencodable);
    }
    out := out + payload.value;
    var len := |out| - 8;
    if len >= 0x1_0000_0000 {
      return Err(TooLarge);
    }
    out := out[..4] + LittleEndian(len, 4) + out[8..];
    assert out == Frame(payload.value);
    return Ok(out);
  }

  // ---------------------------------------------------------------------------- reading

  function SkipSpaces(s: seq<Byte>): (r: seq<Byte>)
    ensures |r| <= |s| && (|r| > 0 ==> !IsSpace(r[0]))
  {
    if |s| > 0 && IsSpace(s[0]) then SkipSpaces(s[1..]) else s
  }

  /** The payload at the front and what follows it. */
  function TakeFrame(s: seq<Byte>): (r: Option<(seq<Byte>, seq<Byte>)>)
    ensures r.Some? ==> |r.value.1| < |s|
  {
    if !IsBinaryPoints(s) || |s| < 8 then None
    else
      var end := 8 + FromLittleEndian(s[4..8]);
      if |s| < end then None else Some((s[8..end], s[end..]))
  }

  /** Frame after frame, the points of those before in `found`. */
  function Decode<P>(s: seq<Byte>, limit: nat, decode: Decoder<P>, found: seq<P>): Result<seq<P>, Error>
    decreases |s|
  {
    var rest := SkipSpaces(s);
    if rest == [] then Ok(found)
    else
      match TakeFrame(rest)
      case None => Err(Malformed)
      case Some((payload, rest')) =>
        match decode(payload)
        case None => Err(Malformed)
        case Some(points) =>
          if |found| + |points| > limit then Err(TooLarge) else Decode(rest', limit, decode, found + points)
  }

  method DecodeFrames<P>(body: seq<Byte>, limit: nat, decode: Decoder<P>) returns (r: Result<seq<P>, Error>)
    ensures r == Decode(body, limit, decode, [])
  {
    var out: seq<P> := [];
    var rest := body;
    while true
      invariant Decode(rest, limit, decode, out) == Decode(body, limit, decode, [])
      decreases |rest|
    {
      ghost var before := rest;
      while |rest| > 0 && IsSpace(rest[0])
        invariant SkipSpaces(rest) == SkipSpaces(before) && |rest| <= |before|
      {
        rest := rest[1..];
      }
      assert rest == SkipSpaces(before);
      if rest == [] {
        return Ok(out);
      }
      if !IsBinaryPoints(rest) || |rest| < 8 {
        return Err(Malformed);
      }
      var end := 8 + FromLittleEndian(rest[4..8]);
      if |rest| < end {
        return Err(Malformed);
      }
      var points := decode(rest[8..end]);
      if points.None? {
        return Err(Malformed);
      }
      if |out| + |points.value| > limit {
        return Err(TooLarge);
      }
      out := out + points.value;
      rest := rest[end..];
    }
  }

  // ---------------------------------------------------------------- what decoding comes to

  /** A frame and the white space before it. */
  datatype Piece = Piece(gap: seq<Byte>, payload: seq<Byte>)

  ghost predicate Blank(s: seq<Byte>) {
    forall i :: 0 <= i < |s| ==> IsSpace(s[i])
  }

  ghost predicate AreFrames<P>(pieces: seq<Piece>, decode: Decoder<P>) {
    forall i :: 0 <= i < |pieces| ==> IsFrame(pieces[i], decode)
  }

  ghost predicate IsFrame<P>(p: Piece, decode: Decoder<P>) {
    Blank(p.gap) && |p.payload| < 0x1_0000_0000 && decode(p.payload).Some?
  }

  ghost function Body(pieces: seq<Piece>, tail: seq<Byte>): seq<Byte> {
    if |pieces| == 0 then tail
    else pieces[0].gap + (Frame(pieces[0].payload) + Body(pieces[1..], tail))
  }

  ghost function PointsOf<P>(pieces: seq<Piece>, decode: Decoder<P>): seq<P>
    requires AreFrames(pieces, decode)
  {
    if |pieces| == 0 then [] else decode(pieces[0].payload).value + PointsOf(pieces[1..], decode)
  }

  lemma {:induction false} SkipsGap(gap: seq<Byte>, rest: seq<Byte>)
    requires Blank(gap) && (|rest| > 0 ==> !IsSpace(rest[0]))
    ensures SkipSpaces(gap + rest) == rest
  {
    if |gap| == 0 {
      assert gap + rest == rest;
    } else {
      SkipsGap(gap[1..], rest);
      assert (gap + rest)[1..] == gap[1..] + rest;
    }
  }

  lemma TakesFrame(payload: seq<Byte>, rest: seq<Byte>)
    requires |payload| < 0x1_0000_0000
    ensures TakeFrame(Frame(payload) + rest) == Some((payload, rest))
    ensures !IsSpace((Frame(payload) + rest)[0])
  {
    var s := Frame(payload) + rest;
    var len := LittleEndian(|payload|, 4);
    PowersOf256();
    LittleEndianReads(|payload|, 4);
    FrameParts(len, payload, rest);
  }

  lemma FrameParts(len: seq<Byte>, payload: seq<Byte>, rest: seq<Byte>)
    requires |len| == 4
    ensures var s := (MAGIC + (len + payload)) + rest;
            && |s| == 8 + |payload| + |rest| && s[..4] == MAGIC && s[4..8] == len
            && s[8..8 + |payload|] == payload && s[8 + |payload|..] == rest
  {
    FourParts(MAGIC, len, payload, rest);
  }

  lemma FourParts(a: seq<Byte>, b: seq<Byte>, c: seq<Byte>, d: seq<Byte>)
    ensures var s := (a + (b + c)) + d;
            && s[..|a|] == a && s[|a|..|a| + |b|] == b
            && s[|a| + |b|..|a| + |b| + |c|] == c && s[|a| + |b| + |c|..] == d
  {
  }

  /**
   Frames with white space around them decode to all their points, exactly when
   there are no more than the limit, and are refused as too large otherwise.
   */
  lemma {:induction false} DecodeConcatenates<P>(pieces: seq<Piece>, tail: seq<Byte>, limit: nat, decode: Decoder<P>,
                                                 found: seq<P>)
    requires AreFrames(pieces, decode) && Blank(tail) && |found| <= limit
    ensures var all := found + PointsOf(pieces, decode);
            Decode(Body(pieces, tail), limit, decode, found) == if |all| <= limit then Ok(all) else Err(TooLarge)
    decreases |pieces|
  {
    if |pieces| == 0 {
      assert tail + [] == tail;
      SkipsGap(tail, []);
      assert found + PointsOf(pieces, decode) == found;
    } else {
      assert IsFrame(pieces[0], decode);
      var rest := Body(pieces[1..], tail);
      var points := decode(pieces[0].payload).value;
      TakesFrame(pieces[0].payload, rest);
      SkipsGap(pieces[0].gap, Frame(pieces[0].payload) + rest);
      var more := PointsOf(pieces[1..], decode);
      assert (found + points) + more == found + (points + more);
      if |found + points| <= limit {
        DecodeConcatenates(pieces[1..], tail, limit, decode, found + points);
      }
    }
  }

  lemma {:induction false} SplitsGap(s: seq<Byte>) returns (gap: seq<Byte>)
    ensures Blank(gap) && s == gap + SkipSpaces(s)
  {
    if |s| > 0 && IsSpace(s[0]) {
      var more := SplitsGap(s[1..]);
      gap := [s[0]] + more;
      assert s == [s[0]] + s[1..];
    } else {
      gap := [];
    }
  }

  lemma SplitsFrame(s: seq<Byte>)
    requires TakeFrame(s).Some?
    ensures |TakeFrame(s).value.0| < 0x1_0000_0000 && s == Frame(TakeFrame(s).value.0) + TakeFrame(s).value.1
  {
    var (payload, rest) := TakeFrame(s).value;
    PowersOf256();
    LittleEndianWrites(s[4..8]);
    assert s == s[..4] + (s[4..8] + payload) + rest;
  }

  /** Every accepted body is such frames, and what it gave is their points. */
  lemma {:induction false} AcceptedIsFrames<P>(s: seq<Byte>, limit: nat, decode: Decoder<P>, found: seq<P>)
    returns (pieces: seq<Piece>, tail: seq<Byte>)
    requires Decode(s, limit, decode, found).Ok? && |found| <= limit
    ensures AreFrames(pieces, decode) && Blank(tail) && s == Body(pieces, tail)
    ensures Decode(s, limit, decode, found).value == found + PointsOf(pieces, decode)
    ensures |Decode(s, limit, decode, found).value| <= limit
    decreases |s|
  {
    var gap := SplitsGap(s);
    var rest := SkipSpaces(s);
    if rest == [] {
      pieces, tail := [], s;
      assert found + [] == found;
    } else {
      SplitsFrame(rest);
      var (payload, rest') := TakeFrame(rest).value;
      var points := decode(payload).value;
      var more;
      more, tail := AcceptedIsFrames(rest', limit, decode, found + points);
      pieces := [Piece(gap, payload)] + more;
      assert pieces[1..] == more;
      assert (found + points) + PointsOf(more, decode) == found + (points + PointsOf(more, decode));
    }
  }

  /** What one node encodes, any other decodes to the same points, if the codec does. */
  lemma FrameRoundTrip<P>(points: seq<P>, limit: nat, encode: Encoder<P>, decode: Decoder<P>)
    requires encode(points).Some? && |encode(points).value| < 0x1_0000_0000
    requires decode(encode(points).value) == Some(points)
    ensures IsBinaryPoints(Frame(encode(points).value))
    ensures Decode(Frame(encode(points).value), limit, decode, []) ==
            if |points| <= limit then Ok(points) else Err(TooLarge)
  {
    var payload := encode(points).value;
    var pieces := [Piece([], payload)];
    assert Body(pieces, []) == Frame(payload);
    assert PointsOf(pieces, decode) == points;
    DecodeConcatenates(pieces, [], limit, decode, []);
    assert [] + points == points;
  }
}
