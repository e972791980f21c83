/** Ranges of series ids and the deduplication tokens that name them. */
module HandoffRanges {
  import opened Wrappers
  import opened KeyOrder
  import opened Decimal

  const U64: nat := 0x1_0000_0000_0000_0000

  /** Half-open, or open ended. */
  datatype Range = Range(lo: nat, hi: Option<nat>)

  predicate Contains(r: Range, id: nat) {
    r.lo <= id && (r.hi.None? || id < r.hi.value)
  }

  /** A 128-bit value stored in 64 bits. */
  function AsU64(x: nat): nat {
    x % U64
  }

  function Span(n: nat): nat
    requires n > 0
  {
    U64 / n
  }

  function RangeAt(n: nat, i: nat): Range
    requires i < n
  {
    Range(AsU64(Span(n) * i), if i + 1 < n then Some(AsU64(Span(n) * (i + 1))) else None)
  }

  function HandoffRanges(count: nat): (ranges: seq<Range>)
    ensures |ranges| == if count == 0 then 1 else count
    ensures forall i :: 0 <= i < |ranges| ==> ranges[i] == RangeAt(|ranges|, i)
  {
    var n := if count == 0 then 1 else count;
    seq(n, i requires 0 <= i < n => RangeAt(n, i))
  }

  /** The range of `n` that holds id `id`. */
  function RangeIndex(n: nat, id: nat): (i: nat)
    ensures n > 0 ==> i < n
  {
    if n == 0 || Span(n) == 0 then 0
    else if id / Span(n) < n then id / Span(n) else n - 1
  }

  lemma SpanPositive(n: nat)
    requires 0 < n < U64
    ensures 0 < Span(n) && Span(n) * n <= U64
  {
    assert U64 == n * (U64 / n) + U64 % n;
  }

  lemma MulMonotone(a: nat, b: nat, c: nat)
    requires a <= b
    ensures a * c <= b * c
  {
    assert b * c == a * c + (b - a) * c;
  }

  /** No cast loses anything. */
  lemma BoundsFit(n: nat, i: nat)
    requires 0 < n < U64 && i < n
    ensures Span(n) * i < U64 && AsU64(Span(n) * i) == Span(n) * i
  {
    SpanPositive(n);
    MulMonotone(i + 1, n, Span(n));
    assert Span(n) * i + Span(n) == Span(n) * (i + 1);
  }

  /** The bounds of a range as plain numbers. */
  lemma RangeBounds(n: nat, i: nat)
    requires 0 < n < U64 && i < n
    ensures RangeAt(n, i) == Range(Span(n) * i, if i + 1 < n then Some(Span(n) * (i + 1)) else None)
    ensures RangeAt(n, i).lo < U64
    ensures RangeAt(n, i).hi.Some? ==> RangeAt(n, i).lo < RangeAt(n, i).hi.value < U64
  {
    BoundsFit(n, i);
    SpanPositive(n);
    if i + 1 < n {
      BoundsFit(n, i + 1);
      assert Span(n) * (i + 1) == Span(n) * i + Span(n);
    }
  }

  lemma DivisionBounds(id: nat, span: nat)
    requires span > 0
    ensures span * (id / span) <= id < span * (id / span + 1)
  {
    assert id == span * (id / span) + id % span;
    assert span * (id / span + 1) == span * (id / span) + span;
  }

  lemma ScaleMonotone(c: nat, a: nat, b: nat)
    requires a <= b
    ensures c * a <= c * b
  {
    MulMonotone(a, b, c);
  }

  /** With `a` and `b` the bounds of range `i`, and `qa` and `qb` those around the id. */
  lemma InOwnRange(n: nat, i: nat, q: nat, id: nat, a: nat, b: nat, qa: nat, qb: nat)
    requires i < n && a <= b && qa <= id < qb
    requires (i < q ==> b <= qa) && (i > q ==> qb <= a) && (i == q ==> a == qa && b == qb)
    ensures Contains(Range(a, if i + 1 < n then Some(b) else None), id) <==> i == if q < n then q else n - 1
  {
  }

  lemma SpansPartition(span: nat, n: nat, i: nat, id: nat)
    requires span > 0 && i < n
    ensures Contains(Range(span * i, if i + 1 < n then Some(span * (i + 1)) else None), id) <==>
            i == if id / span < n then id / span else n - 1
  {
    var q := id / span;
    DivisionBounds(id, span);
    ScaleMonotone(span, i, i + 1);
    if i < q {
      ScaleMonotone(span, i + 1, q);
    } else if i > q {
      ScaleMonotone(span, q + 1, i);
    }
    InOwnRange(n, i, q, id, span * i, span * (i + 1), span * q, span * (q + 1));
  }

  /**
   The ranges partition every 64-bit id, the largest included: range `i`
   contains `id` exactly when `i` is the id's index.
   */
  lemma RangesPartition(n: nat, i: nat, id: nat)
    requires 0 < n < U64 && i < n && id < U64
    ensures Contains(RangeAt(n, i), id) <==> i == RangeIndex(n, id)
  {
    SpanPositive(n);
    RangeBounds(n, i);
    SpansPartition(Span(n), n, i, id);
  }

  // ------------------------------------------------------------------------ tokens

  predicate IsTokenChar(c: char) {
    IsDigit(c) || 'a' <= c <= 'z' || 'A' <= c <= 'Z' || c == '-' || c == '.'
  }

  function Sanitize(s: string): (r: string)
    ensures |r| == |s|
    ensures forall i :: 0 <= i < |s| ==> r[i] == if IsTokenChar(s[i]) then s[i] else '_'
  {
    seq(|s|, i requires 0 <= i < |s| => if IsTokenChar(s[i]) then s[i] else '_')
  }

  function TableName(key: Key, series: bool): string {
    key.db + "." + key.rp + "." + key.measurement + "-" + if series then "series" else "fact"
  }

  const TOKEN_PREFIX := "hb-mv-handoff-"

  function RawToken(node: nat, key: Key, series: bool, index: nat, ranges: nat): string {
    TOKEN_PREFIX
    + (Digits(node) + ("-" + (TableName(key, series) + ("-" + (Digits(index) + ("-of-" + Digits(ranges)))))))
  }

  function Token(node: nat, key: Key, series: bool, index: nat, ranges: nat): string {
    Sanitize(RawToken(node, key, series, index, ranges))
  }

  lemma SanitizeAppend(a: string, b: string)
    ensures Sanitize(a + b) == Sanitize(a) + Sanitize(b)
  {
  }

  lemma SanitizePlain(s: string)
    requires forall i :: 0 <= i < |s| ==> IsTokenChar(s[i])
    ensures Sanitize(s) == s
  {
  }

  /** What follows the table's name. */
  function Position(index: nat, ranges: nat): string {
    "-" + (Digits(index) + ("-of-" + Digits(ranges)))
  }

  lemma PositionPlain(index: nat, ranges: nat)
    ensures Sanitize(Position(index, ranges)) == Position(index, ranges)
  {
    SanitizePlain(Position(index, ranges));
  }

  lemma NodePlain(node: nat, rest: string)
    ensures Sanitize(Digits(node) + ("-" + rest)) == Digits(node) + ("-" + Sanitize(rest))
  {
    SanitizeAppend(Digits(node), "-" + rest);
    SanitizeAppend("-", rest);
    SanitizePlain(Digits(node));
  }

  lemma TokenShape(node: nat, key: Key, series: bool, index: nat, ranges: nat)
    ensures Token(node, key, series, index, ranges) ==
            TOKEN_PREFIX + (Digits(node) + ("-" + (Sanitize(TableName(key, series)) + Position(index, ranges))))
  {
    var rest := TableName(key, series) + Position(index, ranges);
    SanitizeAppend(TOKEN_PREFIX, Digits(node) + ("-" + rest));
    SanitizePlain(TOKEN_PREFIX);
    NodePlain(node, rest);
    SanitizeAppend(TableName(key, series), Position(index, ranges));
    PositionPlain(index, ranges);
  }

  /** Equal strings with equally long heads have equal tails. */
  lemma DropHead(h: string, h': string, a: string, b: string)
    requires |h| == |h'| && h + a == h' + b
    ensures a == b
  {
    assert a == (h + a)[|h|..] && b == (h' + b)[|h|..];
  }

  /** For one table, tokens are injective in the node, the index and the range count. */
  lemma TokenInjective(key: Key, series: bool, n1: nat, i1: nat, r1: nat, n2: nat, i2: nat, r2: nat)
    requires Token(n1, key, series, i1, r1) == Token(n2, key, series, i2, r2)
    ensures n1 == n2 && i1 == i2 && r1 == r2
  {
    TokenShape(n1, key, series, i1, r1);
    TokenShape(n2, key, series, i2, r2);
    var name := Sanitize(TableName(key, series));
    var t1, t2 := name + Position(i1, r1), name + Position(i2, r2);
    DropHead(TOKEN_PREFIX, TOKEN_PREFIX, Digits(n1) + ("-" + t1), Digits(n2) + ("-" + t2));
    NumeralEnds(n1, n2, '-', t1, t2);
    DropHead(name, name, Position(i1, r1), Position(i2, r2));
    DropHead("-", "-", Digits(i1) + ("-of-" + Digits(r1)), Digits(i2) + ("-of-" + Digits(r2)));
    assert "-of-" + Digits(r1) == "-" + ("of-" + Digits(r1)) && "-of-" + Digits(r2) == "-" + ("of-" + Digits(r2));
    NumeralEnds(i1, i2, '-', "of-" + Digits(r1), "of-" + Digits(r2));
    DropHead("of-", "of-", Digits(r1), Digits(r2));
    ParseDigits(r1);
    ParseDigits(r2);
  }

  /** Every token passes the receiver's check of its characters. */
  lemma TokenIsSafe(node: nat, key: Key, series: bool, index: nat, ranges: nat)
    ensures forall c :: c in Token(node, key, series, index, ranges) ==> IsTokenChar(c) || c == '_'
  {
  }
}
