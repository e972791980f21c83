/**
 The clients' batched writes. A batch the server refuses as too large (413) is
 halved and retried: the Rust client keeps an explicit stack of parts, the Go
 client recurses. Both are the same algorithm, and both account exactly for
 the lines the server acknowledged.
 */
module ClientWrite {
  import opened Unicode
  import opened Wrappers

  type Line = string
  type Request = seq<Line>

  /** The final answer to one request, after the transport's own retries. */
  datatype Reply = Status(code: nat, message: string) | Unreachable

  /** Any server: what it answers to the last of the requests it has had. */
  type Server = seq<Request> -> Reply

  datatype Error =
    | Connection
    | ServerError(code: nat, message: string)
    | Auth(code: nat, message: string)
    | WriteRefused(code: nat, message: string)
    | WriteInterrupted(written: nat, source: Error)

  /** Lines stored before a write failed. */
  function Written(e: Error): nat {
    if e.WriteInterrupted? then e.written else 0
  }

  /** `e` after `before` lines were written. */
  function Interrupted(e: Error, before: nat): Error {
    if before == 0 then e
    else match e
      case WriteInterrupted(written, source) => WriteInterrupted(before + written, source)
      case _ => WriteInterrupted(before, e)
  }

  function StatusError(code: nat, message: string): Error {
    if code == 401 || code == 403 then Auth(code, message)
    else if code >= 500 || code == 429 then ServerError(code, message)
    else WriteRefused(code, message)
  }

  predicate Acknowledged(r: Reply) {
    r.Status? && (r.code == 200 || r.code == 204)
  }

  predicate TooLarge(r: Reply) {
    r.Status? && r.code == 413
  }

  // ----------------------------------------------------------- Go: recursive halving

  /** How many lines were written, the error if any, and every request sent so far. */
  datatype Outcome = Outcome(written: nat, error: Option<Error>, sent: seq<Request>)

  function WriteBatch(server: Server, sent: seq<Request>, batch: seq<Line>): (o: Outcome)
    ensures |sent| < |o.sent| && o.sent[..|sent|] == sent
    ensures o.error.Some? ==> !o.error.value.WriteInterrupted?
    decreases |batch|
  {
    var sent1 := sent + [batch];
    var reply := server(sent1);
    if reply.Unreachable? then Outcome(0, Some(Connection), sent1)
    else if Acknowledged(reply) then Outcome(|batch|, None, sent1)
    else if TooLarge(reply) && |batch| > 1 then
      var half := |batch| / 2;
      var first := WriteBatch(server, sent1, batch[..half]);
      if first.error.Some? then first
      else
        var second := WriteBatch(server, first.sent, batch[half..]);
        Outcome(first.written + second.written, second.error, second.sent)
    else Outcome(0, Some(StatusError(reply.code, reply.message)), sent1)
  }

  /** Parts written one after the other, up to the first error. */
  ghost function WriteParts(server: Server, sent: seq<Request>, parts: seq<seq<Line>>): (o: Outcome)
    ensures |sent| <= |o.sent| && o.sent[..|sent|] == sent
    ensures o.error.Some? ==> !o.error.value.WriteInterrupted?
    decreases |parts|
  {
    if |parts| == 0 then Outcome(0, None, sent)
    else
      var first := WriteBatch(server, sent, parts[0]);
      if first.error.Some? then first
      else
        var rest := WriteParts(server, first.sent, parts[1..]);
        Outcome(first.written + rest.written, rest.error, rest.sent)
  }

  // ---------------------------------------------------------- Rust: an explicit stack

  /** The stack from its top down. */
  ghost function TopDown(stack: seq<seq<Line>>): (parts: seq<seq<Line>>)
    ensures |parts| == |stack|
  {
    if |stack| == 0 then [] else [stack[|stack| - 1]] + TopDown(stack[..|stack| - 1])
  }

  function PartCost(part: seq<Line>): nat {
    if |part| == 0 then 1 else 2 * |part| - 1
  }

  /** The most requests the stack can still send. */
  ghost function StackCost(stack: seq<seq<Line>>): nat {
    if |stack| == 0 then 0 else StackCost(stack[..|stack| - 1]) + PartCost(stack[|stack| - 1])
  }

  ghost function AsResult(o: Outcome): Result<nat, Error> {
    if o.error.None? then Ok(o.written) else Err(Interrupted(o.error.value, o.written))
  }

  ghost function AddWritten(written: nat, o: Outcome): Outcome {
    o.(written := written + o.written)
  }

  /**
   The explicit stack is recursive halving: the same requests in the same order
   and the same count of written lines, also when an error ends it early. Each
   turn lowers the sum of `2 * len - 1` over the stack.
   */
  method WriteBatchStack(server: Server, sent0: seq<Request>, batch: seq<Line>)
    returns (r: Result<nat, Error>, sent: seq<Request>)
    ensures var o := WriteBatch(server, sent0, batch);
            sent == o.sent && r == AsResult(o)
  {
    ghost var whole := WriteBatch(server, sent0, batch);
    var written: nat := 0;
    var stack := [batch];
    sent := sent0;
    SinglePart(server, sent0, batch);
    while |stack| > 0
      invariant AddWritten(written, WriteParts(server, sent, TopDown(stack))) == whole
      decreases StackCost(stack)
    {
      StackTurn(server, sent, stack);
      var part := stack[|stack| - 1];
      stack := stack[..|stack| - 1];
      sent := sent + [part];
      var reply := server(sent);
      if reply.Unreachable? {
        return Err(Interrupted(Connection, written)), sent;
      }
      if Acknowledged(reply) {
        written := written + |part|;
      } else if TooLarge(reply) && |part| > 1 {
        var a, b := part[..|part| / 2], part[|part| / 2..];
        stack := stack + [b] + [a];
      } else {
        return Err(Interrupted(StatusError(reply.code, reply.message), written)), sent;
      }
    }
    r := Ok(written);
  }

  /** What taking the top part off the stack does to what is still to be written. */
  lemma StackTurn(server: Server, sent: seq<Request>, stack: seq<seq<Line>>)
    requires |stack| > 0
    ensures var part, rest := stack[|stack| - 1], stack[..|stack| - 1];
            var sent1 := sent + [part];
            var reply := server(sent1);
            var o := WriteParts(server, sent, TopDown(stack));
            if reply.Unreachable? then o == Outcome(0, Some(Connection), sent1)
            else if Acknowledged(reply) then
              o == AddWritten(|part|, WriteParts(server, sent1, TopDown(rest))) && StackCost(rest) < StackCost(stack)
            else if TooLarge(reply) && |part| > 1 then
              var pushed := rest + [part[|part| / 2..]] + [part[..|part| / 2]];
              o == WriteParts(server, sent1, TopDown(pushed)) && StackCost(pushed) < StackCost(stack)
            else o == Outcome(0, Some(StatusError(reply.code, reply.message)), sent1)
  {
    var part, rest := stack[|stack| - 1], stack[..|stack| - 1];
    assert TopDown(stack)[1..] == TopDown(rest);
    if TooLarge(server(sent + [part])) && |part| > 1 {
      var a, b := part[..|part| / 2], part[|part| / 2..];
      assert a + b == part;
      HalvesInOrder(server, sent + [part], a, b, TopDown(rest));
      PushHalves(rest, a, b);
    }
  }

  lemma SinglePart(server: Server, sent: seq<Request>, batch: seq<Line>)
    ensures WriteParts(server, sent, TopDown([batch])) == WriteBatch(server, sent, batch)
  {
    assert [batch][..0] == [];
    assert TopDown([batch]) == [batch];
    var o := WriteBatch(server, sent, batch);
    assert [batch][1..] == [];
    assert WriteParts(server, o.sent, []) == Outcome(0, None, o.sent);
  }

  /** Pushing the second half before the first leaves the first on top, and lowers the cost. */
  lemma PushHalves(stack: seq<seq<Line>>, a: seq<Line>, b: seq<Line>)
    requires |a| > 0 && |b| > 0
    ensures TopDown(stack + [b] + [a]) == [a, b] + TopDown(stack)
    ensures StackCost(stack + [b] + [a]) < StackCost(stack) + PartCost(a + b)
  {
    assert (stack + [b] + [a])[..|stack| + 1] == stack + [b];
    assert (stack + [b])[..|stack|] == stack;
  }

  /** Writing two halves and then the rest is writing their parts in a row. */
  lemma HalvesInOrder(server: Server, sent: seq<Request>, a: seq<Line>, b: seq<Line>, rest: seq<seq<Line>>)
    ensures var first := WriteBatch(server, sent, a);
            WriteParts(server, sent, [a, b] + rest) ==
              if first.error.Some? then first
              else
                var second := WriteBatch(server, first.sent, b);
                if second.error.Some? then Outcome(first.written + second.written, second.error, second.sent)
                else
                  var more := WriteParts(server, second.sent, rest);
                  Outcome(first.written + second.written + more.written, more.error, more.sent)
  {
    assert ([a, b] + rest)[1..] == [b] + rest;
    assert ([b] + rest)[1..] == rest;
  }

  // ------------------------------------------------------------------------ theorems

  /** The lines of the acknowledged requests from number `from` on, in the order sent. */
  ghost function AckedLines(server: Server, sent: seq<Request>, from: nat): seq<Line>
    requires from <= |sent|
    decreases |sent|
  {
    if |sent| == from then []
    else
      var n := |sent| - 1;
      AckedLines(server, sent[..n], from) + if Acknowledged(server(sent)) then sent[n] else []
  }

  lemma {:induction false} AckedSplit(server: Server, sent: seq<Request>, mid: nat, from: nat)
    requires from <= mid <= |sent|
    ensures AckedLines(server, sent, from) == AckedLines(server, sent[..mid], from) + AckedLines(server, sent, mid)
    decreases |sent|
  {
    if |sent| == mid {
      assert sent[..mid] == sent;
    } else {
      var n := |sent| - 1;
      AckedSplit(server, sent[..n], mid, from);
      assert sent[..n][..mid] == sent[..mid];
    }
  }

  /** One request: what it acknowledged. */
  lemma AckedOne(server: Server, sent: seq<Request>, batch: seq<Line>)
    ensures AckedLines(server, sent + [batch], |sent|) == if Acknowledged(server(sent + [batch])) then batch else []
  {
    assert (sent + [batch])[..|sent|] == sent;
    assert AckedLines(server, sent, |sent|) == [];
  }

  /**
   The requests after `sent` acknowledged exactly the first `o.written` of `lines`,
   all of them unless there is an error.
   */
  ghost predicate AcksPrefix(server: Server, sent: seq<Request>, lines: seq<Line>, o: Outcome) {
    && o.written <= |lines| && (o.error.None? ==> o.written == |lines|)
    && |sent| <= |o.sent| && o.sent[..|sent|] == sent
    && AckedLines(server, o.sent, |sent|) == lines[..o.written]
  }

  /** Two writes in a row, the second after the first succeeded, acknowledge a prefix of both. */
  lemma AcksInARow(server: Server, sent: seq<Request>, a: seq<Line>, b: seq<Line>, first: Outcome, second: Outcome)
    requires AcksPrefix(server, sent, a, first) && first.error.None?
    requires AcksPrefix(server, first.sent, b, second)
    ensures AcksPrefix(server, sent, a + b, Outcome(first.written + second.written, second.error, second.sent))
  {
    AckedSplit(server, second.sent, |first.sent|, |sent|);
    assert second.sent[..|sent|] == second.sent[..|first.sent|][..|sent|];
    assert a[..|a|] == a;
    assert (a + b)[..|a| + second.written] == a + b[..second.written];
  }

  /** A first write that fails has acknowledged a prefix of both. */
  lemma AcksUpToError(server: Server, sent: seq<Request>, a: seq<Line>, b: seq<Line>, first: Outcome)
    requires AcksPrefix(server, sent, a, first) && first.error.Some?
    ensures AcksPrefix(server, sent, a + b, first)
  {
    assert (a + b)[..first.written] == a[..first.written];
  }

  /** A refused request before the writes acknowledges nothing of its own. */
  lemma AcksAfterRefusal(server: Server, sent: seq<Request>, batch: seq<Line>, lines: seq<Line>, o: Outcome)
    requires !Acknowledged(server(sent + [batch])) && AcksPrefix(server, sent + [batch], lines, o)
    ensures AcksPrefix(server, sent, lines, o)
  {
    AckedOne(server, sent, batch);
    AckedSplit(server, o.sent, |sent| + 1, |sent|);
    assert o.sent[..|sent|] == o.sent[..|sent| + 1][..|sent|] == sent;
  }

  /**
   A batch is acknowledged from its first line on, in order and without gaps:
   the count returned is the length of the acknowledged prefix, the whole batch
   unless there is an error.
   */
  lemma {:induction false} WriteBatchAcksPrefix(server: Server, sent: seq<Request>, batch: seq<Line>)
    ensures AcksPrefix(server, sent, batch, WriteBatch(server, sent, batch))
    decreases |batch|
  {
    var sent1 := sent + [batch];
    var reply := server(sent1);
    if TooLarge(reply) && |batch| > 1 {
      var a, b := batch[..|batch| / 2], batch[|batch| / 2..];
      assert batch == a + b;
      WriteBatchAcksPrefix(server, sent1, a);
      var first := WriteBatch(server, sent1, a);
      if first.error.Some? {
        AcksUpToError(server, sent1, a, b, first);
      } else {
        WriteBatchAcksPrefix(server, first.sent, b);
        AcksInARow(server, sent1, a, b, first, WriteBatch(server, first.sent, b));
      }
      AcksAfterRefusal(server, sent, batch, batch, WriteBatch(server, sent, batch));
    } else {
      AckedOne(server, sent, batch);
    }
  }

  /** At most `2n - 1` requests for `n` lines (one for an empty batch). */
  lemma {:induction false} RequestBound(server: Server, sent: seq<Request>, batch: seq<Line>)
    ensures |WriteBatch(server, sent, batch).sent| <= |sent| + PartCost(batch)
    decreases |batch|
  {
    var sent1 := sent + [batch];
    if TooLarge(server(sent1)) && |batch| > 1 {
      var half := |batch| / 2;
      RequestBound(server, sent1, batch[..half]);
      RequestBound(server, WriteBatch(server, sent1, batch[..half]).sent, batch[half..]);
    }
  }

  /** The bound is reached: a server that takes single lines only needs all of them. */
  lemma {:induction false} RequestBoundIsTight(server: Server, sent: seq<Request>, batch: seq<Line>)
    requires forall h :: |h| > 0 ==> server(h) == Status(if |h[|h| - 1]| > 1 then 413 else 204, "")
    ensures var o := WriteBatch(server, sent, batch);
            o.error.None? && |o.sent| == |sent| + PartCost(batch)
    decreases |batch|
  {
    var sent1 := sent + [batch];
    assert sent1[|sent1| - 1] == batch;
    if |batch| > 1 {
      var half := |batch| / 2;
      RequestBoundIsTight(server, sent1, batch[..half]);
      RequestBoundIsTight(server, WriteBatch(server, sent1, batch[..half]).sent, batch[half..]);
    }
  }

  // -------------------------------------------------------------- whole writes

  /** Bytes of a line on the wire. */
  function Utf8Bytes(c: char): nat {
    var x := c as int;
    if x < 0x80 then 1 else if x < 0x800 then 2 else if x < 0x10000 then 3 else 4
  }

  function ByteLen(line: Line): nat {
    if |line| == 0 then 0 else ByteLen(line[..|line| - 1]) + Utf8Bytes(line[|line| - 1])
  }

  predicate Blank(line: Line) {
    forall i :: 0 <= i < |line| ==> IsSpace(line[i])
  }

  ghost function NonBlank(lines: seq<Line>): seq<Line> {
    if |lines| == 0 then []
    else
      var n := |lines| - 1;
      NonBlank(lines[..n]) + if Blank(lines[n]) then [] else [lines[n]]
  }

  function Size(batch: seq<Line>): nat {
    if |batch| == 0 then 0 else Size(batch[..|batch| - 1]) + ByteLen(batch[|batch| - 1]) + 1
  }

  /** Batches closed so far and the open one. */
  datatype Batching = Batching(closed: seq<seq<Line>>, open: seq<Line>)

  /** Greedy batching: close the open batch when one more line would pass a limit. */
  ghost function Batched(lines: seq<Line>, points: nat, bytes: nat): Batching {
    if |lines| == 0 then Batching([], [])
    else
      var n := |lines| - 1;
      var b, line := Batched(lines[..n], points, bytes), lines[n];
      if Blank(line) then b
      else if Closes(|b.open|, Size(b.open), line, points, bytes) then
        Batching(b.closed + [b.open], [line])
      else Batching(b.closed, b.open + [line])
  }

  /** Whether one more line closes the open batch. */
  predicate Closes(open: nat, size: nat, line: Line, points: nat, bytes: nat) {
    open > 0 && (open >= points || size + ByteLen(line) + 1 > bytes)
  }

  lemma BatchedNext(lines: seq<Line>, i: nat, points: nat, bytes: nat)
    requires i < |lines|
    ensures var b, line := Batched(lines[..i], points, bytes), lines[i];
            Batched(lines[..i + 1], points, bytes) ==
              if Blank(line) then b
              else if Closes(|b.open|, Size(b.open), line, points, bytes) then Batching(b.closed + [b.open], [line])
              else Batching(b.closed, b.open + [line])
  {
    assert lines[..i + 1][..i] == lines[..i];
  }

  lemma SizeSnoc(batch: seq<Line>, line: Line)
    ensures Size(batch + [line]) == Size(batch) + ByteLen(line) + 1
  {
    assert (batch + [line])[..|batch|] == batch;
  }

  /** The batches a write is sent as. */
  ghost function Batches(lines: seq<Line>, points: nat, bytes: nat): seq<seq<Line>> {
    var b := Batched(lines, points, bytes);
    if |b.open| == 0 then b.closed else b.closed + [b.open]
  }

  /** Parts written in two runs. */
  lemma {:induction false} PartsAppend(server: Server, sent: seq<Request>, a: seq<seq<Line>>, b: seq<seq<Line>>)
    ensures var x := WriteParts(server, sent, a);
            WriteParts(server, sent, a + b) ==
              if x.error.Some? then x else AddWritten(x.written, WriteParts(server, x.sent, b))
    decreases |a|
  {
    if |a| == 0 {
      assert a + b == b;
    } else {
      assert (a + b)[0] == a[0] && (a + b)[1..] == a[1..] + b;
      PartsAppend(server, WriteBatch(server, sent, a[0]).sent, a[1..], b);
    }
  }

  /** Once a batch is closed it stays the batch it is. */
  lemma {:induction false} ClosedStay(lines: seq<Line>, points: nat, bytes: nat, i: nat)
    requires i <= |lines|
    ensures Batched(lines[..i], points, bytes).closed <= Batches(lines, points, bytes)
    ensures Batched(lines[..i], points, bytes).closed <= Batched(lines, points, bytes).closed
    decreases |lines|
  {
    if i < |lines| {
      var n := |lines| - 1;
      ClosedStay(lines[..n], points, bytes, i);
      assert lines[..n][..i] == lines[..i];
    } else {
      assert lines[..i] == lines;
    }
  }

  /** Write one more batch after those already written. */
  method WriteNext(server: Server, ghost sent0: seq<Request>, ghost closed: seq<seq<Line>>, total: nat,
                   sent: seq<Request>, batch: seq<Line>)
    returns (r: Result<nat, Error>, sent': seq<Request>)
    requires WriteParts(server, sent0, closed) == Outcome(total, None, sent)
    ensures var o := WriteParts(server, sent0, closed + [batch]);
            sent' == o.sent && r == AsResult(o)
  {
    PartsAppend(server, sent0, closed, [batch]);
    SinglePart(server, sent, batch);
    assert TopDown([batch]) == [batch] by { assert [batch][..0] == []; }
    var w;
    w, sent' := WriteBatchStack(server, sent, batch);
    if w.Err? {
      return Err(Interrupted(w.error, total)), sent';
    }
    r := Ok(total + w.value);
  }

  /** The Rust client: batches written as they fill, an error counting everything before it. */
  method RustWriteLines(server: Server, sent0: seq<Request>, lines: seq<Line>, points: nat, bytes: nat)
    returns (r: Result<nat, Error>, sent: seq<Request>)
    ensures var o := WriteParts(server, sent0, Batches(lines, points, bytes));
            sent == o.sent && r == AsResult(o)
  {
    var total: nat := 0;
    var batch: seq<Line> := [];
    var size: nat := 0;
    sent := sent0;
    ghost var closed: seq<seq<Line>> := [];
    for i := 0 to |lines|
      invariant Batched(lines[..i], points, bytes) == Batching(closed, batch) && size == Size(batch)
      invariant WriteParts(server, sent0, closed) == Outcome(total, None, sent)
    {
      BatchedNext(lines, i, points, bytes);
      var line := lines[i];
      if Blank(line) {
        continue;
      }
      if Closes(|batch|, size, line, points, bytes) {
        r, sent := WriteNext(server, sent0, closed, total, sent, batch);
        closed := closed + [batch];
        if r.Err? {
          StopsAtError(server, sent0, lines, points, bytes, i + 1);
          return;
        }
        total := r.value;
        batch, size := [], 0;
      }
      size := size + ByteLen(line) + 1;
      SizeSnoc(batch, line);
      batch := batch + [line];
    }
    assert lines[..|lines|] == lines;
    if |batch| > 0 {
      r, sent := WriteNext(server, sent0, closed, total, sent, batch);
      return;
    }
    r := Ok(total);
  }

  /** An error in a closed batch is the error of the whole write. */
  lemma StopsAtError(server: Server, sent: seq<Request>, lines: seq<Line>, points: nat, bytes: nat, i: nat)
    requires i <= |lines| && WriteParts(server, sent, Batched(lines[..i], points, bytes).closed).error.Some?
    ensures WriteParts(server, sent, Batches(lines, points, bytes)) ==
            WriteParts(server, sent, Batched(lines[..i], points, bytes).closed)
  {
    ClosedStay(lines, points, bytes, i);
    var closed, all := Batched(lines[..i], points, bytes).closed, Batches(lines, points, bytes);
    assert all == closed + all[|closed|..];
    PartsAppend(server, sent, closed, all[|closed|..]);
  }

  /**
   The Go client: the same batches, each by recursive halving, with the count
   of written lines returned beside the error.
   */
  method GoWriteLines(server: Server, sent0: seq<Request>, lines: seq<Line>, points: nat, bytes: nat)
    returns (n: nat, err: Option<Error>, sent: seq<Request>)
    ensures Outcome(n, err, sent) == WriteParts(server, sent0, Batches(lines, points, bytes))
  {
    n, err, sent := 0, None, sent0;
    var batch: seq<Line> := [];
    var size: nat := 0;
    ghost var closed: seq<seq<Line>> := [];
    for i := 0 to |lines|
      invariant Batched(lines[..i], points, bytes) == Batching(closed, batch) && size == Size(batch)
      invariant err.None? && WriteParts(server, sent0, closed) == Outcome(n, None, sent)
    {
      BatchedNext(lines, i, points, bytes);
      var line := lines[i];
      if Blank(line) {
        continue;
      }
      if Closes(|batch|, size, line, points, bytes) {
        n, err, sent := GoFlush(server, sent0, closed, n, sent, batch);
        closed := closed + [batch];
        if err.Some? {
          StopsAtError(server, sent0, lines, points, bytes, i + 1);
          return;
        }
        batch, size := [], 0;
      }
      SizeSnoc(batch, line);
      batch := batch + [line];
      size := size + ByteLen(line) + 1;
    }
    assert lines[..|lines|] == lines;
    if |batch| > 0 {
      n, err, sent := GoFlush(server, sent0, closed, n, sent, batch);
    }
  }

  method GoFlush(server: Server, ghost sent0: seq<Request>, ghost closed: seq<seq<Line>>, n: nat, sent: seq<Request>,
                 batch: seq<Line>)
    returns (n': nat, err: Option<Error>, sent': seq<Request>)
    requires WriteParts(server, sent0, closed) == Outcome(n, None, sent)
    ensures Outcome(n', err, sent') == WriteParts(server, sent0, closed + [batch])
  {
    PartsAppend(server, sent0, closed, [batch]);
    SinglePart(server, sent, batch);
    assert TopDown([batch]) == [batch] by { assert [batch][..0] == []; }
    var o := WriteBatch(server, sent, batch);
    n', err, sent' := n + o.written, o.error, o.sent;
  }

  // ----------------------------------------------------------------- accounting

  ghost function Flatten(parts: seq<seq<Line>>): seq<Line> {
    if |parts| == 0 then [] else Flatten(parts[..|parts| - 1]) + parts[|parts| - 1]
  }

  lemma {:induction false} FlattenHead(parts: seq<seq<Line>>)
    requires |parts| > 0
    ensures Flatten(parts) == parts[0] + Flatten(parts[1..])
    decreases |parts|
  {
    var n := |parts| - 1;
    if n > 0 {
      FlattenHead(parts[..n]);
      assert parts[..n][1..] == parts[1..][..n - 1];
    }
  }

  lemma {:induction false} PartsAckPrefix(server: Server, sent: seq<Request>, parts: seq<seq<Line>>)
    ensures AcksPrefix(server, sent, Flatten(parts), WriteParts(server, sent, parts))
    decreases |parts|
  {
    if |parts| > 0 {
      FlattenHead(parts);
      WriteBatchAcksPrefix(server, sent, parts[0]);
      var first := WriteBatch(server, sent, parts[0]);
      if first.error.Some? {
        AcksUpToError(server, sent, parts[0], Flatten(parts[1..]), first);
      } else {
        PartsAckPrefix(server, first.sent, parts[1..]);
        AcksInARow(server, sent, parts[0], Flatten(parts[1..]), first, WriteParts(server, first.sent, parts[1..]));
      }
    }
  }

  ghost predicate WithinLimits(batch: seq<Line>, points: nat, bytes: nat) {
    |batch| == 1 || (1 < |batch| <= points && Size(batch) <= bytes)
  }

  lemma AppendWithin(open: seq<Line>, line: Line, points: nat, bytes: nat)
    requires |open| == 0
             || (WithinLimits(open, points, bytes) && |open| < points && Size(open) + ByteLen(line) + 1 <= bytes)
    ensures WithinLimits(open + [line], points, bytes)
  {
    assert (open + [line])[..|open|] == open;
  }

  lemma FlattenSnoc(parts: seq<seq<Line>>, part: seq<Line>)
    ensures Flatten(parts + [part]) == Flatten(parts) + part
  {
    assert (parts + [part])[..|parts|] == parts;
  }

  lemma {:induction false} BatchedHoldsLines(lines: seq<Line>, points: nat, bytes: nat)
    ensures var b := Batched(lines, points, bytes); Flatten(b.closed) + b.open == NonBlank(lines)
    decreases |lines|
  {
    if |lines| > 0 {
      var n := |lines| - 1;
      BatchedHoldsLines(lines[..n], points, bytes);
      var b := Batched(lines[..n], points, bytes);
      FlattenSnoc(b.closed, b.open);
      assert Flatten(b.closed) + (b.open + [lines[n]]) == (Flatten(b.closed) + b.open) + [lines[n]];
    }
  }

  ghost predicate AllWithin(batches: seq<seq<Line>>, points: nat, bytes: nat) {
    forall i :: 0 <= i < |batches| ==> WithinLimits(batches[i], points, bytes)
  }

  lemma {:induction false} BatchedWithinLimits(lines: seq<Line>, points: nat, bytes: nat)
    ensures var b := Batched(lines, points, bytes);
            AllWithin(b.closed, points, bytes) && (|b.open| == 0 || WithinLimits(b.open, points, bytes))
    decreases |lines|
  {
    if |lines| > 0 {
      var n := |lines| - 1;
      BatchedWithinLimits(lines[..n], points, bytes);
      var b, line := Batched(lines[..n], points, bytes), lines[n];
      if !Blank(line) && !Closes(|b.open|, Size(b.open), line, points, bytes) {
        AppendWithin(b.open, line, points, bytes);
      }
    }
  }

  /**
   The batches hold every non-blank line once, in order; each respects the
   point and byte limits unless it is a single line.
   */
  lemma BatchesAreFaithful(lines: seq<Line>, points: nat, bytes: nat)
    ensures Flatten(Batches(lines, points, bytes)) == NonBlank(lines)
    ensures AllWithin(Batches(lines, points, bytes), points, bytes)
  {
    BatchedHoldsLines(lines, points, bytes);
    BatchedWithinLimits(lines, points, bytes);
    var b := Batched(lines, points, bytes);
    FlattenSnoc(b.closed, b.open);
  }

  /**
   Whole-write accounting: `Ok(n)` means all `n` non-blank lines were
   acknowledged, in order; on an error `written()` is exactly the length of the
   acknowledged prefix.
   */
  lemma WholeWriteAccounting(server: Server, sent: seq<Request>, lines: seq<Line>, points: nat, bytes: nat)
    ensures var o := WriteParts(server, sent, Batches(lines, points, bytes));
            match AsResult(o)
            case Ok(n) => n == |NonBlank(lines)| && AckedLines(server, o.sent, |sent|) == NonBlank(lines)
            case Err(e) =>
              Written(e) <= |NonBlank(lines)|
              && AckedLines(server, o.sent, |sent|) == NonBlank(lines)[..Written(e)]
  {
    BatchesAreFaithful(lines, points, bytes);
    PartsAckPrefix(server, sent, Batches(lines, points, bytes));
    assert NonBlank(lines)[..|NonBlank(lines)|] == NonBlank(lines);
  }
}
