/**
 How far the WAL may be truncated once entries up to `through` are flushed: a
 byte margin in a sharded cluster, and behind every peer's acknowledgement in
 an unsharded one.
 */
module TruncateBarrier {
  import opened Wrappers

  const MAX_WAL_RETENTION_ENTRIES: nat := 500_000
  const I64_MAX: int := 0x7fff_ffff_ffff_ffff

  datatype Config = Config(
    nodeId: nat,
    sharded: bool,
    replicated: bool,       // a replication log is attached
    membership: bool,       // a membership is attached
    heartbeatInterval: nat, // seconds
    missThreshold: nat,
    staleMultiplier: nat,
    retentionBytes: nat)

  /** A cluster member; one that is decommissioning or leaving is departing. */
  datatype Node = Node(id: nat, departing: bool, heartbeat: int)

  datatype EntrySize = EntrySize(seqno: nat, bytes: nat)

  /**
   What one truncation sees: the members, the clock, the acks as the staleness
   filter reads them (an ack that cannot be read counts as 0 there), the acks as
   the barrier reads them (nothing when that read fails), and the sizes of the
   entries this process wrote, oldest first.
   */
  datatype View = View(
    nodes: seq<Node>,
    now: int,
    filterAcks: map<nat, nat>,
    barrierAcks: Option<map<nat, nat>>,
    sizes: seq<EntrySize>)

  function Ack(acks: map<nat, nat>, id: nat): nat {
    if id in acks then acks[id] else 0
  }

  function SaturatingSub(a: nat, b: nat): nat {
    if a <= b then 0 else a - b
  }

  function SaturatingMul(a: int, b: int): int {
    if a * b > I64_MAX then I64_MAX else if a * b < -I64_MAX - 1 then -I64_MAX - 1 else a * b
  }

  /** A 64-bit unsigned value read as a signed one. */
  function AsI64(x: nat): int {
    var y := x % 0x1_0000_0000_0000_0000;
    if y <= I64_MAX then y else y - 0x1_0000_0000_0000_0000
  }

  /** Seconds without a heartbeat after which a peer that never acked is left out. */
  function StaleAfter(cfg: Config): int {
    var miss := if cfg.missThreshold == 0 then 1 else cfg.missThreshold;
    SaturatingMul(SaturatingMul(AsI64(cfg.heartbeatInterval), AsI64(miss)), AsI64(cfg.staleMultiplier))
  }

  // ----------------------------------------------------------------- sharded margin

  ghost predicate Ascending(sizes: seq<EntrySize>) {
    forall i, j :: 0 <= i < j < |sizes| ==> sizes[i].seqno < sizes[j].seqno
  }

  /** Bytes of the recorded entries in `(from, through]`. */
  ghost function KeptBytes(sizes: seq<EntrySize>, from: nat, through: nat): nat {
    if |sizes| == 0 then 0
    else
      var e := sizes[|sizes| - 1];
      KeptBytes(sizes[..|sizes| - 1], from, through) + if from < e.seqno <= through then e.bytes else 0
  }

  /** What is left once the entries past `through` at the end are skipped. */
  function Skipped(sizes: seq<EntrySize>, through: nat): (rest: seq<EntrySize>)
    ensures rest <= sizes && (|rest| > 0 ==> rest[|rest| - 1].seqno <= through)
  {
    if |sizes| == 0 || sizes[|sizes| - 1].seqno <= through then sizes else Skipped(sizes[..|sizes| - 1], through)
  }

  /** Walking back from the end while the budget lasts. */
  function WalkBack(sizes: seq<EntrySize>, maxBytes: nat, kept: nat, start: nat): nat {
    if |sizes| == 0 then start
    else
      var e := sizes[|sizes| - 1];
      if kept + e.bytes > maxBytes then e.seqno
      else WalkBack(sizes[..|sizes| - 1], maxBytes, kept + e.bytes, SaturatingSub(e.seqno, 1))
  }

  function FlushedMarginStart(sizes: seq<EntrySize>, through: nat, maxBytes: nat): nat {
    WalkBack(Skipped(sizes, through), maxBytes, 0, through)
  }

  method ComputeFlushedMargin(sizes: seq<EntrySize>, through: nat, maxBytes: nat) returns (start: nat)
    ensures start == FlushedMarginStart(sizes, through, maxBytes)
  {
    var n := |sizes|;
    assert sizes[..n] == sizes;
    while n > 0 && sizes[n - 1].seqno > through
      invariant 0 <= n <= |sizes| && Skipped(sizes[..n], through) == Skipped(sizes, through)
    {
      assert sizes[..n][..n - 1] == sizes[..n - 1];
      n := n - 1;
    }
    var kept: nat := 0;
    start := through;
    while n > 0
      invariant 0 <= n <= |sizes|
      invariant WalkBack(sizes[..n], maxBytes, kept, start) == FlushedMarginStart(sizes, through, maxBytes)
    {
      var e := sizes[n - 1];
      assert sizes[..n][..n - 1] == sizes[..n - 1];
      if kept + e.bytes > maxBytes {
        return e.seqno;
      }
      kept := kept + e.bytes;
      start := SaturatingSub(e.seqno, 1);
      n := n - 1;
    }
  }

  /** Bytes of the entries from position `n` on. */
  ghost function BytesFrom(sizes: seq<EntrySize>, n: nat): nat
    requires n <= |sizes|
    decreases |sizes| - n
  {
    if n == |sizes| then 0 else sizes[n].bytes + BytesFrom(sizes, n + 1)
  }

  /** How many of the oldest entries the walk leaves out. */
  ghost function LeftOut(sizes: seq<EntrySize>, maxBytes: nat, kept: nat): (n: nat)
    ensures n <= |sizes|
  {
    if |sizes| == 0 then 0
    else if kept + sizes[|sizes| - 1].bytes > maxBytes then |sizes|
    else LeftOut(sizes[..|sizes| - 1], maxBytes, kept + sizes[|sizes| - 1].bytes)
  }

  /** The newest one left out, or what is before the oldest. */
  ghost function MarginAt(sizes: seq<EntrySize>, n: nat, start: nat): nat
    requires n <= |sizes|
  {
    if n > 0 then sizes[n - 1].seqno else if |sizes| > 0 then SaturatingSub(sizes[0].seqno, 1) else start
  }

  lemma {:induction false} WalkIs(sizes: seq<EntrySize>, maxBytes: nat, kept: nat, start: nat)
    ensures WalkBack(sizes, maxBytes, kept, start) == MarginAt(sizes, LeftOut(sizes, maxBytes, kept), start)
  {
    if |sizes| > 0 {
      var last, e := |sizes| - 1, sizes[|sizes| - 1];
      if kept + e.bytes <= maxBytes {
        WalkIs(sizes[..last], maxBytes, kept + e.bytes, SaturatingSub(e.seqno, 1));
      }
    }
  }

  lemma {:induction false} BytesNext(sizes: seq<EntrySize>, n: nat)
    requires n < |sizes|
    ensures BytesFrom(sizes, n) == BytesFrom(sizes[..|sizes| - 1], n) + sizes[|sizes| - 1].bytes
    decreases |sizes| - n
  {
    if n < |sizes| - 1 { BytesNext(sizes, n + 1); }
  }

  /** The walk leaves out as few as the budget allows. */
  lemma {:induction false} LeftOutExact(sizes: seq<EntrySize>, maxBytes: nat, kept: nat)
    requires kept <= maxBytes
    ensures var n := LeftOut(sizes, maxBytes, kept);
            kept + BytesFrom(sizes, n) <= maxBytes && (n > 0 ==> kept + BytesFrom(sizes, n - 1) > maxBytes)
  {
    if |sizes| > 0 {
      var last, n := |sizes| - 1, LeftOut(sizes, maxBytes, kept);
      if kept + sizes[last].bytes <= maxBytes {
        LeftOutExact(sizes[..last], maxBytes, kept + sizes[last].bytes);
        BytesNext(sizes, n);
        if n > 0 { BytesNext(sizes, n - 1); }
      }
    }
  }

  /**
   Where the walk stops does not pass `through`: the newest entry left out, or, if all
   fit, what is before the oldest.
   */
  ghost predicate MarginWithin(sizes: seq<EntrySize>, through: nat, maxBytes: nat) {
    var rest := Skipped(sizes, through);
    var n := LeftOut(rest, maxBytes, 0);
    (n > 0 ==> rest[n - 1].seqno <= through) && (n == 0 && |rest| > 0 ==> rest[0].seqno <= through + 1)
  }

  /** The margin is within what is flushed exactly when the entry the walk stops at is. */
  lemma MarginExact(sizes: seq<EntrySize>, through: nat, maxBytes: nat)
    ensures FlushedMarginStart(sizes, through, maxBytes) <= through <==> MarginWithin(sizes, through, maxBytes)
  {
    WalkIs(Skipped(sizes, through), maxBytes, 0, through);
  }

  /** Sizes recorded in order always have it within. */
  lemma OrderedMarginWithin(sizes: seq<EntrySize>, through: nat, maxBytes: nat)
    requires Ascending(sizes)
    ensures MarginWithin(sizes, through, maxBytes)
  {
    var rest := Skipped(sizes, through);
    assert forall i :: 0 <= i < |rest| ==> rest[i].seqno <= rest[|rest| - 1].seqno;
  }

  /** Sizes recorded out of order need not: 7 was recorded before 5, so with 5 flushed the margin starts after 6. */
  lemma MarginPassesFlushed()
    ensures FlushedMarginStart([EntrySize(7, 1), EntrySize(5, 1)], 5, 2) == 6
  {
    var sizes := [EntrySize(7, 1), EntrySize(5, 1)];
    assert sizes[..1] == [EntrySize(7, 1)] && sizes[..1][..0] == [];
    assert Skipped(sizes, 5) == sizes;
    assert WalkBack([], 2, 2, 6) == 6;
    assert WalkBack(sizes[..1], 2, 1, 4) == 6;
  }

  lemma {:induction false} KeptSplits(sizes: seq<EntrySize>, n: nat, from: nat, through: nat)
    requires n <= |sizes|
    ensures KeptBytes(sizes, from, through) <= KeptBytes(sizes[..n], from, through) + BytesFrom(sizes, n)
  {
    if n < |sizes| {
      var last := |sizes| - 1;
      KeptSplits(sizes[..last], n, from, through);
      assert sizes[..last][..n] == sizes[..n];
      BytesNext(sizes, n);
    } else {
      assert sizes[..n] == sizes;
    }
  }

  lemma {:induction false} SkippedKeepNothing(sizes: seq<EntrySize>, from: nat, through: nat)
    ensures KeptBytes(sizes, from, through) == KeptBytes(Skipped(sizes, through), from, through)
  {
    if |sizes| > 0 && sizes[|sizes| - 1].seqno > through { SkippedKeepNothing(sizes[..|sizes| - 1], from, through); }
  }

  lemma {:induction false} NothingAbove(sizes: seq<EntrySize>, from: nat, through: nat)
    requires forall i :: 0 <= i < |sizes| ==> sizes[i].seqno <= from
    ensures KeptBytes(sizes, from, through) == 0
  {
    if |sizes| > 0 { NothingAbove(sizes[..|sizes| - 1], from, through); }
  }

  /** The entries the walk leaves out, newest last. */
  ghost function Older(sizes: seq<EntrySize>, through: nat, maxBytes: nat): seq<EntrySize> {
    var rest := Skipped(sizes, through);
    rest[..LeftOut(rest, maxBytes, 0)]
  }

  /**
   At most the budget stays behind the margin, and whatever was recorded out of order
   among the entries the walk leaves out; recorded in order, nothing was.
   */
  lemma MarginKeepsBudget(sizes: seq<EntrySize>, through: nat, maxBytes: nat)
    ensures var m := FlushedMarginStart(sizes, through, maxBytes);
            && KeptBytes(sizes, m, through) <= maxBytes + KeptBytes(Older(sizes, through, maxBytes), m, through)
            && (Ascending(sizes) ==> KeptBytes(Older(sizes, through, maxBytes), m, through) == 0)
  {
    var rest, m := Skipped(sizes, through), FlushedMarginStart(sizes, through, maxBytes);
    var n := LeftOut(rest, maxBytes, 0);
    WalkIs(rest, maxBytes, 0, through);
    LeftOutExact(rest, maxBytes, 0);
    SkippedKeepNothing(sizes, m, through);
    KeptSplits(rest, n, m, through);
    if Ascending(sizes) {
      NothingAbove(rest[..n], m, through);
    }
  }

  // ------------------------------------------------------------------------- peers

  /** Peers still owed this node's writes. */
  predicate IsPeer(cfg: Config, n: Node) {
    n.id != cfg.nodeId && !n.departing
  }

  /** A peer left out of the barrier: it never acked and its heartbeat is too old. */
  predicate Excluded(cfg: Config, view: View, n: Node) {
    && cfg.staleMultiplier > 0 && cfg.heartbeatInterval > 0
    && Ack(view.filterAcks, n.id) == 0
    && view.now - n.heartbeat > StaleAfter(cfg)
  }

  ghost function Peers(cfg: Config, nodes: seq<Node>): seq<Node> {
    if |nodes| == 0 then []
    else
      var before, n := Peers(cfg, nodes[..|nodes| - 1]), nodes[|nodes| - 1];
      if IsPeer(cfg, n) then before + [n] else before
  }

  ghost function Counted(cfg: Config, view: View, peers: seq<Node>): seq<Node> {
    if |peers| == 0 then []
    else
      var before, n := Counted(cfg, view, peers[..|peers| - 1]), peers[|peers| - 1];
      if Excluded(cfg, view, n) then before else before + [n]
  }

  ghost function MinAck(acks: map<nat, nat>, peers: seq<Node>): (m: nat)
    requires |peers| > 0
    ensures forall i :: 0 <= i < |peers| ==> m <= Ack(acks, peers[i].id)
    ensures exists i :: 0 <= i < |peers| && m == Ack(acks, peers[i].id)
  {
    var last := Ack(acks, peers[|peers| - 1].id);
    if |peers| == 1 then last
    else
      var m := MinAck(acks, peers[..|peers| - 1]);
      if last < m then last else m
  }

  ghost function MaxAck(acks: map<nat, nat>, peers: seq<Node>): (m: nat)
    requires |peers| > 0
    ensures forall i :: 0 <= i < |peers| ==> m >= Ack(acks, peers[i].id)
    ensures exists i :: 0 <= i < |peers| && m == Ack(acks, peers[i].id)
  {
    var last := Ack(acks, peers[|peers| - 1].id);
    if |peers| == 1 then last
    else
      var m := MaxAck(acks, peers[..|peers| - 1]);
      if last > m then last else m
  }

  method MinMaxAck(acks: map<nat, nat>, peers: seq<Node>) returns (lo: nat, hi: nat)
    requires |peers| > 0
    ensures lo == MinAck(acks, peers) && hi == MaxAck(acks, peers)
  {
    lo := Ack(acks, peers[0].id);
    hi := lo;
    for i := 1 to |peers|
      invariant lo == MinAck(acks, peers[..i]) && hi == MaxAck(acks, peers[..i])
    {
      assert peers[..i + 1][..i] == peers[..i];
      var a := Ack(acks, peers[i].id);
      lo := if a < lo then a else lo;
      hi := if a > hi then a else hi;
    }
    assert peers[..|peers|] == peers;
  }

  // ----------------------------------------------------------------------- barrier

  /** The acks' verdict once there are peers to wait for. */
  ghost function AckBarrier(view: View, counted: seq<Node>, through: nat): nat
    requires |counted| > 0
  {
    match view.barrierAcks
    case None => 0
    case Some(acks) =>
      var lo, hi := MinAck(acks, counted), MaxAck(acks, counted);
      if hi > 0 && lo == 0 then 0
      else if lo > 0 then (if through < lo then through else lo)
      else SaturatingSub(through, MAX_WAL_RETENTION_ENTRIES)
  }

  ghost function SafeTruncate(cfg: Config, view: View, lastLocal: nat, through: nat): nat {
    if cfg.sharded then FlushedMarginStart(view.sizes, through, cfg.retentionBytes)
    else if !cfg.replicated then through
    else
      var peers := if cfg.membership then Peers(cfg, view.nodes) else [];
      if |peers| == 0 then SaturatingSub(through, MAX_WAL_RETENTION_ENTRIES)
      else if lastLocal == 0 then through
      else
        var counted := Counted(cfg, view, peers);
        if |counted| == 0 then through else AckBarrier(view, counted, through)
  }

  method ReplicationPeers(cfg: Config, nodes: seq<Node>) returns (peers: seq<Node>)
    ensures peers == Peers(cfg, nodes)
  {
    peers := [];
    for i := 0 to |nodes|
      invariant peers == Peers(cfg, nodes[..i])
    {
      assert nodes[..i + 1][..i] == nodes[..i];
      if IsPeer(cfg, nodes[i]) {
        peers := peers + [nodes[i]];
      }
    }
    assert nodes[..|nodes|] == nodes;
  }

  method EffectivePeers(cfg: Config, view: View, peers: seq<Node>) returns (eff: seq<Node>)
    ensures eff == Counted(cfg, view, peers)
  {
    eff := [];
    for i := 0 to |peers|
      invariant eff == Counted(cfg, view, peers[..i])
    {
      assert peers[..i + 1][..i] == peers[..i];
      var n := peers[i];
      if !(cfg.staleMultiplier > 0 && cfg.heartbeatInterval > 0) || Ack(view.filterAcks, n.id) > 0 {
        eff := eff + [n];
      } else if view.now - n.heartbeat > StaleAfter(cfg) {
        // left out of the barrier
      } else {
        eff := eff + [n];
      }
    }
    assert peers[..|peers|] == peers;
  }

  method ComputeSafeTruncateSeq(cfg: Config, view: View, lastLocal: nat, through: nat) returns (safe: nat)
    ensures safe == SafeTruncate(cfg, view, lastLocal, through)
  {
    if cfg.sharded {
      safe := ComputeFlushedMargin(view.sizes, through, cfg.retentionBytes);
      return;
    }
    if !cfg.replicated {
      return through;
    }
    var peers := [];
    if cfg.membership {
      peers := ReplicationPeers(cfg, view.nodes);
    }
    if |peers| == 0 {
      return SaturatingSub(through, MAX_WAL_RETENTION_ENTRIES);
    }
    if lastLocal == 0 {
      return through;
    }
    var eff := EffectivePeers(cfg, view, peers);
    if |eff| == 0 {
      return through;
    }
    if view.barrierAcks.None? {
      return 0;
    }
    var lo, hi := MinMaxAck(view.barrierAcks.value, eff);
    if hi > 0 && lo == 0 {
      return 0;
    }
    if lo > 0 {
      return if through < lo then through else lo;
    }
    safe := SaturatingSub(through, MAX_WAL_RETENTION_ENTRIES);
  }

  // ---------------------------------------------------------------------- theorems

  /** A peer the barrier waits for. */
  predicate Waits(cfg: Config, view: View, n: Node) {
    cfg.membership && n in view.nodes && IsPeer(cfg, n) && !Excluded(cfg, view, n)
  }

  ghost predicate HasPeer(cfg: Config, view: View) {
    cfg.membership && exists n :: n in view.nodes && IsPeer(cfg, n)
  }

  /** Every peer the barrier waits for has acknowledged sequence `k`. */
  ghost predicate AllAcked(cfg: Config, view: View, k: nat) {
    forall n :: Waits(cfg, view, n) ==> view.barrierAcks.Some? && Ack(view.barrierAcks.value, n.id) >= k
  }

  /** No peer the barrier waits for has acknowledged anything. */
  ghost predicate NoneAcked(cfg: Config, view: View) {
    forall n :: Waits(cfg, view, n) ==> view.barrierAcks.Some? && Ack(view.barrierAcks.value, n.id) == 0
  }

  /**
   Why a locally originated entry `k` may go: every peer that counts has it, or
   none that counts (or none at all) has acknowledged anything and it lies a
   full retention window behind.
   */
  ghost predicate Justified(cfg: Config, view: View, through: nat, k: nat) {
    if HasPeer(cfg, view) && AllAcked(cfg, view, k) then true
    else (HasPeer(cfg, view) ==> NoneAcked(cfg, view)) && k + MAX_WAL_RETENTION_ENTRIES <= through
  }

  lemma {:induction false} PeersAre(cfg: Config, nodes: seq<Node>, n: Node)
    ensures n in Peers(cfg, nodes) <==> n in nodes && IsPeer(cfg, n)
  {
    if |nodes| > 0 {
      var i := |nodes| - 1;
      PeersAre(cfg, nodes[..i], n);
      assert nodes == nodes[..i] + [nodes[i]];
    }
  }

  lemma {:induction false} CountedAre(cfg: Config, view: View, peers: seq<Node>, n: Node)
    ensures n in Counted(cfg, view, peers) <==> n in peers && !Excluded(cfg, view, n)
  {
    if |peers| > 0 {
      var i := |peers| - 1;
      CountedAre(cfg, view, peers[..i], n);
      assert peers == peers[..i] + [peers[i]];
    }
  }

  lemma CountedWait(cfg: Config, view: View)
    requires cfg.membership
    ensures forall n :: n in Counted(cfg, view, Peers(cfg, view.nodes)) <==> Waits(cfg, view, n)
  {
    forall n ensures n in Counted(cfg, view, Peers(cfg, view.nodes)) <==> Waits(cfg, view, n) {
      PeersAre(cfg, view.nodes, n);
      CountedAre(cfg, view, Peers(cfg, view.nodes), n);
    }
  }

  lemma NoPeers(cfg: Config, view: View)
    ensures HasPeer(cfg, view) <==> cfg.membership && |Peers(cfg, view.nodes)| > 0
  {
    var peers := Peers(cfg, view.nodes);
    if |peers| > 0 {
      PeersAre(cfg, view.nodes, peers[0]);
    }
    if n :| n in view.nodes && IsPeer(cfg, n) {
      PeersAre(cfg, view.nodes, n);
    }
  }

  /**
   The barrier is exact: in an unsharded replicated cluster with local writes
   in its WAL, an entry is let go if and only if it is flushed and justified.
   */
  lemma BarrierExact(cfg: Config, view: View, lastLocal: nat, through: nat, k: nat)
    requires !cfg.sharded && cfg.replicated && lastLocal > 0 && k > 0
    ensures k <= SafeTruncate(cfg, view, lastLocal, through) <==> k <= through && Justified(cfg, view, through, k)
  {
    NoPeers(cfg, view);
    if HasPeer(cfg, view) {
      CountedWait(cfg, view);
      AckBarrierExact(cfg, view, Counted(cfg, view, Peers(cfg, view.nodes)), through, k);
    }
  }

  lemma AckBarrierExact(cfg: Config, view: View, counted: seq<Node>, through: nat, k: nat)
    requires k > 0 && forall n :: n in counted <==> Waits(cfg, view, n)
    ensures |counted| == 0 ==> AllAcked(cfg, view, k)
    ensures |counted| > 0 ==>
              (k <= AckBarrier(view, counted, through) <==>
                 k <= through && (AllAcked(cfg, view, k)
                   || (NoneAcked(cfg, view) && k + MAX_WAL_RETENTION_ENTRIES <= through)))
  {
    if |counted| > 0 {
      assert Waits(cfg, view, counted[0]);
      if view.barrierAcks.Some? {
        var acks := view.barrierAcks.value;
        var lo, hi := MinAck(acks, counted), MaxAck(acks, counted);
        var l :| 0 <= l < |counted| && lo == Ack(acks, counted[l].id);
        var h :| 0 <= h < |counted| && hi == Ack(acks, counted[h].id);
        assert Waits(cfg, view, counted[l]) && Waits(cfg, view, counted[h]);
        assert AllAcked(cfg, view, k) <==> lo >= k;
        assert NoneAcked(cfg, view) <==> hi == 0;
      }
    }
  }

  /** Truncation stays within what is flushed, but for a margin over sizes recorded out of order that does not. */
  lemma SafeTruncateBounded(cfg: Config, view: View, lastLocal: nat, through: nat)
    ensures SafeTruncate(cfg, view, lastLocal, through) <= through <==>
            (cfg.sharded ==> MarginWithin(view.sizes, through, cfg.retentionBytes))
  {
    MarginExact(view.sizes, through, cfg.retentionBytes);
  }
}
