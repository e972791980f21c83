/**
 The flush: read the WAL in bounded chunks by two paths, insert them, hold a
 whole chunk when any insert failed, advance the watermark and truncate behind
 the barrier. Every insert may fail, every port call may fail, and entries may
 land and peers may ack at any step.
 */
module FlushService {
  import opened Wrappers
  import opened Points
  import opened KeyOrder
  import C = ColumnStack
  import N = NativeChunk
  import P = PreparedChunk
  import B = TruncateBarrier

  const WAL_READ_CHUNK: nat := 5_000
  const NATIVE_CHUNK_BATCHES: nat := 4
  const DEFAULT_MAX_POINTS_PER_BATCH: nat := 50_000
  const MIN_BATCH_POINTS: nat := 10_000
  const MAX_BATCH_POINTS: nat := 500_000

  function Distance(a: nat, b: nat): nat {
    if a < b then b - a else a - b
  }

  /** The batch limit a configured value stands for: the nearest one allowed, or the default for none. */
  function EffectiveLimit(configured: nat): (limit: nat)
    ensures MIN_BATCH_POINTS <= limit <= MAX_BATCH_POINTS
    ensures configured == 0 ==> limit == DEFAULT_MAX_POINTS_PER_BATCH
    ensures configured > 0 ==>
              forall x :: MIN_BATCH_POINTS <= x <= MAX_BATCH_POINTS ==>
                Distance(configured, limit) <= Distance(configured, x)
  {
    if configured == 0 then DEFAULT_MAX_POINTS_PER_BATCH
    else if configured < MIN_BATCH_POINTS then MIN_BATCH_POINTS
    else if configured > MAX_BATCH_POINTS then MAX_BATCH_POINTS
    else configured
  }

  /** `casts` and `round` are what the columnar engine makes of values it casts. */
  datatype Config = Config(
    barrier: B.Config,
    arrow: bool,
    coalesce: bool,
    maxPointsPerBatch: nat,
    casts: C.Casts,
    round: int -> real)

  function Limit(cfg: Config): (limit: nat)
    ensures limit > 0
  {
    EffectiveLimit(cfg.maxPointsPerBatch)
  }

  // --------------------------------------------------------------------- the WAL

  /**
   The durable entries, the prepared slots cached beside them, and the highest
   sequence that has ever been visible.
   */
  datatype Wal = Wal(entries: map<nat, N.Entry>, cache: map<nat, P.Slot>, landed: nat)

  /**
   What happens to the WAL beside the flush: an entry becomes visible under its
   sequence, in whatever order, or a read caches the slot stored with an entry.
   */
  datatype Arrival =
    | Arrival(seqno: nat, entry: N.Entry, slot: Option<P.Slot>)
    | Reread(seqno: nat, stored: N.Entry -> P.Slot)

  function Land(wal: Wal, a: Arrival): Wal {
    match a
    case Arrival(k, entry, slot) =>
      Wal(wal.entries[k := entry], if slot.Some? then wal.cache[k := slot.value] else wal.cache, Max(wal.landed, k))
    case Reread(k, stored) =>
      if k in wal.entries then wal.(cache := wal.cache[k := stored(wal.entries[k])]) else wal
  }

  function LandAll(wal: Wal, arrivals: seq<Arrival>): Wal
    decreases |arrivals|
  {
    if |arrivals| == 0 then wal else LandAll(Land(wal, arrivals[0]), arrivals[1..])
  }

  /** The existing entries from `from` on, at most `limit` of them, in order. */
  function ReadRange(wal: Wal, from: nat, limit: nat): (read: seq<N.Sequenced>)
    ensures |read| <= limit
    ensures forall i :: 0 <= i < |read| ==>
              && from <= read[i].seqno <= wal.landed
              && read[i].seqno in wal.entries && wal.entries[read[i].seqno] == read[i].entry
    ensures N.AscendingSeqs(read)
    decreases wal.landed + 1 - from
  {
    if from > wal.landed || limit == 0 then []
    else if from in wal.entries then [N.Sequenced(from, wal.entries[from])] + ReadRange(wal, from + 1, limit - 1)
    else ReadRange(wal, from + 1, limit)
  }

  /** The unbroken run of cached slots from `from` on, within `to` and `limit`. */
  function PreparedRun(wal: Wal, from: nat, to: nat, limit: nat): (run: seq<P.Sequenced>)
    ensures |run| <= limit
    ensures forall i :: 0 <= i < |run| ==>
              run[i].seqno == from + i <= to && from + i in wal.cache && wal.cache[from + i] == run[i].slot
    decreases 1 + to - from
  {
    if limit == 0 || from > to || from !in wal.cache then []
    else [P.Sequenced(from, wal.cache[from])] + PreparedRun(wal, from + 1, to, limit - 1)
  }

  /** Taking a run moves its slots out of the cache. */
  function WithoutRun(wal: Wal, run: seq<P.Sequenced>): Wal {
    wal.(cache := map k | k in wal.cache && (forall i :: 0 <= i < |run| ==> run[i].seqno != k) :: wal.cache[k])
  }

  /** The smallest cached sequence at or after `from`. */
  function NextPrepared(wal: Wal, from: nat): Option<nat>
    decreases wal.landed + 1 - from
  {
    if from > wal.landed then None
    else if from in wal.cache then Some(from)
    else NextPrepared(wal, from + 1)
  }

  function DropCached(wal: Wal, s: nat): Wal {
    wal.(cache := map k | k in wal.cache && s <= k :: wal.cache[k])
  }

  function TruncateBefore(wal: Wal, s: nat): Wal {
    DropCached(wal, s).(entries := map k | k in wal.entries && s <= k :: wal.entries[k])
  }

  // -------------------------------------------------------------------- the sink

  datatype Insert = Native(work: N.Work, ingestSeqBase: nat) | Prepared(prepared: P.Work) {
    function Key(): Key {
      match this
      case Native(w, _) => w.key
      case Prepared(w) => w.key
    }

    function Rows(): seq<Point> {
      match this
      case Native(w, _) => w.points
      case Prepared(w) => P.RowsOf(w.batch)
    }
  }

  /** How an insert ended. A materialized view destination refuses its rows for good. */
  datatype Outcome = Written | Refused | Failed

  /**
   What a chunk passes over: the entries visible at its read from `from` through `upTo`,
   and the slots it took them prepared from, if it did.
   */
  datatype Chunk = Chunk(entries: map<nat, N.Entry>, from: nat, upTo: nat, run: seq<P.Sequenced>) {
    ghost predicate Has(k: nat) {
      k in entries && from <= k <= upTo
    }
  }

  /** An insert that will not be retried, written or refused for good, and its chunk. */
  datatype Settled = Settled(insert: Insert, refused: bool, chunk: Chunk)

  function OutcomeAt(outcomes: seq<Outcome>, i: nat): Outcome {
    if i < |outcomes| then outcomes[i] else Written
  }

  ghost function Settle(items: seq<Insert>, outcomes: seq<Outcome>, chunk: Chunk): seq<Settled> {
    if |items| == 0 then []
    else
      var n := |items| - 1;
      var before := Settle(items[..n], outcomes, chunk);
      if OutcomeAt(outcomes, n).Failed? then before
      else before + [Settled(items[n], OutcomeAt(outcomes, n).Refused?, chunk)]
  }

  ghost predicate AnyFailed(items: seq<Insert>, outcomes: seq<Outcome>) {
    exists i :: 0 <= i < |items| && OutcomeAt(outcomes, i).Failed?
  }

  // ------------------------------------------------------------------- one step

  /** Why and how far one truncation went. */
  datatype Truncation = Truncation(view: B.View, through: nat, upTo: nat)

  /** An entry gone from the WAL, the truncation that removed it, and how much was settled by then. */
  datatype Removal = Removal(entry: N.Entry, cause: Truncation, logged: nat)

  /** The service over its WAL, with the history of what was settled and removed. */
  datatype State = State(
    wal: Wal,
    lastFlushed: nat,
    lastLocal: nat,
    log: seq<Settled>,
    removed: map<nat, Removal>)

  /** Everything the environment decides during one step. */
  datatype StepEnv = StepEnv(
    arrivals: seq<Arrival>,     // landing before the step reads
    takeFault: bool,
    nextFault: bool,
    readFault: bool,
    page: nat,                  // entries after which a read stops early
    stackFault: bool,           // merging the new series of prepared batches fails
    outcomes: seq<Outcome>,     // how the chunk's inserts end
    lateArrivals: seq<Arrival>, // landing before the step truncates
    view: B.View,
    truncateFault: bool)

  datatype Status = Continue | Done | Error

  datatype Stepped = Stepped(state: State, status: Status)

  predicate Local(cfg: Config, origin: nat) {
    origin == cfg.barrier.nodeId || (cfg.barrier.nodeId > 0 && origin == 0)
  }

  function Max(a: nat, b: nat): nat {
    if a < b then b else a
  }

  function Min(a: nat, b: nat): nat {
    if a < b then a else b
  }

  ghost function MarkNative(cfg: Config, entries: seq<N.Sequenced>, lastLocal: nat): nat {
    if |entries| == 0 then lastLocal
    else
      var n := |entries| - 1;
      var before := MarkNative(cfg, entries[..n], lastLocal);
      if Local(cfg, entries[n].entry.origin) then Max(before, entries[n].seqno) else before
  }

  ghost function MarkPrepared(cfg: Config, slots: seq<P.Sequenced>, lastLocal: nat): nat {
    if |slots| == 0 then lastLocal
    else
      var n := |slots| - 1;
      var before := MarkPrepared(cfg, slots[..n], lastLocal);
      if Local(cfg, slots[n].slot.origin) then Max(before, slots[n].seqno) else before
  }

  ghost function NativeInserts(items: seq<N.Work>, base: nat): (inserts: seq<Insert>)
    ensures |inserts| == |items|
    ensures forall i :: 0 <= i < |items| ==> inserts[i] == Native(items[i], base + i)
  {
    seq(|items|, i requires 0 <= i < |items| => Native(items[i], base + i))
  }

  ghost function PreparedInserts(items: seq<P.Work>): (inserts: seq<Insert>)
    ensures |inserts| == |items|
    ensures forall i :: 0 <= i < |items| ==> inserts[i] == Prepared(items[i])
  {
    seq(|items|, i requires 0 <= i < |items| => Prepared(items[i]))
  }

  /** The watermark a chunk leaves: its end, or where it was if an insert failed. */
  ghost function Through(chunk: Chunk, items: seq<Insert>, outcomes: seq<Outcome>): nat {
    if AnyFailed(items, outcomes) then B.SaturatingSub(chunk.from, 1) else chunk.upTo
  }

  /** The end of a chunk: settle its inserts, truncate, advance or hold. */
  ghost function EndChunk(cfg: Config, s: State, chunk: Chunk, items: seq<Insert>, env: StepEnv): Stepped {
    var through := Through(chunk, items, env.outcomes);
    var wal := LandAll(s.wal, env.lateArrivals);
    var safe := B.SafeTruncate(cfg.barrier, env.view, s.lastLocal, through);
    var settled := s.(wal := wal, log := s.log + Settle(items, env.outcomes, chunk));
    if env.truncateFault then Stepped(settled.(wal := DropCached(wal, safe + 1)), Error)
    else Stepped(Truncated(settled, safe, env.view, through),
                 if AnyFailed(items, env.outcomes) then Error else Continue)
  }

  ghost function RemovedBy(s: State, cause: Truncation): map<nat, Removal> {
    map k | k in s.wal.entries && k <= cause.upTo :: Removal(s.wal.entries[k], cause, |s.log|)
  }

  ghost function Truncated(s: State, safe: nat, view: B.View, through: nat): State {
    s.(wal := TruncateBefore(s.wal, safe + 1),
       removed := RemovedBy(s, Truncation(view, through, safe)) + s.removed,
       lastFlushed := through)
  }

  /** The inserts of a prepared run, if its batches can be stacked. */
  ghost function PreparedItems(cfg: Config, run: seq<P.Sequenced>): Option<seq<Insert>> {
    match P.ChunkItems(cfg.casts, run, Limit(cfg))
    case None => None
    case Some(works) => Some(PreparedInserts(works))
  }

  ghost function NativeItems(cfg: Config, from: nat, entries: seq<N.Sequenced>): seq<Insert> {
    NativeInserts(N.ChunkItems(cfg.barrier.nodeId, entries, cfg.coalesce, Limit(cfg)), from)
  }

  /** The most entries the native read may ask for: not past the next prepared slot. */
  function NativeLimit(cfg: Config, wal: Wal, from: nat): nat {
    if !cfg.arrow then WAL_READ_CHUNK
    else match NextPrepared(wal, from)
      case Some(next) => if next > from then Min(next - from, WAL_READ_CHUNK) else WAL_READ_CHUNK
      case None => WAL_READ_CHUNK
  }

  ghost function NativeRead(cfg: Config, wal: Wal, from: nat, snapshot: nat, page: nat): seq<N.Sequenced> {
    var read := ReadRange(wal, from, Min(NativeLimit(cfg, wal, from), Max(1, page)));
    read[..N.TakeCount(read, snapshot, Limit(cfg) * NATIVE_CHUNK_BATCHES, 0)]
  }

  /** What one turn of the loop does with the WAL it finds. */
  datatype Route =
    | TakeFault(run: seq<P.Sequenced>)
    | PreparedPath(run: seq<P.Sequenced>)
    | ReadFault
    | NothingLeft
    | NativePath(entries: seq<N.Sequenced>)

  ghost function RouteOf(cfg: Config, s: State, snapshot: nat, env: StepEnv): Route {
    var from := s.lastFlushed + 1;
    var run := if cfg.arrow then PreparedRun(s.wal, from, snapshot, WAL_READ_CHUNK) else [];
    if cfg.arrow && env.takeFault then TakeFault(run)
    else if |run| > 0 then PreparedPath(run)
    else if (cfg.arrow && env.nextFault) || env.readFault then ReadFault
    else
      var entries := NativeRead(cfg, s.wal, from, snapshot, env.page);
      if |entries| == 0 then NothingLeft else NativePath(entries)
  }

  ghost predicate RouteWithin(s: State, snapshot: nat, route: Route) {
    match route
    case TakeFault(run) => true
    case PreparedPath(run) =>
      && |run| > 0
      && forall i :: 0 <= i < |run| ==>
           && run[i].seqno == s.lastFlushed + 1 + i <= snapshot
           && run[i].seqno in s.wal.cache && s.wal.cache[run[i].seqno] == run[i].slot
    case ReadFault => true
    case NothingLeft => true
    case NativePath(entries) =>
      && |entries| > 0 && N.AscendingSeqs(entries)
      && forall i :: 0 <= i < |entries| ==>
           && s.lastFlushed < entries[i].seqno <= snapshot && entries[i].seqno <= s.wal.landed
           && entries[i].seqno in s.wal.entries && s.wal.entries[entries[i].seqno] == entries[i].entry
  }

  lemma PreparedWithin(s: State, snapshot: nat, run: seq<P.Sequenced>)
    requires |run| > 0 && run == PreparedRun(s.wal, s.lastFlushed + 1, snapshot, WAL_READ_CHUNK)
    ensures RouteWithin(s, snapshot, PreparedPath(run))
  {
  }

  lemma NativeWithin(cfg: Config, s: State, snapshot: nat, page: nat, entries: seq<N.Sequenced>)
    requires |entries| > 0 && entries == NativeRead(cfg, s.wal, s.lastFlushed + 1, snapshot, page)
    ensures RouteWithin(s, snapshot, NativePath(entries))
  {
    NativeReadWithin(cfg, s.wal, s.lastFlushed + 1, snapshot, page);
  }

  lemma RoutesWithin(cfg: Config, s: State, snapshot: nat, env: StepEnv)
    ensures RouteWithin(s, snapshot, RouteOf(cfg, s, snapshot, env))
  {
    match RouteOf(cfg, s, snapshot, env)
    case PreparedPath(run) => PreparedWithin(s, snapshot, run);
    case NativePath(entries) => NativeWithin(cfg, s, snapshot, env.page, entries);
    case _ =>
  }

  /** The service once the chunk of a route is taken and its local entries noticed. */
  ghost function MarkedBy(cfg: Config, s: State, route: Route): State {
    match route
    case PreparedPath(run) => s.(wal := WithoutRun(s.wal, run), lastLocal := MarkPrepared(cfg, run, s.lastLocal))
    case NativePath(entries) => s.(lastLocal := MarkNative(cfg, entries, s.lastLocal))
    case _ => s
  }

  ghost predicate HasChunk(route: Route) {
    (route.PreparedPath? && |route.run| > 0) || (route.NativePath? && |route.entries| > 0)
  }

  ghost function ChunkOf(s: State, route: Route): Chunk
    requires HasChunk(route)
  {
    match route
    case PreparedPath(run) => Chunk(s.wal.entries, s.lastFlushed + 1, run[|run| - 1].seqno, run)
    case NativePath(entries) => Chunk(s.wal.entries, s.lastFlushed + 1, entries[|entries| - 1].seqno, [])
  }

  /** The inserts of a route's chunk, unless its batches cannot be stacked. */
  ghost function ItemsOf(cfg: Config, s: State, route: Route): Option<seq<Insert>> {
    match route
    case PreparedPath(run) => PreparedItems(cfg, run)
    case NativePath(entries) => Some(NativeItems(cfg, s.lastFlushed + 1, entries))
    case _ => None
  }

  /** The inserts of the chunk, if the step gets as far as them. */
  ghost function Inserts(cfg: Config, s: State, route: Route, env: StepEnv): Option<seq<Insert>> {
    if route.PreparedPath? && env.stackFault then None else ItemsOf(cfg, s, route)
  }

  ghost function TakeRoute(cfg: Config, s: State, route: Route, env: StepEnv): Stepped {
    if !HasChunk(route) then NoChunk(s, route)
    else TakeChunk(cfg, MarkedBy(cfg, s, route), ChunkOf(s, route), Inserts(cfg, s, route, env), env)
  }

  ghost function TakeChunk(cfg: Config, marked: State, chunk: Chunk, items: Option<seq<Insert>>,
                           env: StepEnv): Stepped {
    if items.None? then Stepped(marked, Error) else EndChunk(cfg, marked, chunk, items.value, env)
  }

  /** A turn that ends before it has a chunk. */
  ghost function NoChunk(s: State, route: Route): Stepped {
    match route
    case TakeFault(run) => Stepped(s.(wal := WithoutRun(s.wal, run)), Error)
    case NothingLeft => Stepped(s, Done)
    case _ => Stepped(s, Error)
  }

  ghost function Landed(s: State, arrivals: seq<Arrival>): State {
    s.(wal := LandAll(s.wal, arrivals))
  }

  /** One turn of the flush loop, from the current watermark. */
  ghost function Step(cfg: Config, s: State, snapshot: nat, env: StepEnv): Stepped {
    TakeRoute(cfg, Landed(s, env.arrivals), RouteOf(cfg, Landed(s, env.arrivals), snapshot, env), env)
  }

  /** What a native read yields: existing entries from `from` on within the snapshot, in order. */
  lemma NativeReadWithin(cfg: Config, wal: Wal, from: nat, snapshot: nat, page: nat)
    ensures var entries := NativeRead(cfg, wal, from, snapshot, page);
            && N.AscendingSeqs(entries)
            && forall i :: 0 <= i < |entries| ==>
                 && from <= entries[i].seqno <= snapshot && entries[i].seqno <= wal.landed
                 && entries[i].seqno in wal.entries && wal.entries[entries[i].seqno] == entries[i].entry
  {
    var read := ReadRange(wal, from, Min(NativeLimit(cfg, wal, from), Max(1, page)));
    var budget := Limit(cfg) * NATIVE_CHUNK_BATCHES;
    var n := N.TakeCount(read, snapshot, budget, 0);
    forall i | 0 <= i < n ensures read[i].seqno <= snapshot {
      assert N.Takes(read, snapshot, budget, i);
    }
  }

  lemma EndChunkAdvances(cfg: Config, s: State, chunk: Chunk, items: seq<Insert>, env: StepEnv)
    requires chunk.from == s.lastFlushed + 1 && chunk.from <= chunk.upTo
    ensures var r := EndChunk(cfg, s, chunk, items, env);
            && (r.status.Continue? ==> r.state.lastFlushed == chunk.upTo)
            && (!r.status.Continue? ==> r.state.lastFlushed == chunk.upTo || r.state.lastFlushed == s.lastFlushed)
            && !r.status.Done?
  {
  }

  /** The watermark after one step. */
  ghost predicate Advanced(s: State, snapshot: nat, r: Stepped) {
    && (r.status.Continue? ==> s.lastFlushed < r.state.lastFlushed <= snapshot)
    && s.lastFlushed <= r.state.lastFlushed
  }

  lemma TakeChunkAdvances(cfg: Config, s: State, snapshot: nat, marked: State, chunk: Chunk, items: Option<seq<Insert>>,
                          env: StepEnv)
    requires marked.lastFlushed == s.lastFlushed
    requires chunk.from == s.lastFlushed + 1 && chunk.from <= chunk.upTo <= snapshot
    ensures Advanced(s, snapshot, TakeChunk(cfg, marked, chunk, items, env))
  {
    if items.Some? {
      EndChunkAdvances(cfg, marked, chunk, items.value, env);
    }
  }

  lemma RouteAdvances(cfg: Config, s: State, snapshot: nat, route: Route, env: StepEnv)
    requires RouteWithin(s, snapshot, route)
    ensures Advanced(s, snapshot, TakeRoute(cfg, s, route, env))
  {
    if HasChunk(route) {
      TakeChunkAdvances(cfg, s, snapshot, MarkedBy(cfg, s, route), ChunkOf(s, route), Inserts(cfg, s, route, env), env);
    }
  }

  /**
   A step that goes on has advanced the watermark within the snapshot; no step
   moves it back.
   */
  lemma StepAdvances(cfg: Config, s: State, snapshot: nat, env: StepEnv)
    ensures Advanced(s, snapshot, Step(cfg, s, snapshot, env))
  {
    var landed := Landed(s, env.arrivals);
    RoutesWithin(cfg, landed, snapshot, env);
    RouteAdvances(cfg, landed, snapshot, RouteOf(cfg, landed, snapshot, env), env);
  }

  datatype Flushed = Flushed(state: State, ok: bool, steps: nat)

  /** The flush loop from step `t` of the environment on. */
  ghost function FlushLoop(cfg: Config, s: State, snapshot: nat, env: nat -> StepEnv, t: nat): Flushed
    decreases if s.lastFlushed < snapshot then snapshot - s.lastFlushed else 0
  {
    if s.lastFlushed >= snapshot then Flushed(s, true, t)
    else
      var r := Step(cfg, s, snapshot, env(t));
      StepAdvances(cfg, s, snapshot, env(t));
      match r.status
      case Done => Flushed(r.state, true, t + 1)
      case Error => Flushed(r.state, false, t + 1)
      case Continue => FlushLoop(cfg, r.state, snapshot, env, t + 1)
  }
}
