/** The flush service itself: its fields, its loop and the two chunk paths. */
module Flusher {
  import opened FlushService
  import opened Wrappers
  import N = NativeChunk
  import P = PreparedChunk
  import B = TruncateBarrier

  class Service {
    const cfg: Config
    var wal: Wal
    var lastFlushed: nat
    var lastLocal: nat
    ghost var log: seq<Settled>
    ghost var removed: map<nat, Removal>

    ghost function Abs(): State
      reads this
    {
      State(wal, lastFlushed, lastLocal, log, removed)
    }

    /** A new service over the WAL an earlier process left. */
    constructor (cfg: Config, wal: Wal)
      ensures this.cfg == cfg && Abs() == State(wal, 0, 0, [], map[])
    {
      this.cfg, this.wal := cfg, wal;
      lastFlushed, lastLocal := 0, 0;
      log, removed := [], map[];
    }

    /** Await every insert of the chunk; rows refused for good do not count as failed. */
    method AwaitInserts(items: seq<Insert>, outcomes: seq<Outcome>, ghost chunk: Chunk) returns (failed: bool)
      modifies this`log
      ensures log == old(log) + Settle(items, outcomes, chunk)
      ensures failed <==> AnyFailed(items, outcomes)
    {
      failed := false;
      for i := 0 to |items|
        invariant log == old(log) + Settle(items[..i], outcomes, chunk)
        invariant failed <==> AnyFailed(items[..i], outcomes)
      {
        assert items[..i + 1][..i] == items[..i];
        match OutcomeAt(outcomes, i) {
          case Failed =>
            failed := true;
          case Refused =>
            log := log + [Settled(items[i], true, chunk)];
          case Written =>
            log := log + [Settled(items[i], false, chunk)];
        }
      }
      assert items[..|items|] == items;
    }

    method TruncateTo(safe: nat, view: B.View, through: nat)
      modifies this
      ensures Abs() == Truncated(old(Abs()), safe, view, through)
    {
      removed := RemovedBy(Abs(), Truncation(view, through, safe)) + removed;
      wal := TruncateBefore(wal, safe + 1);
      lastFlushed := through;
    }

    method FinishChunk(from: nat, chunkMax: nat, ghost chunk: Chunk, items: seq<Insert>, env: StepEnv)
      returns (status: Status)
      requires chunk.from == from && chunk.upTo == chunkMax
      modifies this
      ensures Stepped(Abs(), status) == EndChunk(cfg, old(Abs()), chunk, items, env)
    {
      var failed := AwaitInserts(items, env.outcomes, chunk);
      var through := if failed then B.SaturatingSub(from, 1) else chunkMax;
      wal := LandAll(wal, env.lateArrivals);
      var safe := B.ComputeSafeTruncateSeq(cfg.barrier, env.view, lastLocal, through);
      if env.truncateFault {
        wal := DropCached(wal, safe + 1);
        return Error;
      }
      TruncateTo(safe, env.view, through);
      status := if failed then Error else Continue;
    }

    /** The end of a chunk taken by `route` from `s`, once marked and put into inserts. */
    method FinishRoute(ghost s: State, ghost route: Route, items: Option<seq<Insert>>, from: nat, chunkMax: nat,
                       env: StepEnv)
      returns (status: Status)
      requires HasChunk(route) && ChunkOf(s, route).from == from && ChunkOf(s, route).upTo == chunkMax
      requires Abs() == MarkedBy(cfg, s, route) && items == Inserts(cfg, s, route, env)
      modifies this
      ensures Stepped(Abs(), status) == TakeRoute(cfg, s, route, env)
    {
      if items.None? {
        return Error;
      }
      status := FinishChunk(from, chunkMax, ChunkOf(s, route), items.value, env);
    }

    method MarkRun(run: seq<P.Sequenced>)
      modifies this
      ensures Abs() ==
              old(Abs()).(wal := WithoutRun(old(wal), run), lastLocal := MarkPrepared(cfg, run, old(lastLocal)))
    {
      wal := WithoutRun(wal, run);
      for i := 0 to |run|
        invariant lastLocal == MarkPrepared(cfg, run[..i], old(lastLocal))
        invariant Abs() == old(Abs()).(wal := WithoutRun(old(wal), run), lastLocal := lastLocal)
      {
        assert run[..i + 1][..i] == run[..i];
        if Local(cfg, run[i].slot.origin) {
          lastLocal := Max(lastLocal, run[i].seqno);
        }
      }
      assert run[..|run|] == run;
    }

    method StackRun(run: seq<P.Sequenced>, env: StepEnv, ghost s: State) returns (items: Option<seq<Insert>>)
      ensures items == Inserts(cfg, s, PreparedPath(run), env)
    {
      var works := P.PreparedItems(cfg.casts, run, Limit(cfg));
      if works.None? || env.stackFault {
        return None;
      }
      var inserts := seq(|works.value|, i requires 0 <= i < |works.value| => Prepared(works.value[i]));
      assert inserts == PreparedInserts(works.value);
      return Some(inserts);
    }

    method FlushPreparedChunk(run: seq<P.Sequenced>, from: nat, env: StepEnv) returns (status: Status)
      requires |run| > 0 && from == lastFlushed + 1
      modifies this
      ensures Stepped(Abs(), status) == TakeRoute(cfg, old(Abs()), PreparedPath(run), env)
    {
      ghost var s := Abs();
      MarkRun(run);
      var items := StackRun(run, env, s);
      status := FinishRoute(s, PreparedPath(run), items, from, run[|run| - 1].seqno, env);
    }

    method MarkEntries(entries: seq<N.Sequenced>)
      modifies this
      ensures Abs() == old(Abs()).(lastLocal := MarkNative(cfg, entries, old(lastLocal)))
    {
      for i := 0 to |entries|
        invariant lastLocal == MarkNative(cfg, entries[..i], old(lastLocal))
        invariant Abs() == old(Abs()).(lastLocal := lastLocal)
      {
        assert entries[..i + 1][..i] == entries[..i];
        if Local(cfg, entries[i].entry.origin) {
          lastLocal := Max(lastLocal, entries[i].seqno);
        }
      }
      assert entries[..|entries|] == entries;
    }

    method GroupEntries(entries: seq<N.Sequenced>, from: nat, env: StepEnv, ghost s: State)
      returns (items: Option<seq<Insert>>)
      requires from == s.lastFlushed + 1
      ensures items == Inserts(cfg, s, NativePath(entries), env)
    {
      var works := N.NativeItems(cfg.barrier.nodeId, entries, cfg.coalesce, Limit(cfg));
      var inserts := seq(|works|, i requires 0 <= i < |works| => Native(works[i], from + i));
      assert inserts == NativeInserts(works, from);
      return Some(inserts);
    }

    method FlushNativeChunk(entries: seq<N.Sequenced>, from: nat, env: StepEnv) returns (status: Status)
      requires |entries| > 0 && from == lastFlushed + 1
      modifies this
      ensures Stepped(Abs(), status) == TakeRoute(cfg, old(Abs()), NativePath(entries), env)
    {
      ghost var s := Abs();
      MarkEntries(entries);
      var items := GroupEntries(entries, from, env, s);
      status := FinishRoute(s, NativePath(entries), items, from, entries[|entries| - 1].seqno, env);
    }

    /** Pick the path of this turn. */
    method ChooseRoute(snapshot: nat, env: StepEnv) returns (route: Route)
      ensures route == RouteOf(cfg, Abs(), snapshot, env)
    {
      var from := lastFlushed + 1;
      if cfg.arrow {
        var run := PreparedRun(wal, from, snapshot, WAL_READ_CHUNK);
        if env.takeFault {
          return TakeFault(run);
        }
        if |run| > 0 {
          return PreparedPath(run);
        }
        if env.nextFault {
          return ReadFault;
        }
      }
      if env.readFault {
        return ReadFault;
      }
      var read := ReadRange(wal, from, Min(NativeLimit(cfg, wal, from), Max(1, env.page)));
      var k := N.TakeEntries(read, snapshot, Limit(cfg) * NATIVE_CHUNK_BATCHES);
      route := if k == 0 then NothingLeft else NativePath(read[..k]);
    }

    method FollowRoute(snapshot: nat, route: Route, env: StepEnv) returns (status: Status)
      requires RouteWithin(Abs(), snapshot, route)
      modifies this
      ensures Stepped(Abs(), status) == TakeRoute(cfg, old(Abs()), route, env)
    {
      match route {
        case TakeFault(run) =>
          wal := WithoutRun(wal, run);
          status := Error;
        case PreparedPath(run) => status := FlushPreparedChunk(run, lastFlushed + 1, env);
        case ReadFault => status := Error;
        case NothingLeft => status := Done;
        case NativePath(entries) => status := FlushNativeChunk(entries, lastFlushed + 1, env);
      }
    }

    method TakeStep(snapshot: nat, env: StepEnv) returns (status: Status)
      modifies this
      ensures Stepped(Abs(), status) == Step(cfg, old(Abs()), snapshot, env)
    {
      wal := LandAll(wal, env.arrivals);
      assert Abs() == Landed(old(Abs()), env.arrivals);
      var route := ChooseRoute(snapshot, env);
      RoutesWithin(cfg, Abs(), snapshot, env);
      status := FollowRoute(snapshot, route, env);
    }

    /** Flush everything up to the snapshot, a chunk a turn. */
    method Flush(snapshot: nat, env: nat -> StepEnv) returns (ok: bool, steps: nat)
      modifies this
      ensures Flushed(Abs(), ok, steps) == FlushLoop(cfg, old(Abs()), snapshot, env, 0)
    {
      steps := 0;
      while lastFlushed < snapshot
        invariant FlushLoop(cfg, Abs(), snapshot, env, steps) == FlushLoop(cfg, old(Abs()), snapshot, env, 0)
        decreases if lastFlushed < snapshot then snapshot - lastFlushed else 0
      {
        StepAdvances(cfg, Abs(), snapshot, env(steps));
        var status := TakeStep(snapshot, env(steps));
        steps := steps + 1;
        if status != Continue {
          return status == Done, steps;
        }
      }
      ok := true;
    }
  }
}
