/**
 Where the flush does lose an entry. Appends land in no fixed order when the WAL is
 not written in batches: one that lands at or below what a chunk passes over is
 truncated without ever having been read, and sizes recorded out of order can carry
 a sharded node's margin past what is flushed.
 */
module FlushLimits {
  import opened FlushService
  import opened FlushSafety
  import B = TruncateBarrier
  import N = NativeChunk
  import P = PreparedChunk

  /** The entry is gone, and was not settled when it went. */
  ghost predicate Lost(cfg: Config, s: State, k: nat, e: N.Entry) {
    && k in s.removed && s.removed[k].entry == e && s.removed[k].logged <= |s.log|
    && !EntrySettled(cfg, s.log[..s.removed[k].logged], k, e)
  }

  /** No chunk of the log took the entry. */
  ghost predicate Untaken(log: seq<Settled>, k: nat) {
    forall x :: 0 <= x < |log| ==> !log[x].chunk.Has(k)
  }

  lemma UntakenIsUnsettled(cfg: Config, log: seq<Settled>, k: nat, e: N.Entry)
    requires Untaken(log, k) && |e.points| > 0
    ensures !EntrySettled(cfg, log, k, e)
  {
    assert !PointSettled(cfg, log, k, e, 0);
  }

  /** An entry there by the time the chunk truncates, which neither it nor an earlier one took. */
  ghost predicate Missed(s: State, chunk: Chunk, env: StepEnv, k: nat, e: N.Entry) {
    && k in LandAll(s.wal, env.lateArrivals).entries && LandAll(s.wal, env.lateArrivals).entries[k] == e
    && k !in s.removed && Untaken(s.log, k) && !chunk.Has(k)
  }

  /** How far the end of the chunk truncates. */
  ghost function Cut(cfg: Config, s: State, chunk: Chunk, items: seq<Insert>, env: StepEnv): nat {
    B.SafeTruncate(cfg.barrier, env.view, s.lastLocal, Through(chunk, items, env.outcomes))
  }

  lemma EndChunkLoses(cfg: Config, s: State, chunk: Chunk, items: seq<Insert>, env: StepEnv, k: nat, e: N.Entry)
    requires !env.truncateFault && |e.points| > 0 && Missed(s, chunk, env, k, e) && k <= Cut(cfg, s, chunk, items, env)
    ensures Lost(cfg, EndChunk(cfg, s, chunk, items, env).state, k, e)
  {
    var log := s.log + Settle(items, env.outcomes, chunk);
    SettledByChunk(items, env.outcomes, chunk);
    assert Untaken(log, k);
    UntakenIsUnsettled(cfg, log, k, e);
    assert log[..|log|] == log;
  }

  /** Which slots are cached does not matter to what lands. */
  lemma {:induction false} LandingIgnoresCache(wal: Wal, cache: map<nat, P.Slot>, arrivals: seq<Arrival>)
    ensures LandAll(wal.(cache := cache), arrivals).entries == LandAll(wal, arrivals).entries
    decreases |arrivals|
  {
    if |arrivals| > 0 {
      var wal' := Land(wal, arrivals[0]);
      var cached := Land(wal.(cache := cache), arrivals[0]);
      assert cached == wal'.(cache := cached.cache);
      LandingIgnoresCache(wal', cached.cache, arrivals[1..]);
    }
  }

  lemma {:induction false} MarkedMisses(cfg: Config, s: State, route: Route, chunk: Chunk, env: StepEnv, k: nat,
                                        e: N.Entry)
    requires Missed(s, chunk, env, k, e)
    ensures Missed(MarkedBy(cfg, s, route), chunk, env, k, e)
  {
    if route.PreparedPath? {
      LandingIgnoresCache(s.wal, WithoutRun(s.wal, route.run).cache, env.lateArrivals);
    }
  }

  // -------------------------------------------------------------------------- one step

  /** What a truncating step works on: the service at its read, marked, and its chunk and inserts. */
  datatype Work = Work(marked: State, chunk: Chunk, items: seq<Insert>)

  ghost function WorkOf(cfg: Config, s: State, snapshot: nat, env: StepEnv): Work
    requires Truncates(cfg, s, snapshot, env)
  {
    var read := Landed(s, env.arrivals);
    var route := RouteOf(cfg, read, snapshot, env);
    Work(MarkedBy(cfg, read, route), ChunkOf(read, route), Inserts(cfg, read, route, env).value)
  }

  /** The watermark the step leaves: the end of its chunk, or the old one if an insert failed. */
  ghost function StepThrough(cfg: Config, s: State, snapshot: nat, env: StepEnv): nat
    requires Truncates(cfg, s, snapshot, env)
  {
    var w := WorkOf(cfg, s, snapshot, env);
    if AnyFailed(w.items, env.outcomes) then s.lastFlushed else w.chunk.upTo
  }

  /** How far the step truncates. */
  ghost function StepCut(cfg: Config, s: State, snapshot: nat, env: StepEnv): nat
    requires Truncates(cfg, s, snapshot, env)
  {
    B.SafeTruncate(cfg.barrier, env.view, WorkOf(cfg, s, snapshot, env).marked.lastLocal,
                   StepThrough(cfg, s, snapshot, env))
  }

  lemma StepEndsChunk(cfg: Config, s: State, snapshot: nat, env: StepEnv, w: Work)
    requires Truncates(cfg, s, snapshot, env) && w == WorkOf(cfg, s, snapshot, env)
    ensures Step(cfg, s, snapshot, env) == EndChunk(cfg, w.marked, w.chunk, w.items, env)
    ensures w.chunk.from == s.lastFlushed + 1
    ensures Through(w.chunk, w.items, env.outcomes) == StepThrough(cfg, s, snapshot, env)
    ensures Cut(cfg, w.marked, w.chunk, w.items, env) == StepCut(cfg, s, snapshot, env)
  {
  }

  /** An entry the step truncates without any chunk having taken it is lost. */
  lemma StepLoses(cfg: Config, s: State, snapshot: nat, env: StepEnv, k: nat, e: N.Entry)
    requires Truncates(cfg, s, snapshot, env) && |e.points| > 0 && k <= StepCut(cfg, s, snapshot, env)
    requires Missed(Landed(s, env.arrivals), WorkOf(cfg, s, snapshot, env).chunk, env, k, e)
    ensures Lost(cfg, Step(cfg, s, snapshot, env).state, k, e)
  {
    var w := WorkOf(cfg, s, snapshot, env);
    var read := Landed(s, env.arrivals);
    StepEndsChunk(cfg, s, snapshot, env, w);
    MarkedMisses(cfg, read, RouteOf(cfg, read, snapshot, env), w.chunk, env, k, e);
    EndChunkLoses(cfg, w.marked, w.chunk, w.items, env, k, e);
  }

  /** What is there when the step reads, at or below where it truncates, is removed as it was. */
  lemma StepRemoves(cfg: Config, s: State, snapshot: nat, env: StepEnv, k: nat, e: N.Entry)
    requires Inv(cfg, s) && FreshStep(cfg, s, env) && Truncates(cfg, s, snapshot, env)
    requires k <= StepCut(cfg, s, snapshot, env)
    requires var read := Landed(s, env.arrivals); k in read.wal.entries && read.wal.entries[k] == e
    ensures var s' := Step(cfg, s, snapshot, env).state; k in s'.removed && s'.removed[k].entry == e
  {
    var w, read := WorkOf(cfg, s, snapshot, env), Landed(s, env.arrivals);
    StepEndsChunk(cfg, s, snapshot, env, w);
    LandAllKeeps(cfg, s.wal, Used(s), env.arrivals);
    LandAllKeeps(cfg, read.wal, Used(read), env.lateArrivals);
    LandingIgnoresCache(read.wal, w.marked.wal.cache, env.lateArrivals);
    assert w.marked.wal == read.wal.(cache := w.marked.wal.cache);
    assert k in s.wal.entries || Lands(env.arrivals, k, e);
  }

  lemma LandingMissed(cfg: Config, s: State, env: StepEnv, chunk: Chunk, k: nat, e: N.Entry)
    requires Inv(cfg, s) && FreshStep(cfg, s, env)
    requires chunk.entries == Landed(s, env.arrivals).wal.entries && chunk.from == s.lastFlushed + 1
    requires Lands(env.lateArrivals, k, e) || (Lands(env.arrivals, k, e) && k <= s.lastFlushed)
    ensures Missed(Landed(s, env.arrivals), chunk, env, k, e)
  {
    var read := Landed(s, env.arrivals);
    LandAllKeeps(cfg, s.wal, Used(s), env.arrivals);
    LandAllKeeps(cfg, read.wal, Used(read), env.lateArrivals);
    assert Used(s) <= Used(read);
    assert k !in Used(s);
  }

  /** The entry lands where the step has passed, or, while it is under way, where it passes. */
  ghost predicate LandsBehind(cfg: Config, s: State, snapshot: nat, env: StepEnv, k: nat, e: N.Entry)
    requires Truncates(cfg, s, snapshot, env)
  {
    || (Lands(env.arrivals, k, e) && k <= s.lastFlushed)
    || (Lands(env.lateArrivals, k, e) && k <= StepThrough(cfg, s, snapshot, env))
  }

  lemma LandingLoses(cfg: Config, s: State, snapshot: nat, env: StepEnv, k: nat, e: N.Entry)
    requires Inv(cfg, s) && FreshStep(cfg, s, env) && Truncates(cfg, s, snapshot, env)
    requires Lands(env.lateArrivals, k, e) || (Lands(env.arrivals, k, e) && k <= s.lastFlushed)
    requires |e.points| > 0 && k <= StepCut(cfg, s, snapshot, env)
    ensures Lost(cfg, Step(cfg, s, snapshot, env).state, k, e)
  {
    var w := WorkOf(cfg, s, snapshot, env);
    StepEndsChunk(cfg, s, snapshot, env, w);
    LandingMissed(cfg, s, env, w.chunk, k, e);
    StepLoses(cfg, s, snapshot, env, k, e);
  }

  // ----------------------------------------------------------------------- and nothing else

  /** Entries of the landings with points all lie above `n`. */
  ghost predicate AllAbove(n: nat, arrivals: seq<Arrival>) {
    forall i :: 0 <= i < |arrivals| && arrivals[i].Arrival? && |arrivals[i].entry.points| > 0 ==> n < arrivals[i].seqno
  }

  ghost predicate SettledUpTo(cfg: Config, s: State, cut: nat) {
    forall k :: k in s.wal.entries && k <= s.lastFlushed && k <= cut ==> EntrySettled(cfg, s.log, k, s.wal.entries[k])
  }

  /** What the end of a chunk truncates is settled, if what it truncates below the watermark was. */
  lemma EndChunkSettles(cfg: Config, s: State, chunk: Chunk, items: seq<Insert>, env: StepEnv, k: nat)
    requires WalOk(cfg, s.wal) && ChunkComplete(cfg, s, chunk, items) && AllFresh(cfg, Used(s), env.lateArrivals)
    requires Cut(cfg, s, chunk, items, env) <= Through(chunk, items, env.outcomes)
    requires SettledUpTo(cfg, s, Cut(cfg, s, chunk, items, env))
    requires AllAbove(Cut(cfg, s, chunk, items, env), env.lateArrivals)
    requires k in LandAll(s.wal, env.lateArrivals).entries && k <= Cut(cfg, s, chunk, items, env)
    ensures EntrySettled(cfg, s.log + Settle(items, env.outcomes, chunk), k,
                         LandAll(s.wal, env.lateArrivals).entries[k])
  {
    LandAllKeeps(cfg, s.wal, Used(s), env.lateArrivals);
    var more := Settle(items, env.outcomes, chunk);
    if k !in s.wal.entries {
      assert Lands(env.lateArrivals, k, LandAll(s.wal, env.lateArrivals).entries[k]);
    } else if k <= s.lastFlushed {
      SettledStays(cfg, s.log, more, k, s.wal.entries[k]);
    } else {
      CoveredSettles(cfg, s.log, items, env.outcomes, chunk, k);
    }
  }

  lemma EndChunkKeepsSettled(cfg: Config, s: State, chunk: Chunk, items: seq<Insert>, env: StepEnv)
    requires WalOk(cfg, s.wal) && ChunkComplete(cfg, s, chunk, items) && AllFresh(cfg, Used(s), env.lateArrivals)
    requires !env.truncateFault && RemovedSettled(cfg, s)
    requires Cut(cfg, s, chunk, items, env) <= Through(chunk, items, env.outcomes)
    requires SettledUpTo(cfg, s, Cut(cfg, s, chunk, items, env))
    requires AllAbove(Cut(cfg, s, chunk, items, env), env.lateArrivals)
    ensures RemovedSettled(cfg, EndChunk(cfg, s, chunk, items, env).state)
  {
    var s' := EndChunk(cfg, s, chunk, items, env).state;
    var more := Settle(items, env.outcomes, chunk);
    assert s'.log[..|s'.log|] == s'.log == s.log + more;
    forall k | k in s'.removed ensures RemovalSettled(cfg, s'.log, k, s'.removed[k]) {
      if k in s.removed {
        RemovalStaysSettled(cfg, s.log, more, k, s.removed[k]);
      } else {
        EndChunkSettles(cfg, s, chunk, items, env, k);
      }
    }
  }

  lemma LandedSettledUpTo(cfg: Config, s: State, arrivals: seq<Arrival>, cut: nat)
    requires Inv(cfg, s) && AllFresh(cfg, Used(s), arrivals) && AllAbove(Min(s.lastFlushed, cut), arrivals)
    ensures WalOk(cfg, Landed(s, arrivals).wal) && SettledUpTo(cfg, Landed(s, arrivals), cut)
  {
    LandAllKeeps(cfg, s.wal, Used(s), arrivals);
    var read := Landed(s, arrivals);
    forall k | k in read.wal.entries && k <= read.lastFlushed && k <= cut
      ensures EntrySettled(cfg, read.log, k, read.wal.entries[k])
    {
      if k !in s.wal.entries {
        assert Lands(arrivals, k, read.wal.entries[k]);
      }
    }
  }

  lemma MarkingKeepsEntries(cfg: Config, s: State, route: Route)
    ensures var m := MarkedBy(cfg, s, route);
            && m.wal.entries == s.wal.entries && m.wal.landed == s.wal.landed && m.log == s.log
            && m.removed == s.removed
            && m.lastFlushed == s.lastFlushed && (WalOk(cfg, s.wal) ==> WalOk(cfg, m.wal))
  {
  }

  lemma StepKeepsSettled(cfg: Config, s: State, snapshot: nat, env: StepEnv)
    requires Inv(cfg, s) && FreshStep(cfg, s, env) && Truncates(cfg, s, snapshot, env)
    requires StepCut(cfg, s, snapshot, env) <= StepThrough(cfg, s, snapshot, env)
    requires AllAbove(Min(s.lastFlushed, StepCut(cfg, s, snapshot, env)), env.arrivals)
    requires AllAbove(StepCut(cfg, s, snapshot, env), env.lateArrivals)
    ensures RemovedSettled(cfg, Step(cfg, s, snapshot, env).state)
  {
    var w, cut := WorkOf(cfg, s, snapshot, env), StepCut(cfg, s, snapshot, env);
    var read := Landed(s, env.arrivals);
    var route := RouteOf(cfg, read, snapshot, env);
    StepEndsChunk(cfg, s, snapshot, env, w);
    LandedSettledUpTo(cfg, s, env.arrivals, cut);
    RoutesUnbroken(cfg, read, snapshot, env);
    RouteComplete(cfg, read, snapshot, route, w.items);
    MarkingKeepsEntries(cfg, read, route);
    assert Used(w.marked) == Used(read);
    EndChunkKeepsSettled(cfg, w.marked, w.chunk, w.items, env);
  }

  /**
   Exactly when a truncating step loses nothing, whatever the node: what lands behind
   it with points, at or below its watermark before it reads or at or below the one it
   leaves after that, lies above where it truncates.
   */
  lemma LandingExact(cfg: Config, s: State, snapshot: nat, env: StepEnv)
    requires Inv(cfg, s) && FreshStep(cfg, s, env) && Truncates(cfg, s, snapshot, env)
    requires MarginHolds(cfg, env.view, StepThrough(cfg, s, snapshot, env))
    ensures RemovedSettled(cfg, Step(cfg, s, snapshot, env).state) <==>
            forall k, e :: LandsBehind(cfg, s, snapshot, env, k, e) && |e.points| > 0 ==>
              StepCut(cfg, s, snapshot, env) < k
  {
    var cut, through := StepCut(cfg, s, snapshot, env), StepThrough(cfg, s, snapshot, env);
    B.SafeTruncateBounded(cfg.barrier, env.view, WorkOf(cfg, s, snapshot, env).marked.lastLocal, through);
    if exists k, e :: LandsBehind(cfg, s, snapshot, env, k, e) && |e.points| > 0 && k <= cut {
      var k: nat, e: N.Entry :| LandsBehind(cfg, s, snapshot, env, k, e) && |e.points| > 0 && k <= cut;
      LandingLoses(cfg, s, snapshot, env, k, e);
    } else {
      NoneBehind(cfg, s, snapshot, env);
      StepKeepsSettled(cfg, s, snapshot, env);
    }
  }

  lemma NoneBehind(cfg: Config, s: State, snapshot: nat, env: StepEnv)
    requires Truncates(cfg, s, snapshot, env) && StepCut(cfg, s, snapshot, env) <= StepThrough(cfg, s, snapshot, env)
    requires forall k, e ::
             LandsBehind(cfg, s, snapshot, env, k, e) && |e.points| > 0 ==> StepCut(cfg, s, snapshot, env) < k
    ensures AllAbove(Min(s.lastFlushed, StepCut(cfg, s, snapshot, env)), env.arrivals)
    ensures AllAbove(StepCut(cfg, s, snapshot, env), env.lateArrivals)
  {
    var cut := StepCut(cfg, s, snapshot, env);
    forall i | 0 <= i < |env.arrivals| && env.arrivals[i].Arrival? && |env.arrivals[i].entry.points| > 0
      ensures Min(s.lastFlushed, cut) < env.arrivals[i].seqno
    {
      var k, e := env.arrivals[i].seqno, env.arrivals[i].entry;
      assert Lands(env.arrivals, k, e);
      assert k <= s.lastFlushed ==> LandsBehind(cfg, s, snapshot, env, k, e);
    }
    forall i | 0 <= i < |env.lateArrivals| && env.lateArrivals[i].Arrival? && |env.lateArrivals[i].entry.points| > 0
      ensures cut < env.lateArrivals[i].seqno
    {
      var k, e := env.lateArrivals[i].seqno, env.lateArrivals[i].entry;
      assert Lands(env.lateArrivals, k, e);
      assert k <= cut ==> LandsBehind(cfg, s, snapshot, env, k, e);
    }
  }

  /**
   A margin past what is flushed loses what it passes: any entry with points between the
   end of the chunk and where the step truncates that no earlier chunk took.
   */
  lemma OverrunLoses(cfg: Config, s: State, snapshot: nat, env: StepEnv, k: nat, e: N.Entry)
    requires Inv(cfg, s) && FreshStep(cfg, s, env) && Truncates(cfg, s, snapshot, env)
    requires WorkOf(cfg, s, snapshot, env).chunk.upTo < k <= StepCut(cfg, s, snapshot, env)
    requires k in s.wal.entries && s.wal.entries[k] == e && |e.points| > 0 && Untaken(s.log, k)
    ensures !MarginHolds(cfg, env.view, StepThrough(cfg, s, snapshot, env))
    ensures Lost(cfg, Step(cfg, s, snapshot, env).state, k, e)
  {
    var w := WorkOf(cfg, s, snapshot, env);
    var read := Landed(s, env.arrivals);
    LandAllKeeps(cfg, s.wal, Used(s), env.arrivals);
    LandAllKeeps(cfg, read.wal, Used(read), env.lateArrivals);
    ThroughWithinChunk(cfg, s, snapshot, env);
    B.SafeTruncateBounded(cfg.barrier, env.view, w.marked.lastLocal, StepThrough(cfg, s, snapshot, env));
    StepLoses(cfg, s, snapshot, env, k, e);
  }

  lemma ThroughWithinChunk(cfg: Config, s: State, snapshot: nat, env: StepEnv)
    requires Truncates(cfg, s, snapshot, env)
    ensures StepThrough(cfg, s, snapshot, env) <= WorkOf(cfg, s, snapshot, env).chunk.upTo
  {
    RoutesWithin(cfg, Landed(s, env.arrivals), snapshot, env);
  }

  // ----------------------------------------------------------------- for good

  /** Removals are never undone, and the log only grows. */
  ghost predicate Extends(s: State, s': State) {
    && s.log <= s'.log
    && forall k :: k in s.removed ==> k in s'.removed && s'.removed[k] == s.removed[k]
  }

  lemma StepExtends(cfg: Config, s: State, snapshot: nat, env: StepEnv)
    ensures Extends(s, Step(cfg, s, snapshot, env).state)
  {
    MarkingKeepsEntries(cfg, Landed(s, env.arrivals), RouteOf(cfg, Landed(s, env.arrivals), snapshot, env));
  }

  lemma {:induction false} FlushExtends(cfg: Config, s: State, snapshot: nat, env: nat -> StepEnv, t: nat)
    ensures Extends(s, FlushLoop(cfg, s, snapshot, env, t).state)
    decreases if s.lastFlushed < snapshot then snapshot - s.lastFlushed else 0
  {
    if s.lastFlushed < snapshot {
      StepAdvances(cfg, s, snapshot, env(t));
      StepExtends(cfg, s, snapshot, env(t));
      var r := Step(cfg, s, snapshot, env(t));
      if r.status.Continue? {
        FlushExtends(cfg, r.state, snapshot, env, t + 1);
      }
    }
  }

  lemma FlushExtendsStep(cfg: Config, s: State, snapshot: nat, env: nat -> StepEnv, t: nat)
    requires s.lastFlushed < snapshot
    ensures Extends(Step(cfg, s, snapshot, env(t)).state, FlushLoop(cfg, s, snapshot, env, t).state)
  {
    StepAdvances(cfg, s, snapshot, env(t));
    var r := Step(cfg, s, snapshot, env(t));
    if r.status.Continue? {
      FlushExtends(cfg, r.state, snapshot, env, t + 1);
    }
  }

  lemma LostForGood(cfg: Config, s: State, s': State, k: nat, e: N.Entry)
    requires Lost(cfg, s, k, e) && Extends(s, s')
    ensures Lost(cfg, s', k, e)
  {
    assert s'.log[..s.removed[k].logged] == s.log[..s.removed[k].logged];
  }

  /** The loss at whichever turn of the flush loop it happens: the flush that makes it ends with it. */
  lemma LateEntryIsLost(cfg: Config, s: State, snapshot: nat, env: nat -> StepEnv, t: nat, k: nat, e: N.Entry)
    requires Inv(cfg, s) && s.lastFlushed < snapshot && FreshStep(cfg, s, env(t)) && Truncates(cfg, s, snapshot, env(t))
    requires LandsBehind(cfg, s, snapshot, env(t), k, e) && |e.points| > 0 && k <= StepCut(cfg, s, snapshot, env(t))
    ensures Lost(cfg, FlushLoop(cfg, s, snapshot, env, t).state, k, e)
  {
    LandingLoses(cfg, s, snapshot, env(t), k, e);
    FlushExtendsStep(cfg, s, snapshot, env, t);
    LostForGood(cfg, Step(cfg, s, snapshot, env(t)).state, FlushLoop(cfg, s, snapshot, env, t).state, k, e);
  }
}
