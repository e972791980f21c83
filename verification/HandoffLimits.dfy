/** Where the handoff does lose rows: a table emptied on the strength of a count that could not be read. */
module HandoffLimits {
  import opened KeyOrder
  import opened HandoffRanges
  import opened RollupHandoff
  import opened HandoffSafety

  /** A row that is no longer here, and whose range the receiver has not seen. */
  ghost predicate Gone(start: Start, w: World, s: Source, r: Row) {
    LocalRows(w, s) == [] && r in StartRows(start, s) && RowToken(start, s, r) !in DestOf(w, s.table).seen
  }

  lemma GoneIsUnsafe(start: Start, w: World, s: Source, r: Row)
    requires Gone(start, w, s, r)
    ensures !SourceSafe(start, w, s)
  {
    assert !AllArrived(start, w, s);
  }

  // ------------------------------------------------------------------- it stays gone

  lemma SendRangeLeavesGone(start: Start, w: World, o: Source, ranges: nat, i: nat, env: nat -> Fault, sent: nat,
                            t: nat, s: Source, r: Row)
    requires Injective(start.name) && i < ranges && Gone(start, w, s, r)
    ensures Gone(start, SendRange(start.name, w, o, ranges, i, env, sent, t).world, s, r)
  {
    if o.table == s.table && o != s {
      assert start.name(o, i, ranges) != RowToken(start, s, r);
    }
  }

  lemma {:induction false} SendRangesLeaveGone(start: Start, w: World, o: Source, ranges: nat, i: nat,
                                               env: nat -> Fault, sent: nat, t: nat, s: Source, r: Row)
    requires Injective(start.name) && i <= ranges && Gone(start, w, s, r)
    ensures Gone(start, SendRanges(start.name, w, o, ranges, i, env, sent, t).world, s, r)
    decreases ranges - i
  {
    if i < ranges {
      SendRangeLeavesGone(start, w, o, ranges, i, env, sent, t, s, r);
      SendRangesFrom(start.name, w, o, ranges, i, env, sent, t);
      var p := SendRange(start.name, w, o, ranges, i, env, sent, t);
      if p.ok {
        SendRangesLeaveGone(start, p.world, o, ranges, i + 1, env, p.sent, p.calls, s, r);
      }
    }
  }

  lemma SendTableLeavesGone(start: Start, w: World, o: Source, env: nat -> Fault, sent: nat, t: nat, s: Source, r: Row)
    requires Injective(start.name) && Gone(start, w, s, r)
    ensures Gone(start, SendTable(start.name, w, o, env, sent, t).world, s, r)
  {
    SendRangesLeaveGone(start, w, o, RangeCount(|LocalRows(w, o)|), 0, env, sent, t + 1, s, r);
  }

  lemma KeyLeavesGone(start: Start, w: World, node: nat, key: Key, env: nat -> Fault, sent: nat, t: nat, s: Source,
                      r: Row)
    requires Injective(start.name) && Gone(start, w, s, r)
    ensures Gone(start, HandOffKey(start.name, w, node, key, env, sent, t).world, s, r)
  {
    var fact, dim := Source(node, Table(key, false)), Source(node, Table(key, true));
    SendTableLeavesGone(start, w, fact, env, sent, t, s, r);
    var p1 := SendTable(start.name, w, fact, env, sent, t);
    SendTableLeavesGone(start, p1.world, dim, env, p1.sent, p1.calls, s, r);
  }

  lemma {:induction false} AttemptLeavesGone(start: Start, w: World, node: nat, keys: seq<Key>, env: nat -> Fault,
                                             s: Source, r: Row)
    requires Injective(start.name) && Gone(start, w, s, r)
    ensures Gone(start, HandOffKeys(start.name, w, node, keys, env).world, s, r)
  {
    if |keys| > 0 {
      var n := |keys| - 1;
      AttemptLeavesGone(start, w, node, keys[..n], env, s, r);
      var p := HandOffKeys(start.name, w, node, keys[..n], env);
      KeyLeavesGone(start, p.world, node, keys[n], env, p.sent, p.calls, s, r);
    }
  }

  // ---------------------------------------------------------------------- the losses

  lemma NotHeard(start: Start, w: World, s: Source, env: nat -> Fault, t: nat) returns (r: Row)
    requires !CountHeard(start, w, s, env, t)
    ensures env(t).Garbled? && r in StartRows(start, s) && RowToken(start, s, r) !in DestOf(w, s.table).seen
  {
    r :| r in StartRows(start, s) && RowToken(start, s, r) !in DestOf(w, s.table).seen;
  }

  lemma KeyLoses(start: Start, w: World, node: nat, key: Key, env: nat -> Fault, sent: nat, t: nat)
    returns (s: Source, r: Row)
    requires ValidStart(start) && Inv(start, w) && node in start.nodes && !KeyHeard(start, w, node, key, env, sent, t)
    ensures s.node == node && Gone(start, HandOffKey(start.name, w, node, key, env, sent, t).world, s, r)
  {
    var fact, dim := Source(node, Table(key, false)), Source(node, Table(key, true));
    SendTableKeeps(start, w, fact, env, sent, t);
    var p1 := SendTable(start.name, w, fact, env, sent, t);
    SendTableKeeps(start, p1.world, dim, env, p1.sent, p1.calls);
    if !CountHeard(start, w, fact, env, t) {
      s := fact;
      r := NotHeard(start, w, fact, env, t);
    } else {
      s := dim;
      r := NotHeard(start, p1.world, dim, env, p1.calls);
    }
  }

  lemma {:induction false} AttemptLoses(start: Start, w: World, node: nat, keys: seq<Key>, env: nat -> Fault)
    returns (s: Source, r: Row)
    requires ValidStart(start) && Inv(start, w) && node in start.nodes && !AttemptHeard(start, w, node, keys, env)
    ensures s.node == node && Gone(start, HandOffKeys(start.name, w, node, keys, env).world, s, r)
  {
    var n := |keys| - 1;
    var p := HandOffKeys(start.name, w, node, keys[..n], env);
    if !AttemptHeard(start, w, node, keys[..n], env) {
      s, r := AttemptLoses(start, w, node, keys[..n], env);
      if p.ok {
        KeyLeavesGone(start, p.world, node, keys[n], env, p.sent, p.calls, s, r);
      }
    } else {
      AttemptKeeps(start, w, node, keys[..n], env);
      s, r := KeyLoses(start, p.world, node, keys[n], env, p.sent, p.calls);
    }
  }

  lemma {:induction false} RunLoses(start: Start, attempts: seq<Attempt>) returns (s: Source, r: Row)
    requires ValidStart(start) && ValidAttempts(start, attempts) && !RunHeard(start, attempts)
    ensures s.node in start.nodes && Gone(start, RunAttempts(start.name, Begin(start), attempts), s, r)
  {
    var n := |attempts| - 1;
    var a, w := attempts[n], RunAttempts(start.name, Begin(start), attempts[..n]);
    assert a.node in start.nodes;
    if !RunHeard(start, attempts[..n]) {
      s, r := RunLoses(start, attempts[..n]);
      AttemptLeavesGone(start, w, a.node, a.keys, a.env, s, r);
    } else {
      RunKeepsInv(start, attempts[..n]);
      s, r := AttemptLoses(start, w, a.node, a.keys, a.env);
    }
  }

  ghost predicate AllSafe(start: Start, w: World) {
    forall n, t :: n in start.nodes ==> SourceSafe(start, w, Source(n, t))
  }

  /** One destination leaves every departing table safe exactly when the count of each table it emptied was heard. */
  lemma KeySafeExactly(start: Start, w: World, node: nat, key: Key, env: nat -> Fault, sent: nat, t: nat)
    requires ValidStart(start) && Inv(start, w) && node in start.nodes
    ensures AllSafe(start, HandOffKey(start.name, w, node, key, env, sent, t).world) <==>
            KeyHeard(start, w, node, key, env, sent, t)
  {
    if KeyHeard(start, w, node, key, env, sent, t) {
      HandOffKeyKeeps(start, w, node, key, env, sent, t);
    } else {
      var s, r := KeyLoses(start, w, node, key, env, sent, t);
      GoneIsUnsafe(start, HandOffKey(start.name, w, node, key, env, sent, t).world, s, r);
      assert s == Source(s.node, s.table);
    }
  }

  /**
   Exactly when a run of attempts leaves every departing table whole here or wholly
   arrived: when the count of each table an attempt emptied could be read, or the
   table was empty or had all arrived by then. Replies to other calls do not matter.
   */
  lemma SafeExactlyWhenHeard(start: Start, attempts: seq<Attempt>)
    requires ValidStart(start) && ValidAttempts(start, attempts) && start.name == TokenOf
    ensures AllSafe(start, RunAttempts(TokenOf, Begin(start), attempts)) <==> RunHeard(start, attempts)
  {
    if RunHeard(start, attempts) {
      RunKeepsInv(start, attempts);
    } else {
      var s, r := RunLoses(start, attempts);
      GoneIsUnsafe(start, RunAttempts(TokenOf, Begin(start), attempts), s, r);
      assert s == Source(s.node, s.table);
    }
  }

  // ---------------------------------------------------------------------- a witness

  /** One node with one row in one fact table, and a receiver with nothing. */
  ghost function OneRow(node: nat, key: Key, row: Row): Start {
    Start(TokenOf, [node], map[Source(node, Table(key, false)) := [row]], map[])
  }

  /** Only the first reply, to the count of the fact table, cannot be read. */
  ghost function FirstGarbled(t: nat): Fault {
    if t == 0 then Garbled else Fine
  }

  /** The attempt over the one destination succeeds and leaves the row nowhere. */
  lemma UnreadableCountLosesRows(node: nat, key: Key, row: Row)
    requires row.seriesId < U64
    ensures var start := OneRow(node, key, row);
            var p := HandOffKeys(TokenOf, Begin(start), node, [key], FirstGarbled);
            && ValidStart(start) && p.ok && p.world.dest == map[]
            && Gone(start, p.world, Source(node, Table(key, false)), row)
  {
    var start := OneRow(node, key, row);
    var w := Begin(start);
    TokensInjective();
    assert HandOffKeys(TokenOf, w, node, [], FirstGarbled) == Progress(w, true, 0, 0);
    assert [key][..0] == [];
  }
}
