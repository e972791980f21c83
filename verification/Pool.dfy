/**
 The proxy's backend pool. Exclusion is recorded twice, as a flag on the backend
 and in a set of addresses, and every operation keeps the two in agreement.
 */
module Pool {
  import opened Wrappers

  /** Addresses, in the order the resolver sorts them. */
  type Ip = nat

  datatype Health = Unknown | Active | Draining | Down

  /** What a probe met: a status, or no answer. */
  datatype Probe = Status(code: nat) | NoAnswer

  datatype Error = NotInPool(ip: Ip)

  /** One past the largest cursor. */
  const CURSOR_SPAN: nat := 0x1_0000_0000_0000_0000

  class Backend {
    const addr: Ip
    var health: Health
    var failures: nat
    var excluded: bool

    constructor (addr: Ip)
      ensures this.addr == addr && health == Unknown && failures == 0 && !excluded
    {
      this.addr, health, failures, excluded := addr, Unknown, 0, false;
    }

    predicate Routable()
      reads this
    {
      health == Active && !excluded
    }
  }

  ghost predicate Distinct(ips: seq<Ip>) {
    forall i, j :: 0 <= i < j < |ips| ==> ips[i] != ips[j]
  }

  ghost predicate DistinctAddrs(bs: seq<Backend>) {
    forall i, j :: 0 <= i < j < |bs| ==> bs[i].addr != bs[j].addr
  }

  ghost function Addrs(bs: seq<Backend>): set<Ip> {
    set b | b in bs :: b.addr
  }

  /** The backends a request may go to, in pool order. */
  ghost function RoutableOf(bs: seq<Backend>): seq<Backend>
    reads bs
  {
    if |bs| == 0 then []
    else
      var before := RoutableOf(bs[..|bs| - 1]);
      if bs[|bs| - 1].Routable() then before + [bs[|bs| - 1]] else before
  }

  lemma {:induction false} RoutableAre(bs: seq<Backend>, b: Backend)
    ensures b in RoutableOf(bs) <==> b in bs && b.Routable()
  {
    if |bs| > 0 {
      RoutableAre(bs[..|bs| - 1], b);
      assert bs == bs[..|bs| - 1] + [bs[|bs| - 1]];
    }
  }

  /** The same, but for one backend. */
  ghost function RoutableBut(bs: seq<Backend>, but: Backend): seq<Backend>
    reads bs
  {
    if |bs| == 0 then []
    else
      var before := RoutableBut(bs[..|bs| - 1], but);
      var b := bs[|bs| - 1];
      if b.Routable() && b != but then before + [b] else before
  }

  lemma {:induction false} RoutableButAre(bs: seq<Backend>, but: Backend, b: Backend)
    ensures b in RoutableBut(bs, but) <==> b in bs && b.Routable() && b != but
  {
    if |bs| > 0 {
      RoutableButAre(bs[..|bs| - 1], but, b);
      assert bs == bs[..|bs| - 1] + [bs[|bs| - 1]];
    }
  }

  class BackendPool {
    const selfIp: Option<Ip>
    var backends: seq<Backend>
    var excluded: set<Ip>
    var cursor: nat

    /** Addresses are unique and not the proxy's own, and both records of exclusion agree. */
    ghost predicate Valid()
      reads this, backends
    {
      && cursor < CURSOR_SPAN
      && DistinctAddrs(backends)
      && (selfIp.Some? ==> selfIp.value !in Addrs(backends))
      && excluded <= Addrs(backends)
      && forall b :: b in backends ==> (b.excluded <==> b.addr in excluded)
    }

    constructor (selfIp: Option<Ip>)
      ensures Valid() && backends == [] && excluded == {} && this.selfIp == selfIp
    {
      this.selfIp, backends, excluded, cursor := selfIp, [], {}, 0;
    }

    method Find(ip: Ip) returns (found: Option<Backend>)
      ensures found.Some? ==> found.value in backends && found.value.addr == ip
      ensures found.None? ==> ip !in Addrs(backends)
    {
      for i := 0 to |backends|
        invariant forall k :: 0 <= k < i ==> backends[k].addr != ip
      {
        if backends[i].addr == ip {
          return Some(backends[i]);
        }
      }
      return None;
    }

    method ExcludeBackend(ip: Ip) returns (r: Result<bool, Error>)
      requires Valid()
      modifies this`excluded, backends
      ensures Valid()
      ensures ip in Addrs(backends) ==> r == Ok(ip !in old(excluded)) && excluded == old(excluded) + {ip}
      ensures ip !in Addrs(backends) ==> r == Err(NotInPool(ip)) && excluded == old(excluded)
      ensures forall b :: b in backends ==> b.health == old(b.health) && b.failures == old(b.failures)
    {
      var b := Find(ip);
      if b.None? {
        return Err(NotInPool(ip));
      }
      b.value.excluded := true;
      r := Ok(ip !in excluded);
      excluded := excluded + {ip};
      SameAddrIsSame(backends);
    }

    method IncludeBackend(ip: Ip) returns (was: bool)
      requires Valid()
      modifies this`excluded, backends
      ensures Valid()
      ensures was == (ip in old(excluded)) && excluded == old(excluded) - {ip}
      ensures forall b :: b in backends ==> b.health == old(b.health) && b.failures == old(b.failures)
    {
      var b := Find(ip);
      if b.Some? {
        b.value.excluded := false;
      }
      was := ip in excluded;
      excluded := excluded - {ip};
      SameAddrIsSame(backends);
    }

    /** A probe changes health and failures of one backend, of this pool or not, and no exclusion. */
    method ProbeOne(b: Backend, answer: Probe) returns (changed: Option<Health>)
      requires Valid()
      modifies b`health, b`failures
      ensures Valid()
      ensures b.health == match answer
                          case NoAnswer => Down
                          case Status(c) => if 200 <= c < 300 then Active else if c == 503 then Draining else Down
      ensures b.failures == if b.health == Down then old(b.failures) + 1 else 0
      ensures changed == if old(b.health) != b.health then Some(old(b.health)) else None
    {
      var before := b.health;
      match answer {
        case Status(code) =>
          if 200 <= code < 300 {
            b.health := Active;
          } else if code == 503 {
            b.health := Draining;
          } else {
            b.health := Down;
          }
        case NoAnswer => b.health := Down;
      }
      if b.health == Active || b.health == Draining {
        b.failures := 0;
      } else {
        b.failures := b.failures + 1;
      }
      changed := if before != b.health then Some(before) else None;
    }

    /** The addresses found, sorted, each once, without the proxy's own. */
    method Resolve(found: seq<Ip>) returns (ips: seq<Ip>)
      ensures forall i, j :: 0 <= i < j < |ips| ==> ips[i] < ips[j]
      ensures forall ip :: ip in ips <==> ip in found && Some(ip) != selfIp
    {
      ips := [];
      for i := 0 to |found|
        invariant forall j, k :: 0 <= j < k < |ips| ==> ips[j] < ips[k]
        invariant forall ip :: ip in ips <==> ip in found[..i] && Some(ip) != selfIp
      {
        assert found[..i + 1] == found[..i] + [found[i]];
        if Some(found[i]) != selfIp {
          ips := Insert(ips, found[i]);
        }
      }
      assert found[..|found|] == found;
    }

    static method Insert(ips: seq<Ip>, ip: Ip) returns (more: seq<Ip>)
      requires forall i, j :: 0 <= i < j < |ips| ==> ips[i] < ips[j]
      ensures forall i, j :: 0 <= i < j < |more| ==> more[i] < more[j]
      ensures forall x :: x in more <==> x in ips || x == ip
    {
      var k := 0;
      while k < |ips| && ips[k] < ip
        invariant 0 <= k <= |ips| && forall i :: 0 <= i < k ==> ips[i] < ip
      {
        k := k + 1;
      }
      if k < |ips| && ips[k] == ip {
        return ips;
      }
      more := ips[..k] + [ip] + ips[k..];
      InsertedAt(ips, k, ip);
    }

    /**
     The pool becomes the addresses given: a backend whose address stays is the
     same object as before, with its health and exclusion, and others start anew.
     */
    method Reconcile(ips: seq<Ip>)
      requires Valid() && Distinct(ips) && (selfIp.Some? ==> selfIp.value !in ips)
      modifies `backends, `excluded
      ensures Valid()
      ensures |backends| == |ips| && forall i :: 0 <= i < |ips| ==> backends[i].addr == ips[i]
      ensures forall b :: b in old(backends) && b.addr in ips ==> b in backends
      ensures forall b :: b in backends && b !in old(backends) ==> fresh(b) && b.health == Unknown && !b.excluded
      ensures excluded == set ip | ip in old(excluded) && ip in ips
    {
      var next, removed;
      ghost var made;
      next, removed, made := Rebuild(backends, ips);
      ghost var cur := backends;
      backends := next;
      AddrsAre(next, ips);
      assert forall ip :: ip in excluded ==> exists b :: b in cur && b.addr == ip;
      if removed > 0 {
        excluded := set ip | ip in excluded && ip in ips;
      }
    }

    /** The backend known at an address, or a new one. */
    static method KeepOrAdd(existing: map<Ip, Backend>, ip: Ip) returns (b: Backend, existing': map<Ip, Backend>)
      requires ip in existing ==> existing[ip].addr == ip
      ensures b.addr == ip && existing' == existing - {ip}
      ensures ip in existing ==> b == existing[ip]
      ensures ip !in existing ==> fresh(b) && b.health == Unknown && !b.excluded
    {
      if ip in existing {
        b, existing' := existing[ip], existing - {ip};
      } else {
        b := new Backend(ip);
        existing' := existing;
      }
    }

    /** The known backends by address. */
    static method ByAddr(bs: seq<Backend>) returns (existing: map<Ip, Backend>)
      requires DistinctAddrs(bs)
      ensures Tracked(bs, existing, [], [])
    {
      SameAddrIsSame(bs);
      existing := map b | b in bs :: b.addr := b;
    }

    /** The new snapshot, and how many backends it leaves out. */
    static method Rebuild(cur: seq<Backend>, ips: seq<Ip>)
      returns (next: seq<Backend>, removed: nat, ghost made: set<Backend>)
      requires DistinctAddrs(cur) && Distinct(ips)
      ensures fresh(made) && Built(cur, next, ips, made)
      ensures forall b :: b in cur && b.addr in ips ==> b in next
      ensures removed == 0 ==> forall b :: b in cur ==> b.addr in ips
    {
      var existing := ByAddr(cur);
      next, made := [], {};
      for i := 0 to |ips|
        invariant Tracked(cur, existing, next, ips[..i])
        invariant fresh(made) && Built(cur, next, ips[..i], made)
      {
        assert ips[..i + 1] == ips[..i] + [ips[i]];
        var b;
        ghost var before := existing;
        b, existing := KeepOrAdd(existing, ips[i]);
        TrackedStep(cur, before, next, ips[..i], ips[i], b);
        BuiltStep(cur, next, ips[..i], made, b, if b in cur then made else made + {b});
        made := if b in cur then made else made + {b};
        next := next + [b];
      }
      removed := |existing|;
      assert ips[..|ips|] == ips;
      TrackedEnd(cur, existing, next, ips);
    }

    /** One round of discovery, whatever the lookup gave. */
    method Discover(found: seq<Ip>)
      requires Valid()
      modifies `backends, `excluded
      ensures Valid()
      ensures Addrs(backends) == set ip | ip in found && Some(ip) != selfIp
      ensures forall b :: b in old(backends) && b.addr in Addrs(backends) ==> b in backends
      ensures excluded == old(excluded) * Addrs(backends)
    {
      var ips := Resolve(found);
      Reconcile(ips);
      AddrsAre(backends, ips);
    }

    method PickActive() returns (picked: Option<Backend>)
      requires Valid()
      modifies `cursor
      ensures Valid()
      ensures var routable := RoutableOf(backends);
              if routable == [] then picked == None && cursor == old(cursor)
              else picked == Some(routable[old(cursor) % |routable|]) && cursor == (old(cursor) + 1) % CURSOR_SPAN
      ensures picked.Some? ==>
              picked.value in backends && picked.value.health == Active && picked.value.addr !in excluded
      ensures picked.None? ==> forall b :: b in backends ==> b.health != Active || b.addr in excluded
    {
      var active := [];
      for i := 0 to |backends|
        invariant active == RoutableOf(backends[..i])
      {
        assert backends[..i + 1][..i] == backends[..i];
        if backends[i].Routable() {
          active := active + [backends[i]];
        }
      }
      assert backends[..|backends|] == backends;
      forall b ensures b in RoutableOf(backends) <==> b in backends && b.Routable() {
        RoutableAre(backends, b);
      }
      if active == [] {
        return None;
      }
      picked := Some(active[cursor % |active|]);
      cursor := (cursor + 1) % CURSOR_SPAN;
    }

    method PickActiveExcluding(but: Backend) returns (picked: Option<Backend>)
      requires Valid()
      modifies `cursor
      ensures Valid()
      ensures var routable := RoutableBut(backends, but);
              if routable == [] then picked == None && cursor == old(cursor)
              else picked == Some(routable[old(cursor) % |routable|]) && cursor == (old(cursor) + 1) % CURSOR_SPAN
      ensures picked.Some? ==>
        picked.value in backends && picked.value.health == Active && picked.value.addr !in excluded
          && picked.value != but
      ensures picked.None? ==> forall b :: b in backends && b != but ==> b.health != Active || b.addr in excluded
    {
      var active := [];
      for i := 0 to |backends|
        invariant active == RoutableBut(backends[..i], but)
      {
        assert backends[..i + 1][..i] == backends[..i];
        if backends[i].Routable() && backends[i] != but {
          active := active + [backends[i]];
        }
      }
      assert backends[..|backends|] == backends;
      forall b ensures b in RoutableBut(backends, but) <==> b in backends && b.Routable() && b != but {
        RoutableButAre(backends, but, b);
      }
      if active == [] {
        return None;
      }
      picked := Some(active[cursor % |active|]);
      cursor := (cursor + 1) % CURSOR_SPAN;
    }

    /**
     As many picks in a row, with nothing else changing the pool, take the routable
     backends where the cursor points; once for each, no one twice exactly when the
     cursor does not wrap meanwhile, or wraps at a multiple of their number.
     */
    method PickTimes(n: nat) returns (picks: seq<Backend>)
      requires Valid() && |RoutableOf(backends)| > 0
      modifies `cursor
      ensures Valid() && |picks| == n && cursor == (old(cursor) + n) % CURSOR_SPAN
      ensures var routable := RoutableOf(backends);
              forall k :: 0 <= k < n ==> picks[k] == routable[PickIndex(CURSOR_SPAN, old(cursor), k, |routable|)]
      ensures n == |RoutableOf(backends)| <= CURSOR_SPAN ==>
                (NoneTwice(picks) <==> old(cursor) + n <= CURSOR_SPAN || CURSOR_SPAN % n == 0)
    {
      picks := [];
      ghost var c, routable := cursor, RoutableOf(backends);
      SmallMod(c, CURSOR_SPAN);
      for i := 0 to n
        invariant Valid() && |picks| == i && cursor == (c + i) % CURSOR_SPAN
        invariant forall k :: 0 <= k < i ==> picks[k] == routable[PickIndex(CURSOR_SPAN, c, k, |routable|)]
      {
        NextMod(c + i, CURSOR_SPAN);
        var picked := PickActive();
        picks := picks + [picked.value];
      }
      if n == |routable| <= CURSOR_SPAN {
        RoutableDistinct(backends);
        PicksFair(routable, picks, c);
      }
    }
  }

  lemma InsertedAt(ips: seq<Ip>, k: nat, ip: Ip)
    requires k <= |ips| && forall i, j :: 0 <= i < j < |ips| ==> ips[i] < ips[j]
    requires (forall i :: 0 <= i < k ==> ips[i] < ip) && (k < |ips| ==> ip < ips[k])
    ensures var more := ips[..k] + [ip] + ips[k..];
            && (forall i, j :: 0 <= i < j < |more| ==> more[i] < more[j])
            && forall x :: x in more <==> x in ips || x == ip
  {
    assert ips == ips[..k] + ips[k..];
  }

  /** A backend just made, at an address that was not in the pool. */
  ghost predicate IsNew(b: Backend, cur: seq<Backend>)
    reads b
  {
    b.health == Unknown && !b.excluded && b.addr !in Addrs(cur)
  }

  /** At each address the backend that was there, or one just made. */
  ghost predicate Built(cur: seq<Backend>, next: seq<Backend>, ips: seq<Ip>, made: set<Backend>)
    reads next
  {
    |next| == |ips| && forall k ::
      0 <= k < |next| ==> next[k].addr == ips[k] && (next[k] in cur || (next[k] in made && IsNew(next[k], cur)))
  }

  lemma BuiltStep(cur: seq<Backend>, next: seq<Backend>, done: seq<Ip>, made: set<Backend>, b: Backend,
                  made': set<Backend>)
    requires Built(cur, next, done, made) && made <= made' && (b in cur || (b in made' && IsNew(b, cur)))
    ensures Built(cur, next + [b], done + [b.addr], made')
  {
  }

  lemma SameAddrIsSame(bs: seq<Backend>)
    requires DistinctAddrs(bs)
    ensures forall a, b :: a in bs && b in bs && a.addr == b.addr ==> a == b
  {
  }

  lemma AddrsAre(bs: seq<Backend>, ips: seq<Ip>)
    requires |bs| == |ips| && forall i :: 0 <= i < |ips| ==> bs[i].addr == ips[i]
    ensures Addrs(bs) == set ip | ip in ips
    ensures Distinct(ips) ==> DistinctAddrs(bs)
  {
    forall ip | ip in ips ensures ip in Addrs(bs) {
      var i :| 0 <= i < |ips| && ips[i] == ip;
      assert bs[i] in bs;
    }
  }

  /** What is left of the known backends are those whose address has not come up. */
  ghost predicate Tracked(bs: seq<Backend>, existing: map<Ip, Backend>, next: seq<Backend>, done: seq<Ip>) {
    && (forall ip :: ip in existing ==> existing[ip] in bs && existing[ip].addr == ip)
    && forall b :: b in bs ==> if b.addr in done then b in next else b.addr in existing
  }

  lemma TrackedEnd(bs: seq<Backend>, existing: map<Ip, Backend>, next: seq<Backend>, ips: seq<Ip>)
    requires Tracked(bs, existing, next, ips)
    ensures forall b :: b in bs && b.addr in ips ==> b in next
    ensures |existing| == 0 ==> forall b :: b in bs ==> b.addr in ips
  {
    assert |existing| == 0 ==> existing == map[];
  }

  lemma TrackedStep(bs: seq<Backend>, existing: map<Ip, Backend>, next: seq<Backend>, done: seq<Ip>, ip: Ip, b: Backend)
    requires DistinctAddrs(bs) && Tracked(bs, existing, next, done) && ip !in done
    requires b.addr == ip && (ip in existing ==> b == existing[ip])
    ensures Tracked(bs, existing - {ip}, next + [b], done + [ip])
    ensures if ip in existing then b in bs else ip !in Addrs(bs)
  {
    SameAddrIsSame(bs);
    forall c | c in bs ensures if c.addr in done + [ip] then c in next + [b] else c.addr in existing - {ip} {
      if c.addr == ip {
        assert c == existing[ip];
      }
    }
  }

  // ---------------------------------------------------------------------------- fairness

  /** Which of `n` routable backends the k-th pick from cursor `c` on takes; cursors wrap at `span`. */
  function PickIndex(span: nat, c: nat, k: nat, n: nat): nat
    requires span > 0 && n > 0
  {
    ((c + k) % span) % n
  }

  /** `n` picks in a row take each of `n` backends once. */
  ghost predicate EachOnce(span: nat, c: nat, n: nat)
    requires span > 0 && n > 0
  {
    forall i, j :: 0 <= i < j < n ==> PickIndex(span, c, i, n) != PickIndex(span, c, j, n)
  }

  lemma AtLeastOnce(n: nat, d: nat)
    requires d >= 1
    ensures n * d >= n
  {
  }

  lemma UniqueRemainder(n: nat, a: nat, b: nat, q: nat, r: nat)
    requires n * a + b == n * q + r && b < n && r < n
    ensures b == r
  {
    if a > q {
      AtLeastOnce(n, a - q);
    } else if a < q {
      AtLeastOnce(n, q - a);
    }
  }

  lemma ModOf(x: nat, q: nat, r: nat, n: nat)
    requires n > 0 && x == n * q + r && r < n
    ensures x % n == r
  {
    UniqueRemainder(n, x / n, x % n, q, r);
  }

  lemma ModStep(a: nat, k: nat, n: nat)
    requires k < n
    ensures (a + k) % n == if a % n + k < n then a % n + k else a % n + k - n
  {
    if a % n + k < n {
      ModOf(a + k, a / n, a % n + k, n);
    } else {
      ModOf(a + k, a / n + 1, a % n + k - n, n);
    }
  }

  lemma ModShift(x: nat, span: nat, n: nat)
    requires n > 0 && span % n == 0
    ensures (x + span) % n == x % n
  {
    assert n * (x / n + span / n) == n * (x / n) + n * (span / n);
    ModOf(x + span, x / n + span / n, x % n, n);
  }

  lemma ModBack(span: nat, x: nat, n: nat)
    requires n > 0 && x <= span % n
    ensures span >= x && (span - x) % n == span % n - x
  {
    ModOf(span - x, span / n, span % n - x, n);
  }

  /** While nothing wraps, or wrapping does not disturb the remainder, the k-th pick is the next remainder. */
  lemma PickGoesOn(span: nat, c: nat, k: nat, n: nat)
    requires c < span && k < n <= span && (c + n <= span || span % n == 0)
    ensures PickIndex(span, c, k, n) == if c % n + k < n then c % n + k else c % n + k - n
  {
    ModStep(c, k, n);
    if c + k >= span {
      PickAfter(span, c, k, n);
      ModShift(c + k - span, span, n);
    } else {
      PickBefore(span, c, k, n);
    }
  }

  /** The pick before the cursor wraps, and from there on. */
  lemma PickBefore(span: nat, c: nat, k: nat, n: nat)
    requires n > 0 && c + k < span
    ensures PickIndex(span, c, k, n) == (c + k) % n
  {
    ModOf(c + k, 0, c + k, span);
  }

  lemma PickAfter(span: nat, c: nat, k: nat, n: nat)
    requires n > 0 && span <= c + k < 2 * span
    ensures PickIndex(span, c, k, n) == (c + k - span) % n
  {
    ModOf(c + k, 1, c + k - span, span);
  }

  /** Otherwise two of the picks take the same backend: with fewer left than the remainder, the first is taken again. */
  lemma PickRepeatsFirst(span: nat, c: nat, n: nat, m: nat, r: nat)
    requires 0 < n <= span && span == c + m && r == span % n && 0 < m < r
    ensures PickIndex(span, c, 0, n) == PickIndex(span, c, r, n)
  {
    assert r < n && c + 0 == span - m && c + r - span == r - m;
    PickBefore(span, c, 0, n);
    PickAfter(span, c, r, n);
    ModBack(span, m, n);
    ModOf(r - m, 0, r - m, n);
  }

  /** And otherwise the one at 0. */
  lemma PickRepeatsZero(span: nat, c: nat, n: nat, m: nat, r: nat)
    requires 0 < n <= span && span == c + m && r == span % n && 0 < r <= m
    ensures PickIndex(span, c, m - r, n) == PickIndex(span, c, m, n)
  {
    PickBefore(span, c, m - r, n);
    ModBack(span, r, n);
    PickAfter(span, c, m, n);
  }

  /** Round robin is fair except exactly where the cursor wraps at a span `n` does not divide. */
  lemma RoundRobinExact(span: nat, c: nat, n: nat)
    requires c < span && 0 < n <= span
    ensures EachOnce(span, c, n) <==> c + n <= span || span % n == 0
  {
    if c + n <= span || span % n == 0 {
      forall i, j | 0 <= i < j < n ensures PickIndex(span, c, i, n) != PickIndex(span, c, j, n) {
        PickGoesOn(span, c, i, n);
        PickGoesOn(span, c, j, n);
      }
    } else {
      var m, r := span - c, span % n;
      if r <= m {
        PickRepeatsZero(span, c, n, m, r);
      } else {
        PickRepeatsFirst(span, c, n, m, r);
      }
    }
  }

  lemma SmallMod(c: nat, span: nat)
    requires c < span
    ensures c % span == c
  {
  }

  lemma NextMod(x: nat, span: nat)
    requires span > 1
    ensures (x % span + 1) % span == (x + 1) % span
  {
    ModStep(x, 1, span);
    NextOf(x % span, span);
  }

  lemma NextOf(r: nat, span: nat)
    requires r < span
    ensures (r + 1) % span == if r + 1 < span then r + 1 else 0
  {
    if r + 1 == span { ModOf(span, 1, 0, span); } else { SmallMod(r + 1, span); }
  }

  ghost predicate NoneTwice(picks: seq<Backend>) {
    forall i, j :: 0 <= i < j < |picks| ==> picks[i] != picks[j]
  }

  lemma {:induction false} RoutableDistinct(bs: seq<Backend>)
    requires DistinctAddrs(bs)
    ensures NoneTwice(RoutableOf(bs))
  {
    if |bs| > 0 {
      var n := |bs| - 1;
      RoutableDistinct(bs[..n]);
      RoutableAre(bs[..n], bs[n]);
    }
  }

  lemma PicksFair(routable: seq<Backend>, picks: seq<Backend>, c: nat)
    requires 0 < |routable| == |picks| <= CURSOR_SPAN && c < CURSOR_SPAN && NoneTwice(routable)
    requires forall k :: 0 <= k < |picks| ==> picks[k] == routable[PickIndex(CURSOR_SPAN, c, k, |routable|)]
    ensures NoneTwice(picks) <==> c + |picks| <= CURSOR_SPAN || CURSOR_SPAN % |picks| == 0
  {
    RoundRobinExact(CURSOR_SPAN, c, |picks|);
    if !EachOnce(CURSOR_SPAN, c, |picks|) {
      var i, j :| 0 <= i < j < |picks|
          && PickIndex(CURSOR_SPAN, c, i, |picks|) == PickIndex(CURSOR_SPAN, c, j, |picks|);
      assert picks[i] == picks[j];
    }
  }
}
