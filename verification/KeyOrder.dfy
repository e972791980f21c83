/** The order in which a sorted map of (database, retention policy, measurement) keys is walked. */
module KeyOrder {

  datatype Key = Key(db: string, rp: string, measurement: string)

  predicate StringLeq(a: string, b: string) {
    a == "" || (b != "" && (a[0] < b[0] || (a[0] == b[0] && StringLeq(a[1..], b[1..]))))
  }

  predicate KeyLeq(a: Key, b: Key) {
    if a.db != b.db then StringLeq(a.db, b.db)
    else if a.rp != b.rp then StringLeq(a.rp, b.rp)
    else StringLeq(a.measurement, b.measurement)
  }

  lemma {:induction false} StringTotal(a: string, b: string)
    ensures StringLeq(a, b) || StringLeq(b, a)
    ensures StringLeq(a, b) && StringLeq(b, a) ==> a == b
  {
    if a != "" && b != "" && a[0] == b[0] {
      StringTotal(a[1..], b[1..]);
      if a[1..] == b[1..] {
        assert a == [a[0]] + a[1..] && b == [b[0]] + b[1..];
      }
    }
  }

  lemma {:induction false} StringTransitive(a: string, b: string, c: string)
    requires StringLeq(a, b) && StringLeq(b, c)
    ensures StringLeq(a, c)
  {
    if a != "" && a[0] == b[0] == c[0] {
      StringTransitive(a[1..], b[1..], c[1..]);
    }
  }

  lemma KeyTotal(a: Key, b: Key)
    ensures KeyLeq(a, b) || KeyLeq(b, a)
    ensures KeyLeq(a, b) && KeyLeq(b, a) ==> a == b
  {
    StringTotal(a.db, b.db);
    StringTotal(a.rp, b.rp);
    StringTotal(a.measurement, b.measurement);
  }

  lemma KeyTransitive(a: Key, b: Key, c: Key)
    requires KeyLeq(a, b) && KeyLeq(b, c)
    ensures KeyLeq(a, c)
  {
    if a.db != c.db {
      StringTotal(a.db, b.db);
      if a.db != b.db && b.db != c.db {
        StringTransitive(a.db, b.db, c.db);
      }
    } else if a.db != b.db {
      StringTotal(a.db, b.db);
    } else if a.rp != c.rp {
      if a.rp != b.rp && b.rp != c.rp {
        StringTransitive(a.rp, b.rp, c.rp);
      }
    } else if a.rp != b.rp {
      StringTotal(a.rp, b.rp);
    } else {
      StringTransitive(a.measurement, b.measurement, c.measurement);
    }
  }

  ghost predicate IsLeast(k: Key, keys: set<Key>) {
    k in keys && forall o :: o in keys ==> KeyLeq(k, o)
  }

  lemma {:induction false} LeastExists(keys: set<Key>)
    requires keys != {}
    ensures exists k :: IsLeast(k, keys)
    decreases keys
  {
    var k :| k in keys;
    if keys == {k} {
      KeyTotal(k, k);
      assert IsLeast(k, keys);
    } else {
      var rest := keys - {k};
      LeastExists(rest);
      var l :| IsLeast(l, rest);
      KeyTotal(k, l);
      KeyTotal(k, k);
      if KeyLeq(k, l) {
        forall o | o in keys ensures KeyLeq(k, o) {
          if o != k { KeyTransitive(k, l, o); }
        }
        assert IsLeast(k, keys);
      } else {
        assert IsLeast(l, keys);
      }
    }
  }

  ghost function Least(keys: set<Key>): (k: Key)
    requires keys != {}
    ensures IsLeast(k, keys)
  {
    LeastExists(keys);
    var k :| IsLeast(k, keys);
    k
  }

  /** No key comes before a lesser one. */
  ghost predicate InOrder(ks: seq<Key>) {
    forall i, j {:trigger KeyLeq(ks[i], ks[j])} :: 0 <= i < j < |ks| ==> KeyLeq(ks[i], ks[j])
  }

  /** The keys in ascending order, each once. */
  ghost function Ascending(keys: set<Key>): (ks: seq<Key>)
    ensures forall k :: k in ks <==> k in keys
    ensures forall i, j :: 0 <= i < j < |ks| ==> ks[i] != ks[j]
    ensures InOrder(ks)
    decreases keys
  {
    if keys == {} then []
    else
      var k := Least(keys);
      [k] + Ascending(keys - {k})
  }

  method FirstKey(keys: set<Key>) returns (k: Key)
    requires keys != {}
    ensures k == Least(keys)
  {
    LeastExists(keys);
    k :| k in keys && forall o :: o in keys ==> KeyLeq(k, o);
    KeyTotal(k, Least(keys));
  }

  lemma TakeLeast(keys: set<Key>, before: seq<Key>)
    requires keys != {}
    ensures before + Ascending(keys) == (before + [Least(keys)]) + Ascending(keys - {Least(keys)})
  {
    var rest := Ascending(keys - {Least(keys)});
    assert before + ([Least(keys)] + rest) == (before + [Least(keys)]) + rest;
  }

  method SortedKeys(keys: set<Key>) returns (ks: seq<Key>)
    ensures ks == Ascending(keys) && InOrder(ks)
  {
    ks := [];
    var todo := keys;
    while todo != {}
      invariant Ascending(keys) == ks + Ascending(todo)
      decreases todo
    {
      TakeLeast(todo, ks);
      var k := FirstKey(todo);
      ks := ks + [k];
      todo := todo - {k};
    }
  }

  lemma OneKeyMore(keys: seq<Key>, n: nat, key: Key)
    requires n + 1 == |keys| && forall i, j :: 0 <= i < j < |keys| ==> keys[i] != keys[j]
    ensures key in keys <==> key in keys[..n] || key == keys[n]
    ensures !(key in keys[..n] && key == keys[n])
  {
    assert keys == keys[..n] + [keys[n]];
  }
}
