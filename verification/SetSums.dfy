/** Sums over a set of keys, whatever the order in which the keys come. */
module SetSums {

  ghost function SumOver<K(!new)>(keys: set<K>, f: K -> int): int
  {
    if keys == {} then 0
    else
      var k :| k in keys;
      f(k) + SumOver(keys - {k}, f)
  }

  /** The sum does not depend on the order in which the keys come. */
  lemma {:induction false} SumOverPick<K(!new)>(keys: set<K>, f: K -> int, k: K)
    requires k in keys
    ensures SumOver(keys, f) == f(k) + SumOver(keys - {k}, f)
    decreases |keys|
  {
    var j :| j in keys && SumOver(keys, f) == f(j) + SumOver(keys - {j}, f);
    if j != k {
      SumOverPick(keys - {j}, f, k);
      SumOverPick(keys - {k}, f, j);
      assert keys - {j} - {k} == keys - {k} - {j};
    }
  }

  lemma {:induction false} SumOverSame<K(!new)>(keys: set<K>, f: K -> int, g: K -> int)
    requires forall k :: k in keys ==> f(k) == g(k)
    ensures SumOver(keys, f) == SumOver(keys, g)
    decreases |keys|
  {
    if keys != {} {
      var k :| k in keys;
      SumOverPick(keys, f, k);
      SumOverPick(keys, g, k);
      SumOverSame(keys - {k}, f, g);
    }
  }

  lemma {:induction false} SumOverZero<K(!new)>(keys: set<K>, f: K -> int)
    requires forall k :: k in keys ==> f(k) == 0
    ensures SumOver(keys, f) == 0
    decreases |keys|
  {
    if keys != {} {
      var k :| k in keys;
      SumOverPick(keys, f, k);
      SumOverZero(keys - {k}, f);
    }
  }

  /** (a - b) - (c - d) <= g for every key, so also for the sums. */
  lemma {:induction false} SumOverBound<K(!new)>(keys: set<K>, a: K -> int, b: K -> int, c: K -> int,
                                                 d: K -> int, g: K -> int)
    requires forall k :: k in keys ==> (a(k) - b(k)) - (c(k) - d(k)) <= g(k)
    ensures (SumOver(keys, a) - SumOver(keys, b)) - (SumOver(keys, c) - SumOver(keys, d)) <= SumOver(keys, g)
    decreases |keys|
  {
    if keys != {} {
      var k :| k in keys;
      SumOverPick(keys, a, k);
      SumOverPick(keys, b, k);
      SumOverPick(keys, c, k);
      SumOverPick(keys, d, k);
      SumOverPick(keys, g, k);
      SumOverBound(keys - {k}, a, b, c, d, g);
    }
  }

  /** Changing one key's term changes the sum by as much. */
  lemma SumOverBump<K(!new)>(keys: set<K>, f: K -> int, g: K -> int, x: K, v: int)
    requires x in keys && f(x) == g(x) + v
    requires forall k :: k in keys && k != x ==> f(k) == g(k)
    ensures SumOver(keys, f) == SumOver(keys, g) + v
  {
    SumOverPick(keys, f, x);
    SumOverPick(keys, g, x);
    SumOverSame(keys - {x}, f, g);
  }
}
