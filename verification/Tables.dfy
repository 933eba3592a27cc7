/** Facts about maps used as tables of bounded size. */
module Tables {

  /** Entries a table of at most max may give up to make room for one more;
      which ones is up to map iteration order. */
  predicate MayEvict<K, V>(live: map<K, V>, max: nat, evicted: set<K>) {
    evicted <= live.Keys && |evicted| == Overflow(|live|, max)
  }

  function Overflow(size: nat, max: nat): nat {
    if size >= max then size - max + 1 else 0
  }

  lemma NoneToEvict<K, V>(live: map<K, V>, max: nat)
    requires |live| < max
    ensures MayEvict(live, max, {})
  {
  }

  lemma SizeAfterRemove<K, V>(m: map<K, V>, k: K)
    requires k in m
    ensures |m - {k}| == |m| - 1
  {
    assert (m - {k}).Keys == m.Keys - {k};
  }

  lemma SizeAfterAdd<K, V>(m: map<K, V>, k: K, v: V)
    ensures |m[k := v]| == |m| + if k in m then 0 else 1
  {
    assert m[k := v].Keys == m.Keys + {k};
    assert k in m ==> m.Keys + {k} == m.Keys;
  }

  lemma SubsetSize<K>(xs: set<K>, ys: set<K>)
    requires xs <= ys
    ensures |xs| <= |ys|
  {
    assert ys == xs + (ys - xs);
  }

  lemma SizeAfterEvict<K, V>(live: map<K, V>, max: nat, evicted: set<K>)
    requires MayEvict(live, max, evicted)
    ensures |live - evicted| == |live| - Overflow(|live|, max)
  {
    var kept := live - evicted;
    assert live.Keys == kept.Keys + evicted;
  }

  lemma {:induction false} SubsetOfSize<K>(s: set<K>, n: nat) returns (r: set<K>)
    requires n <= |s|
    ensures r <= s && |r| == n
  {
    if n == 0 {
      r := {};
    } else {
      var k :| k in s;
      r := SubsetOfSize(s - {k}, n - 1);
      r := r + {k};
    }
  }

  method EvictForRoom<K, V>(table: map<K, V>, max: nat) returns (kept: map<K, V>, ghost evicted: set<K>)
    requires max > 0
    ensures MayEvict(table, max, evicted) && kept == table - evicted
    ensures if |table| < max then kept == table else |kept| == max - 1
  {
    kept, evicted := table, {};
    while |kept| >= max
      invariant evicted <= table.Keys && kept == table - evicted
      invariant |kept| == |table| - |evicted|
      invariant |evicted| <= Overflow(|table|, max)
      decreases |kept|
    {
      var k :| k in kept.Keys;
      SizeAfterRemove(kept, k);
      assert kept - {k} == table - (evicted + {k});
      kept, evicted := kept - {k}, evicted + {k};
    }
  }
}
