/** Sums over the rows of a table. */
module Totals {

  ghost function Total<V>(m: map<nat, V>, f: V -> int): int
    decreases |m|
  {
    if m.Keys == {} then 0
    else
      var k :| k in m.Keys;
      Fewer(m, k);
      Total(m - {k}, f) + f(m[k])
  }

  lemma Fewer<V>(m: map<nat, V>, k: nat)
    requires k in m
    ensures |m - {k}| < |m|
  {
    assert (m - {k}).Keys == m.Keys - {k};
    assert |(m - {k}).Keys| == |m - {k}| && |m.Keys| == |m|;
  }

  lemma {:induction false} TotalOut<V>(m: map<nat, V>, k: nat, f: V -> int)
    requires k in m
    ensures Total(m, f) == Total(m - {k}, f) + f(m[k])
    decreases |m|
  {
    var j :| j in m.Keys && Total(m, f) == Total(m - {j}, f) + f(m[j]);
    if j != k {
      Fewer(m, j);
      Fewer(m, k);
      TotalOut(m - {j}, k, f);
      TotalOut(m - {k}, j, f);
      assert m - {j} - {k} == m - {k} - {j};
    }
  }

  /** Writing one row. */
  lemma TotalPut<V>(m: map<nat, V>, k: nat, v: V, f: V -> int)
    ensures Total(m[k := v], f) == Total(m, f) - (if k in m then f(m[k]) else 0) + f(v)
  {
    hide Total;
    TotalOut(m[k := v], k, f);
    assert m[k := v] - {k} == m - {k};
    if k in m { TotalOut(m, k, f); } else { assert m - {k} == m; }
  }

  /** The rows that meet a condition. */
  ghost function Where<V>(m: map<nat, V>, p: V -> bool): set<nat> { set k | k in m && p(m[k]) }

  lemma WhereOut<V>(m: map<nat, V>, k: nat, p: V -> bool)
    requires k in m
    ensures |Where(m, p)| == |Where(m - {k}, p)| + (if p(m[k]) then 1 else 0)
  {
    var older := Where(m - {k}, p);
    assert Where(m, p) == if p(m[k]) then older + {k} else older;
  }

  /** A sum of ones counts rows. */
  lemma {:induction false} TotalCounts<V(!new)>(m: map<nat, V>, p: V -> bool, f: V -> int)
    requires forall v :: f(v) == if p(v) then 1 else 0
    ensures Total(m, f) == |Where(m, p)|
    decreases |m|
  {
    if m.Keys == {} {
      assert Where(m, p) == {};
    } else {
      var k :| k in m.Keys;
      TotalOut(m, k, f);
      Fewer(m, k);
      TotalCounts(m - {k}, p, f);
      hide Total, Where;
      WhereOut(m, k, p);
    }
  }

  ghost function Union<V, T>(m: map<nat, V>, f: V -> multiset<T>): multiset<T>
    decreases |m|
  {
    if m.Keys == {} then multiset{}
    else
      var k :| k in m.Keys;
      Fewer(m, k);
      Union(m - {k}, f) + f(m[k])
  }

  lemma {:induction false} UnionOut<V, T>(m: map<nat, V>, k: nat, f: V -> multiset<T>)
    requires k in m
    ensures Union(m, f) == Union(m - {k}, f) + f(m[k])
    decreases |m|
  {
    var j :| j in m.Keys && Union(m, f) == Union(m - {j}, f) + f(m[j]);
    if j != k {
      Fewer(m, j);
      Fewer(m, k);
      UnionOut(m - {j}, k, f);
      UnionOut(m - {k}, j, f);
      assert m - {j} - {k} == m - {k} - {j};
    }
  }

  lemma UnionPut<V, T>(m: map<nat, V>, k: nat, v: V, f: V -> multiset<T>)
    requires k !in m
    ensures Union(m[k := v], f) == Union(m, f) + f(v)
  {
    hide Union;
    UnionOut(m[k := v], k, f);
    assert m[k := v] - {k} == m;
  }
}
