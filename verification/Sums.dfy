/**
  Folds over database tables: a sum over the rows of a keyed table, and a count over an
  insert-only table.  The lemmas say how a fold moves when one row is written or rows are appended.
 */
module Sums {

  ghost function Sum<K(!new), V>(m: map<K, V>, f: (K, V) -> int): int
    decreases |m|
  {
    if m == map[] then 0
    else
      var k :| k in m;
      f(k, m[k]) + Sum(m - {k}, f)
  }

  /** The fold does not depend on the row it visits first. */
  lemma {:induction false} SumAt<K(!new), V>(m: map<K, V>, f: (K, V) -> int, k: K)
    requires k in m
    ensures Sum(m, f) == f(k, m[k]) + Sum(m - {k}, f)
    decreases |m|
  {
    var p :| p in m && Sum(m, f) == f(p, m[p]) + Sum(m - {p}, f);
    if p != k {
      SumAt(m - {p}, f, k);
      SumAt(m - {k}, f, p);
      assert m - {p} - {k} == m - {k} - {p};
    }
  }

  lemma {:induction false} SumCongruent<K(!new), V>(m: map<K, V>, f: (K, V) -> int, g: (K, V) -> int)
    requires forall k :: k in m ==> f(k, m[k]) == g(k, m[k])
    ensures Sum(m, f) == Sum(m, g)
    decreases |m|
  {
    if m != map[] {
      var p :| p in m && Sum(m, f) == f(p, m[p]) + Sum(m - {p}, f);
      SumCongruent(m - {p}, f, g);
      SumAt(m, g, p);
    }
  }

  /** One row is written at k; every other row weighs the same under both weights. */
  lemma SumWrite<K(!new), V>(m: map<K, V>, f: (K, V) -> int, m': map<K, V>, g: (K, V) -> int, k: K)
    requires k in m' && m' == m[k := m'[k]]
    requires forall j :: j in m && j != k ==> f(j, m[j]) == g(j, m[j])
    ensures Sum(m', g) - g(k, m'[k]) == Sum(m, f) - (if k in m then f(k, m[k]) else 0)
  {
    SumAt(m', g, k);
    assert m' - {k} == m - {k};
    SumCongruent(m - {k}, f, g);
    if k in m {
      SumAt(m, f, k);
    } else {
      assert m - {k} == m;
    }
  }

  /** A fold of non-negative weights is at least any one of them. */
  lemma {:induction false} SumCovers<K(!new), V>(m: map<K, V>, f: (K, V) -> int, k: K)
    requires forall j :: j in m ==> f(j, m[j]) >= 0
    requires k in m
    ensures Sum(m, f) >= f(k, m[k])
  {
    SumAt(m, f, k);
    SumNonNegative(m - {k}, f);
  }

  lemma {:induction false} SumNonNegative<K(!new), V>(m: map<K, V>, f: (K, V) -> int)
    requires forall j :: j in m ==> f(j, m[j]) >= 0
    ensures Sum(m, f) >= 0
    decreases |m|
  {
    if m != map[] {
      var p :| p in m && Sum(m, f) == f(p, m[p]) + Sum(m - {p}, f);
      SumNonNegative(m - {p}, f);
    }
  }

  lemma {:induction false} SumAtMost<K(!new), V>(m: map<K, V>, f: (K, V) -> int, g: (K, V) -> int)
    requires forall k :: k in m ==> f(k, m[k]) <= g(k, m[k])
    ensures Sum(m, f) <= Sum(m, g)
    decreases |m|
  {
    if m != map[] {
      var p :| p in m && Sum(m, f) == f(p, m[p]) + Sum(m - {p}, f);
      SumAtMost(m - {p}, f, g);
      SumAt(m, g, p);
    }
  }

  lemma {:induction false} SumZero<K(!new), V>(m: map<K, V>, f: (K, V) -> int)
    requires forall j :: j in m ==> f(j, m[j]) == 0
    ensures Sum(m, f) == 0
    decreases |m|
  {
    if m != map[] {
      var p :| p in m && Sum(m, f) == f(p, m[p]) + Sum(m - {p}, f);
      SumZero(m - {p}, f);
    }
  }

  function CountIf<T>(s: seq<T>, p: T -> bool): nat {
    if s == [] then 0 else (if p(s[0]) then 1 else 0) + CountIf(s[1..], p)
  }

  lemma {:induction false} CountAppend<T>(s: seq<T>, t: seq<T>, p: T -> bool)
    ensures CountIf(s + t, p) == CountIf(s, p) + CountIf(t, p)
  {
    if s == [] {
      assert s + t == t;
    } else {
      assert (s + t)[1..] == s[1..] + t;
      CountAppend(s[1..], t, p);
    }
  }

  /** Rows that all pass, or all fail, the test. */
  lemma {:induction false} CountUniform<T>(s: seq<T>, p: T -> bool, all: bool)
    requires forall x :: x in s ==> p(x) == all
    ensures CountIf(s, p) == if all then |s| else 0
  {
    if s != [] {
      CountUniform(s[1..], p, all);
    }
  }

  lemma {:induction false} CountPositive<T>(s: seq<T>, p: T -> bool)
    requires CountIf(s, p) > 0
    ensures exists x :: x in s && p(x)
  {
    if !p(s[0]) {
      CountPositive(s[1..], p);
    }
  }
}
