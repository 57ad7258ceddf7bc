/** Counting the rows of a table that satisfy a condition, and adding up a
    column over a table: the two aggregates the repository's SQL relies on. */
module Counting {

  datatype Option<+T> = None | Some(value: T)

  /** The rows of `m` whose value satisfies `p`. */
  ghost function Rows<K(!new), V>(m: map<K, V>, p: V -> bool): set<K> {
    set k | k in m && p(m[k])
  }

  /** `SELECT COUNT(*) FROM m WHERE p`. */
  ghost function Count<K(!new), V>(m: map<K, V>, p: V -> bool): nat {
    |Rows(m, p)|
  }

  ghost function One(b: bool): nat { if b then 1 else 0 }

  /** Writing one row changes a count by what that row contributes. */
  lemma CountWrite<K(!new), V>(m: map<K, V>, k: K, v: V, p: V -> bool)
    ensures Count(m[k := v], p) == Count(m, p) + One(p(v)) - One(k in m && p(m[k]))
  {
    var before, after := Rows(m, p), Rows(m[k := v], p);
    assert before - {k} == after - {k};
    WithoutOne(before, k);
    WithoutOne(after, k);
    assert k in after <==> p(v);
    assert k in before <==> k in m && p(m[k]);
  }

  lemma WithoutOne<K>(s: set<K>, k: K)
    ensures |s| == |s - {k}| + One(k in s)
  {
    if k in s {
      assert s == s - {k} + {k};
    } else {
      assert s - {k} == s;
    }
  }

  /** Deleting a set of rows splits a count in two. */
  lemma CountSplit<K(!new), V>(m: map<K, V>, gone: set<K>, p: V -> bool)
    ensures Count(m, p) == Count(m - gone, p) + Count(Only(m, gone), p)
  {
    var kept, lost := Rows(m - gone, p), Rows(Only(m, gone), p);
    assert Rows(m, p) == kept + lost;
    assert kept !! lost;
  }

  /** The rows of `m` with keys in `ks`. */
  ghost function Only<K(!new), V>(m: map<K, V>, ks: set<K>): map<K, V> {
    map k | k in m && k in ks :: m[k]
  }

  /** Tables with the same keys whose rows agree on the condition have equal counts. */
  lemma CountSame<K(!new), V>(m: map<K, V>, n: map<K, V>, p: V -> bool)
    requires m.Keys == n.Keys
    requires forall k | k in m :: p(m[k]) == p(n[k])
    ensures Count(m, p) == Count(n, p)
  {
    assert Rows(m, p) == Rows(n, p);
  }

  lemma CountNone<K(!new), V>(m: map<K, V>, p: V -> bool)
    requires forall k | k in m :: !p(m[k])
    ensures Count(m, p) == 0
  {
    assert Rows(m, p) == {};
  }

  lemma CountPositive<K(!new), V>(m: map<K, V>, k: K, p: V -> bool)
    requires k in m && p(m[k])
    ensures Count(m, p) > 0
  {
    assert k in Rows(m, p);
  }

  /** A count of at most one leaves room for only one such row. */
  lemma CountAtMostOne<K(!new), V>(m: map<K, V>, p: V -> bool, k: K, l: K)
    requires Count(m, p) <= 1
    requires k in m && l in m && p(m[k]) && p(m[l])
    ensures k == l
  {
    var others := Rows(m, p) - {k};
    assert |Rows(m, p)| == |others| + 1;
    assert l !in others;
  }

  /** `SELECT SUM(f) FROM m`. */
  ghost function Sum<K(!new), V>(m: map<K, V>, f: V -> nat): nat
    decreases |m|
  {
    if m == map[] then 0
    else
      var k :| k in m;
      f(m[k]) + Sum(m - {k}, f)
  }

  /** The sum does not depend on the order in which rows are visited. */
  lemma {:induction false} SumTake<K(!new), V>(m: map<K, V>, k: K, f: V -> nat)
    requires k in m
    ensures Sum(m, f) == f(m[k]) + Sum(m - {k}, f)
    decreases |m|
  {
    var c :| c in m && Sum(m, f) == f(m[c]) + Sum(m - {c}, f);
    if c != k {
      SumTake(m - {c}, k, f);
      SumTake(m - {k}, c, f);
      assert m - {c} - {k} == m - {k} - {c};
    }
  }

  lemma SumWrite<K(!new), V>(m: map<K, V>, k: K, v: V, f: V -> nat)
    ensures Sum(m[k := v], f) == Sum(m, f) + f(v) - (if k in m then f(m[k]) else 0)
  {
    SumTake(m[k := v], k, f);
    if k in m {
      SumTake(m, k, f);
      assert m[k := v] - {k} == m - {k};
    } else {
      assert m[k := v] - {k} == m;
    }
  }

  /** Dropping rows and lowering rows can only lower the sum. */
  lemma {:induction false} SumShrinks<K(!new), V>(m: map<K, V>, n: map<K, V>, f: V -> nat)
    requires n.Keys <= m.Keys
    requires forall k | k in n :: f(n[k]) <= f(m[k])
    ensures Sum(n, f) <= Sum(m, f)
    decreases |m|
  {
    if m != map[] {
      var k :| k in m;
      SumTake(m, k, f);
      if k in n { SumTake(n, k, f); }
      SumShrinks(m - {k}, n - {k}, f);
      if k !in n { assert n - {k} == n; }
    } else {
      assert n == map[];
    }
  }

  /** And a row that gets lower, or goes, lowers it for certain. */
  lemma SumShrinksAt<K(!new), V>(m: map<K, V>, n: map<K, V>, f: V -> nat, k: K)
    requires n.Keys <= m.Keys
    requires forall j | j in n :: f(n[j]) <= f(m[j])
    requires k in n && f(n[k]) < f(m[k])
    ensures Sum(n, f) < Sum(m, f)
  {
    SumTake(m, k, f);
    SumTake(n, k, f);
    SumShrinks(m - {k}, n - {k}, f);
  }
}
