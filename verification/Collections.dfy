/** Facts about sequences, sets and maps that several modules share. */
module Collections {

  predicate Distinct(xs: seq<nat>) {
    forall i, k :: 0 <= i < k < |xs| ==> xs[i] != xs[k]
  }

  lemma {:induction false} SubsetIsSmaller(a: set<nat>, b: set<nat>)
    requires a <= b
    ensures |a| <= |b|
  {
    assert b == a + (b - a);
  }

  lemma {:induction false} SameSize(a: set<nat>, b: set<nat>)
    requires a <= b && |a| == |b|
    ensures a == b
  {
    assert b == a + (b - a);
  }

  function SetOf(xs: seq<nat>): set<nat> {
    set x | x in xs
  }

  lemma {:induction false} SetOfCount(xs: seq<nat>)
    requires Distinct(xs)
    ensures |SetOf(xs)| == |xs|
  {
    if xs == [] {
      assert SetOf(xs) == {};
    } else {
      var n := |xs| - 1;
      SetOfCount(xs[..n]);
      assert xs == xs[..n] + [xs[n]];
      assert SetOf(xs) == SetOf(xs[..n]) + {xs[n]};
    }
  }

  function Below(n: nat): (s: set<nat>)
    ensures forall x: nat :: x in s <==> x < n
  {
    if n == 0 then {} else Below(n - 1) + {n - 1}
  }

  lemma {:induction false} BelowCount(n: nat)
    ensures |Below(n)| == n
  {
    if n > 0 {
      BelowCount(n - 1);
    }
  }

  /** A list of different numbers below n is at most n long. */
  lemma {:induction false} DistinctIsShort(xs: seq<nat>, n: nat)
    requires Distinct(xs) && forall i :: 0 <= i < |xs| ==> xs[i] < n
    ensures |xs| <= n
  {
    SetOfCount(xs);
    BelowCount(n);
    SubsetIsSmaller(SetOf(xs), Below(n));
  }

  // ---------------------------------------------------------------- sums of maps

  ghost function Total(m: map<nat, nat>): nat
    decreases |m|
  {
    if m == map[] then 0
    else
      var k :| k in m;
      m[k] + Total(m - {k})
  }

  lemma {:induction false} TotalWithout(m: map<nat, nat>, k: nat)
    requires k in m
    ensures Total(m) == m[k] + Total(m - {k})
    decreases |m|
  {
    var j :| j in m && Total(m) == m[j] + Total(m - {j});
    if j != k {
      TotalWithout(m - {j}, k);
      TotalWithout(m - {k}, j);
      assert m - {j} - {k} == m - {k} - {j};
    }
  }

  lemma {:induction false} TotalAdd(m: map<nat, nat>, k: nat, v: nat)
    requires k !in m
    ensures Total(m[k := v]) == Total(m) + v
  {
    TotalWithout(m[k := v], k);
    assert m[k := v] - {k} == m;
  }

  lemma {:induction false} UnionStep(a: map<nat, nat>, b: map<nat, nat>, k: nat)
    requires a.Keys !! b.Keys && k in b
    ensures a + b == (a + (b - {k}))[k := b[k]] && k !in a + (b - {k})
  {
  }

  lemma {:induction false} TotalUnion(a: map<nat, nat>, b: map<nat, nat>)
    requires a.Keys !! b.Keys
    ensures Total(a + b) == Total(a) + Total(b)
    decreases |b|
  {
    if b == map[] {
      assert a + b == a;
    } else {
      var k :| k in b;
      TotalUnion(a, b - {k});
      UnionStep(a, b, k);
      TotalAdd(a + (b - {k}), k, b[k]);
      TotalWithout(b, k);
    }
  }

  function Restrict(m: map<nat, nat>, keys: set<nat>): map<nat, nat> {
    map k | k in m && k in keys :: m[k]
  }

  lemma {:induction false} TotalSplit(m: map<nat, nat>, keys: set<nat>)
    requires keys <= m.Keys
    ensures Total(m) == Total(m - keys) + Total(Restrict(m, keys))
  {
    assert m == (m - keys) + Restrict(m, keys);
    TotalUnion(m - keys, Restrict(m, keys));
  }
}
