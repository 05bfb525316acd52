/** Maps from a key to a tally, as the profiler keeps them per call site and per region. */
module CountMaps {

  predicate NonNegative(m: map<nat, int>) {
    forall k {:trigger m[k]} :: k in m ==> m[k] >= 0
  }

  function Get(m: map<nat, int>, k: nat): (x: int)
    ensures NonNegative(m) ==> x >= 0
  {
    if k in m then m[k] else 0
  }

  function Add(m: map<nat, int>, k: nat, x: int): (r: map<nat, int>)
    ensures NonNegative(m) && x >= 0 ==> NonNegative(r)
  {
    m[k := Get(m, k) + x]
  }

  function Merge(a: map<nat, int>, b: map<nat, int>): (r: map<nat, int>)
    ensures NonNegative(a) && NonNegative(b) ==> NonNegative(r)
  {
    map k | k in a.Keys + b.Keys :: Get(a, k) + Get(b, k)
  }

  ghost function Sum(m: map<nat, int>): (s: int)
    ensures NonNegative(m) ==> s >= 0
  {
    if m == map[] then 0
    else
      var k :| k in m;
      assert forall j {:trigger (m - {k})[j]} :: j in m - {k} ==> (m - {k})[j] == m[j];
      m[k] + Sum(m - {k})
  }

  /** The sum does not depend on the order in which the keys are visited. */
  lemma {:induction false} SumRemove(m: map<nat, int>, k: nat)
    requires k in m
    ensures Sum(m) == m[k] + Sum(m - {k})
    decreases |m|
  {
    var j :| j in m && Sum(m) == m[j] + Sum(m - {j});
    if j != k {
      assert |m - {j}| < |m| && |m - {k}| < |m| by {
        SizeRemove(m, j);
        SizeRemove(m, k);
      }
      SumRemove(m - {j}, k);
      SumRemove(m - {k}, j);
      assert m - {j} - {k} == m - {k} - {j};
    }
  }

  lemma {:induction false} SizeRemove(m: map<nat, int>, k: nat)
    requires k in m
    ensures |m - {k}| == |m| - 1
  {
    assert (m - {k}).Keys == m.Keys - {k};
  }

  lemma {:induction false} SumAdd(m: map<nat, int>, k: nat, x: int)
    ensures Sum(Add(m, k, x)) == Sum(m) + x
  {
    var m' := Add(m, k, x);
    SumRemove(m', k);
    assert m' - {k} == m - {k};
    if k in m {
      SumRemove(m, k);
    } else {
      assert m - {k} == m;
    }
  }

  lemma {:induction false} MergePeel(a: map<nat, int>, b: map<nat, int>, k: nat)
    requires k in a
    ensures Merge(a, b) == Add(Merge(a - {k}, b), k, a[k])
  {
    var l, r := Merge(a, b), Add(Merge(a - {k}, b), k, a[k]);
    assert l.Keys == a.Keys + b.Keys;
    assert r.Keys == (a.Keys - {k}) + b.Keys + {k};
    forall j | j in l.Keys ensures l[j] == r[j] {
      if j != k {
        assert j in Merge(a - {k}, b);
      }
    }
  }

  lemma {:induction false} SumMerge(a: map<nat, int>, b: map<nat, int>)
    ensures Sum(Merge(a, b)) == Sum(a) + Sum(b)
    decreases |a|
  {
    if a == map[] {
      assert Merge(a, b) == b;
    } else {
      var k :| k in a;
      SizeRemove(a, k);
      SumRemove(a, k);
      SumMerge(a - {k}, b);
      SumAdd(Merge(a - {k}, b), k, a[k]);
      MergePeel(a, b, k);
    }
  }
}
