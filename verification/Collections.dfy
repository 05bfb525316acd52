/** Facts about sequences, sets and orders that several modules share. */
module Collections {

  /** A strict weak order: irreflexive, and "not less" is transitive. */
  ghost predicate StrictWeakOrder<T(!new)>(less: (T, T) -> bool) {
    && (forall x :: !less(x, x))
    && (forall x, y :: less(x, y) ==> !less(y, x))
    && (forall x, y, z {:trigger less(x, y), less(y, z)} :: !less(x, y) && !less(y, z) ==> !less(x, z))
  }

  /** The sequence with two elements exchanged. */
  function Swapped<T>(s: seq<T>, i: nat, j: nat): seq<T>
    requires i < |s| && j < |s|
  {
    s[i := s[j]][j := s[i]]
  }

  lemma {:induction false} SwapBag<T>(s: seq<T>, i: nat, j: nat)
    requires i < |s| && j < |s|
    ensures multiset(Swapped(s, i, j)) == multiset(s)
  {
  }

  ghost predicate NoDup<T>(l: seq<T>) {
    forall i, j {:trigger l[i], l[j]} :: 0 <= i < j < |l| ==> l[i] != l[j]
  }

  /** The numbers below `n`. */
  ghost function Range(n: nat): set<nat> {
    if n == 0 then {} else Range(n - 1) + {n - 1}
  }

  lemma {:induction false} RangeSize(n: nat)
    ensures |Range(n)| == n && forall i: nat {:trigger i in Range(n)} :: i in Range(n) <==> i < n
  {
    if n > 0 {
      RangeSize(n - 1);
    }
  }
}
