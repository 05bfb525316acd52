/** The range split of the parallel quicksort, and why sorting the leaves sorts the whole. */
module QuickSort {
  import opened Collections

  const GRAIN_SIZE := 500

  // ---- the choice of the pivot ----

  function MedianOfThree<T>(less: (T, T) -> bool, s: seq<T>, l: nat, m: nat, r: nat): nat
    requires l < |s| && m < |s| && r < |s|
  {
    if less(s[l], s[m]) then if less(s[m], s[r]) then m else if less(s[l], s[r]) then r else l
    else if less(s[r], s[m]) then m else if less(s[r], s[l]) then r else l
  }

  /** `x` lies between `y` and `z`. */
  predicate Middle<T>(less: (T, T) -> bool, x: T, y: T, z: T) {
    (!less(x, y) && !less(z, x)) || (!less(x, z) && !less(y, x))
  }

  lemma {:induction false} MedianIsMiddle<T(!new)>(less: (T, T) -> bool, s: seq<T>, l: nat, m: nat, r: nat)
    requires l < |s| && m < |s| && r < |s| && StrictWeakOrder(less)
    ensures var k := MedianOfThree(less, s, l, m, r);
            || (k == l && Middle(less, s[l], s[m], s[r]))
            || (k == m && Middle(less, s[m], s[l], s[r]))
            || (k == r && Middle(less, s[r], s[l], s[m]))
  {
    assert less(s[l], s[m]) && !less(s[m], s[r]) && !less(s[l], s[r]) ==> !less(s[m], s[l]);
  }

  function PseudoMedianOfNine<T>(less: (T, T) -> bool, s: seq<T>): (m: nat)
    requires |s| > 0
    ensures m < |s|
  {
    var offset := |s| / 8;
    MedianOfThree(less, s,
                  MedianOfThree(less, s, 0, offset, offset * 2),
                  MedianOfThree(less, s, offset * 3, offset * 4, offset * 5),
                  MedianOfThree(less, s, offset * 6, offset * 7, |s| - 1))
  }

  // ---- sequences that have been split ----

  /** Position `j` holds a pivot: nothing to its left is greater, nothing to its right is smaller. */
  ghost predicate SplitAt<T>(less: (T, T) -> bool, s: seq<T>, j: nat) {
    && j < |s|
    && (forall k {:trigger s[k]} :: 0 <= k < j ==> !less(s[j], s[k]))
    && (forall k {:trigger s[k]} :: j < k < |s| ==> !less(s[k], s[j]))
  }

  ghost predicate Sorted<T>(less: (T, T) -> bool, s: seq<T>) {
    forall i, j {:trigger s[i], s[j]} :: 0 <= i < j < |s| ==> !less(s[j], s[i])
  }

  /** Whatever holds for all elements of a sequence holds for all those of a permutation. */
  lemma {:induction false} SameElements<T>(s: seq<T>, t: seq<T>, k: nat)
    requires multiset(s) == multiset(t) && k < |t|
    ensures t[k] in s
  {
    assert t[k] in multiset(t);
  }

  /** Sorting both sides of the pivot sorts the whole. */
  lemma {:induction false} SidesSorted<T(!new)>(less: (T, T) -> bool, s: seq<T>, j: nat, l: seq<T>, r: seq<T>)
    requires StrictWeakOrder(less) && SplitAt(less, s, j)
    requires multiset(l) == multiset(s[..j]) && multiset(r) == multiset(s[j + 1..]) && Sorted(less, l) && Sorted(less, r)
    ensures Sorted(less, l + [s[j]] + r) && multiset(l + [s[j]] + r) == multiset(s)
  {
    var t := l + [s[j]] + r;
    assert |multiset(l)| == |multiset(s[..j])| == j;
    assert s == s[..j] + [s[j]] + s[j + 1..];
    forall k | 0 <= k < j ensures !less(s[j], t[k]) {
      SameElements(s[..j], l, k);
    }
    forall k | j < k < |t| ensures !less(t[k], s[j]) {
      SameElements(s[j + 1..], r, k - j - 1);
    }
    forall i, k | 0 <= i < k < |t| ensures !less(t[k], t[i]) {
      if k < j {
        assert t[i] == l[i] && t[k] == l[k];
      } else if i > j {
        assert t[i] == r[i - j - 1] && t[k] == r[k - j - 1];
      } else if i < j < k {
        assert !less(t[k], s[j]) && !less(s[j], t[i]);
      }
    }
  }

  // ---- the range object ----

  /** The `n` elements from index `b` on. */
  function Part<T>(s: seq<T>, b: nat, n: nat): (p: seq<T>)
    requires b + n <= |s|
    ensures |p| == n && forall k {:trigger p[k]} :: 0 <= k < n ==> p[k] == s[b + k]
  {
    s[b..b + n]
  }

  /** The array `t` is the array `s` with the elements of one range in another order. */
  ghost predicate Permuted<T>(s: seq<T>, t: seq<T>, b: nat, n: nat) {
    && |t| == |s| && b + n <= |s| && t[..b] == s[..b] && t[b + n..] == s[b + n..]
    && multiset(Part(t, b, n)) == multiset(Part(s, b, n))
  }

  /** The loop invariant of the split of `s`, with pivot `s[0]`. */
  ghost predicate Partly<T>(less: (T, T) -> bool, s: seq<T>, i: nat, j: nat) {
    && i <= j <= |s|
    && (forall k {:trigger s[k]} :: 0 <= k <= i && k < |s| ==> !less(s[0], s[k]))
    && (forall k {:trigger s[k]} :: j <= k < |s| ==> !less(s[k], s[0]))
  }

  class QuickSortRange<T(!new)> {
    const comp: (T, T) -> bool
    const data: array<T>
    var begin: nat
    var size: nat

    ghost predicate Valid()
      reads this
    {
      begin + size <= data.Length
    }

    predicate IsDivisible()
      reads this
    {
      size >= GRAIN_SIZE
    }

    constructor (comp: (T, T) -> bool, data: array<T>, begin: nat, size: nat)
      requires begin + size <= data.Length
      ensures Valid() && this.comp == comp && this.data == data && this.begin == begin && this.size == size
    {
      this.comp, this.data, this.begin, this.size := comp, data, begin, size;
    }

    static method Swap(a: array<T>, i: nat, j: nat)
      requires i < a.Length && j < a.Length
      modifies a
      ensures a[..] == Swapped(old(a[..]), i, j)
    {
      a[i], a[j] := a[j], a[i];
    }

    /** The inner loops of the splitting constructor: `j` moves down to an element that is not greater
        than the pivot, then `i` up to one that is not smaller, unless they meet. */
    static method Scan(less: (T, T) -> bool, a: array<T>, b: nat, n: nat, i0: nat, j0: nat) returns (i: nat, j: nat)
      requires StrictWeakOrder(less) && b + n <= a.Length && i0 < j0 <= n && Partly(less, Part(a[..], b, n), i0, j0)
      ensures i0 <= i <= j < j0
      ensures i == j ==> Parted(less, Part(a[..], b, n), j)
      ensures i < j ==> i0 < i && Partly(less, Swapped(Part(a[..], b, n), i, j), i, j)
    {
      hide StrictWeakOrder, Part;
      ghost var s := Part(a[..], b, n);
      i, j := i0, j0 - 1;
      Irreflexive(less, s[0]);
      while less(a[b], a[b + j])
        invariant i0 <= j < j0 && Partly(less, s, i0, j + 1)
        decreases j
      {
        Asymmetric(less, s[0], s[j]);
        assert s[i0] == a[b + i0];
        j := j - 1;
      }
      if i == j {
        return;
      }
      i := i + 1;
      while i < j && less(a[b + i], a[b])
        invariant i0 < i <= j && Partly(less, s, i - 1, j + 1) && !less(s[0], s[j])
        decreases j - i
      {
        Asymmetric(less, s[i], s[0]);
        i := i + 1;
      }
    }

    /** The loop of the splitting constructor: partitions the range and returns the place of the pivot. */
    static method Partition(less: (T, T) -> bool, a: array<T>, b: nat, n: nat) returns (j: nat)
      requires StrictWeakOrder(less) && b + n <= a.Length && n > 0
      modifies a
      ensures Permuted(old(a[..]), a[..], b, n) && j < n && SplitAt(less, Part(a[..], b, n), j)
      ensures Part(a[..], b, n)[j] == Part(old(a[..]), b, n)[PseudoMedianOfNine(less, Part(old(a[..]), b, n))]
    {
      hide StrictWeakOrder, PseudoMedianOfNine, Partly, Parted, Permuted, SplitAt, Swapped, Part;
      ghost var t := a[..];
      var m := PseudoMedianOfNine(less, Part(a[..], b, n));
      SwapPart(t, b, n, 0, m);
      if m != 0 {
        Swap(a, b, b + m);
      }
      PartlyStart(less, Part(a[..], b, n));
      var i;
      i, j := 0, n;
      while true
        invariant |a[..]| == |t| && Permuted(t, a[..], b, n) && i < j <= n
        invariant Part(a[..], b, n)[0] == Part(t, b, n)[m] && Partly(less, Part(a[..], b, n), i, j)
        decreases j - i
      {
        i, j := Scan(less, a, b, n, i, j);
        if i == j {
          break;
        }
        SwapPart(a[..], b, n, i, j);
        PermutedTrans(t, a[..], Swapped(a[..], b + i, b + j), b, n);
        Swap(a, b + i, b + j);
      }
      SwapPart(a[..], b, n, j, 0);
      PartedSplits(less, Part(a[..], b, n), j);
      PermutedTrans(t, a[..], Swapped(a[..], b + j, b), b, n);
      Swap(a, b + j, b);
    }

    /** The splitting constructor: this range gets what follows the pivot, `range` keeps what precedes it. */
    constructor Split(range: QuickSortRange<T>)
      requires StrictWeakOrder(range.comp) && range.Valid() && range.IsDivisible()
      modifies range`size, range.data
      ensures comp == range.comp && data == range.data && Valid() && range.Valid()
      ensures begin == range.begin + range.size + 1 && begin + size == range.begin + old(range.size)
      ensures range.size < old(range.size) && size < old(range.size)
      ensures Permuted(old(range.data[..]), data[..], range.begin, old(range.size))
      ensures SplitAt(comp, Part(data[..], range.begin, old(range.size)), range.size)
    {
      hide StrictWeakOrder, Permuted, SplitAt;
      comp, data := range.comp, range.data;
      var j := Partition(range.comp, range.data, range.begin, range.size);
      begin := range.begin + j + 1;
      size := range.size - (j + 1);
      new;
      range.size := j;
    }
  }

  /** Swapping within the range permutes the range. */
  lemma {:induction false} SwapPart<T>(t: seq<T>, b: nat, n: nat, i: nat, j: nat)
    requires b + n <= |t| && i < n && j < n
    ensures var u := Swapped(t, b + i, b + j);
            Permuted(t, u, b, n) && Part(u, b, n) == Swapped(Part(t, b, n), i, j)
    ensures i == j ==> Swapped(t, b + i, b + j) == t
    ensures Swapped(Part(t, b, n), 0, j)[0] == Part(t, b, n)[j]
    ensures 0 < i && 0 < j ==> Swapped(Part(t, b, n), i, j)[0] == Part(t, b, n)[0]
  {
    SwapBag(Part(t, b, n), i, j);
  }

  lemma {:induction false} PermutedTrans<T>(s: seq<T>, t: seq<T>, u: seq<T>, b: nat, n: nat)
    requires Permuted(s, t, b, n) && Permuted(t, u, b, n)
    ensures Permuted(s, u, b, n) && |u| == |s|
  {
  }

  lemma {:induction false} Irreflexive<T(!new)>(less: (T, T) -> bool, x: T)
    requires StrictWeakOrder(less)
    ensures !less(x, x)
  {
  }

  lemma {:induction false} Asymmetric<T(!new)>(less: (T, T) -> bool, x: T, y: T)
    requires StrictWeakOrder(less) && less(x, y)
    ensures !less(y, x)
  {
  }

  lemma {:induction false} PartlyStart<T(!new)>(less: (T, T) -> bool, s: seq<T>)
    requires StrictWeakOrder(less) && |s| > 0
    ensures Partly(less, s, 0, |s|)
  {
  }

  /** `i` and `j` have met: putting the pivot there splits the range. */
  ghost predicate Parted<T>(less: (T, T) -> bool, s: seq<T>, j: nat) {
    && j < |s|
    && (forall k {:trigger s[k]} :: 0 <= k <= j ==> !less(s[0], s[k]))
    && (forall k {:trigger s[k]} :: j < k < |s| ==> !less(s[k], s[0]))
  }

  lemma {:induction false} PartedSplits<T>(less: (T, T) -> bool, s: seq<T>, j: nat)
    requires Parted(less, s, j)
    ensures SplitAt(less, Swapped(s, j, 0), j) && Swapped(s, j, 0)[j] == s[0]
  {
    var t := Swapped(s, j, 0);
    forall k | 0 <= k < j ensures !less(t[j], t[k]) {
      assert t[k] == if k == 0 then s[j] else s[k];
    }
  }

  // ---- sorting by splitting ----

  /** How the scheduler treats a range: it runs the body on the whole of it, or splits it and lets two
      tasks sort the parts, the right one before the left one if `rightFirst`. */
  datatype Schedule = RunBody | SplitRange(left: Schedule, right: Schedule, rightFirst: bool)

  function Insert<T>(less: (T, T) -> bool, s: seq<T>, x: T): seq<T> {
    if s == [] || !less(x, s[|s| - 1]) then s + [x] else Insert(less, s[..|s| - 1], x) + [s[|s| - 1]]
  }

  function InsertionSort<T>(less: (T, T) -> bool, s: seq<T>): seq<T> {
    if s == [] then [] else Insert(less, InsertionSort(less, s[..|s| - 1]), s[|s| - 1])
  }

  lemma {:induction false} InsertSorted<T(!new)>(less: (T, T) -> bool, s: seq<T>, x: T)
    requires StrictWeakOrder(less) && Sorted(less, s)
    ensures Sorted(less, Insert(less, s, x)) && multiset(Insert(less, s, x)) == multiset(s) + multiset{x}
    decreases |s|
  {
    hide StrictWeakOrder;
    if s == [] || !less(x, s[|s| - 1]) {
      LastIsGreatest(less, s, x);
    } else {
      var init, last := s[..|s| - 1], s[|s| - 1];
      InsertSorted(less, init, x);
      var r := Insert(less, init, x);
      assert s == init + [last];
      forall i | 0 <= i < |r| ensures !less(last, r[i]) {
        assert r[i] in multiset(init) + multiset{x};
        Asymmetric(less, x, last);
        assert r[i] in init ==> exists k :: 0 <= k < |init| && init[k] == r[i] && s[k] == r[i];
      }
    }
  }

  lemma {:induction false} LastIsGreatest<T(!new)>(less: (T, T) -> bool, s: seq<T>, x: T)
    requires StrictWeakOrder(less) && Sorted(less, s) && (s == [] || !less(x, s[|s| - 1]))
    ensures Sorted(less, s + [x])
  {
    forall i | 0 <= i < |s| ensures !less(x, s[i]) {
      assert i < |s| - 1 ==> !less(s[|s| - 1], s[i]);
    }
  }

  lemma {:induction false} InsertionSortSorts<T(!new)>(less: (T, T) -> bool, s: seq<T>)
    requires StrictWeakOrder(less)
    ensures Sorted(less, InsertionSort(less, s)) && multiset(InsertionSort(less, s)) == multiset(s)
    decreases |s|
  {
    if s != [] {
      var init := s[..|s| - 1];
      InsertionSortSorts(less, init);
      InsertSorted(less, InsertionSort(less, init), s[|s| - 1]);
      assert s == init + [s[|s| - 1]];
    }
  }

  /** A range that other tasks do not touch keeps its elements. */
  lemma {:induction false} Untouched<T>(t: seq<T>, u: seq<T>, b: nat, n: nat, c: nat, l: nat)
    requires Permuted(t, u, b, n) && c + l <= |t| && (c + l <= b || b + n <= c)
    ensures |u| == |t| && Part(u, c, l) == Part(t, c, l)
  {
    var x, y := Part(u, c, l), Part(t, c, l);
    forall k | 0 <= k < l ensures x[k] == y[k] {
      if c + l <= b {
        assert u[..b][c + k] == t[..b][c + k];
      } else {
        assert u[b + n..][c + k - b - n] == t[b + n..][c + k - b - n];
      }
    }
  }

  /** The parts around the pivot have been sorted, one after the other. */
  lemma {:induction false} Assembled<T(!new)>(less: (T, T) -> bool, t: seq<T>, u: seq<T>, v: seq<T>, b: nat, n: nat, j: nat,
                                              b1: nat, n1: nat, b2: nat, n2: nat)
    requires StrictWeakOrder(less) && b + n <= |t| && SplitAt(less, Part(t, b, n), j)
    requires Permuted(t, u, b1, n1) && Sorted(less, Part(u, b1, n1)) && Permuted(u, v, b2, n2) && Sorted(less, Part(v, b2, n2))
    requires (b1, n1, b2, n2) == (b, j, b + j + 1, n - j - 1) || (b1, n1, b2, n2) == (b + j + 1, n - j - 1, b, j)
    ensures Permuted(t, v, b, n) && Sorted(less, Part(v, b, n))
  {
    hide StrictWeakOrder, Sorted, Permuted, SplitAt, Part;
    SplitBound(less, Part(t, b, n), j);
    var rb, rn := b + j + 1, n - j - 1;
    Untouched(t, u, b1, n1, b2, n2);
    Untouched(u, v, b2, n2, b1, n1);
    Untouched(t, u, b1, n1, b + j, 1);
    Untouched(u, v, b2, n2, b + j, 1);
    PermutedBag(t, u, b1, n1);
    PermutedBag(u, v, b2, n2);
    ThreeParts(t, b, n, j);
    ThreeParts(v, b, n, j);
    assert Part(v, b + j, 1)[0] == Part(t, b + j, 1)[0] == Part(t, b, n)[j];
    SidesSorted(less, Part(t, b, n), j, Part(v, b, j), Part(v, rb, rn));
    AllUntouched(t, u, v, b, n, b1, n1, b2, n2);
  }

  lemma {:induction false} ThreeParts<T>(t: seq<T>, b: nat, n: nat, j: nat)
    requires b + n <= |t| && j < n
    ensures Part(t, b, n)[..j] == Part(t, b, j) && Part(t, b, n)[j + 1..] == Part(t, b + j + 1, n - j - 1)
    ensures Part(t, b, n) == Part(t, b, j) + [t[b + j]] + Part(t, b + j + 1, n - j - 1)
    ensures t[b + j] == Part(t, b, n)[j]
  {
  }

  lemma {:induction false} SplitBound<T>(less: (T, T) -> bool, s: seq<T>, j: nat)
    requires SplitAt(less, s, j)
    ensures j < |s|
  {
  }

  lemma {:induction false} PermutedBag<T>(t: seq<T>, u: seq<T>, b: nat, n: nat)
    requires Permuted(t, u, b, n)
    ensures |u| == |t| && b + n <= |t| && multiset(Part(u, b, n)) == multiset(Part(t, b, n))
  {
  }

  lemma {:induction false} AllUntouched<T>(t: seq<T>, u: seq<T>, v: seq<T>, b: nat, n: nat, b1: nat, n1: nat, b2: nat, n2: nat)
    requires Permuted(t, u, b1, n1) && Permuted(u, v, b2, n2) && b + n <= |t| && |v| == |t|
    requires b <= b1 && b1 + n1 <= b + n && b <= b2 && b2 + n2 <= b + n
    requires multiset(Part(v, b, n)) == multiset(Part(t, b, n))
    ensures Permuted(t, v, b, n)
  {
    hide Permuted, Part;
    Untouched(t, u, b1, n1, 0, b);
    Untouched(u, v, b2, n2, 0, b);
    Untouched(t, u, b1, n1, b + n, |t| - b - n);
    Untouched(u, v, b2, n2, b + n, |t| - b - n);
    PermutedOf(t, v, b, n);
  }

  lemma {:induction false} PermutedOf<T>(t: seq<T>, v: seq<T>, b: nat, n: nat)
    requires b + n <= |t| == |v| && Part(v, 0, b) == Part(t, 0, b) && Part(v, b + n, |t| - b - n) == Part(t, b + n, |t| - b - n)
    requires multiset(Part(v, b, n)) == multiset(Part(t, b, n))
    ensures Permuted(t, v, b, n)
  {
    assert t[..b] == Part(t, 0, b) && v[..b] == Part(v, 0, b);
  }

  /** quick_sort_body on a leaf: any sorting algorithm will do. */
  method SortLeaf<T(!new)>(less: (T, T) -> bool, a: array<T>, b: nat, n: nat)
    requires StrictWeakOrder(less) && b + n <= a.Length
    modifies a
    ensures Permuted(old(a[..]), a[..], b, n) && Sorted(less, Part(a[..], b, n))
  {
    hide StrictWeakOrder, Sorted, Part, Permuted;
    ghost var t := a[..];
    var s := InsertionSort(less, Part(a[..], b, n));
    InsertionSortSorts(less, Part(a[..], b, n));
    assert |s| == n by {
      assert |multiset(s)| == |multiset(Part(t, b, n))|;
    }
    var k := 0;
    while k < n
      invariant k <= n && forall m {:trigger a[m]} :: 0 <= m < a.Length ==> a[m] == if b <= m < b + k then s[m - b] else t[m]
    {
      a[b + k] := s[k];
      k := k + 1;
    }
    Written(t, a[..], s, b, n);
  }

  lemma {:induction false} Written<T>(t: seq<T>, u: seq<T>, s: seq<T>, b: nat, n: nat)
    requires b + n <= |t| == |u| && |s| == n && multiset(s) == multiset(Part(t, b, n))
    requires forall m {:trigger u[m]} :: 0 <= m < |u| ==> u[m] == if b <= m < b + n then s[m - b] else t[m]
    ensures Permuted(t, u, b, n) && Part(u, b, n) == s
  {
    var p := Part(u, b, n);
    assert forall k {:trigger p[k]} :: 0 <= k < n ==> p[k] == s[k];
    assert p == s;
  }

  /** Whatever the schedule, the range ends up sorted, and nothing else changes. */
  method Sort<T(!new)>(range: QuickSortRange<T>, schedule: Schedule)
    requires StrictWeakOrder(range.comp) && range.Valid()
    modifies range`size, range.data
    ensures Permuted(old(range.data[..]), range.data[..], old(range.begin), old(range.size))
    ensures Sorted(range.comp, Part(range.data[..], old(range.begin), old(range.size)))
    decreases schedule
  {
    hide StrictWeakOrder, Permuted, SplitAt, Sorted;
    ghost var b, n := range.begin, range.size;
    if schedule.SplitRange? && range.IsDivisible() {
      ghost var t0 := range.data[..];
      var right := new QuickSortRange.Split(range);
      ghost var t, j := range.data[..], range.size;
      PermutedBag(t0, t, b, n);
      SplitBound(range.comp, Part(t, b, n), j);
      if schedule.rightFirst {
        Sort(right, schedule.right);
        ghost var u := range.data[..];
        Sort(range, schedule.left);
        Assembled(range.comp, t, u, range.data[..], b, n, j, b + j + 1, n - j - 1, b, j);
      } else {
        Sort(range, schedule.left);
        ghost var u := range.data[..];
        Sort(right, schedule.right);
        Assembled(range.comp, t, u, range.data[..], b, n, j, b, j, b + j + 1, n - j - 1);
      }
      PermutedTrans(t0, t, range.data[..], b, n);
    } else {
      SortLeaf(range.comp, range.data, range.begin, range.size);
    }
  }

  // ---- the test for sorted input ----

  const MIN_PARALLEL_SIZE := 500
  const SERIAL_CUTOFF := 9

  /** Neighbours in the wrong order. */
  predicate Inverted<T>(less: (T, T) -> bool, s: seq<T>, k: nat) {
    0 < k < |s| && less(s[k], s[k - 1])
  }

  lemma {:induction false} NoInversion<T(!new)>(less: (T, T) -> bool, s: seq<T>)
    requires StrictWeakOrder(less) && forall k {:trigger Inverted(less, s, k)} :: 0 < k < |s| ==> !Inverted(less, s, k)
    ensures Sorted(less, s)
  {
    hide StrictWeakOrder, Inverted;
    forall i, j | 0 <= i < j < |s| ensures !less(s[j], s[i]) {
      InOrder(less, s, i, j);
    }
  }

  lemma {:induction false} InOrder<T(!new)>(less: (T, T) -> bool, s: seq<T>, i: nat, j: nat)
    requires StrictWeakOrder(less) && i < j < |s| && forall k {:trigger Inverted(less, s, k)} :: 0 < k < |s| ==> !Inverted(less, s, k)
    ensures !less(s[j], s[i])
    decreases j
  {
    assert !Inverted(less, s, j);
    if i < j - 1 {
      InOrder(less, s, i, j - 1);
    }
  }

  /** quick_sort_pretest_body on one chunk: it cancels the test if it finds an inversion, and looks at the
      state of the test from time to time. */
  method PretestChunk<T>(less: (T, T) -> bool, data: array<T>, lo: nat, hi: nat, cancelled: bool) returns (c: bool)
    requires 0 < lo && hi <= data.Length
    ensures c <==> cancelled || exists k {:trigger Inverted(less, data[..], k)} :: lo <= k < hi && Inverted(less, data[..], k)
  {
    c := cancelled;
    var k := lo;
    while k < hi
      invariant lo <= k && c == cancelled
      invariant forall j {:trigger Inverted(less, data[..], j)} :: lo <= j < k && j < hi ==> c || !Inverted(less, data[..], j)
    {
      if (k - lo) % 64 == 0 && c {
        break;
      }
      if less(data[k], data[k - 1]) {
        assert Inverted(less, data[..], k);
        c := true;
        break;
      }
      k := k + 1;
    }
  }

  /** Every element from `lo` on lies in a chunk. */
  ghost predicate Covers(chunks: seq<(nat, nat)>, lo: nat, n: nat) {
    && (forall j {:trigger chunks[j]} :: 0 <= j < |chunks| ==> lo <= chunks[j].0 && chunks[j].1 <= n)
    && forall k: nat {:trigger InChunk(chunks, k)} :: lo <= k < n ==> InChunk(chunks, k)
  }

  predicate InChunk(chunks: seq<(nat, nat)>, k: nat) {
    exists j :: 0 <= j < |chunks| && chunks[j].0 <= k < chunks[j].1
  }

  /** parallel_sort: whatever the chunks of the test and the order in which they run, and whatever the
      schedule of the sort, the array ends up sorted. */
  method ParallelSort<T(!new)>(less: (T, T) -> bool, data: array<T>, chunks: seq<(nat, nat)>, schedule: Schedule)
    requires StrictWeakOrder(less) && Covers(chunks, SERIAL_CUTOFF + 1, data.Length)
    modifies data
    ensures Sorted(less, data[..]) && multiset(data[..]) == multiset(old(data[..]))
  {
    hide StrictWeakOrder, Sorted, Inverted, Covers, Permuted;
    ghost var s := data[..];
    if data.Length < MIN_PARALLEL_SIZE {
      SortLeaf(less, data, 0, data.Length);
      WholePermuted(s, data[..]);
      return;
    }
    var cancelled := PretestChunk(less, data, 1, SERIAL_CUTOFF + 1, false);
    var j := 0;
    while j < |chunks| && !cancelled
      invariant 0 <= j <= |chunks| && data[..] == s
      invariant !cancelled ==> forall k {:trigger Inverted(less, s, k)} :: 1 <= k <= SERIAL_CUTOFF ==> !Inverted(less, s, k)
      invariant !cancelled ==> forall i, k {:trigger chunks[i], Inverted(less, s, k)} :: 0 <= i < j && chunks[i].0 <= k < chunks[i].1 ==> !Inverted(less, s, k)
    {
      ChunkBounds(chunks, SERIAL_CUTOFF + 1, data.Length, j);
      cancelled := PretestChunk(less, data, chunks[j].0, chunks[j].1, cancelled);
      j := j + 1;
    }
    if cancelled {
      var range := new QuickSortRange(less, data, 0, data.Length);
      Sort(range, schedule);
      WholePermuted(s, data[..]);
    } else {
      forall k | 0 < k < |s| ensures !Inverted(less, s, k) {
        if k > SERIAL_CUTOFF {
          var i := ChunkOf(chunks, SERIAL_CUTOFF + 1, data.Length, k);
          assert chunks[i].0 <= k < chunks[i].1;
        }
      }
      NoInversion(less, s);
    }
  }

  lemma {:induction false} ChunkBounds(chunks: seq<(nat, nat)>, lo: nat, n: nat, j: nat)
    requires Covers(chunks, lo, n) && j < |chunks|
    ensures lo <= chunks[j].0 && chunks[j].1 <= n
  {
  }

  lemma {:induction false} ChunkOf(chunks: seq<(nat, nat)>, lo: nat, n: nat, k: nat) returns (j: nat)
    requires Covers(chunks, lo, n) && lo <= k < n
    ensures j < |chunks| && chunks[j].0 <= k < chunks[j].1
  {
    assert InChunk(chunks, k);
    j :| j < |chunks| && chunks[j].0 <= k < chunks[j].1;
  }

  lemma {:induction false} WholePermuted<T>(s: seq<T>, t: seq<T>)
    requires Permuted(s, t, 0, |s|)
    ensures Part(t, 0, |s|) == t && multiset(t) == multiset(s)
  {
    assert Part(t, 0, |s|) == t && Part(s, 0, |s|) == s;
  }
}
