/** The batch handler of the concurrent priority queue: a heap followed by unsorted new elements. */
module PriorityQueue {
  import opened Collections

  // ---- orders and heaps ----

  function ParentOf(i: nat): nat
    requires i > 0
  {
    (i - 1) / 2
  }

  /** The first `n` elements form a heap. */
  ghost predicate IsHeap<T>(less: (T, T) -> bool, a: seq<T>, n: nat) {
    && n <= |a|
    && forall i {:trigger a[i]} :: 0 < i < n ==> !less(a[ParentOf(i)], a[i])
  }

  /** No element of `q` is greater than its element `x`. */
  ghost predicate IsMax<T>(less: (T, T) -> bool, x: T, q: multiset<T>) {
    x in q && forall y :: y in q ==> !less(x, y)
  }

  lemma {:induction false} RootAtLeast<T(!new)>(less: (T, T) -> bool, a: seq<T>, n: nat, i: nat)
    requires StrictWeakOrder(less) && IsHeap(less, a, n) && i < n
    ensures !less(a[0], a[i])
    decreases i
  {
    if i > 0 {
      RootAtLeast(less, a, n, ParentOf(i));
      assert !less(a[0], a[ParentOf(i)]) && !less(a[ParentOf(i)], a[i]);
    }
  }

  /** The root of a heap is a maximum, and so is anything greater than the root. */
  lemma {:induction false} HeapMax<T(!new)>(less: (T, T) -> bool, a: seq<T>, n: nat, x: T)
    requires StrictWeakOrder(less) && IsHeap(less, a, n)
    ensures n > 0 ==> IsMax(less, a[0], multiset(a[..n]))
    ensures n == 0 || less(a[0], x) ==> IsMax(less, x, multiset(a[..n]) + multiset{x})
  {
    forall y | y in multiset(a[..n]) ensures n > 0 && !less(a[0], y) && (less(a[0], x) ==> !less(x, y)) {
      var i :| 0 <= i < n && a[..n][i] == y;
      RootAtLeast(less, a, n, i);
      assert less(a[0], x) ==> !less(x, a[0]);
    }
    if n > 0 {
      assert a[..n][0] == a[0];
    }
  }

  // ---- batches as sequential runs ----

  datatype Op<T> = Push(elem: T) | Pop

  datatype Outcome<T> = Waiting | Pushed | Popped(elem: T) | Empty

  /** Operation `op` may end with `out` on a priority queue holding `q`. */
  ghost predicate LegalOp<T>(less: (T, T) -> bool, op: Op<T>, out: Outcome<T>, q: multiset<T>) {
    match op
    case Push(_) => out == Pushed
    case Pop =>
      match out
      case Popped(x) => IsMax(less, x, q)
      case Empty => q == multiset{}
      case _ => false
  }

  ghost function Effect<T>(op: Op<T>, out: Outcome<T>, q: multiset<T>): multiset<T> {
    match op
    case Push(x) => q + multiset{x}
    case Pop => if out.Popped? then q - multiset{out.elem} else q
  }

  /** The contents after the operations `order`, one after the other. */
  ghost function After<T>(q: multiset<T>, ops: seq<Op<T>>, outs: seq<Outcome<T>>, order: seq<nat>): multiset<T>
    requires |outs| == |ops| && forall k :: 0 <= k < |order| ==> order[k] < |ops|
  {
    if order == [] then q
    else
      var i := order[|order| - 1];
      Effect(ops[i], outs[i], After(q, ops, outs, order[..|order| - 1]))
  }

  /** Running the operations in this order is a legal run of a sequential priority queue. */
  ghost predicate LegalRun<T>(less: (T, T) -> bool, q: multiset<T>, ops: seq<Op<T>>, outs: seq<Outcome<T>>, order: seq<nat>)
    requires |outs| == |ops| && forall k :: 0 <= k < |order| ==> order[k] < |ops|
  {
    order == [] ||
    var i := order[|order| - 1];
    LegalRun(less, q, ops, outs, order[..|order| - 1])
    && LegalOp(less, ops[i], outs[i], After(q, ops, outs, order[..|order| - 1]))
  }

  ghost predicate InRange(order: seq<nat>, n: nat) {
    forall k :: 0 <= k < |order| ==> order[k] < n
  }

  /** One more operation at the end of a run. */
  lemma {:induction false} RunAppend<T>(less: (T, T) -> bool, q: multiset<T>, ops: seq<Op<T>>, outs: seq<Outcome<T>>,
                                        order: seq<nat>, i: nat)
    requires |outs| == |ops| && InRange(order, |ops|) && i < |ops|
    ensures InRange(order + [i], |ops|)
    ensures After(q, ops, outs, order + [i]) == Effect(ops[i], outs[i], After(q, ops, outs, order))
    ensures LegalRun(less, q, ops, outs, order + [i]) <==>
            LegalRun(less, q, ops, outs, order) && LegalOp(less, ops[i], outs[i], After(q, ops, outs, order))
  {
    assert (order + [i])[..|order|] == order;
  }

  /** The outcome of an operation that is not part of the run does not matter. */
  lemma {:induction false} RunFrame<T>(less: (T, T) -> bool, q: multiset<T>, ops: seq<Op<T>>, outs: seq<Outcome<T>>,
                                       order: seq<nat>, i: nat, out: Outcome<T>)
    requires |outs| == |ops| && InRange(order, |ops|) && i < |ops| && i !in order
    ensures After(q, ops, outs[i := out], order) == After(q, ops, outs, order)
    ensures LegalRun(less, q, ops, outs[i := out], order) <==> LegalRun(less, q, ops, outs, order)
    decreases |order|
  {
    if order != [] {
      var init := order[..|order| - 1];
      assert order == init + [order[|order| - 1]];
      RunFrame(less, q, ops, outs, init, i, out);
    }
  }

  /** The elements that the operations `order` push. */
  ghost function PushedBy<T>(ops: seq<Op<T>>, order: seq<nat>): multiset<T>
    requires InRange(order, |ops|)
  {
    if order == [] then multiset{}
    else
      var op := ops[order[|order| - 1]];
      PushedBy(ops, order[..|order| - 1]) + if op.Push? then multiset{op.elem} else multiset{}
  }

  /** The elements that their pops return. */
  ghost function PoppedBy<T>(ops: seq<Op<T>>, outs: seq<Outcome<T>>, order: seq<nat>): multiset<T>
    requires |outs| == |ops| && InRange(order, |ops|)
  {
    if order == [] then multiset{}
    else
      var i := order[|order| - 1];
      PoppedBy(ops, outs, order[..|order| - 1])
      + if ops[i].Pop? && outs[i].Popped? then multiset{outs[i].elem} else multiset{}
  }

  /** Nothing is lost, duplicated or made up: what was there and what was pushed is either still
      there or was popped. */
  lemma {:induction false} Conservation<T>(less: (T, T) -> bool, q: multiset<T>, ops: seq<Op<T>>, outs: seq<Outcome<T>>, order: seq<nat>)
    requires |outs| == |ops| && InRange(order, |ops|) && LegalRun(less, q, ops, outs, order)
    ensures After(q, ops, outs, order) + PoppedBy(ops, outs, order) == q + PushedBy(ops, order)
    decreases |order|
  {
    hide LegalOp, Effect;
    if order != [] {
      var init, i := order[..|order| - 1], order[|order| - 1];
      Conservation(less, q, ops, outs, init);
      OpConserves(less, ops[i], outs[i], After(q, ops, outs, init));
      var pop := if ops[i].Pop? && outs[i].Popped? then multiset{outs[i].elem} else multiset{};
      var push := if ops[i].Push? then multiset{ops[i].elem} else multiset{};
      BagShift(After(q, ops, outs, order), pop, After(q, ops, outs, init), push, PoppedBy(ops, outs, init), q, PushedBy(ops, init));
    }
  }

  lemma {:induction false} BagShift<T>(e: multiset<T>, pop: multiset<T>, h: multiset<T>, push: multiset<T>, popped: multiset<T>,
                                       q: multiset<T>, pushed: multiset<T>)
    requires e + pop == h + push && h + popped == q + pushed
    ensures e + (popped + pop) == q + (pushed + push)
  {
    forall x ensures (e + (popped + pop))[x] == (q + (pushed + push))[x] {
      assert (e + pop)[x] == (h + push)[x] && (h + popped)[x] == (q + pushed)[x];
    }
  }

  lemma {:induction false} OpConserves<T>(less: (T, T) -> bool, op: Op<T>, out: Outcome<T>, h: multiset<T>)
    requires LegalOp(less, op, out, h)
    ensures Effect(op, out, h) + (if op.Pop? && out.Popped? then multiset{out.elem} else multiset{})
            == h + (if op.Push? then multiset{op.elem} else multiset{})
  {
    if op.Pop? && out.Popped? {
      assert h == h - multiset{out.elem} + multiset{out.elem};
    }
  }

  // ---- moving one element through the heap ----

  /** A heap, except that the element at `c` may be too great for its place. */
  ghost predicate AlmostUp<T>(less: (T, T) -> bool, v: seq<T>, n: nat, c: nat) {
    && c < n <= |v|
    && (forall i {:trigger v[i]} :: 0 < i < n && i != c ==> !less(v[ParentOf(i)], v[i]))
    && (forall i {:trigger v[i]} :: 0 < i < n && ParentOf(i) == c && c > 0 ==> !less(v[ParentOf(c)], v[i]))
  }

  /** A heap, except that the element at `c` may be too small for its place. */
  ghost predicate AlmostDown<T>(less: (T, T) -> bool, v: seq<T>, n: nat, c: nat) {
    && n <= |v|
    && (forall i {:trigger v[i]} :: 0 < i < n && ParentOf(i) != c ==> !less(v[ParentOf(i)], v[i]))
    && (forall i {:trigger v[i]} :: 0 < i < n && ParentOf(i) == c && c > 0 ==> !less(v[ParentOf(c)], v[i]))
  }

  lemma {:induction false} SwapTail<T>(v: seq<T>, i: nat, j: nat, n: nat)
    requires i < n <= |v| && j < n
    ensures Swapped(v, i, j)[n..] == v[n..]
  {
  }

  lemma {:induction false} UpStart<T>(less: (T, T) -> bool, v: seq<T>, n: nat)
    requires IsHeap(less, v, n) && 0 < n < |v|
    ensures AlmostUp(less, v, n + 1, n)
  {
  }

  lemma {:induction false} UpStop<T>(less: (T, T) -> bool, v: seq<T>, n: nat, c: nat)
    requires AlmostUp(less, v, n, c) && (c == 0 || !less(v[ParentOf(c)], v[c]))
    ensures IsHeap(less, v, n)
  {
  }

  lemma {:induction false} UpStep<T(!new)>(less: (T, T) -> bool, v: seq<T>, n: nat, c: nat)
    requires StrictWeakOrder(less) && AlmostUp(less, v, n, c) && c > 0 && less(v[ParentOf(c)], v[c])
    ensures AlmostUp(less, Swapped(v, c, ParentOf(c)), n, ParentOf(c))
  {
    var p := ParentOf(c);
    var w := Swapped(v, c, p);
    forall i | 0 < i < n && i != p ensures !less(w[ParentOf(i)], w[i]) {
      var q := ParentOf(i);
      assert !less(v[c], v[p]);
      if i != c {
        assert !less(v[q], v[i]);
      }
    }
    forall i | 0 < i < n && ParentOf(i) == p && p > 0 ensures !less(w[ParentOf(p)], w[i]) {
      assert !less(v[ParentOf(p)], v[p]);
      if i != c {
        assert !less(v[p], v[i]);
      }
    }
  }

  lemma {:induction false} DownStep<T(!new)>(less: (T, T) -> bool, v: seq<T>, n: nat, c: nat, t: nat)
    requires StrictWeakOrder(less) && AlmostDown(less, v, n, c) && 0 < t < n && ParentOf(t) == c && !less(v[t], v[c])
    requires forall i {:trigger v[i]} :: 0 < i < n && ParentOf(i) == c ==> !less(v[t], v[i])
    ensures AlmostDown(less, Swapped(v, c, t), n, t)
  {
    var w := Swapped(v, c, t);
    forall i | 0 < i < n && ParentOf(i) != t ensures !less(w[ParentOf(i)], w[i]) {
      var q := ParentOf(i);
      assert q != c ==> !less(v[q], v[i]);
      assert v[t] == v[t];
      if i == c {
        assert !less(v[q], v[t]);
      }
    }
    forall i | 0 < i < n && ParentOf(i) == t ensures !less(w[ParentOf(t)], w[i]) {
      assert !less(v[t], v[i]);
    }
  }

  lemma {:induction false} DownStop<T(!new)>(less: (T, T) -> bool, v: seq<T>, n: nat, c: nat, t: nat)
    requires StrictWeakOrder(less) && AlmostDown(less, v, n, c)
    requires t < |v| && c < |v| && less(v[t], v[c])
    requires forall i {:trigger v[i]} :: 0 < i < n && ParentOf(i) == c ==> !less(v[t], v[i])
    ensures IsHeap(less, v, n)
  {
    forall i | 0 < i < n ensures !less(v[ParentOf(i)], v[i]) {
      assert !less(v[c], v[t]);
      if ParentOf(i) == c {
        assert !less(v[t], v[i]);
      }
    }
  }

  // ---- a batch in progress ----

  /** The operations `order` have been run legally, and `h` is what the run has left. */
  ghost predicate Ran<T(!new)>(less: (T, T) -> bool, q: multiset<T>, ops: seq<Op<T>>, outs: seq<Outcome<T>>,
                               order: seq<nat>, h: multiset<T>) {
    && |outs| == |ops| && InRange(order, |ops|)
    && LegalRun(less, q, ops, outs, order) && After(q, ops, outs, order) == h
  }

  /** The elements `tail` have been pushed by the operations `src`, which the run does not include. */
  ghost predicate Waits<T(!new)>(ops: seq<Op<T>>, outs: seq<Outcome<T>>, src: seq<nat>, tail: seq<T>) {
    && |outs| == |ops| && |src| == |tail|
    && forall k {:trigger src[k]} :: 0 <= k < |src| ==>
         src[k] < |ops| && ops[src[k]] == Push(tail[k]) && outs[src[k]] == Pushed
  }

  /** The run so far has left the heap part of `data`; the unsorted part waits. */
  ghost predicate Batch<T(!new)>(less: (T, T) -> bool, q: multiset<T>, ops: seq<Op<T>>, outs: seq<Outcome<T>>,
                                 order: seq<nat>, src: seq<nat>, data: seq<T>, mark: nat) {
    && mark <= |data| && IsHeap(less, data, mark)
    && Ran(less, q, ops, outs, order, multiset(data[..mark]))
    && Waits(ops, outs, src, data[mark..])
  }

  /** Operation `p` has not been handled yet. */
  predicate Open(order: seq<nat>, src: seq<nat>, p: nat) {
    p !in order && p !in src
  }

  lemma {:induction false} RanPush<T(!new)>(less: (T, T) -> bool, q: multiset<T>, ops: seq<Op<T>>, outs: seq<Outcome<T>>,
                                            order: seq<nat>, h: multiset<T>, j: nat, x: T)
    requires Ran(less, q, ops, outs, order, h) && j < |ops| && ops[j] == Push(x) && outs[j] == Pushed
    ensures Ran(less, q, ops, outs, order + [j], h + multiset{x})
  {
    hide LegalRun, After;
    RunAppend(less, q, ops, outs, order, j);
  }

  lemma {:induction false} RanPop<T(!new)>(less: (T, T) -> bool, q: multiset<T>, ops: seq<Op<T>>, outs: seq<Outcome<T>>,
                                           order: seq<nat>, h: multiset<T>, p: nat)
    requires Ran(less, q, ops, outs, order, h) && p < |ops| && ops[p] == Pop && LegalOp(less, Pop, outs[p], h)
    ensures Ran(less, q, ops, outs, order + [p], if outs[p].Popped? then h - multiset{outs[p].elem} else h)
  {
    hide LegalRun, After, LegalOp;
    RunAppend(less, q, ops, outs, order, p);
  }

  lemma {:induction false} SetOutcome<T(!new)>(less: (T, T) -> bool, q: multiset<T>, ops: seq<Op<T>>, outs: seq<Outcome<T>>,
                                               order: seq<nat>, src: seq<nat>, h: multiset<T>, tail: seq<T>, p: nat, out: Outcome<T>)
    requires Ran(less, q, ops, outs, order, h) && Waits(ops, outs, src, tail) && p < |ops| && Open(order, src, p)
    ensures Ran(less, q, ops, outs[p := out], order, h) && Waits(ops, outs[p := out], src, tail)
  {
    RunFrame(less, q, ops, outs, order, p, out);
    forall k | 0 <= k < |src| ensures src[k] != p {
      assert src[k] in src;
    }
  }

  lemma {:induction false} WaitsDrop<T(!new)>(ops: seq<Op<T>>, outs: seq<Outcome<T>>, src: seq<nat>, tail: seq<T>)
    requires Waits(ops, outs, src, tail) && |tail| > 0
    ensures |src| == |tail| && Waits(ops, outs, src[..|src| - 1], tail[..|tail| - 1])
    ensures var j := src[|src| - 1]; j < |ops| && ops[j] == Push(tail[|tail| - 1]) && outs[j] == Pushed
  {
    var s := src[..|src| - 1];
    forall k | 0 <= k < |s| ensures s[k] == src[k] && tail[..|tail| - 1][k] == tail[k] {
    }
  }

  lemma {:induction false} WaitsAdd<T(!new)>(ops: seq<Op<T>>, outs: seq<Outcome<T>>, src: seq<nat>, tail: seq<T>, p: nat)
    requires Waits(ops, outs, src, tail) && p < |ops| && ops[p].Push? && outs[p] == Pushed
    ensures Waits(ops, outs, src + [p], tail + [ops[p].elem])
  {
  }

  lemma {:induction false} WaitsFirst<T(!new)>(ops: seq<Op<T>>, outs: seq<Outcome<T>>, src: seq<nat>, tail: seq<T>)
    requires Waits(ops, outs, src, tail) && |tail| > 0
    ensures |src| == |tail| && Waits(ops, outs, LastFirst(src), LastFirst(tail))
    ensures src[0] < |ops| && ops[src[0]] == Push(tail[0]) && outs[src[0]] == Pushed
  {
    var s, e := LastFirst(src), LastFirst(tail);
    forall k | 0 <= k < |s| ensures s[k] < |ops| && ops[s[k]] == Push(e[k]) && outs[s[k]] == Pushed {
      var m := if k == 0 then |src| - 1 else k;
      assert s[k] == src[m] && e[k] == tail[m];
    }
  }

  /** The last element replaces the first one. */
  function LastFirst<T>(a: seq<T>): seq<T>
    requires |a| > 0
  {
    if |a| == 1 then [] else [a[|a| - 1]] + a[1..|a| - 1]
  }

  lemma {:induction false} BatchSizes<T(!new)>(less: (T, T) -> bool, q: multiset<T>, ops: seq<Op<T>>, outs: seq<Outcome<T>>,
                                               order: seq<nat>, src: seq<nat>, data: seq<T>, mark: nat)
    requires Batch(less, q, ops, outs, order, src, data, mark)
    ensures |outs| == |ops| && mark <= |data| && |src| == |data| - mark && IsHeap(less, data, mark)
  {
    hide LegalRun, After, IsHeap;
  }

  lemma {:induction false} BatchPush<T(!new)>(less: (T, T) -> bool, q: multiset<T>, ops: seq<Op<T>>, outs: seq<Outcome<T>>,
                                              order: seq<nat>, src: seq<nat>, data: seq<T>, mark: nat, p: nat)
    requires Batch(less, q, ops, outs, order, src, data, mark) && p < |ops| && Open(order, src, p) && ops[p].Push?
    ensures |outs| == |ops| && Batch(less, q, ops, outs[p := Pushed], order, src + [p], data + [ops[p].elem], mark)
  {
    hide Ran, Waits, IsHeap;
    BatchSizes(less, q, ops, outs, order, src, data, mark);
    var d := data + [ops[p].elem];
    SetOutcome(less, q, ops, outs, order, src, multiset(data[..mark]), data[mark..], p, Pushed);
    WaitsAdd(ops, outs[p := Pushed], src, data[mark..], p);
    assert d[..mark] == data[..mark] && d[mark..] == data[mark..] + [ops[p].elem];
    HeapPrefix(less, data, d, mark);
  }

  lemma {:induction false} HeapPrefix<T>(less: (T, T) -> bool, a: seq<T>, b: seq<T>, n: nat)
    requires IsHeap(less, a, n) && n <= |a| && n <= |b| && b[..n] == a[..n]
    ensures IsHeap(less, b, n)
  {
    forall i | 0 < i < n ensures !less(b[ParentOf(i)], b[i]) {
      assert b[..n][i] == a[..n][i] && b[..n][ParentOf(i)] == a[..n][ParentOf(i)];
    }
  }

  /** The last unsorted element is pushed and popped at once: it is greater than the whole heap. */
  lemma {:induction false} BatchPopLast<T(!new)>(less: (T, T) -> bool, q: multiset<T>, ops: seq<Op<T>>, outs: seq<Outcome<T>>,
                                                 order: seq<nat>, src: seq<nat>, data: seq<T>, mark: nat, p: nat)
    requires StrictWeakOrder(less) && Batch(less, q, ops, outs, order, src, data, mark)
    requires p < |ops| && Open(order, src, p) && ops[p].Pop? && mark < |data| && less(data[0], data[|data| - 1])
    ensures |outs| == |ops| && |src| > 0
    ensures Batch(less, q, ops, outs[p := Popped(data[|data| - 1])], order + [src[|src| - 1]] + [p], src[..|src| - 1],
                  data[..|data| - 1], mark)
  {
    hide StrictWeakOrder, IsMax, IsHeap, Ran, Waits, Open;
    BatchSizes(less, q, ops, outs, order, src, data, mark);
    var x, h, tail := data[|data| - 1], multiset(data[..mark]), data[mark..];
    var outs' := outs[p := Popped(x)];
    SetOutcome(less, q, ops, outs, order, src, h, tail, p, Popped(x));
    WaitsDrop(ops, outs', src, tail);
    RanPush(less, q, ops, outs', order, h, src[|src| - 1], x);
    HeapMax(less, data, mark, x);
    RanPop(less, q, ops, outs', order + [src[|src| - 1]], h + multiset{x}, p);
    assert h + multiset{x} - multiset{x} == h;
    var d := data[..|data| - 1];
    assert d[..mark] == data[..mark] && d[mark..] == tail[..|tail| - 1];
    HeapPrefix(less, data, d, mark);
  }

  /** What the extraction of the root leaves behind. */
  ghost predicate Reheaped<T>(data: seq<T>, mark: nat, data': seq<T>, mark': nat)
    requires 0 < mark <= |data|
  {
    && |data'| == |data| - 1
    && if mark == |data| then mark' == |data'| && multiset(data') == multiset(data) - multiset{data[0]}
       else mark' == mark && data'[mark..] == data[mark..|data| - 1]
            && multiset(data'[..mark]) == multiset(data[..mark]) - multiset{data[0]} + multiset{data[|data| - 1]}
  }

  lemma {:induction false} RootMax<T(!new)>(less: (T, T) -> bool, a: seq<T>, n: nat)
    requires StrictWeakOrder(less) && IsHeap(less, a, n) && 0 < n <= |a|
    ensures IsMax(less, a[0], multiset(a[..n]))
  {
    HeapMax(less, a, n, a[0]);
  }

  /** The root of the heap is popped; the last element, if unsorted, takes a place in the heap. */
  lemma {:induction false} BatchPopTop<T(!new)>(less: (T, T) -> bool, q: multiset<T>, ops: seq<Op<T>>, outs: seq<Outcome<T>>,
                                                order: seq<nat>, src: seq<nat>, data: seq<T>, mark: nat, p: nat,
                                                data': seq<T>, mark': nat)
    requires StrictWeakOrder(less) && Batch(less, q, ops, outs, order, src, data, mark)
    requires p < |ops| && Open(order, src, p) && ops[p].Pop? && 0 < mark <= |data|
    requires Reheaped(data, mark, data', mark') && mark' <= |data'| && IsHeap(less, data', mark')
    ensures |outs| == |ops|
    ensures var done := order + [p] + if src == [] then [] else [src[|src| - 1]];
            Batch(less, q, ops, outs[p := Popped(data[0])], done, if src == [] then [] else src[..|src| - 1], data', mark')
  {
    hide StrictWeakOrder, IsMax, IsHeap, Ran, Waits, Open;
    BatchSizes(less, q, ops, outs, order, src, data, mark);
    var h, tail := multiset(data[..mark]), data[mark..];
    var outs' := outs[p := Popped(data[0])];
    SetOutcome(less, q, ops, outs, order, src, h, tail, p, Popped(data[0]));
    RootMax(less, data, mark);
    RanPop(less, q, ops, outs', order, h, p);
    if src == [] {
      assert data[..mark] == data && data'[..mark'] == data' && data'[mark'..] == [] == tail;
      assert order + [p] + [] == order + [p];
    } else {
      WaitsDrop(ops, outs', src, tail);
      RanPush(less, q, ops, outs', order + [p], h - multiset{data[0]}, src[|src| - 1], data[|data| - 1]);
      assert data'[mark'..] == tail[..|tail| - 1];
    }
  }

  /** With an empty heap the first unsorted element is pushed and popped at once. */
  lemma {:induction false} BatchPopFirst<T(!new)>(less: (T, T) -> bool, q: multiset<T>, ops: seq<Op<T>>, outs: seq<Outcome<T>>,
                                                  order: seq<nat>, src: seq<nat>, data: seq<T>, p: nat)
    requires StrictWeakOrder(less) && Batch(less, q, ops, outs, order, src, data, 0)
    requires p < |ops| && Open(order, src, p) && ops[p].Pop? && |data| > 0
    ensures |outs| == |ops| && |src| > 0
    ensures Batch(less, q, ops, outs[p := Popped(data[0])], order + [src[0]] + [p], LastFirst(src), LastFirst(data), 0)
  {
    hide Ran, Waits, Open, LastFirst;
    BatchSizes(less, q, ops, outs, order, src, data, 0);
    var x := data[0];
    var outs' := outs[p := Popped(x)];
    assert data[..0] == [] && data[0..] == data && LastFirst(data)[..0] == [] && LastFirst(data)[0..] == LastFirst(data);
    SetOutcome(less, q, ops, outs, order, src, multiset{}, data, p, Popped(x));
    WaitsFirst(ops, outs', src, data);
    RanPush(less, q, ops, outs', order, multiset{}, src[0], x);
    assert multiset{} + multiset{x} == multiset{x} && multiset{x} - multiset{x} == multiset{};
    RanPop(less, q, ops, outs', order + [src[0]], multiset{x}, p);
  }

  lemma {:induction false} BatchFail<T(!new)>(less: (T, T) -> bool, q: multiset<T>, ops: seq<Op<T>>, outs: seq<Outcome<T>>,
                                              order: seq<nat>, src: seq<nat>, p: nat)
    requires Batch(less, q, ops, outs, order, src, [], 0) && p < |ops| && Open(order, src, p) && ops[p].Pop?
    ensures |outs| == |ops| && Batch(less, q, ops, outs[p := Empty], order + [p], src, [], 0)
  {
    hide Ran, Waits, Open;
    BatchSizes(less, q, ops, outs, order, src, [], 0);
    var none: seq<T> := [];
    assert none[..0] == [] && none[0..] == [];
    SetOutcome(less, q, ops, outs, order, src, multiset{}, [], p, Empty);
    RanPop(less, q, ops, outs[p := Empty], order, multiset{}, p);
  }

  /** The pushes that are left at the end of the batch come last. */
  lemma {:induction false} RanPushes<T(!new)>(less: (T, T) -> bool, q: multiset<T>, ops: seq<Op<T>>, outs: seq<Outcome<T>>,
                                              order: seq<nat>, h: multiset<T>, src: seq<nat>, tail: seq<T>)
    requires Ran(less, q, ops, outs, order, h) && Waits(ops, outs, src, tail)
    ensures Ran(less, q, ops, outs, order + src, h + multiset(tail))
    decreases |src|
  {
    hide Ran;
    if src == [] {
      assert order + src == order && h + multiset(tail) == h;
    } else {
      WaitsDrop(ops, outs, src, tail);
      var s, t := src[..|src| - 1], tail[..|tail| - 1];
      RanPushes(less, q, ops, outs, order, h, s, t);
      RanPush(less, q, ops, outs, order + s, h + multiset(t), src[|src| - 1], tail[|tail| - 1]);
      assert order + src == order + s + [src[|src| - 1]];
      assert tail == t + [tail[|tail| - 1]];
      assert h + multiset(tail) == h + multiset(t) + multiset{tail[|tail| - 1]};
    }
  }

  // ---- the extraction of the root ----

  lemma {:induction false} DownStart<T>(less: (T, T) -> bool, v: seq<T>, n: nat, x: T)
    requires IsHeap(less, v, n) && |v| > 0
    ensures AlmostDown(less, v[0 := x], n, 0)
  {
  }

  lemma {:induction false} DownLeaf<T>(less: (T, T) -> bool, v: seq<T>, n: nat, c: nat)
    requires AlmostDown(less, v, n, c) && 2 * c + 1 >= n
    ensures IsHeap(less, v, n)
  {
  }

  /** The chosen child is not less than its sibling. */
  lemma {:induction false} GreaterChild<T(!new)>(less: (T, T) -> bool, v: seq<T>, n: nat, c: nat, t: nat)
    requires StrictWeakOrder(less) && n <= |v| && 2 * c + 1 < n
    requires t == if 2 * c + 2 < n && less(v[2 * c + 1], v[2 * c + 2]) then 2 * c + 2 else 2 * c + 1
    ensures t < n && ParentOf(t) == c
    ensures forall i {:trigger v[i]} :: 0 < i < n && ParentOf(i) == c ==> !less(v[t], v[i])
  {
  }

  lemma {:induction false} HeapShorter<T>(less: (T, T) -> bool, a: seq<T>, n: nat, b: seq<T>, m: nat)
    requires IsHeap(less, a, n) && |a| > 0 && b == a[..|a| - 1] && m == if n > |b| then |b| else n
    ensures IsHeap(less, b, m)
  {
  }

  lemma {:induction false} BagCancel<T>(a: multiset<T>, rest: multiset<T>, h: multiset<T>, x: T, last: T)
    requires a + rest + multiset{x} == h + rest + multiset{last} && x in h
    ensures a == h - multiset{x} + multiset{last}
  {
    forall y ensures a[y] == (h - multiset{x} + multiset{last})[y] {
      assert (a + rest + multiset{x})[y] == (h + rest + multiset{last})[y];
    }
  }

  lemma {:induction false} FirstReplaced<T>(d: seq<T>, e: seq<T>, last: T)
    requires |d| == |e| > 0 && e[|e| - 1] == last && multiset(e) == multiset(d[0 := last])
    ensures multiset(e[..|e| - 1]) + multiset{d[0]} == multiset(d)
  {
    var init, tail := e[..|e| - 1], d[1..];
    assert e == init + [last];
    assert d == [d[0]] + tail;
    assert d[0 := last] == [last] + tail;
    assert multiset(init) + multiset{last} == multiset(tail) + multiset{last};
    forall y ensures multiset(init)[y] == multiset(tail)[y] {
      assert (multiset(init) + multiset{last})[y] == (multiset(tail) + multiset{last})[y];
    }
    assert multiset(init) == multiset(tail);
  }

  lemma {:induction false} ThreeParts<T>(d: seq<T>, n: nat)
    requires 0 < n < |d|
    ensures multiset(d) == multiset(d[..n]) + multiset(d[n..|d| - 1]) + multiset{d[|d| - 1]}
    ensures d[0] in multiset(d[..n])
  {
    assert d == d[..n] + d[n..|d| - 1] + [d[|d| - 1]];
    assert d[..n][0] == d[0];
  }

  lemma {:induction false} ReheapedBags<T>(d: seq<T>, n: nat, e: seq<T>, b: seq<T>, m: nat)
    requires 0 < n <= |d| == |e| && b == e[..|e| - 1] && m == (if n > |b| then |b| else n)
    requires e[|e| - 1] == d[|d| - 1] && e[n..] == d[n..] && multiset(e) == multiset(d[0 := d[|d| - 1]])
    ensures Reheaped(d, n, b, m)
  {
    var last := d[|d| - 1];
    FirstReplaced(d, e, last);
    if n < |d| {
      ThreeParts(d, n);
      assert b == b[..n] + b[n..];
      assert b[n..] == d[n..|d| - 1] by {
        assert e[n..][..|e| - 1 - n] == d[n..][..|e| - 1 - n];
      }
      BagCancel(multiset(b[..n]), multiset(b[n..]), multiset(d[..n]), d[0], last);
    }
  }

  /** The hole is at `c`, and the heap would be one but for the last element in that place. */
  ghost predicate Sinking<T>(less: (T, T) -> bool, d0: seq<T>, n: nat, d: seq<T>, c: nat) {
    && n <= |d0| == |d| && c < |d| && (c < n || c == 0) && d[|d| - 1] == d0[|d0| - 1]
    && AlmostDown(less, d[c := d[|d| - 1]], n, c) && (n == 0 ==> d == d0)
    && (n > 0 ==> d[c := d[|d| - 1]][n..] == d0[n..])
    && multiset(d[c := d[|d| - 1]]) == multiset(d0[0 := d[|d| - 1]])
  }

  /** The last element can be put into the hole at `c`. */
  ghost predicate Sunk<T>(less: (T, T) -> bool, d0: seq<T>, n: nat, d: seq<T>, c: nat) {
    Sinking(less, d0, n, d, c) && IsHeap(less, d[c := d[|d| - 1]], n)
  }

  /** `t` is the child of `c` with the higher priority. */
  predicate HigherChild<T>(less: (T, T) -> bool, d: seq<T>, n: nat, c: nat, t: nat)
    requires n <= |d|
  {
    && 2 * c + 1 < n
    && t == if 2 * c + 2 < n && less(d[2 * c + 1], d[2 * c + 2]) then 2 * c + 2 else 2 * c + 1
  }

  lemma {:induction false} SinkStarts<T>(less: (T, T) -> bool, d: seq<T>, n: nat)
    requires IsHeap(less, d, n) && |d| > 0
    ensures Sinking(less, d, n, d, 0)
  {
    DownStart(less, d, n, d[|d| - 1]);
  }

  /** Moving the child `t` up moves the hole down. */
  lemma {:induction false} HoleMoves<T>(d: seq<T>, n: nat, c: nat, t: nat)
    requires c < t < n <= |d|
    ensures var last, d' := d[|d| - 1], d[c := d[t]];
            && d'[|d'| - 1] == last && d'[t := last] == Swapped(d[c := last], c, t)
  {
  }

  lemma {:induction false} SinkStep<T(!new)>(less: (T, T) -> bool, d0: seq<T>, n: nat, d: seq<T>, c: nat, t: nat)
    requires StrictWeakOrder(less) && Sinking(less, d0, n, d, c) && HigherChild(less, d, n, c, t) && !less(d[t], d[|d| - 1])
    ensures Sinking(less, d0, n, d[c := d[t]], t)
  {
    hide StrictWeakOrder, AlmostDown, Swapped;
    var v := d[c := d[|d| - 1]];
    GreaterChild(less, v, n, c, t);
    DownStep(less, v, n, c, t);
    SwapBag(v, c, t);
    SwapTail(v, c, t, n);
    HoleMoves(d, n, c, t);
  }

  lemma {:induction false} SinkStops<T(!new)>(less: (T, T) -> bool, d0: seq<T>, n: nat, d: seq<T>, c: nat, t: nat)
    requires StrictWeakOrder(less) && Sinking(less, d0, n, d, c) && HigherChild(less, d, n, c, t) && less(d[t], d[|d| - 1])
    ensures Sunk(less, d0, n, d, c)
  {
    hide StrictWeakOrder, AlmostDown;
    var v := d[c := d[|d| - 1]];
    GreaterChild(less, v, n, c, t);
    DownStop(less, v, n, c, t);
  }

  lemma {:induction false} SinkEnds<T>(less: (T, T) -> bool, d0: seq<T>, n: nat, d: seq<T>, c: nat)
    requires Sinking(less, d0, n, d, c) && 2 * c + 1 >= n
    ensures Sunk(less, d0, n, d, c)
  {
    hide AlmostDown;
    DownLeaf(less, d[c := d[|d| - 1]], n, c);
  }

  /** The state after the last element has been dropped. */
  lemma {:induction false} Extracted<T>(less: (T, T) -> bool, d0: seq<T>, n: nat, d: seq<T>, c: nat)
    requires Sunk(less, d0, n, d, c)
    ensures n <= |d0| == |d| && c < |d|
    ensures var b := d[c := d[|d| - 1]][..|d| - 1]; var m := if n > |b| then |b| else n;
            && IsHeap(less, b, m) && (n > 0 ==> Reheaped(d0, n, b, m)) && (n == 0 ==> b == LastFirst(d0))
  {
    hide IsHeap, AlmostDown, Reheaped;
    var e := d[c := d[|d| - 1]];
    var b := e[..|e| - 1];
    var m := if n > |b| then |b| else n;
    HeapShorter(less, e, n, b, m);
    if n > 0 {
      ReheapedBags(d0, n, e, b, m);
    }
  }

  /** Every operation number below `n`, once. */
  ghost function Upto(n: nat): multiset<nat> {
    if n == 0 then multiset{} else Upto(n - 1) + multiset{n - 1}
  }

  lemma {:induction false} UptoCount(n: nat, x: nat)
    ensures Upto(n)[x] == if x < n then 1 else 0
  {
    if n > 0 {
      UptoCount(n - 1, x);
    }
  }

  /** The operations below `n` are split into those run, the waiting pushes and the postponed pops. */
  ghost predicate Split(order: seq<nat>, src: seq<nat>, pops: seq<nat>, n: nat) {
    multiset(order) + multiset(src) + multiset(pops) == Upto(n)
  }

  lemma {:induction false} SplitOpen(order: seq<nat>, src: seq<nat>, pops: seq<nat>, n: nat, p: nat)
    requires Split(order, src, pops, n) && (p >= n || p in pops)
    ensures Open(order, src, p)
  {
    UptoCount(n, p);
    assert (multiset(order) + multiset(src) + multiset(pops))[p] == Upto(n)[p];
  }

  lemma {:induction false} BatchStart<T(!new)>(less: (T, T) -> bool, data: seq<T>, ops: seq<Op<T>>, outs: seq<Outcome<T>>)
    requires IsHeap(less, data, |data|) && |outs| == |ops|
    ensures Batch(less, multiset(data), ops, outs, [], [], data, |data|) && Split([], [], [], 0)
  {
    assert data[..|data|] == data;
  }

  lemma {:induction false} SplitPop(order: seq<nat>, src: seq<nat>, order': seq<nat>, src': seq<nat>, pops: seq<nat>, n: nat)
    requires Split(order, src, pops, n) && pops != []
    requires multiset(order') + multiset(src') == multiset(order) + multiset(src) + multiset{pops[0]}
    ensures Split(order', src', pops[1..], n)
  {
    assert pops == [pops[0]] + pops[1..];
  }

  /** Popping the last unsorted element accounts for its push and for the pop. */
  lemma {:induction false} BagLast(order: seq<nat>, src: seq<nat>, p: nat)
    requires src != []
    ensures multiset(order + [src[|src| - 1]] + [p]) + multiset(src[..|src| - 1]) == multiset(order) + multiset(src) + multiset{p}
    ensures multiset(order + [p] + [src[|src| - 1]]) + multiset(src[..|src| - 1]) == multiset(order) + multiset(src) + multiset{p}
  {
    assert src == src[..|src| - 1] + [src[|src| - 1]];
  }

  lemma {:induction false} BagFirst(order: seq<nat>, src: seq<nat>, p: nat)
    requires src != []
    ensures multiset(order + [src[0]] + [p]) + multiset(LastFirst(src)) == multiset(order) + multiset(src) + multiset{p}
  {
    LastFirstBag(src);
  }

  lemma {:induction false} BagSplit(order: seq<nat>, src: seq<nat>, pops: seq<nat>, i: nat, order': seq<nat>, src': seq<nat>)
    requires Split(order, src, pops, i)
    ensures multiset(order') + multiset(src') == multiset(order) + multiset(src) + multiset{i} ==> Split(order', src', pops, i + 1)
    ensures Split(order, src, [i] + pops, i + 1)
    ensures multiset(order) + multiset(src + [i]) == multiset(order) + multiset(src) + multiset{i}
  {
  }

  lemma {:induction false} LastFirstBag<T>(a: seq<T>)
    requires |a| > 0
    ensures multiset(LastFirst(a)) + multiset{a[0]} == multiset(a)
  {
    if |a| == 1 {
      assert a == [a[0]];
    } else {
      assert a == [a[0]] + a[1..|a| - 1] + [a[|a| - 1]];
    }
  }

  lemma {:induction false} BatchDone<T(!new)>(less: (T, T) -> bool, q: multiset<T>, ops: seq<Op<T>>, outs: seq<Outcome<T>>,
                                              order: seq<nat>, src: seq<nat>, data: seq<T>, mark: nat)
    requires Batch(less, q, ops, outs, order, src, data, mark) && Split(order, src, [], |ops|)
    ensures Ran(less, q, ops, outs, order + src, multiset(data)) && multiset(order + src) == Upto(|ops|)
  {
    hide Ran, Waits, IsHeap, Upto;
    RanPushes(less, q, ops, outs, order, multiset(data[..mark]), src, data[mark..]);
    assert data == data[..mark] + data[mark..];
  }

  class ConcurrentPriorityQueue<T(!new)> {
    const compare: (T, T) -> bool
    var data: seq<T>
    var mark: nat
    var mySize: nat

    ghost predicate Valid()
      reads this
    {
      mark == |data| == mySize && IsHeap(compare, data, |data|)
    }

    /** Merges the unsorted elements into the heap. */
    method Heapify()
      requires StrictWeakOrder(compare) && IsHeap(compare, data, mark)
      modifies `data, `mark
      ensures mark == |data| == old(|data|) && IsHeap(compare, data, |data|)
      ensures multiset(data) == multiset(old(data))
    {
      if mark == 0 && |data| > 0 {
        mark := 1;
      }
      while mark < |data|
        invariant |data| == old(|data|) && mark <= |data| && IsHeap(compare, data, mark)
        invariant |data| > 0 ==> mark > 0
        invariant multiset(data) == multiset(old(data))
      {
        SiftUp();
        mark := mark + 1;
      }
    }

    /** The body of the loop of Heapify: the first unsorted element is pushed up the heap. */
    method SiftUp()
      requires StrictWeakOrder(compare) && IsHeap(compare, data, mark) && 0 < mark < |data|
      modifies `data
      ensures |data| == old(|data|) && IsHeap(compare, data, mark + 1)
      ensures multiset(data) == multiset(old(data))
    {
      hide StrictWeakOrder, IsHeap, AlmostUp;
      var curPos := mark;
      var toPlace := data[mark];
      UpStart(compare, data, mark);
      assert data[curPos := toPlace] == data;
      while curPos != 0
        invariant |data| == old(|data|) && curPos <= mark
        invariant AlmostUp(compare, data[curPos := toPlace], mark + 1, curPos)
        invariant multiset(data[curPos := toPlace]) == multiset(old(data))
      {
        var parent := (curPos - 1) / 2;
        ghost var v, c := data[curPos := toPlace], curPos;
        if !compare(data[parent], toPlace) {
          break;
        }
        UpStep(compare, v, mark + 1, curPos);
        SwapBag(v, curPos, parent);
        data := data[curPos := data[parent]];
        curPos := parent;
        assert data[curPos := toPlace] == Swapped(v, c, parent);
      }
      UpStop(compare, data[curPos := toPlace], mark + 1, curPos);
      data := data[curPos := toPlace];
    }

    /** The loop of Reheap: the hole at the root sinks until the last element fits into it. */
    method SinkHole() returns (curPos: nat)
      requires StrictWeakOrder(compare) && IsHeap(compare, data, mark) && mark <= |data| && |data| > 0
      modifies `data
      ensures Sunk(compare, old(data), mark, data, curPos)
    {
      hide StrictWeakOrder, IsHeap, Sinking, Sunk, AlmostDown;
      var child;
      curPos, child := 0, 1;
      SinkStarts(compare, data, mark);
      while child < mark
        invariant child == 2 * curPos + 1 && curPos < |data| == |old(data)| && mark <= |data|
        invariant Sinking(compare, old(data), mark, data, curPos)
        decreases mark - curPos
      {
        var target := child;
        if child + 1 < mark && compare(data[child], data[child + 1]) {
          target := target + 1;
        }
        if compare(data[target], data[|data| - 1]) {
          SinkStops(compare, old(data), mark, data, curPos, target);
          return;
        }
        SinkStep(compare, old(data), mark, data, curPos, target);
        data := data[curPos := data[target]];
        curPos := target;
        child := 2 * curPos + 1;
      }
      SinkEnds(compare, old(data), mark, data, curPos);
    }

    /** Extracts the root: the last element takes the place where the hole has ended up. */
    method Reheap()
      requires StrictWeakOrder(compare) && IsHeap(compare, data, mark) && mark <= |data| && |data| > 0
      modifies `data, `mark
      ensures IsHeap(compare, data, mark) && mark <= |data| == |old(data)| - 1
      ensures old(mark) > 0 ==> Reheaped(old(data), old(mark), data, mark)
      ensures old(mark) == 0 ==> mark == 0 && data == LastFirst(old(data))
    {
      hide StrictWeakOrder, IsHeap, Reheaped, Sunk, LastFirst;
      var curPos := SinkHole();
      ghost var d1 := data;
      Extracted(compare, old(data), mark, d1, curPos);
      if curPos != |data| - 1 {
        data := data[curPos := data[|data| - 1]];
      }
      data := data[..|data| - 1];
      assert data == d1[curPos := d1[|d1| - 1]][..|d1| - 1];
      if mark > |data| {
        mark := |data|;
      }
    }

    /** The queue over the elements of a range. */
    constructor (compare: (T, T) -> bool, range: seq<T>)
      requires StrictWeakOrder(compare)
      ensures Valid() && this.compare == compare && multiset(data) == multiset(range)
    {
      this.compare, mark, data := compare, 0, range;
      mySize := 0;
      new;
      Heapify();
      mySize := |data|;
    }

    /** One operation of the first pass: pushes, and pops that need not touch the heap. */
    method HandleFirst(ops: seq<Op<T>>, i: nat, outs: seq<Outcome<T>>, popList: seq<nat>,
                       ghost q: multiset<T>, ghost order: seq<nat>, ghost src: seq<nat>)
      returns (outs': seq<Outcome<T>>, popList': seq<nat>, ghost order': seq<nat>, ghost src': seq<nat>)
      requires StrictWeakOrder(compare) && i < |ops| && mySize == |data| && mark <= |data|
      requires Batch(compare, q, ops, outs, order, src, data, mark) && Split(order, src, popList, i)
      requires forall k :: 0 <= k < |popList| ==> popList[k] < |ops| && ops[popList[k]].Pop?
      modifies `data, `mySize
      ensures mySize == |data| && mark <= |data|
      ensures Batch(compare, q, ops, outs', order', src', data, mark) && Split(order', src', popList', i + 1)
      ensures forall k :: 0 <= k < |popList'| ==> popList'[k] < |ops| && ops[popList'[k]].Pop?
    {
      hide StrictWeakOrder, IsHeap, Split, Batch, Open;
      SplitOpen(order, src, popList, i, i);
      BatchSizes(compare, q, ops, outs, order, src, data, mark);
      outs', popList', order', src' := outs, popList, order, src;
      match ops[i] {
      case Pop =>
        if mark < |data| && compare(data[0], data[|data| - 1]) {
          BatchPopLast(compare, q, ops, outs, order, src, data, mark, i);
          order', src' := order + [src[|src| - 1]] + [i], src[..|src| - 1];
          BagLast(order, src, i);
          outs' := outs[i := Popped(data[|data| - 1])];
          mySize := mySize - 1;
          data := data[..|data| - 1];
        } else {
          popList' := [i] + popList;
        }
      case Push(x) =>
        BatchPush(compare, q, ops, outs, order, src, data, mark, i);
        src' := src + [i];
        data := data + [x];
        mySize := mySize + 1;
        outs' := outs[i := Pushed];
      }
      BagSplit(order, src, popList, i, order', src');
    }

    /** One operation of the second pass: a pop that was postponed. */
    method HandlePostponed(ops: seq<Op<T>>, p: nat, outs: seq<Outcome<T>>,
                           ghost q: multiset<T>, ghost order: seq<nat>, ghost src: seq<nat>)
      returns (outs': seq<Outcome<T>>, ghost order': seq<nat>, ghost src': seq<nat>)
      requires StrictWeakOrder(compare) && p < |ops| && ops[p].Pop? && mySize == |data| && mark <= |data|
      requires Batch(compare, q, ops, outs, order, src, data, mark) && Open(order, src, p)
      modifies `data, `mark, `mySize
      ensures mySize == |data| && mark <= |data|
      ensures Batch(compare, q, ops, outs', order', src', data, mark)
      ensures multiset(order') + multiset(src') == multiset(order) + multiset(src) + multiset{p}
    {
      hide StrictWeakOrder, IsHeap, Batch, Reheaped, LastFirst, Open;
      BatchSizes(compare, q, ops, outs, order, src, data, mark);
      if |data| == 0 {
        BatchFail(compare, q, ops, outs, order, src, p);
        outs' := outs[p := Empty];
        order', src' := order + [p], src;
      } else if mark < |data| && compare(data[0], data[|data| - 1]) {
        BatchPopLast(compare, q, ops, outs, order, src, data, mark, p);
        order', src' := order + [src[|src| - 1]] + [p], src[..|src| - 1];
        BagLast(order, src, p);
        outs' := outs[p := Popped(data[|data| - 1])];
        mySize := mySize - 1;
        data := data[..|data| - 1];
      } else {
        outs' := outs[p := Popped(data[0])];
        mySize := mySize - 1;
        ghost var d := data;
        if mark == 0 {
          BatchPopFirst(compare, q, ops, outs, order, src, data, p);
          order', src' := order + [src[0]] + [p], LastFirst(src);
          BagFirst(order, src, p);
        } else {
          order' := order + [p] + if src == [] then [] else [src[|src| - 1]];
          src' := if src == [] then [] else src[..|src| - 1];
          if src != [] {
            BagLast(order, src, p);
          }
        }
        ghost var n := mark;
        Reheap();
        if n > 0 {
          BatchPopTop(compare, q, ops, outs, order, src, d, n, p, data, mark);
        }
      }
    }

    /** Handles a batch of operations: the outcomes are those of some sequential order of the batch. */
    method HandleOperations(ops: seq<Op<T>>) returns (outs: seq<Outcome<T>>, ghost order: seq<nat>)
      requires StrictWeakOrder(compare) && Valid()
      modifies this
      ensures Valid() && multiset(order) == Upto(|ops|)
      ensures Ran(compare, multiset(old(data)), ops, outs, order, multiset(data))
    {
      hide StrictWeakOrder, IsHeap, Split, Upto, Batch, Ran;
      ghost var q := multiset(data);
      ghost var src: seq<nat> := [];
      var popList: seq<nat> := [];
      outs := seq(|ops|, _ => Waiting);
      order := [];
      BatchStart(compare, data, ops, outs);
      var i := 0;
      while i < |ops|
        invariant i <= |ops| && mySize == |data| && mark <= |data|
        invariant Batch(compare, q, ops, outs, order, src, data, mark) && Split(order, src, popList, i)
        invariant forall k :: 0 <= k < |popList| ==> popList[k] < |ops| && ops[popList[k]].Pop?
      {
        outs, popList, order, src := HandleFirst(ops, i, outs, popList, q, order, src);
        i := i + 1;
      }
      while popList != []
        invariant mySize == |data| && mark <= |data|
        invariant Batch(compare, q, ops, outs, order, src, data, mark) && Split(order, src, popList, |ops|)
        invariant forall k :: 0 <= k < |popList| ==> popList[k] < |ops| && ops[popList[k]].Pop?
        decreases |popList|
      {
        ghost var order0, src0 := order, src;
        SplitOpen(order, src, popList, |ops|, popList[0]);
        outs, order, src := HandlePostponed(ops, popList[0], outs, q, order, src);
        SplitPop(order0, src0, order, src, popList, |ops|);
        popList := popList[1..];
      }
      BatchSizes(compare, q, ops, outs, order, src, data, mark);
      BatchDone(compare, q, ops, outs, order, src, data, mark);
      order := order + src;
      if mark < |data| {
        Heapify();
      }
    }
  }
}
