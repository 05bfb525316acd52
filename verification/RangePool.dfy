/** Splitting a range of iterations: the blocked range, the circular pool of ranges, and the two
    partitioners that use them. */
module RangePool {
  import opened HashBits

  // ---- the blocked range ----

  datatype BlockedRange = BlockedRange(begin: int, end: int, grain: nat)

  function SizeOf(r: BlockedRange): int {
    r.end - r.begin
  }

  /** The constructor asserts that the grain size is positive. */
  predicate Proper(r: BlockedRange) {
    r.begin <= r.end && r.grain > 0
  }

  predicate IsDivisible(r: BlockedRange) {
    r.grain < SizeOf(r)
  }

  /** do_split: the old range keeps the first part, the new one gets the second. */
  function DoSplit(r: BlockedRange): (BlockedRange, BlockedRange)
    requires IsDivisible(r)
  {
    var middle := r.begin + (r.end - r.begin) / 2;
    (r.(end := middle), r.(begin := middle))
  }

  /** Both halves are proper, smaller, not empty, at least half a grain, and leave no gap. */
  lemma {:induction false} SplitHalves(r: BlockedRange)
    requires Proper(r) && IsDivisible(r)
    ensures var (a, b) := DoSplit(r);
            && a.begin == r.begin && a.end == b.begin && b.end == r.end && a.grain == b.grain == r.grain
            && 0 < SizeOf(a) <= SizeOf(b) <= SizeOf(a) + 1 && SizeOf(b) < SizeOf(r)
            && 2 * SizeOf(a) >= r.grain
  {
  }

  // ---- chains of ranges ----

  /** The ranges follow each other without gap or overlap from `b` to `e`, and none is empty. */
  ghost predicate Chain(l: seq<BlockedRange>, b: int, e: int) {
    if l == [] then b == e
    else l[0].begin == b && Proper(l[0]) && l[0].begin < l[0].end && Chain(l[1..], l[0].end, e)
  }

  lemma {:induction false} ChainConcat(l: seq<BlockedRange>, k: seq<BlockedRange>, b: int, m: int, e: int)
    requires Chain(l, b, m) && Chain(k, m, e)
    ensures Chain(l + k, b, e)
    decreases |l|
  {
    if l == [] {
      assert l + k == k;
    } else {
      assert (l + k)[1..] == l[1..] + k;
      ChainConcat(l[1..], k, l[0].end, m, e);
    }
  }

  lemma {:induction false} ChainSplit(l: seq<BlockedRange>, b: int, e: int, n: nat) returns (m: int)
    requires Chain(l, b, e) && n <= |l|
    ensures Chain(l[..n], b, m) && Chain(l[n..], m, e)
    decreases n
  {
    if n == 0 {
      m := b;
      assert l[n..] == l;
    } else {
      m := ChainSplit(l[1..], l[0].end, e, n - 1);
      assert l[..n][1..] == l[1..][..n - 1] && l[n..] == l[1..][n - 1..];
    }
  }

  lemma {:induction false} ChainOne(r: BlockedRange)
    requires Proper(r) && r.begin < r.end
    ensures Chain([r], r.begin, r.end)
  {
    assert [r][1..] == [];
  }

  /** Every iteration lies in exactly one range of a chain. */
  lemma {:induction false} ChainCovers(l: seq<BlockedRange>, b: int, e: int, x: int)
    requires Chain(l, b, e)
    ensures b <= e
    ensures b <= x < e <==> exists k :: 0 <= k < |l| && l[k].begin <= x < l[k].end
    ensures forall j, k {:trigger l[j], l[k]} :: 0 <= j < k < |l| ==> l[j].end <= l[k].begin
    decreases |l|
  {
    if l != [] {
      var r := l[1..];
      ChainCovers(r, l[0].end, e, x);
      ChainStarts(r, l[0].end, e);
      assert forall k {:trigger r[k]} :: 0 <= k < |r| ==> r[k] == l[k + 1];
      if b <= x < e {
        if x < l[0].end {
          assert l[0].begin <= x < l[0].end;
        } else {
          var k :| 0 <= k < |r| && r[k].begin <= x < r[k].end;
          assert l[k + 1].begin <= x < l[k + 1].end;
        }
      }
      if k :| 0 <= k < |l| && l[k].begin <= x < l[k].end {
        if k > 0 {
          assert r[k - 1].begin <= x < r[k - 1].end;
        }
      }
      forall j, k | 0 <= j < k < |l| ensures l[j].end <= l[k].begin {
        assert l[k] == r[k - 1];
        if j > 0 {
          assert l[j] == r[j - 1];
        }
      }
    }
  }

  lemma {:induction false} ChainStarts(l: seq<BlockedRange>, b: int, e: int)
    requires Chain(l, b, e)
    ensures b <= e && forall k {:trigger l[k]} :: 0 <= k < |l| ==> b <= l[k].begin
    decreases |l|
  {
    if l != [] {
      var r := l[1..];
      ChainStarts(r, l[0].end, e);
      assert forall k {:trigger r[k]} :: 0 <= k < |r| ==> r[k] == l[k + 1];
      forall k | 0 <= k < |l| ensures b <= l[k].begin {
        if k > 0 {
          assert l[k] == r[k - 1];
        }
      }
    }
  }

  // ---- the simple partitioner ----

  /** The chunks that the tasks of a simple partitioner run, in increasing order. */
  function Chunks(r: BlockedRange): seq<BlockedRange>
    requires Proper(r)
    decreases SizeOf(r)
  {
    if IsDivisible(r) then
      var (a, b) := DoSplit(r);
      Chunks(a) + Chunks(b)
    else [r]
  }

  /** simple_partition_type::execute: right halves are offered until the range is not divisible. */
  method SimpleExecute(range: BlockedRange) returns (ran: BlockedRange, offered: seq<BlockedRange>)
    requires Proper(range)
    ensures !IsDivisible(ran) && Proper(ran) && forall k {:trigger offered[k]} :: 0 <= k < |offered| ==> Proper(offered[k])
    ensures Chunks(range) == [ran] + AllChunks(offered)
  {
    hide Chunks, DoSplit, IsDivisible, Proper;
    ran, offered := range, [];
    assert AllChunks([]) == [];
    while IsDivisible(ran)
      invariant Proper(ran) && forall k {:trigger offered[k]} :: 0 <= k < |offered| ==> Proper(offered[k])
      invariant Chunks(range) == Chunks(ran) + AllChunks(offered)
      decreases SizeOf(ran)
    {
      ChunksOffer(ran, offered);
      var (a, b) := DoSplit(ran);
      ran, offered := a, offered + [b];
    }
    ChunksEnd(ran);
  }

  lemma {:induction false} ChunksOffer(ran: BlockedRange, offered: seq<BlockedRange>)
    requires Proper(ran) && IsDivisible(ran) && forall k {:trigger offered[k]} :: 0 <= k < |offered| ==> Proper(offered[k])
    ensures var (a, b) := DoSplit(ran); var o := offered + [b];
            && Proper(a) && SizeOf(a) < SizeOf(ran) && 0 <= SizeOf(a) && (forall k {:trigger o[k]} :: 0 <= k < |o| ==> Proper(o[k]))
            && Chunks(ran) + AllChunks(offered) == Chunks(a) + AllChunks(o)
  {
    SplitHalves(ran);
    var (a, b) := DoSplit(ran);
    assert (offered + [b])[..|offered|] == offered;
    assert Chunks(ran) == Chunks(a) + Chunks(b);
  }

  lemma {:induction false} ChunksEnd(ran: BlockedRange)
    requires Proper(ran) && !IsDivisible(ran)
    ensures Chunks(ran) == [ran]
  {
  }

  /** The chunks of the offered tasks; the last one offered is the leftmost. */
  function AllChunks(offered: seq<BlockedRange>): seq<BlockedRange>
    requires forall k {:trigger offered[k]} :: 0 <= k < |offered| ==> Proper(offered[k])
  {
    if offered == [] then []
    else Chunks(offered[|offered| - 1]) + AllChunks(offered[..|offered| - 1])
  }

  /** The chunks cover the range exactly once, in order, and a chunk of a range longer than the grain
      size is at least half a grain and at most a grain long. */
  lemma {:induction false} ChunksCover(r: BlockedRange)
    requires Proper(r) && r.begin < r.end
    ensures Chain(Chunks(r), r.begin, r.end)
    ensures forall c {:trigger c in Chunks(r)} :: c in Chunks(r) ==>
              SizeOf(c) <= r.grain && (IsDivisible(r) ==> 2 * SizeOf(c) >= r.grain)
    decreases SizeOf(r)
  {
    if IsDivisible(r) {
      var (a, b) := DoSplit(r);
      ChunksCover(a);
      ChunksCover(b);
      ChainConcat(Chunks(a), Chunks(b), a.begin, a.end, b.end);
      forall c | c in Chunks(r) ensures SizeOf(c) <= r.grain && 2 * SizeOf(c) >= r.grain {
        assert c in Chunks(a) || c in Chunks(b);
        if !IsDivisible(a) {
          assert Chunks(a) == [a];
        }
        if !IsDivisible(b) {
          assert Chunks(b) == [b];
        }
      }
    } else {
      ChainOne(r);
    }
  }

  // ---- the pool of ranges ----

  const POOL_CAPACITY := 8

  /** A range together with the number of halvings that led to it inside of the pool. */
  datatype Piece = Piece(range: BlockedRange, depth: nat)

  function Ranges(l: seq<Piece>): (rs: seq<BlockedRange>)
    ensures |rs| == |l| && forall k {:trigger rs[k]} :: 0 <= k < |l| ==> rs[k] == l[k].range
  {
    seq(|l|, k requires 0 <= k < |l| => l[k].range)
  }

  /** `x % POOL_CAPACITY` for the sums that occur. */
  function Wrapped(x: nat): (w: nat)
    requires x < 2 * POOL_CAPACITY
    ensures w < POOL_CAPACITY && w == x % POOL_CAPACITY
  {
    if x < POOL_CAPACITY then x else x - POOL_CAPACITY
  }

  /** The two arrays of the pool as one. */
  ghost function Zipped(pool: seq<BlockedRange>, depths: seq<nat>): (p: seq<Piece>)
    requires |pool| == |depths|
    ensures |p| == |pool| && forall i {:trigger p[i]} :: 0 <= i < |p| ==> p[i] == Piece(pool[i], depths[i])
  {
    seq(|pool|, i requires 0 <= i < |pool| => Piece(pool[i], depths[i]))
  }

  /** The `size` pieces that end at slot `tail`, from left to right. */
  ghost function View(pool: seq<Piece>, tail: nat, size: nat): (l: seq<Piece>)
    requires |pool| == POOL_CAPACITY && tail < POOL_CAPACITY && size <= POOL_CAPACITY
    ensures |l| == size && forall k {:trigger l[k]} :: 0 <= k < size ==> l[k] == pool[Wrapped(tail + size - 1 - k)]
  {
    seq(size, k requires 0 <= k < size => pool[Wrapped(tail + size - 1 - k)])
  }

  function HeadOf(tail: nat, size: nat): (h: nat)
    requires tail < POOL_CAPACITY && size <= POOL_CAPACITY
    ensures h < POOL_CAPACITY
  {
    if size == 0 then Wrapped(tail + POOL_CAPACITY - 1) else Wrapped(tail + size - 1)
  }

  lemma {:induction false} ViewPop(p: seq<Piece>, tail: nat, size: nat)
    requires |p| == POOL_CAPACITY && tail < POOL_CAPACITY && 0 < size <= POOL_CAPACITY
    ensures View(p, tail, size - 1) == View(p, tail, size)[1..]
    ensures View(p, Wrapped(tail + 1), size - 1) == View(p, tail, size)[..size - 1]
    ensures HeadOf(tail, size - 1) == Wrapped(HeadOf(tail, size) + POOL_CAPACITY - 1)
    ensures HeadOf(tail, size) == HeadOf(Wrapped(tail + 1), size - 1)
  {
    hide View;
  }

  lemma {:induction false} HeadMoves(tail: nat, size: nat)
    requires tail < POOL_CAPACITY && 0 < size < POOL_CAPACITY
    ensures var h := HeadOf(tail, size); HeadOf(tail, size + 1) == Wrapped(h + 1) && Wrapped(h + 1) != h
  {
  }

  lemma {:induction false} ViewSplit(p: seq<Piece>, q: seq<Piece>, tail: nat, size: nat)
    requires |p| == |q| == POOL_CAPACITY && tail < POOL_CAPACITY && 0 < size < POOL_CAPACITY
    requires var h := HeadOf(tail, size); forall i {:trigger q[i]} :: 0 <= i < POOL_CAPACITY && i != Wrapped(h + 1) && i != h ==> q[i] == p[i]
    ensures var h := HeadOf(tail, size); View(q, tail, size + 1) == [q[Wrapped(h + 1)], q[h]] + View(p, tail, size)[1..]
  {
    hide View;
    var h := HeadOf(tail, size);
    var l, r := View(q, tail, size + 1), [q[Wrapped(h + 1)], q[h]] + View(p, tail, size)[1..];
    forall k | 0 <= k < size + 1 ensures l[k] == r[k] {
      if k >= 2 {
        assert r[k] == View(p, tail, size)[k - 1];
      }
    }
  }

  /** The two halves of a piece are one halving deeper. */
  function Halves(p: Piece): (Piece, Piece)
    requires IsDivisible(p.range)
  {
    var (a, b) := DoSplit(p.range);
    (Piece(a, p.depth + 1), Piece(b, p.depth + 1))
  }

  /** range_vector::is_divisible, for the piece at the head. */
  predicate Splits(p: Piece, maxDepth: nat) {
    p.depth < maxDepth && IsDivisible(p.range)
  }

  /** range_vector: a circular buffer; the head is the leftmost range, the tail the rightmost one. */
  class RangeVector {
    const pool: array<BlockedRange>
    const depths: array<nat>
    var head: nat
    var tail: nat
    var size: nat

    ghost predicate Valid()
      reads this
    {
      && pool.Length == depths.Length == POOL_CAPACITY && head < POOL_CAPACITY && tail < POOL_CAPACITY
      && size <= POOL_CAPACITY && head == HeadOf(tail, size)
    }

    /** The pieces from left to right, that is from the head to the tail. */
    ghost function Pieces(): (l: seq<Piece>)
      requires Valid()
      reads this, pool, depths
      ensures |l| == size
      ensures size > 0 ==> l[0] == Piece(pool[head], depths[head]) && l[size - 1] == Piece(pool[tail], depths[tail])
    {
      View(Zipped(pool[..], depths[..]), tail, size)
    }

    constructor (elem: BlockedRange)
      ensures Valid() && fresh(pool) && fresh(depths) && Pieces() == [Piece(elem, 0)]
    {
      head, tail, size := 0, 0, 1;
      pool := new BlockedRange[POOL_CAPACITY](_ => elem);
      depths := new nat[POOL_CAPACITY](_ => 0);
    }

    method Back() returns (r: BlockedRange)
      requires Valid() && size > 0
      ensures r == Pieces()[0].range
    {
      r := pool[head];
    }

    method Front() returns (r: BlockedRange)
      requires Valid() && size > 0
      ensures r == Pieces()[size - 1].range
    {
      r := pool[tail];
    }

    method FrontDepth() returns (d: nat)
      requires Valid() && size > 0
      ensures d == Pieces()[size - 1].depth
    {
      d := depths[tail];
    }

    method IsDivisibleAt(maxDepth: nat) returns (d: bool)
      requires Valid() && size > 0
      ensures d == Splits(Pieces()[0], maxDepth)
    {
      d := depths[head] < maxDepth && IsDivisible(pool[head]);
    }

    method PopBack()
      requires Valid() && size > 0
      modifies this
      ensures Valid() && Pieces() == old(Pieces())[1..] && size == old(size) - 1
    {
      hide View, HeadOf, Wrapped;
      ViewPop(Zipped(pool[..], depths[..]), tail, size);
      size := size - 1;
      head := (head + POOL_CAPACITY - 1) % POOL_CAPACITY;
    }

    method PopFront()
      requires Valid() && size > 0
      modifies this
      ensures Valid() && Pieces() == old(Pieces())[..old(size) - 1] && size == old(size) - 1
    {
      hide View, HeadOf, Wrapped;
      ViewPop(Zipped(pool[..], depths[..]), tail, size);
      size := size - 1;
      tail := (tail + 1) % POOL_CAPACITY;
    }

    /** The head is split in two: its left half becomes the new head. */
    method SplitBack()
      requires Valid() && 0 < size < POOL_CAPACITY && IsDivisible(Pieces()[0].range)
      modifies this, pool, depths
      ensures Valid() && size == old(size) + 1
      ensures var (a, b) := Halves(old(Pieces())[0]); Pieces() == [a, b] + old(Pieces())[1..]
    {
      hide View, Zipped, DoSplit, IsDivisible, Proper, HeadOf, Wrapped;
      var prev := head;
      ghost var before := Zipped(pool[..], depths[..]);
      HeadMoves(tail, size);
      var next := (head + 1) % POOL_CAPACITY;
      var (a, b) := DoSplit(pool[prev]);
      pool[next] := a;
      pool[prev] := b;
      depths[prev] := depths[prev] + 1;
      depths[next] := depths[prev];
      ViewSplit(before, Zipped(pool[..], depths[..]), tail, size);
      head := next;
      size := size + 1;
    }
  }

  // ---- what the pool does in one round ----

  /** Filling up: the leftmost piece is halved while there is room and depth. */
  ghost function Filled(l: seq<Piece>, maxDepth: nat): (r: seq<Piece>)
    requires l != []
    ensures |r| >= |l| && (|l| <= POOL_CAPACITY ==> |r| <= POOL_CAPACITY)
    ensures |r| >= POOL_CAPACITY || !Splits(r[0], maxDepth)
    decreases POOL_CAPACITY - |l|
  {
    if |l| < POOL_CAPACITY && Splits(l[0], maxDepth) then
      var (a, b) := Halves(l[0]);
      Filled([a, b] + l[1..], maxDepth)
    else l
  }

  /** The size of a piece fits the number of halvings that led to it from a range of `size` iterations. */
  ghost predicate Halved(size: int, p: Piece) {
    (SizeOf(p.range) - 1) * Pow2(p.depth) < size < (SizeOf(p.range) + 1) * Pow2(p.depth)
  }

  ghost predicate AllHalved(size: int, l: seq<Piece>) {
    forall p {:trigger p in l} :: p in l ==> Halved(size, p)
  }

  lemma {:induction false} HalvedSlice(size: int, l: seq<Piece>, i: nat, j: nat)
    requires AllHalved(size, l) && i <= j <= |l|
    ensures AllHalved(size, l[i..j])
  {
    assert forall p {:trigger p in l[i..j]} :: p in l[i..j] ==> p in l;
  }

  lemma {:induction false} HalvedPair(size: int, x: Piece, y: Piece, l: seq<Piece>)
    requires Halved(size, x) && Halved(size, y) && AllHalved(size, l)
    ensures AllHalved(size, [x, y] + l)
  {
    hide Halved;
  }

  lemma {:induction false} HalvedAt(size: int, l: seq<Piece>, i: nat)
    requires AllHalved(size, l) && i < |l|
    ensures Halved(size, l[i])
  {
    hide Halved;
    assert l[i] in l;
  }

  lemma {:induction false} HalvesHalved(size: int, p: Piece)
    requires IsDivisible(p.range) && Halved(size, p)
    ensures Halved(size, Halves(p).0) && Halved(size, Halves(p).1)
  {
    var (a, b) := Halves(p);
    var s, w := SizeOf(p.range), Pow2(p.depth);
    assert Pow2(p.depth + 1) == 2 * w;
    HalfFits(size, s, SizeOf(a.range), w);
    HalfFits(size, s, SizeOf(b.range), w);
  }

  lemma {:induction false} HalfFits(size: int, s: int, half: int, w: nat)
    requires (s - 1) * w < size < (s + 1) * w && s - 1 <= 2 * half <= s + 1
    ensures (half - 1) * (2 * w) < size < (half + 1) * (2 * w)
  {
    assert (half - 1) * (2 * w) == (2 * half - 2) * w <= (s - 1) * w by {
      Scaled(2 * half - 2, s - 1, w);
    }
    assert (half + 1) * (2 * w) == (2 * half + 2) * w >= (s + 1) * w by {
      Scaled(s + 1, 2 * half + 2, w);
    }
  }

  lemma {:induction false} Scaled(x: int, y: int, w: nat)
    requires x <= y
    ensures x * w <= y * w
  {
  }

  /** Filling up moves no iteration: the pieces still form a chain, each as deep as its size says. */
  lemma {:induction false} FilledChain(l: seq<Piece>, maxDepth: nat, size: int, b: int, e: int)
    requires l != [] && Chain(Ranges(l), b, e) && AllHalved(size, l)
    ensures Chain(Ranges(Filled(l, maxDepth)), b, e) && AllHalved(size, Filled(l, maxDepth))
    decreases POOL_CAPACITY - |l|
  {
    hide Chain, DoSplit, IsDivisible, AllHalved;
    if |l| < POOL_CAPACITY && Splits(l[0], maxDepth) {
      var (x, y) := Halves(l[0]);
      var m := [x, y] + l[1..];
      ChainHead(Ranges(l), b, e);
      assert Ranges(m) == [x.range, y.range] + Ranges(l)[1..];
      assert Halved(size, l[0]) by {
        HalvedAt(size, l, 0);
      }
      HalvesHalved(size, l[0]);
      HalvedSlice(size, l, 1, |l|);
      assert l[1..|l|] == l[1..];
      HalvedPair(size, x, y, l[1..]);
      FilledChain(m, maxDepth, size, b, e);
    }
  }

  /** What a round leaves: with demand the rightmost piece is given away, or nothing happens if the only
      piece can be split in the next round; otherwise the leftmost piece is run. */
  ghost function Left(l: seq<Piece>, wanted: bool, maxDepth: nat): seq<Piece>
    requires l != []
  {
    if wanted && |l| > 1 then l[..|l| - 1]
    else if wanted && Splits(l[0], maxDepth) then l
    else l[1..]
  }

  /** The rounds of the pool, each given by the pieces after filling up. */
  ghost predicate Rounds(trace: seq<seq<Piece>>, range: BlockedRange, demand: nat -> bool, maxDepth: nat -> nat) {
    && trace != [] && (forall i {:trigger trace[i]} :: 0 <= i < |trace| ==> trace[i] != [])
    && trace[0] == Filled([Piece(range, 0)], maxDepth(0))
    && forall i, j {:trigger trace[i], trace[j]} :: 0 <= i < |trace| - 1 && j == i + 1 ==>
         var l := Left(trace[i], demand(i), maxDepth(j));
         l != [] && trace[j] == Filled(l, maxDepth(j))
  }

  /** The pieces given away: the rightmost one in each round with demand and more than one piece. */
  ghost function Handed(trace: seq<seq<Piece>>, demand: nat -> bool): seq<Piece> {
    if trace == [] then []
    else
      var n := |trace| - 1;
      Handed(trace[..n], demand) + if demand(n) && |trace[n]| > 1 then [trace[n][|trace[n]| - 1]] else []
  }

  /** The ranges run: the leftmost one in each round without demand, or with one piece that cannot be split. */
  ghost function Worked(trace: seq<seq<Piece>>, demand: nat -> bool, maxDepth: nat -> nat): seq<BlockedRange>
    requires forall i {:trigger trace[i]} :: 0 <= i < |trace| ==> trace[i] != []
  {
    if trace == [] then []
    else
      var n := |trace| - 1;
      var l := trace[n];
      Worked(trace[..n], demand, maxDepth)
      + if !demand(n) || (|l| == 1 && !Splits(l[0], maxDepth(n + 1))) then [l[0].range] else []
  }

  ghost function Answered(trace: seq<seq<Piece>>, demand: nat -> bool): set<nat> {
    set n: nat | n < |trace| && demand(n) && |trace[n]| > 1
  }

  /** As many pieces are given away as there were demands while the pool held more than one. */
  lemma {:induction false} HandedCount(trace: seq<seq<Piece>>, demand: nat -> bool)
    ensures |Handed(trace, demand)| == |Answered(trace, demand)|
    decreases |trace|
  {
    if trace == [] {
      assert Answered(trace, demand) == {};
    } else {
      var n := |trace| - 1;
      var init := trace[..n];
      HandedCount(init, demand);
      assert forall i {:trigger init[i]} :: 0 <= i < n ==> init[i] == trace[i];
      assert Answered(trace, demand) == Answered(init, demand) + if demand(n) && |trace[n]| > 1 then {n} else {};
    }
  }

  /** Without demand the pool gives nothing away, and every round runs a range. */
  lemma {:induction false} NeverWanted(trace: seq<seq<Piece>>, demand: nat -> bool, maxDepth: nat -> nat)
    requires forall i {:trigger trace[i]} :: 0 <= i < |trace| ==> trace[i] != []
    requires forall n :: !demand(n)
    ensures Handed(trace, demand) == [] && |Worked(trace, demand, maxDepth)| == |trace|
    decreases |trace|
  {
    if trace != [] {
      NeverWanted(trace[..|trace| - 1], demand, maxDepth);
    }
  }

  /** With demand in every round no range is run as long as another round follows. */
  lemma {:induction false} AlwaysWanted(trace: seq<seq<Piece>>, range: BlockedRange, demand: nat -> bool, maxDepth: nat -> nat)
    requires Rounds(trace, range, demand, maxDepth) && forall n :: demand(n)
    ensures Worked(trace[..|trace| - 1], demand, maxDepth) == []
    decreases |trace|
  {
    hide Splits, Filled;
    var n := |trace| - 1;
    if n > 0 {
      RoundsPrefix(trace, range, demand, maxDepth);
      AlwaysWanted(trace[..n], range, demand, maxDepth);
      assert trace[..n][..n - 1] == trace[..n - 1];
      assert Left(trace[n - 1], demand(n - 1), maxDepth(n)) != [] by {
        var i := n - 1;
        assert trace[i] != [] && trace[n] != [];
      }
    }
  }

  lemma {:induction false} RoundsPrefix(trace: seq<seq<Piece>>, range: BlockedRange, demand: nat -> bool, maxDepth: nat -> nat)
    requires Rounds(trace, range, demand, maxDepth) && |trace| > 1
    ensures Rounds(trace[..|trace| - 1], range, demand, maxDepth)
  {
    hide Left, Filled;
  }

  /** A range is run only if its piece cannot be split further, or if the pool is full. */
  lemma {:induction false} WorkedIsSmall(trace: seq<seq<Piece>>, range: BlockedRange, demand: nat -> bool, maxDepth: nat -> nat,
                                         k: nat) returns (n: nat)
    requires Rounds(trace, range, demand, maxDepth) && k < |Worked(trace, demand, maxDepth)|
    ensures n < |trace| && Worked(trace, demand, maxDepth)[k] == trace[n][0].range
    ensures |trace[n]| >= POOL_CAPACITY || !Splits(trace[n][0], maxDepth(n))
    decreases |trace|
  {
    hide Splits, Left;
    n := |trace| - 1;
    if k < |Worked(trace[..n], demand, maxDepth)| {
      if n > 0 {
        RoundsPrefix(trace, range, demand, maxDepth);
        n := WorkedIsSmall(trace[..n], range, demand, maxDepth, k);
      }
    } else if n > 0 {
      var i := n - 1;
      assert trace[i] != [] && trace[n] != [];
    }
  }

  // ---- the adaptive partitioners ----

  function Reverse(l: seq<BlockedRange>): seq<BlockedRange> {
    if l == [] then [] else [l[|l| - 1]] + Reverse(l[..|l| - 1])
  }

  /** Offering the range left of all those offered before. */
  lemma {:induction false} ChainOffer(offered: seq<Piece>, p: Piece, e: int)
    requires Chain(Reverse(Ranges(offered)), p.range.end, e) && Proper(p.range) && p.range.begin < p.range.end
    ensures Chain(Reverse(Ranges(offered + [p])), p.range.begin, e)
  {
    var rs := Ranges(offered + [p]);
    assert rs == Ranges(offered) + [p.range];
    assert rs[..|offered|] == Ranges(offered);
    assert Reverse(rs)[1..] == Reverse(Ranges(offered));
  }

  /** Running the range right of all those run before. */
  lemma {:induction false} ChainRun(ran: seq<BlockedRange>, r: BlockedRange, b: int)
    requires Chain(ran, b, r.begin) && Proper(r) && r.begin < r.end
    ensures Chain(ran + [r], b, r.end)
  {
    ChainOne(r);
    ChainConcat(ran, [r], b, r.begin, r.end);
  }

  lemma {:induction false} ChainHead(l: seq<BlockedRange>, b: int, e: int)
    requires Chain(l, b, e) && |l| > 0
    ensures l[0].begin == b && Proper(l[0]) && l[0].begin < l[0].end && Chain(l[1..], l[0].end, e)
    ensures IsDivisible(l[0]) ==> var (x, y) := DoSplit(l[0]); Chain([x, y] + l[1..], b, e)
  {
    if IsDivisible(l[0]) {
      var (x, y) := DoSplit(l[0]);
      SplitHalves(l[0]);
      assert ([x, y] + l[1..])[1..] == [y] + l[1..] && ([y] + l[1..])[1..] == l[1..];
    }
  }

  lemma {:induction false} ChainTail(l: seq<BlockedRange>, b: int, e: int)
    requires Chain(l, b, e) && |l| > 0
    ensures var r := l[|l| - 1]; Chain(l[..|l| - 1], b, r.begin) && r.end == e && Proper(r) && r.begin < r.end
    decreases |l|
  {
    var r := l[|l| - 1];
    if |l| == 1 {
      assert l[..0] == [];
    } else {
      ChainTail(l[1..], l[0].end, e);
      assert l[1..][..|l| - 2] == l[..|l| - 1][1..];
    }
  }

  /** split_to_fill. */
  method SplitToFill(pool: RangeVector, maxDepth: nat)
    requires pool.Valid() && pool.size > 0
    modifies pool, pool.pool, pool.depths
    ensures pool.Valid() && pool.Pieces() == Filled(old(pool.Pieces()), maxDepth)
  {
    hide DoSplit, IsDivisible, View, Zipped, HeadOf, Wrapped, Halves;
    var more := false;
    if pool.size < POOL_CAPACITY {
      more := pool.IsDivisibleAt(maxDepth);
    }
    while more
      invariant pool.Valid() && pool.size > 0 && Filled(pool.Pieces(), maxDepth) == Filled(old(pool.Pieces()), maxDepth)
      invariant more <==> pool.size < POOL_CAPACITY && Splits(pool.Pieces()[0], maxDepth)
      decreases POOL_CAPACITY - pool.size, more
    {
      pool.SplitBack();
      more := false;
      if pool.size < POOL_CAPACITY {
        more := pool.IsDivisibleAt(maxDepth);
      }
    }
  }

  /** What the pool part of execute delivers: it runs and gives away what its rounds say, and stops when
      no piece is left or the task is cancelled. */
  ghost predicate Pooled(range: BlockedRange, demand: nat -> bool, maxDepth: nat -> nat, cancelled: nat -> bool,
                         ran: seq<BlockedRange>, given: seq<Piece>, left: seq<Piece>, trace: seq<seq<Piece>>) {
    && Rounds(trace, range, demand, maxDepth)
    && left == Left(trace[|trace| - 1], demand(|trace| - 1), maxDepth(|trace|))
    && ran == Worked(trace, demand, maxDepth) && given == Handed(trace, demand)
    && (left == [] || cancelled(|trace|))
    && forall i {:trigger trace[i]} :: 0 <= i < |trace| ==> AllHalved(SizeOf(range), trace[i])
  }

  /** The range is run by itself: it cannot be divided, or was halved up to the depth allowed. */
  ghost predicate Alone(size: int, ran: seq<BlockedRange>, maxDepth: nat) {
    |ran| == 1 && exists k: nat :: Halved(size, Piece(ran[0], k)) && !Splits(Piece(ran[0], k), maxDepth)
  }

  /** If all the work is wanted by others, the pool runs one range and gives away everything else. */
  lemma {:induction false} PooledAlways(range: BlockedRange, demand: nat -> bool, maxDepth: nat -> nat, cancelled: nat -> bool,
                                        ran: seq<BlockedRange>, given: seq<Piece>, left: seq<Piece>, trace: seq<seq<Piece>>)
    requires Pooled(range, demand, maxDepth, cancelled, ran, given, left, trace) && left == [] && forall n :: demand(n)
    ensures Alone(SizeOf(range), ran, maxDepth(|trace|))
  {
    hide Splits, Halved, AllHalved, Filled;
    AlwaysWanted(trace, range, demand, maxDepth);
    var n := |trace| - 1;
    var l := trace[n];
    RoundsNotEmpty(trace, range, demand, maxDepth);
    HalvedAt(SizeOf(range), l, 0);
    assert demand(n) && |l| == 1 && !Splits(l[0], maxDepth(n + 1)) && l[0] == Piece(l[0].range, l[0].depth);
    assert ran == [] + [l[0].range];
    assert Halved(SizeOf(range), Piece(ran[0], l[0].depth)) && !Splits(Piece(ran[0], l[0].depth), maxDepth(|trace|));
  }

  /** Where the ranges offered first, `j` of them, begin. */
  function Edge(offered: seq<Piece>, j: nat, e: int): int
    requires j <= |offered|
  {
    if j == 0 then e else offered[j - 1].range.begin
  }

  /** The first `m` offers are right halves: as long as the range can be divided, and may be. */
  ghost predicate Spread(range: BlockedRange, offered: seq<Piece>, m: nat, mayDivide: nat -> bool) {
    && m <= |offered|
    && forall j {:trigger offered[j]} :: 0 <= j < m ==>
         var r := range.(end := Edge(offered, j, range.end));
         IsDivisible(r) && mayDivide(j) && offered[j] == Piece(DoSplit(r).1, 0)
  }

  lemma {:induction false} SpreadMore(range: BlockedRange, offered: seq<Piece>, mayDivide: nat -> bool)
    requires Spread(range, offered, |offered|, mayDivide)
    requires var r := range.(end := Edge(offered, |offered|, range.end)); IsDivisible(r) && mayDivide(|offered|)
    ensures var r := range.(end := Edge(offered, |offered|, range.end));
            var o := offered + [Piece(DoSplit(r).1, 0)];
            Spread(range, o, |o|, mayDivide) && range.(end := Edge(o, |o|, range.end)) == DoSplit(r).0
  {
    hide IsDivisible, DoSplit;
    var e := range.end;
    var r := range.(end := Edge(offered, |offered|, e));
    var p := Piece(DoSplit(r).1, 0);
    SpreadKept(range, offered, [p], mayDivide);
    var o := offered + [p];
    SpreadOne(range, o, |offered|, mayDivide);
    SplitEdge(r);
  }

  lemma {:induction false} SpreadOne(range: BlockedRange, offered: seq<Piece>, m: nat, mayDivide: nat -> bool)
    requires Spread(range, offered, m, mayDivide) && m < |offered|
    requires var r := range.(end := Edge(offered, m, range.end));
             IsDivisible(r) && mayDivide(m) && offered[m] == Piece(DoSplit(r).1, 0)
    ensures Spread(range, offered, m + 1, mayDivide)
  {
    hide IsDivisible, DoSplit;
    forall j | 0 <= j < m + 1
      ensures var q := range.(end := Edge(offered, j, range.end)); IsDivisible(q) && mayDivide(j) && offered[j] == Piece(DoSplit(q).1, 0) {
      assert offered[j] == offered[j];
    }
  }

  lemma {:induction false} SplitEdge(r: BlockedRange)
    requires IsDivisible(r)
    ensures DoSplit(r).0 == r.(end := DoSplit(r).1.begin)
  {
  }

  lemma {:induction false} SpreadKept(range: BlockedRange, offered: seq<Piece>, more: seq<Piece>, mayDivide: nat -> bool)
    requires Spread(range, offered, |offered|, mayDivide)
    ensures Spread(range, offered + more, |offered|, mayDivide)
    ensures Edge(offered + more, |offered|, range.end) == Edge(offered, |offered|, range.end)
  {
    hide IsDivisible, DoSplit;
    var o := offered + more;
    assert forall j {:trigger o[j]} :: 0 <= j < |offered| ==> o[j] == offered[j];
    assert forall j {:trigger Edge(o, j, range.end)} :: 0 <= j <= |offered| ==> Edge(o, j, range.end) == Edge(offered, j, range.end);
    forall j | 0 <= j < |offered|
      ensures var q := range.(end := Edge(o, j, range.end)); IsDivisible(q) && mayDivide(j) && o[j] == Piece(DoSplit(q).1, 0) {
      assert o[j] == offered[j] && Edge(o, j, range.end) == Edge(offered, j, range.end);
    }
  }

  /** partition_type_base::execute, whatever the decision methods answer: `mayDivide`, `demand` and
      `cancelled` are the answers of is_divisible, check_for_demand and is_cancelled, `maxDepth` those of
      max_depth, in order of time. The ranges run, from left to right, those dropped by a cancelled task,
      and the ranges offered, from right to left, make up the input. The first `m` offers halve the range
      as long as it may be divided; the rest are the demands that the pool has met in its rounds. */
  method Execute(range: BlockedRange, mayDivide: nat -> bool, demand: nat -> bool, maxDepth: nat -> nat, cancelled: nat -> bool)
    returns (ran: seq<BlockedRange>, offered: seq<Piece>, ghost m: nat, ghost left: seq<Piece>, ghost trace: seq<seq<Piece>>)
    requires Proper(range) && range.begin < range.end
    ensures Chain(ran + Ranges(left) + Reverse(Ranges(offered)), range.begin, range.end)
    ensures (forall n :: !cancelled(n)) ==> left == [] && ran != []
    ensures Spread(range, offered, m, mayDivide)
    ensures var start := range.(end := Edge(offered, m, range.end));
            && !(IsDivisible(start) && mayDivide(m))
            && if !IsDivisible(start) || maxDepth(0) == 0 then ran == [start] && left == [] && |offered| == m
               else Pooled(start, demand, maxDepth, cancelled, ran, offered[m..], left, trace)
    ensures var start := range.(end := Edge(offered, m, range.end));
            && ((forall n :: !demand(n)) ==> |offered| == m)
            && ((forall n :: demand(n)) && left == [] ==> Alone(SizeOf(start), ran, maxDepth(|trace|)))
  {
    hide Chain, DoSplit, Reverse, Spread, Alone, Pooled;
    var rest, i := range, 0;
    ran, offered, left, trace := [], [], [], [];
    ChainNone(range.begin);
    ChainNone(range.end);
    assert Ranges([]) == [];
    assert Reverse([]) == [] by {
      ReverseNone();
    }
    assert Spread(range, [], 0, mayDivide) by {
      SpreadNone(range, mayDivide);
    }
    while IsDivisible(rest) && mayDivide(i)
      invariant Proper(rest) && rest.begin == range.begin < rest.end && Chain(Reverse(Ranges(offered)), rest.end, range.end)
      invariant i == |offered| && Spread(range, offered, i, mayDivide) && rest == range.(end := Edge(offered, i, range.end))
      decreases SizeOf(rest)
    {
      SplitHalves(rest);
      SpreadMore(range, offered, mayDivide);
      var (a, b) := DoSplit(rest);
      ChainOffer(offered, Piece(b, 0), range.end);
      rest, offered, i := a, offered + [Piece(b, 0)], i + 1;
    }
    m := i;
    if !IsDivisible(rest) || maxDepth(0) == 0 {
      ran := [rest];
      ChainOne(rest);
      RunAlone(rest, maxDepth(0));
      assert [rest] + Ranges([]) == [rest];
      ChainConcat(ran, Reverse(Ranges(offered)), range.begin, rest.end, range.end);
    } else {
      var given;
      ran, given, left, trace := RunPool(rest, demand, maxDepth, cancelled);
      SpreadKept(range, offered, given, mayDivide);
      PooledLaws(rest, demand, maxDepth, cancelled, ran, given, left, trace);
      assert (offered + given)[m..] == given;
      JoinOffers(ran + Ranges(left), offered, given, range.begin, rest.end, range.end);
      offered := offered + given;
    }
  }

  lemma {:induction false} RunAlone(r: BlockedRange, maxDepth: nat)
    requires !IsDivisible(r) || maxDepth == 0
    ensures Alone(SizeOf(r), [r], maxDepth)
  {
    assert Halved(SizeOf(r), Piece([r][0], 0)) && !Splits(Piece([r][0], 0), maxDepth);
  }

  lemma {:induction false} SpreadNone(range: BlockedRange, mayDivide: nat -> bool)
    ensures Spread(range, [], 0, mayDivide)
  {
  }

  lemma {:induction false} ChainNone(b: int)
    ensures Chain([], b, b)
  {
  }

  lemma {:induction false} ReverseNone()
    ensures Reverse([]) == []
  {
  }

  lemma {:induction false} ReverseConcat(l: seq<BlockedRange>, k: seq<BlockedRange>)
    ensures Reverse(l + k) == Reverse(k) + Reverse(l)
    decreases |k|
  {
    if k == [] {
      assert l + k == l;
    } else {
      assert (l + k)[..|l + k| - 1] == l + k[..|k| - 1];
      ReverseConcat(l, k[..|k| - 1]);
    }
  }

  lemma {:induction false} JoinOffers(ran: seq<BlockedRange>, offered: seq<Piece>, given: seq<Piece>, b: int, m: int, e: int)
    requires Chain(ran + Reverse(Ranges(given)), b, m) && Chain(Reverse(Ranges(offered)), m, e)
    ensures Chain(ran + Reverse(Ranges(offered + given)), b, e)
  {
    hide Chain, Reverse;
    assert Ranges(offered + given) == Ranges(offered) + Ranges(given);
    ReverseConcat(Ranges(offered), Ranges(given));
    ChainConcat(ran + Reverse(Ranges(given)), Reverse(Ranges(offered)), b, m, e);
    assert ran + Reverse(Ranges(given)) + Reverse(Ranges(offered)) == ran + (Reverse(Ranges(given)) + Reverse(Ranges(offered)));
  }

  lemma {:induction false} PooledLaws(range: BlockedRange, demand: nat -> bool, maxDepth: nat -> nat, cancelled: nat -> bool,
                                      ran: seq<BlockedRange>, given: seq<Piece>, left: seq<Piece>, trace: seq<seq<Piece>>)
    requires Pooled(range, demand, maxDepth, cancelled, ran, given, left, trace)
    ensures (forall n :: !demand(n)) ==> given == [] && |ran| == |trace|
    ensures (forall n :: demand(n)) && left == [] ==> Alone(SizeOf(range), ran, maxDepth(|trace|))
    ensures (forall n :: !cancelled(n)) ==> left == []
  {
    hide Rounds, Left, Handed, Worked, Alone;
    if forall n :: !demand(n) {
      RoundsNotEmpty(trace, range, demand, maxDepth);
      NeverWanted(trace, demand, maxDepth);
    }
    if left == [] && forall n :: demand(n) {
      PooledAlways(range, demand, maxDepth, cancelled, ran, given, left, trace);
    }
  }

  lemma {:induction false} RoundsNotEmpty(trace: seq<seq<Piece>>, range: BlockedRange, demand: nat -> bool, maxDepth: nat -> nat)
    requires Rounds(trace, range, demand, maxDepth)
    ensures trace != [] && forall i {:trigger trace[i]} :: 0 <= i < |trace| ==> trace[i] != []
  {
  }

  /** One more round. */
  lemma {:induction false} RoundsMore(trace: seq<seq<Piece>>, range: BlockedRange, demand: nat -> bool, maxDepth: nat -> nat,
                                      l: seq<Piece>)
    requires l != [] && Before(trace, range, demand, maxDepth, l)
    ensures Rounds(trace + [Filled(l, maxDepth(|trace|))], range, demand, maxDepth)
  {
    hide Left, Splits;
    var t := trace + [Filled(l, maxDepth(|trace|))];
    assert forall i {:trigger t[i]} :: 0 <= i < |trace| ==> t[i] == trace[i];
  }

  lemma {:induction false} TraceMore(trace: seq<seq<Piece>>, demand: nat -> bool, maxDepth: nat -> nat, l: seq<Piece>)
    requires l != [] && forall i {:trigger trace[i]} :: 0 <= i < |trace| ==> trace[i] != []
    ensures var n := |trace|; var t := trace + [l];
            && Handed(t, demand) == Handed(trace, demand) + (if demand(n) && |l| > 1 then [l[|l| - 1]] else [])
            && (forall i {:trigger t[i]} :: 0 <= i < |t| ==> t[i] != [])
            && Worked(t, demand, maxDepth) == Worked(trace, demand, maxDepth)
               + if !demand(n) || (|l| == 1 && !Splits(l[0], maxDepth(n + 1))) then [l[0].range] else []
  {
    hide Splits;
    assert (trace + [l])[..|trace|] == trace;
  }

  /** `l` is what the rounds so far have left. */
  ghost predicate Before(trace: seq<seq<Piece>>, range: BlockedRange, demand: nat -> bool, maxDepth: nat -> nat, l: seq<Piece>) {
    if trace == [] then l == [Piece(range, 0)]
    else
      && Rounds(trace, range, demand, maxDepth)
      && l == Left(trace[|trace| - 1], demand(|trace| - 1), maxDepth(|trace|))
  }

  /** Between two rounds: what was run, what the pool holds and what was given away follow each other,
      with `lo` and `hi` between them. */
  ghost predicate Between(range: BlockedRange, ran: seq<BlockedRange>, l: seq<Piece>, given: seq<Piece>, lo: int, hi: int) {
    && Chain(ran, range.begin, lo) && Chain(Ranges(l), lo, hi) && Chain(Reverse(Ranges(given)), hi, range.end)
    && AllHalved(SizeOf(range), l) && (ran == [] ==> l != [])
  }

  /** Giving away the rightmost piece. */
  lemma {:induction false} GiveAway(range: BlockedRange, ran: seq<BlockedRange>, l: seq<Piece>, given: seq<Piece>, lo: int, hi: int)
    requires Between(range, ran, l, given, lo, hi) && |l| > 1
    ensures var p := l[|l| - 1]; lo <= p.range.begin < hi && Between(range, ran, l[..|l| - 1], given + [p], lo, p.range.begin)
  {
    hide Chain, Reverse, AllHalved, Proper;
    HalvedSlice(SizeOf(range), l, 0, |l| - 1);
    assert l[0..|l| - 1] == l[..|l| - 1];
    var p := l[|l| - 1];
    ChainEnds(Ranges(l), lo, hi);
    ChainOffer(given, p, range.end);
    assert Ranges(l[..|l| - 1]) == Ranges(l)[..|l| - 1];
  }

  /** Running the leftmost piece. */
  lemma {:induction false} RunFirst(range: BlockedRange, ran: seq<BlockedRange>, l: seq<Piece>, given: seq<Piece>, lo: int, hi: int)
    requires Between(range, ran, l, given, lo, hi) && l != []
    ensures var r := l[0].range; lo < r.end <= hi && Between(range, ran + [r], l[1..], given, r.end, hi)
  {
    hide Chain, Reverse, AllHalved, Proper;
    HalvedSlice(SizeOf(range), l, 1, |l|);
    assert l[1..|l|] == l[1..];
    ChainEnds(Ranges(l), lo, hi);
    ChainRun(ran, l[0].range, range.begin);
    assert Ranges(l[1..]) == Ranges(l)[1..];
  }

  lemma {:induction false} FillUp(range: BlockedRange, ran: seq<BlockedRange>, l: seq<Piece>, given: seq<Piece>, lo: int, hi: int,
                                  maxDepth: nat)
    requires Between(range, ran, l, given, lo, hi) && l != []
    ensures var f := Filled(l, maxDepth);
            Between(range, ran, f, given, lo, hi) && AllHalved(SizeOf(range), f) && (|l| == 1 && Splits(l[0], maxDepth) ==> |f| > 1)
  {
    hide Chain, Reverse, AllHalved, DoSplit, SizeOf;
    FilledChain(l, maxDepth, SizeOf(range), lo, hi);
  }

  /** What holds between two rounds of the pool, which then holds the pieces `l`. */
  ghost predicate Going(range: BlockedRange, demand: nat -> bool, maxDepth: nat -> nat, ran: seq<BlockedRange>, l: seq<Piece>,
                        given: seq<Piece>, trace: seq<seq<Piece>>, lo: int, hi: int) {
    && Before(trace, range, demand, maxDepth, l) && Between(range, ran, l, given, lo, hi)
    && (forall k {:trigger trace[k]} :: 0 <= k < |trace| ==> trace[k] != [] && AllHalved(SizeOf(range), trace[k]))
    && ran == Worked(trace, demand, maxDepth) && given == Handed(trace, demand)
  }

  /** One round keeps this, whichever branch it takes. */
  lemma {:induction false} GoOn(range: BlockedRange, demand: nat -> bool, maxDepth: nat -> nat, ran: seq<BlockedRange>,
                                l0: seq<Piece>, given: seq<Piece>, trace: seq<seq<Piece>>, lo: int, hi: int)
    requires Going(range, demand, maxDepth, ran, l0, given, trace, lo, hi) && l0 != []
    ensures var n := |trace|; var l := Filled(l0, maxDepth(n)); var t := trace + [l]; var p, q := l[0], l[|l| - 1];
            && (|l0| == 1 && Splits(l0[0], maxDepth(n)) ==> |l| > 1)
            && (demand(n) && |l| > 1 ==>
                  lo <= q.range.begin < hi
                  && Going(range, demand, maxDepth, ran, l[..|l| - 1], given + [q], t, lo, q.range.begin))
            && (demand(n) && |l| == 1 && Splits(p, maxDepth(n + 1)) ==> Going(range, demand, maxDepth, ran, l, given, t, lo, hi))
            && (!demand(n) || (|l| == 1 && !Splits(p, maxDepth(n + 1))) ==>
                  lo < p.range.end <= hi
                  && Going(range, demand, maxDepth, ran + [p.range], l[1..], given, t, p.range.end, hi))
  {
    hide Splits, Filled, Rounds, Handed, Worked, Between, Before, Left, AllHalved, SizeOf;
    var n := |trace|;
    var l := Filled(l0, maxDepth(n));
    FillUp(range, ran, l0, given, lo, hi, maxDepth(n));
    RoundsMore(trace, range, demand, maxDepth, l0);
    TraceMore(trace, demand, maxDepth, l);
    LeftNext(trace, range, demand, maxDepth, l);
    assert given + [] == given && ran + [] == ran;
    if |l| > 1 {
      GiveAway(range, ran, l, given, lo, hi);
    }
    RunFirst(range, ran, l, given, lo, hi);
  }

  /** The range pool part of execute. */
  method RunPool(range: BlockedRange, demand: nat -> bool, maxDepth: nat -> nat, cancelled: nat -> bool)
    returns (ran: seq<BlockedRange>, given: seq<Piece>, ghost left: seq<Piece>, ghost trace: seq<seq<Piece>>)
    requires Proper(range) && range.begin < range.end
    ensures Chain(ran + Ranges(left) + Reverse(Ranges(given)), range.begin, range.end)
    ensures Pooled(range, demand, maxDepth, cancelled, ran, given, left, trace)
    ensures left == [] ==> ran != []
  {
    hide Chain, Reverse, IsDivisible, View, Zipped, SizeOf, Proper, HeadOf, Wrapped, Filled, Splits, Ranges, Pooled, Going,
      RangeVector.Pieces;
    var pool := new RangeVector(range);
    ran, given, trace := [], [], [];
    ghost var lo, hi, stuck := range.begin, range.end, false;
    StartPool(range, demand, maxDepth);
    var i := 0;
    while pool.size > 0 && (i == 0 || !cancelled(i))
      invariant pool.Valid() && fresh(pool) && fresh(pool.pool) && fresh(pool.depths)
      invariant i == |trace| && Going(range, demand, maxDepth, ran, pool.Pieces(), given, trace, lo, hi)
      invariant stuck ==> pool.size == 1 && Splits(pool.Pieces()[0], maxDepth(i))
      invariant lo <= hi && (i == 0 ==> pool.size > 0)
      decreases hi - lo, if stuck then 0 else 1
    {
      GoOn(range, demand, maxDepth, ran, pool.Pieces(), given, trace, lo, hi);
      SplitToFill(pool, maxDepth(i));
      i, trace := i + 1, trace + [pool.Pieces()];
      if demand(i - 1) {
        if pool.size > 1 {
          var front := pool.Front();
          var depth := pool.FrontDepth();
          given, hi, stuck := given + [Piece(front, depth)], front.begin, false;
          pool.PopFront();
          continue;
        }
        var more := pool.IsDivisibleAt(maxDepth(i));
        if more {
          stuck := true;
          continue;
        }
      }
      var back := pool.Back();
      ran, lo, stuck := ran + [back], back.end, false;
      pool.PopBack();
    }
    left := pool.Pieces();
    EndPool(range, demand, maxDepth, cancelled, ran, left, given, trace, lo, hi);
  }

  lemma {:induction false} StartPool(range: BlockedRange, demand: nat -> bool, maxDepth: nat -> nat)
    requires Proper(range) && range.begin < range.end
    ensures Going(range, demand, maxDepth, [], [Piece(range, 0)], [], [], range.begin, range.end)
  {
    hide AllHalved;
    var l := [Piece(range, 0)];
    ChainOne(range);
    assert Ranges(l) == [range] && Ranges([]) == [];
    assert AllHalved(SizeOf(range), l) by {
      StartHalved(range);
    }
  }

  lemma {:induction false} StartHalved(r: BlockedRange)
    ensures Halved(SizeOf(r), Piece(r, 0)) && AllHalved(SizeOf(r), [Piece(r, 0)])
  {
  }

  lemma {:induction false} LeftNext(trace: seq<seq<Piece>>, range: BlockedRange, demand: nat -> bool, maxDepth: nat -> nat,
                                    l: seq<Piece>)
    requires l != [] && Rounds(trace + [l], range, demand, maxDepth)
    ensures var n := |trace|;
            && Before(trace + [l], range, demand, maxDepth, Left(l, demand(n), maxDepth(n + 1)))
            && Left(l, demand(n), maxDepth(n + 1)) == (if demand(n) && |l| > 1 then l[..|l| - 1]
                 else if demand(n) && Splits(l[0], maxDepth(n + 1)) then l else l[1..])
  {
    hide Splits, Rounds;
  }

  /** When the pool stops, the three parts make up the range. */
  lemma {:induction false} EndPool(range: BlockedRange, demand: nat -> bool, maxDepth: nat -> nat, cancelled: nat -> bool,
                                   ran: seq<BlockedRange>, l: seq<Piece>, given: seq<Piece>, trace: seq<seq<Piece>>,
                                   lo: int, hi: int)
    requires trace != [] && Going(range, demand, maxDepth, ran, l, given, trace, lo, hi) && (l == [] || cancelled(|trace|))
    ensures Chain(ran + Ranges(l) + Reverse(Ranges(given)), range.begin, range.end) && (l == [] ==> ran != [])
    ensures Pooled(range, demand, maxDepth, cancelled, ran, given, l, trace)
  {
    hide Chain, Reverse, AllHalved, Left, Worked, Handed, Rounds;
    ChainConcat(ran, Ranges(l), range.begin, lo, hi);
    ChainConcat(ran + Ranges(l), Reverse(Ranges(given)), range.begin, hi, range.end);
  }

  lemma {:induction false} ChainEnds(l: seq<BlockedRange>, b: int, e: int)
    requires Chain(l, b, e) && |l| > 0
    ensures var h, t := l[0], l[|l| - 1];
            && Proper(h) && b == h.begin < h.end <= e && Chain(l[1..], h.end, e) && (|l| == 1 ==> h.end == e)
            && Proper(t) && b <= t.begin < t.end == e && Chain(l[..|l| - 1], b, t.begin)
  {
    ChainHead(l, b, e);
    ChainTail(l, b, e);
    ChainOrder(l[1..], l[0].end, e);
    ChainOrder(l[..|l| - 1], b, l[|l| - 1].begin);
  }

  lemma {:induction false} ChainOrder(l: seq<BlockedRange>, b: int, e: int)
    requires Chain(l, b, e)
    ensures b <= e && (l == [] ==> b == e)
    decreases |l|
  {
    if l != [] {
      ChainOrder(l[1..], l[0].end, e);
    }
  }
}
