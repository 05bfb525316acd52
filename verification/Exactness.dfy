/** Exactly when the critical path is attributed without loss, and when a subtraction of call sites
    borrows: for all works of the steps, the shape of the tree decides. */
module Exactness {
  import opened Dpst
  import opened CountMaps
  import opened Completion
  import opened Progress
  import opened Attribution
  import opened Shares
  import opened Losses
  import opened Pass

  /** The own share of the root and its call sites make up the span. */
  ghost predicate Exact(s: seq<AFTask>) {
    |s| > 1 && s[1].localLocalWork + Sum(CallSites(s[1])) == s[1].criticalChild
  }

  ghost predicate NoneBorrows(s: seq<AFTask>) {
    forall v {:trigger s[v]} :: 1 <= v < |s| ==> !Borrows(s[v])
  }

  /** The graph `s` holds a tree of the shape of `d`, with any works. */
  ghost predicate Weighted(d: Tree, e: Tree, s: seq<AFTask>) {
    SameShape(d, e) && Valid(e) && FinishOrdered(e) && Fresh(e, s) && |s| == |e|
  }

  /** The graph at the end of the pass. */
  ghost function AfterPass(e: Tree, parFor: map<nat, bool>, s: seq<AFTask>): (t: seq<AFTask>)
    requires Valid(e) && FinishOrdered(e) && Fresh(e, s)
    ensures |t| == |s|
  {
    PassTo(e, parFor, s, |e|).nodes
  }

  ghost predicate AlwaysExact(d: Tree, parFor: map<nat, bool>) {
    forall e: Tree, s: seq<AFTask> {:trigger Weighted(d, e, s)} :: Weighted(d, e, s) ==> Exact(AfterPass(e, parFor, s))
  }

  ghost predicate NeverBorrows(d: Tree, parFor: map<nat, bool>) {
    forall e: Tree, s: seq<AFTask> {:trigger Weighted(d, e, s)} :: Weighted(d, e, s) ==> NoneBorrows(AfterPass(e, parFor, s))
  }

  // ---- the conditions depend on the shape only ----

  lemma {:induction false} SameForked(d: Tree, e: Tree)
    requires SameShape(d, e) && Forked(d)
    ensures Forked(e)
  {
    forall c | 2 <= c < |e| && e[c].kind == ASYNC ensures e[c].parent < |e| && Sync(e, e[c].parent) {
      assert d[c].kind == ASYNC;
      assert Sync(d, d[c].parent);
    }
  }

  lemma {:induction false} SameExposed(d: Tree, e: Tree, parFor: map<nat, bool>, v: nat)
    requires SameShape(d, e)
    ensures Exposed(d, parFor, v) == Exposed(e, parFor, v)
    decreases v
  {
    if 1 < v < |d| {
      assert e[v].parent == d[v].parent;
      if d[v].parent < v {
        SameExposed(d, e, parFor, d[v].parent);
        assert e[d[v].parent] == d[d[v].parent].(work := e[d[v].parent].work);
      }
    }
  }

  lemma {:induction false} SameEmits(d: Tree, e: Tree, c: nat)
    requires SameShape(d, e) && c < |d| && Emits(d, c)
    ensures Emits(e, c)
  {
    if d[c].callSite == 0 {
      var b :| c < b < |d| && d[b].parent == c && d[b].kind == ASYNC;
      assert e[b].parent == c && e[b].kind == ASYNC;
    }
    assert e[c].callSite == d[c].callSite;
  }

  lemma {:induction false} SameDrops(d: Tree, e: Tree, parFor: map<nat, bool>, n: nat, c: nat)
    requires SameShape(d, e) && Drops(d, parFor, n, c)
    ensures Drops(e, parFor, n, c)
  {
    hide Emits, Exposed;
    SameExposed(d, e, parFor, n);
    SameEmits(d, e, c);
    assert e[n] == d[n].(work := e[n].work) && e[c] == d[c].(work := e[c].work);
  }

  lemma {:induction false} SameOvertakes(d: Tree, e: Tree, n: nat, a: nat, c: nat)
    requires SameShape(d, e) && Overtakes(d, n, a, c)
    ensures Overtakes(e, n, a, c)
  {
    hide Emits, Below;
    SameEmits(d, e, c);
    assert e[n] == d[n].(work := e[n].work) && e[c] == d[c].(work := e[c].work) && e[a] == d[a].(work := e[a].work);
    var w: nat :| w < |d| && Below(d, c, w) && Precedes(d, a, w);
    SameBelow(d, e, c, w);
    forall x: nat {:trigger Below(e, a, x)} | Below(e, a, x) && x < |e| ensures x < w {
      SameBelow(d, e, a, x);
    }
    assert Precedes(e, a, w);
  }

  lemma {:induction false} ShapeBack(d: Tree, e: Tree)
    requires SameShape(d, e)
    ensures SameShape(e, d)
  {
  }

  // ---- trees with chosen works ----

  /** The tree `d` with work `x` for step `t`, work `y` for step `u`, and none for the others. */
  function Reweighted(d: Tree, t: nat, x: nat, u: nat, y: nat): (e: Tree)
    ensures SameShape(d, e)
  {
    seq(|d|, i requires 0 <= i < |d| => d[i].(work := if i == t then x else if i == u then y else 0))
  }

  /** The graph that a loader would make of the tree. */
  function Graph(e: Tree): seq<AFTask> {
    seq(|e|, i requires 0 <= i < |e| =>
      AFTask(e[i].kind == FINISH && e[i].callSite != 0, e[i].parent, if i == 0 then NO_TYPE else e[i].kind, Count(e, i, |e|),
             e[i].callSite, if e[i].kind == STEP then e[i].work else 0, 0, 0, 0, 0, None, None))
  }

  lemma {:induction false} GraphIsFresh(d: Tree, e: Tree)
    requires SameShape(d, e) && Valid(d) && FinishOrdered(d)
    ensures Weighted(d, e, Graph(e))
  {
    hide Valid, FinishOrdered, Fresh, Count, Graph;
    SameValid(d, e);
    SameOrdered(d, e);
    ValidSize(e);
    GraphHolds(e);
  }

  lemma {:induction false} GraphHolds(e: Tree)
    requires |e| > 0
    ensures Fresh(e, Graph(e)) && |Graph(e)| == |e|
  {
    hide Count;
  }

  /** A step whose work `c` passes on. */
  lemma {:induction false} SourceOf(d: Tree, c: nat) returns (t: nat)
    requires Grown(d) && 1 < c < |d| && d[c].kind == FINISH && Emits(d, c)
    ensures Source(d, c, t) && t < |d|
  {
    if d[c].callSite != 0 {
      t := c + 1;
    } else {
      var b: nat :| c < b < |d| && d[b].parent == c && d[b].kind == ASYNC;
      t := b + 1;
    }
  }

  lemma {:induction false} SameSource(d: Tree, e: Tree, c: nat, t: nat)
    requires SameShape(d, e) && Source(d, c, t) && t < |d|
    ensures Source(e, c, t)
  {
    assert e[c] == d[c].(work := e[c].work) && e[t] == d[t].(work := e[t].work);
    assert e[d[t].parent] == d[d[t].parent].(work := e[d[t].parent].work);
  }

  // ---- attribution ----

  /** The works of all steps but one are zero. */
  lemma {:induction false} DropLoses(d: Tree, parFor: map<nat, bool>, n: nat, c: nat)
    requires Valid(d) && FinishOrdered(d) && Grown(d) && Drops(d, parFor, n, c)
    ensures !AlwaysExact(d, parFor)
  {
    hide Valid, FinishOrdered, Grown, Drops, Forked, Mid, Source, Emits;
    DropKinds(d, parFor, n, c);
    var t := SourceOf(d, c);
    var e := Reweighted(d, t, 1, 0, 0);
    GraphIsFresh(d, e);
    SameDrops(d, e, parFor, n, c);
    SameSource(d, e, c, t);
    SourceStep(e, c, t);
    OneWork(d, e, t);
    SameForked(d, e);
    var x := PassTo(e, parFor, Graph(e), |e|);
    PassLoses(e, parFor, x.nodes, x.order, n, c, t);
    assert Weighted(d, e, Graph(e)) && !Exact(AfterPass(e, parFor, Graph(e)));
  }

  lemma {:induction false} SourceStep(e: Tree, c: nat, t: nat)
    requires Source(e, c, t)
    ensures t > 1 && e[t].kind == STEP
  {
  }

  lemma {:induction false} DropKinds(d: Tree, parFor: map<nat, bool>, n: nat, c: nat)
    requires Drops(d, parFor, n, c) && Grown(d)
    ensures 1 < c < |d| && d[c].kind == FINISH && Emits(d, c) && Forked(d)
  {
  }

  lemma {:induction false} OneWork(d: Tree, e: Tree, t: nat)
    requires 1 < t < |d| && e == Reweighted(d, t, 1, 0, 0) && Valid(e) && e[t].kind == STEP
    ensures Lone(e, 1, t) && e[t].work == 1
  {
    BelowRoot(e, t);
  }

  lemma {:induction false} PassLoses(e: Tree, parFor: map<nat, bool>, s: seq<AFTask>, order: seq<nat>, n: nat, c: nat, t: nat)
    requires Valid(e) && Forked(e) && Mid(e, parFor, s, order, |e|, 0) && t < |e|
    requires Drops(e, parFor, n, c) && Source(e, c, t) && Lone(e, 1, t) && e[t].work > 0
    ensures |s| > 1 && s[1].criticalChild == e[t].work && s[1].localLocalWork == 0 && Sum(CallSites(s[1])) == 0
  {
    hide Valid, Closed, Drops, Lone, Source, Lost, Zeros, Outlasting, Attributed, Bounded, Exceeded, Late, Spans, Works, Topological;
    assert Dropped(e, parFor, n, c, t);
    ValidSize(e);
    EverythingDone(e, Elems(order), 1);
    FinalLost(e, parFor, s, Elems(order), n, c, t);
  }

  /** Whatever the steps weigh, the whole span is attributed, exactly if no exposed FINISH without a call
      site holds a FINISH that passes call sites on. */
  lemma {:induction false} ExactIff(d: Tree, parFor: map<nat, bool>)
    requires Valid(d) && FinishOrdered(d) && Grown(d)
    ensures AlwaysExact(d, parFor) <==> !Lossy(d, parFor)
  {
    hide Valid, FinishOrdered, Drops, Forked, Mid;
    if Lossy(d, parFor) {
      var n: nat, c: nat :| Drops(d, parFor, n, c);
      DropLoses(d, parFor, n, c);
    } else {
      forall e: Tree, s: seq<AFTask> | Weighted(d, e, s) ensures Exact(AfterPass(e, parFor, s)) {
        SameForked(d, e);
        NotLossy(d, e, parFor);
        var x := PassTo(e, parFor, s, |e|);
        FinalProfile(e, parFor, x.nodes, x.order);
        ValidSize(e);
      }
    }
  }

  lemma {:induction false} NotLossy(d: Tree, e: Tree, parFor: map<nat, bool>)
    requires SameShape(d, e) && !Lossy(d, parFor)
    ensures !Lossy(e, parFor)
  {
    hide Drops;
    ShapeBack(d, e);
    forall n: nat, c: nat ensures !Drops(e, parFor, n, c) {
      if Drops(e, parFor, n, c) {
        SameDrops(e, d, parFor, n, c);
      }
    }
  }

  // ---- subtractions that borrow ----

  lemma {:induction false} OvertakingBorrows(d: Tree, parFor: map<nat, bool>, n: nat, a: nat, c: nat)
    requires Valid(d) && FinishOrdered(d) && Grown(d) && Overtakes(d, n, a, c)
    ensures !NeverBorrows(d, parFor)
  {
    hide Valid, FinishOrdered, Grown, Overtakes, Forked, Mid, Source, Emits, Borrows;
    OvertakeKinds(d, n, a, c);
    var tc := SourceOf(d, c);
    var ta := HolderOf(d, a);
    var e := Reweighted(d, ta, 2, tc, 1);
    GraphIsFresh(d, e);
    SameOvertakes(d, e, n, a, c);
    SameSource(d, e, c, tc);
    TwoWorks(d, e, n, a, c, ta, tc);
    SameForked(d, e);
    var x := PassTo(e, parFor, Graph(e), |e|);
    PassBorrows(e, parFor, x.nodes, x.order, n, a, c, ta, tc);
    assert Weighted(d, e, Graph(e)) && Borrows(AfterPass(e, parFor, Graph(e))[n]);
  }

  lemma {:induction false} OvertakeKinds(d: Tree, n: nat, a: nat, c: nat)
    requires Overtakes(d, n, a, c) && Grown(d)
    ensures 1 < a < |d| && 1 < c < |d| && 1 <= n < |d| && d[c].kind == FINISH && d[a].kind == ASYNC && Emits(d, c) && Forked(d)
  {
  }

  lemma {:induction false} HolderOf(d: Tree, a: nat) returns (t: nat)
    requires Grown(d) && 1 < a < |d| && d[a].kind == ASYNC
    ensures Holder(d, a, t) && t < |d|
  {
    t := a + 1;
  }

  lemma {:induction false} TwoWorks(d: Tree, e: Tree, n: nat, a: nat, c: nat, ta: nat, tc: nat)
    requires e == Reweighted(d, ta, 2, tc, 1) && Valid(e) && FinishOrdered(e) && Overtakes(e, n, a, c)
    requires Holder(d, a, ta) && ta < |d| && Source(e, c, tc) && tc < |e|
    ensures Late(e, n, a, c, ta, tc)
  {
    hide Valid, FinishOrdered, Overtakes, Below, Source;
    LateKinds(e, n, a, c);
    assert e[ta] == d[ta].(work := e[ta].work) && e[a] == d[a].(work := e[a].work);
    SourceBelow(e, c, tc);
    BelowItself(e, ta);
    HolderBelow(e, a, ta);
    Disjoint(e, n, a, c, ta, tc);
    LaterChild(e, n, a, c);
    SourceStep(e, c, tc);
    forall v: nat {:trigger e[v].parent} | n < v < |e| && e[v].parent == n && v != a && v != c ensures Workless(e, v) {
      Disjoint(e, n, a, v, ta, ta);
      Disjoint(e, n, c, v, tc, tc);
    }
  }

  lemma {:induction false} HolderBelow(e: Tree, a: nat, t: nat)
    requires Holder(e, a, t)
    ensures Below(e, a, t)
  {
    BelowItself(e, a);
  }

  /** Two children of a node have nothing below them in common. */
  lemma {:induction false} Disjoint(e: Tree, n: nat, a: nat, c: nat, ta: nat, tc: nat)
    requires Valid(e) && 1 <= n < a < |e| && n < c < |e| && e[a].parent == e[c].parent == n && a != c
    ensures Below(e, a, ta) ==> !Below(e, c, ta)
    ensures Below(e, c, tc) ==> !Below(e, a, tc)
  {
    SiblingsDisjoint(e, a, c, ta);
    SiblingsDisjoint(e, a, c, tc);
  }

  lemma {:induction false} LaterChild(e: Tree, n: nat, a: nat, c: nat)
    requires FinishOrdered(e) && Overtakes(e, n, a, c)
    ensures a < c
  {
    hide Below, Emits;
    var w: nat :| w < |e| && Below(e, c, w) && Precedes(e, a, w);
    BelowItself(e, a);
    assert a < w;
    assert c < a ==> w < a;
  }

  lemma {:induction false} PassBorrows(e: Tree, parFor: map<nat, bool>, s: seq<AFTask>, order: seq<nat>, n: nat, a: nat, c: nat, ta: nat, tc: nat)
    requires Valid(e) && Forked(e) && Mid(e, parFor, s, order, |e|, 0) && Late(e, n, a, c, ta, tc)
    ensures n < |s| && ta < |e| && tc < |e|
    ensures Borrows(s[n]) && s[n].criticalChild == e[ta].work && Sum(CallSites(s[n])) == e[ta].work + e[tc].work
  {
    hide Valid, Closed, Late, Lost, Zeros, Outlasting, Attributed, Bounded, Exceeded, Dropped, Spans, Works, Topological, Borrows;
    LateRange(e, n, a, c, ta, tc);
    LateSteps(e, n, a, c, ta, tc);
    forall v: nat | 1 <= v < |e| ensures v in Elems(order) {
      EverythingDone(e, Elems(order), v);
    }
    assert s[n].kind == e[n].kind;
    FinalExceeded(e, s, Elems(order), n, a, c, ta, tc);
  }

  lemma {:induction false} LateRange(e: Tree, n: nat, a: nat, c: nat, ta: nat, tc: nat)
    requires Late(e, n, a, c, ta, tc)
    ensures 1 < n < |e|
  {
  }

  /** Whatever the steps weigh, no subtraction of call sites borrows, exactly if no FINISH passes call
      sites on after a task beside it is complete. */
  lemma {:induction false} BorrowIff(d: Tree, parFor: map<nat, bool>)
    requires Valid(d) && FinishOrdered(d) && Grown(d)
    ensures NeverBorrows(d, parFor) <==> !Overtaken(d)
  {
    hide Valid, FinishOrdered, Overtakes, Forked, Mid, Borrows;
    if Overtaken(d) {
      var n: nat, a: nat, c: nat :| Overtakes(d, n, a, c);
      OvertakingBorrows(d, parFor, n, a, c);
    } else {
      forall e: Tree, s: seq<AFTask> | Weighted(d, e, s) ensures NoneBorrows(AfterPass(e, parFor, s)) {
        SameForked(d, e);
        NotOvertaken(d, e);
        var x := PassTo(e, parFor, s, |e|);
        FinalProfile(e, parFor, x.nodes, x.order);
      }
    }
  }

  lemma {:induction false} NotOvertaken(d: Tree, e: Tree)
    requires SameShape(d, e) && !Overtaken(d)
    ensures !Overtaken(e)
  {
    hide Overtakes;
    ShapeBack(d, e);
    forall n: nat, a: nat, c: nat ensures !Overtakes(e, n, a, c) {
      if Overtakes(e, n, a, c) {
        SameOvertakes(e, d, n, a, c);
      }
    }
  }
}
