/** What the span means: the weight of the heaviest set of steps that no schedule can run in
    parallel with each other. */
module Chains {
  import opened Dpst

  /** Some common ancestor has a child above `a` that comes before the child above `b` and is
      not a task of its own. */
  ghost predicate Via(d: Tree, x: nat, y: nat, a: nat, b: nat) {
    && 1 <= x < y < |d| && d[x].parent == d[y].parent && d[x].kind != ASYNC
    && Below(d, x, a) && Below(d, y, b)
  }

  ghost predicate Series(d: Tree, a: nat, b: nat) {
    exists x: nat, y: nat :: Via(d, x, y, a, b)
  }

  /** A set of steps any two of which are in series. */
  ghost predicate Chain(d: Tree, c: set<nat>) {
    && (forall a :: a in c ==> 1 <= a < |d| && d[a].kind == STEP)
    && (forall a, b :: a in c && b in c && a != b ==> Series(d, a, b) || Series(d, b, a))
  }

  /** The work of the steps of `c` numbered below `k`. */
  ghost function Weight(d: Tree, c: set<nat>, k: nat): nat
    requires k <= |d|
  {
    if k == 0 then 0 else Weight(d, c, k - 1) + if k - 1 in c then d[k - 1].work else 0
  }

  lemma {:induction false} WeightUnion(d: Tree, a: set<nat>, b: set<nat>, k: nat)
    requires k <= |d| && a !! b
    ensures Weight(d, a + b, k) == Weight(d, a, k) + Weight(d, b, k)
  {
    if k > 0 {
      WeightUnion(d, a, b, k - 1);
    }
  }

  lemma {:induction false} WeightEmpty(d: Tree, k: nat)
    requires k <= |d|
    ensures Weight(d, {}, k) == 0
  {
    if k > 0 {
      WeightEmpty(d, k - 1);
    }
  }

  lemma {:induction false} WeightSingle(d: Tree, v: nat, k: nat)
    requires k <= |d|
    ensures Weight(d, {v}, k) == if v < k then d[v].work else 0
  {
    if k > 0 {
      WeightSingle(d, v, k - 1);
    }
  }

  // ---- ancestors ----

  /** Two steps below different children of a node have exactly these children as witnesses. */
  lemma {:induction false} ViaUnique(d: Tree, c: nat, e: nat, x: nat, y: nat, a: nat, b: nat)
    requires Valid(d) && 2 <= c < |d| && 2 <= e < |d| && c != e && d[c].parent == d[e].parent
    requires Below(d, c, a) && Below(d, e, b)
    requires 1 <= x < |d| && 1 <= y < |d| && x != y && d[x].parent == d[y].parent && Below(d, x, a) && Below(d, y, b)
    ensures x == c && y == e
  {
    RootAlone(d, x, y);
    SameChild(d, c, e, x, y, a, b);
    SameChild(d, e, c, y, x, b, a);
  }

  lemma {:induction false} RootAlone(d: Tree, x: nat, y: nat)
    requires Valid(d) && 1 <= x < |d| && 1 <= y < |d| && x != y && d[x].parent == d[y].parent
    ensures x >= 2 && y >= 2 && d[x].parent < x && d[y].parent < y
  {
  }

  lemma {:induction false} SameChild(d: Tree, c: nat, e: nat, x: nat, y: nat, a: nat, b: nat)
    requires 2 <= c < |d| && 2 <= e < |d| && c != e && d[c].parent == d[e].parent < c && d[e].parent < e
    requires 2 <= x < |d| && 2 <= y < |d| && x != y && d[x].parent == d[y].parent < x && d[y].parent < y
    requires Below(d, c, a) && Below(d, e, b) && Below(d, x, a) && Below(d, y, b)
    ensures x == c
  {
    if c < x {
      Comparable(d, c, x, a);
      // the parent of x, hence y and b, lie below c
      assert Below(d, c, d[y].parent);
      Later(d, c, d[y].parent);
      assert Below(d, c, y);
      Transitive(d, c, y, b);
      SiblingsDisjoint(d, c, e, b);
      assert false;
    } else if x < c {
      Comparable(d, x, c, a);
      assert Below(d, x, d[e].parent);
      Later(d, x, d[e].parent);
      assert Below(d, x, e);
      Transitive(d, x, e, b);
      SiblingsDisjoint(d, x, y, b);
      assert false;
    }
  }

  // ---- no chain is heavier than the span ----

  /** The steps of `c` below node `v`, and those below the children of `v` numbered below `k`. */
  ghost function Under(d: Tree, c: set<nat>, v: nat): set<nat> {
    set a | a in c && Below(d, v, a)
  }

  ghost function UnderChildren(d: Tree, c: set<nat>, v: nat, k: nat): set<nat>
    requires k <= |d|
  {
    if k <= v + 1 then {}
    else UnderChildren(d, c, v, k - 1) + if d[k - 1].parent == v then Under(d, c, k - 1) else {}
  }

  lemma {:induction false} UnderChildrenIs(d: Tree, c: set<nat>, v: nat, k: nat, a: nat)
    requires k <= |d|
    ensures a in UnderChildren(d, c, v, k) <==> a in c && exists e :: v < e < k && d[e].parent == v && Below(d, e, a)
  {
    if k > v + 1 {
      UnderChildrenIs(d, c, v, k - 1, a);
      assert a in Under(d, c, k - 1) <==> a in c && Below(d, k - 1, a);
    }
  }

  lemma {:induction false} UnderSplits(d: Tree, c: set<nat>, v: nat, k: nat)
    requires Valid(d) && 1 <= v < k < |d| && d[k].parent == v
    ensures UnderChildren(d, c, v, k) !! Under(d, c, k)
  {
    forall a | a in UnderChildren(d, c, v, k) ensures a !in Under(d, c, k) {
      UnderChildrenIs(d, c, v, k, a);
      var e :| v < e < k && d[e].parent == v && Below(d, e, a);
      SiblingsDisjoint(d, e, k, a);
    }
  }

  lemma {:induction false} SubChain(d: Tree, c: set<nat>, s: set<nat>)
    requires Chain(d, c) && s <= c
    ensures Chain(d, s)
  {
  }

  lemma {:induction false} ContributionIs(d: Tree, c: nat)
    requires Valid(d) && 1 <= c < |d|
    ensures Contribution(d, c) == if d[c].kind == ASYNC then 0 else Span(d, c)
  {
  }

  ghost predicate NoTaskStep(d: Tree, c: set<nat>, v: nat, k: nat) {
    forall e: nat {:trigger Under(d, c, e)} :: v < e < k && e < |d| && d[e].parent == v && d[e].kind == ASYNC ==> Under(d, c, e) == {}
  }

  lemma {:induction false} SerialBound(d: Tree, c: set<nat>, v: nat, k: nat)
    requires Valid(d) && Chain(d, c) && 1 <= v < |d| && k <= |d| && NoTaskStep(d, c, v, k)
    ensures Weight(d, UnderChildren(d, c, v, k), |d|) <= Serial(d, v, k)
    decreases |d| - v, k
  {
    hide Valid, Chain, Contribution, Span, Below;
    if k <= v + 1 {
      WeightEmpty(d, |d|);
    } else {
      ContributionIs(d, k - 1);
      SerialBound(d, c, v, k - 1);
      if d[k - 1].parent == v {
        var u := Under(d, c, k - 1);
        UnderSplits(d, c, v, k - 1);
        WeightUnion(d, UnderChildren(d, c, v, k - 1), u, |d|);
        if d[k - 1].kind == ASYNC {
          WeightEmpty(d, |d|);
        } else {
          SubChain(d, c, u);
          ChainBound(d, u, k - 1);
        }
      } else {
        assert UnderChildren(d, c, v, k) == UnderChildren(d, c, v, k - 1);
      }
    }
  }

  lemma {:induction false} TaskExcludes(d: Tree, c: set<nat>, v: nat, e: nat, k: nat, a: nat, b: nat)
    requires Valid(d) && Chain(d, c) && 1 <= v < e < k < |d| && d[e].parent == d[k].parent == v && d[e].kind == ASYNC
    requires a in c && Below(d, e, a) && Below(d, k, b)
    ensures b !in c
  {
    SiblingsDisjoint(d, e, k, b);
    if b in c {
      if Series(d, a, b) {
        var x: nat, y: nat :| Via(d, x, y, a, b);
        ViaUnique(d, e, k, x, y, a, b);
      } else {
        var x: nat, y: nat :| Via(d, x, y, b, a);
        ViaUnique(d, k, e, x, y, b, a);
      }
    }
  }

  /** A chain with a step in task `e` of `v` has no step below a later child of `v`. */
  lemma {:induction false} TaskIsLast(d: Tree, c: set<nat>, v: nat, e: nat, a: nat, k: nat)
    requires Valid(d) && Chain(d, c) && 1 <= v < e < |d| && d[e].parent == v && d[e].kind == ASYNC
    requires a in c && Below(d, e, a) && e < k <= |d|
    ensures UnderChildren(d, c, v, k) == UnderChildren(d, c, v, e) + Under(d, c, e)
    decreases k
  {
    hide Valid, Chain;
    if k > e + 1 {
      TaskIsLast(d, c, v, e, a, k - 1);
      if d[k - 1].parent == v {
        forall b | b in c ensures !Below(d, k - 1, b) {
          if Below(d, k - 1, b) {
            TaskExcludes(d, c, v, e, k - 1, a, b);
          }
        }
        assert Under(d, c, k - 1) == {};
      }
    }
  }

  lemma {:induction false} AsyncMaxBounds(d: Tree, v: nat, e: nat, k: nat)
    requires v < e < k <= |d| && d[e].parent == v && d[e].kind == ASYNC
    ensures Serial(d, v, e) + Span(d, e) <= AsyncMax(d, v, k)
    decreases k
  {
    if k > e + 1 {
      AsyncMaxBounds(d, v, e, k - 1);
    }
  }

  lemma {:induction false} ChainBound(d: Tree, c: set<nat>, v: nat)
    requires Valid(d) && Chain(d, c) && 1 <= v < |d| && forall a :: a in c ==> Below(d, v, a)
    ensures Weight(d, c, |d|) <= Span(d, v)
    decreases |d| - v, |d| + 2
  {
    if d[v].kind == STEP {
      forall a | a in c ensures a == v {
        if a != v {
          var e := ChildAbove(d, v, a);
        }
      }
      WeightSingle(d, v, |d|);
      WeightEmpty(d, |d|);
      assert c == {v} || c == {};
    } else {
      forall a | a in c ensures a in UnderChildren(d, c, v, |d|) {
        var e := ChildAbove(d, v, a);
        UnderChildrenIs(d, c, v, |d|, a);
      }
      forall a | a in UnderChildren(d, c, v, |d|) ensures a in c {
        UnderChildrenIs(d, c, v, |d|, a);
      }
      assert c == UnderChildren(d, c, v, |d|);
      ChildrenBound(d, c, v);
    }
  }

  lemma {:induction false} FirstTask(d: Tree, c: set<nat>, v: nat, k: nat) returns (e: nat)
    requires k <= |d|
    ensures v < e < k ==> d[e].parent == v && d[e].kind == ASYNC && Under(d, c, e) != {} && NoTaskStep(d, c, v, e)
    ensures !(v < e < k) ==> NoTaskStep(d, c, v, k)
    decreases k
  {
    if k <= v + 1 {
      e := v;
    } else {
      e := FirstTask(d, c, v, k - 1);
      if !(v < e < k - 1) {
        e := if d[k - 1].parent == v && d[k - 1].kind == ASYNC && Under(d, c, k - 1) != {} then k - 1 else v;
      }
    }
  }

  lemma {:induction false} ChildrenBound(d: Tree, c: set<nat>, v: nat)
    requires Valid(d) && Chain(d, c) && 1 <= v < |d| && d[v].kind != STEP
    requires c == UnderChildren(d, c, v, |d|)
    ensures Weight(d, c, |d|) <= Span(d, v)
    decreases |d| - v, |d| + 1
  {
    hide Valid, Chain;
    var e := FirstTask(d, c, v, |d|);
    if v < e < |d| {
      var u := Under(d, c, e);
      var a :| a in u;
      TaskIsLast(d, c, v, e, a, |d|);
      UnderSplits(d, c, v, e);
      WeightUnion(d, UnderChildren(d, c, v, e), u, |d|);
      SerialBound(d, c, v, e);
      SubChain(d, c, u);
      ChainBound(d, u, e);
      AsyncMaxBounds(d, v, e, |d|);
    } else {
      SerialBound(d, c, v, |d|);
    }
  }

  // ---- some chain is as heavy as the span ----

  /** All steps of `c` lie below children of `v` numbered below `k` that are not tasks. */
  ghost predicate SerialSteps(d: Tree, c: set<nat>, v: nat, k: nat) {
    forall a {:trigger a in c} :: a in c ==> exists e :: v < e < k && e < |d| && d[e].parent == v && d[e].kind != ASYNC && Below(d, e, a)
  }

  lemma {:induction false} SerialBelow(d: Tree, c: set<nat>, v: nat, k: nat)
    requires SerialSteps(d, c, v, k)
    ensures forall a :: a in c ==> Below(d, v, a)
  {
    forall a | a in c ensures Below(d, v, a) {
      var e :| v < e < k && e < |d| && d[e].parent == v && d[e].kind != ASYNC && Below(d, e, a);
      assert Below(d, v, e);
      Transitive(d, v, e, a);
    }
  }

  lemma {:induction false} ChildBelow(d: Tree, u: set<nat>, v: nat, k: nat)
    requires v < k < |d| && d[k].parent == v && forall b :: b in u ==> Below(d, k, b)
    ensures forall b :: b in u ==> Below(d, v, b)
  {
    forall b | b in u ensures Below(d, v, b) {
      assert Below(d, v, k);
      Transitive(d, v, k, b);
    }
  }

  /** Chains of the serial part of `v` extend by a chain of its next child. */
  lemma {:induction false} Extend(d: Tree, v: nat, k: nat, c: set<nat>, u: set<nat>)
    requires Valid(d) && 1 <= v < k < |d| && d[k].parent == v && Chain(d, c) && Chain(d, u)
    requires SerialSteps(d, c, v, k)
    requires forall b :: b in u ==> Below(d, k, b)
    ensures c !! u && Chain(d, c + u)
    ensures Weight(d, c + u, |d|) == Weight(d, c, |d|) + Weight(d, u, |d|)
  {
    forall a, b | a in c && b in u ensures a != b && Series(d, a, b) {
      var e :| v < e < k && d[e].parent == v && d[e].kind != ASYNC && Below(d, e, a);
      SiblingsDisjoint(d, e, k, a);
      assert Via(d, e, k, a, b);
    }
    WeightUnion(d, c, u, |d|);
  }

  lemma {:induction false} SerialChain(d: Tree, v: nat, k: nat) returns (c: set<nat>)
    requires Valid(d) && 1 <= v < |d| && k <= |d|
    ensures Chain(d, c) && Weight(d, c, |d|) == Serial(d, v, k)
    ensures SerialSteps(d, c, v, k)
    decreases |d| - v, k
  {
    hide Valid, Contribution, Span, Below;
    if k <= v + 1 {
      c := {};
      WeightEmpty(d, |d|);
    } else {
      hide Chain;
      ContributionIs(d, k - 1);
      c := SerialChain(d, v, k - 1);
      if d[k - 1].parent == v && d[k - 1].kind != ASYNC {
        var u := HeaviestChain(d, k - 1);
        Extend(d, v, k - 1, c, u);
        c := c + u;
      }
    }
  }

  lemma {:induction false} AsyncChain(d: Tree, v: nat, k: nat) returns (c: set<nat>)
    requires Valid(d) && 1 <= v < |d| && k <= |d|
    ensures Chain(d, c) && Weight(d, c, |d|) == AsyncMax(d, v, k)
    ensures forall a :: a in c ==> Below(d, v, a)
    decreases |d| - v, k
  {
    hide Valid, Span, Serial, SerialSteps, Below;
    if k <= v + 1 {
      c := {};
      WeightEmpty(d, |d|);
    } else {
      hide Chain;
      c := AsyncChain(d, v, k - 1);
      if d[k - 1].parent == v && d[k - 1].kind == ASYNC && AsyncMax(d, v, k) != AsyncMax(d, v, k - 1) {
        var u := HeaviestChain(d, k - 1);
        c := SerialChain(d, v, k - 1);
        Extend(d, v, k - 1, c, u);
        SerialBelow(d, c, v, k - 1);
        ChildBelow(d, u, v, k - 1);
        c := c + u;
      }
    }
  }

  lemma {:induction false} HeaviestChain(d: Tree, v: nat) returns (c: set<nat>)
    requires Valid(d) && 1 <= v < |d|
    ensures Chain(d, c) && Weight(d, c, |d|) == Span(d, v)
    ensures forall a :: a in c ==> Below(d, v, a)
    decreases |d| - v, |d| + 1
  {
    if d[v].kind == STEP {
      c := {v};
      WeightSingle(d, v, |d|);
    } else {
      if Span(d, v) == Serial(d, v, |d|) {
        c := SerialChain(d, v, |d|);
        SerialBelow(d, c, v, |d|);
      } else {
        c := AsyncChain(d, v, |d|);
      }
    }
  }

  /** The span of the root is the weight of the heaviest chain of the whole tree. */
  lemma {:induction false} SpanIsHeaviestChain(d: Tree)
    requires Valid(d)
    ensures forall c {:trigger Chain(d, c)} :: Chain(d, c) ==> Weight(d, c, |d|) <= Span(d, 1)
    ensures exists c :: Chain(d, c) && Weight(d, c, |d|) == Span(d, 1)
  {
    forall c | Chain(d, c) ensures Weight(d, c, |d|) <= Span(d, 1) {
      forall a | a in c ensures Below(d, 1, a) {
        BelowRoot(d, a);
      }
      ChainBound(d, c, 1);
    }
    var c := HeaviestChain(d, 1);
  }
}
