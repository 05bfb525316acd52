/** The dynamic program structure tree (DPST) that the two TaskProf phases exchange: node
    `i` of the tree is `d[i]`, node 1 is the root and node 0 is not part of the tree. */
module Dpst {

  datatype NodeType = NO_TYPE | ASYNC | FINISH | STEP

  /** What the log says about one node; `work` is the measured work of a step. */
  datatype Node = Node(parent: nat, kind: NodeType, callSite: nat, work: nat)

  type Tree = seq<Node>

  function Max(a: nat, b: nat): nat {
    if a >= b then a else b
  }

  /** Parents come before children, node 1 is the root FINISH, and the steps are the leaves. */
  ghost predicate Valid(d: Tree) {
    && |d| >= 2
    && d[1].parent == 0 && d[1].kind == FINISH && d[1].callSite == 0
    && (forall i {:trigger d[i].parent} :: 2 <= i < |d| ==> 1 <= d[i].parent < i && d[d[i].parent].kind != STEP)
    && (forall i {:trigger d[i].kind} :: 1 <= i < |d| ==> d[i].kind != NO_TYPE)
    && (forall i {:trigger d[i].kind} :: 1 <= i < |d| && d[i].kind != STEP ==> exists c :: i < c < |d| && d[c].parent == i)
  }

  /** Node `w` lies in the subtree of node `f`. */
  predicate Below(d: Tree, f: nat, w: nat)
    decreases w
  {
    w == f || (f < w < |d| && d[w].parent < w && Below(d, f, d[w].parent))
  }

  /** The subtree of a FINISH is numbered entirely before that FINISH's later siblings. */
  ghost predicate FinishOrdered(d: Tree) {
    forall f: nat, s: nat, w: nat {:trigger Below(d, f, w), d[s].parent} ::
      1 <= f < s < |d| && d[f].kind == FINISH && d[f].parent == d[s].parent && Below(d, f, w) ==> w < s
  }

  /** What child `c` adds to the serial part of its parent. */
  function Contribution(d: Tree, c: nat): nat
    requires c < |d|
    decreases |d| - c, |d| + 2
  {
    match d[c].kind
    case STEP => d[c].work
    case FINISH => Span(d, c)
    case ASYNC => 0
    case NO_TYPE => 0
  }

  /** Serial work of node `v` over its children numbered below `k`. */
  function Serial(d: Tree, v: nat, k: nat): nat
    requires k <= |d|
    decreases |d| - v, k
  {
    if k <= v + 1 then 0
    else Serial(d, v, k - 1) + if d[k - 1].parent == v then Contribution(d, k - 1) else 0
  }

  /** The longest path through an ASYNC child of `v` numbered below `k`: the serial work before
      the child was spawned, followed by the child's own span. */
  function AsyncMax(d: Tree, v: nat, k: nat): nat
    requires k <= |d|
    decreases |d| - v, k
  {
    if k <= v + 1 then 0
    else Max(AsyncMax(d, v, k - 1),
             if d[k - 1].parent == v && d[k - 1].kind == ASYNC then Serial(d, v, k - 1) + Span(d, k - 1) else 0)
  }

  /** The span of the subtree of `v`. */
  function Span(d: Tree, v: nat): nat
    requires v < |d|
    decreases |d| - v, |d| + 1
  {
    if d[v].kind == STEP then d[v].work
    else Max(Serial(d, v, |d|), AsyncMax(d, v, |d|))
  }

  /** The work of the subtrees of the children of `v` numbered below `k`. */
  function ChildWork(d: Tree, v: nat, k: nat): nat
    requires k <= |d|
    decreases |d| - v, k
  {
    if k <= v + 1 then 0
    else ChildWork(d, v, k - 1) + if d[k - 1].parent == v then Work(d, k - 1) else 0
  }

  function Work(d: Tree, v: nat): nat
    requires v < |d|
    decreases |d| - v, |d| + 1
  {
    if d[v].kind == STEP then d[v].work else ChildWork(d, v, |d|)
  }

  /** The work of all the steps numbered from `k` on. */
  function StepWork(d: Tree, k: nat): nat
    requires k <= |d|
    decreases |d| - k
  {
    if k == |d| then 0
    else StepWork(d, k + 1) + if d[k].kind == STEP then d[k].work else 0
  }

  // ---- the work of the root is the work of all the steps ----

  /** The work of the subtrees whose root lies in `k..m` and whose parent does not. */
  ghost function Frontier(d: Tree, k: nat, m: nat): nat
    requires m <= |d|
    decreases m
  {
    if m <= k then 0
    else Frontier(d, k, m - 1) + if d[m - 1].parent < k then Work(d, m - 1) else 0
  }

  lemma {:induction false} FrontierStep(d: Tree, k: nat, m: nat)
    requires 1 <= k < m <= |d| && d[k].parent < k
    ensures Frontier(d, k, m) + ChildWork(d, k, m) == Frontier(d, k + 1, m) + Work(d, k)
    decreases m
  {
    if m == k + 1 {
      assert Frontier(d, k, k) == 0;
    } else {
      FrontierStep(d, k, m - 1);
    }
  }

  lemma {:induction false} FrontierIsStepWork(d: Tree, k: nat)
    requires Valid(d) && 1 <= k <= |d|
    ensures Frontier(d, k, |d|) == StepWork(d, k)
    decreases |d| - k
  {
    if k < |d| {
      FrontierIsStepWork(d, k + 1);
      FrontierStep(d, k, |d|);
      if d[k].kind == STEP {
        NoChildWork(d, k, |d|);
      }
    }
  }

  lemma {:induction false} NoChildWork(d: Tree, v: nat, k: nat)
    requires k <= |d| && forall c {:trigger d[c]} :: v < c < |d| ==> d[c].parent != v
    ensures ChildWork(d, v, k) == 0
    decreases k
  {
    if k > v + 1 {
      NoChildWork(d, v, k - 1);
    }
  }

  lemma {:induction false} FrontierOfRoot(d: Tree, m: nat)
    requires 2 <= m <= |d| && d[1].parent == 0 && forall i {:trigger d[i]} :: 2 <= i < |d| ==> 1 <= d[i].parent
    ensures Frontier(d, 1, m) == Work(d, 1)
    decreases m
  {
    if m == 2 {
      assert Frontier(d, 1, 1) == 0;
    } else {
      FrontierOfRoot(d, m - 1);
    }
  }

  /** Conservation: nothing is lost or counted twice on the way up to the root. */
  lemma {:induction false} RootWork(d: Tree)
    requires Valid(d)
    ensures Work(d, 1) == StepWork(d, 1)
  {
    FrontierIsStepWork(d, 1);
    FrontierOfRoot(d, |d|);
  }

  /** A FINISH without a call site: the ones that a spawn opens implicitly, and the ones of
      spawn_root_and_wait calls whose source position is not known. */
  predicate Sync(d: Tree, v: nat)
    requires v < |d|
  {
    d[v].kind == FINISH && d[v].callSite == 0 && v != 1
  }

  // ---- subtrees ----

  lemma {:induction false} Later(d: Tree, f: nat, w: nat)
    requires Below(d, f, w)
    ensures f <= w
  {
  }

  lemma {:induction false} Transitive(d: Tree, f: nat, g: nat, w: nat)
    requires Below(d, f, g) && Below(d, g, w)
    ensures Below(d, f, w)
    decreases w
  {
    if w != g {
      Transitive(d, f, g, d[w].parent);
      Later(d, f, g);
      Later(d, g, d[w].parent);
    }
  }

  /** The ancestors of a node are on one path. */
  lemma {:induction false} Comparable(d: Tree, f: nat, g: nat, w: nat)
    requires Below(d, f, w) && Below(d, g, w) && f <= g
    ensures Below(d, f, g)
    decreases w
  {
    if w != g {
      Later(d, g, w);
      Comparable(d, f, g, d[w].parent);
    }
  }

  lemma {:induction false} SiblingsDisjoint(d: Tree, x: nat, y: nat, w: nat)
    requires 1 <= x < |d| && 1 <= y < |d| && x != y
    requires d[x].parent == d[y].parent && d[x].parent < x && d[y].parent < y
    ensures !(Below(d, x, w) && Below(d, y, w))
  {
    if Below(d, x, w) && Below(d, y, w) {
      var lo, hi := if x < y then x else y, if x < y then y else x;
      Comparable(d, lo, hi, w);
      Later(d, lo, d[hi].parent);
    }
  }

  /** A node below `v` other than `v` is below one of its children. */
  lemma {:induction false} ChildAbove(d: Tree, v: nat, a: nat) returns (e: nat)
    requires Below(d, v, a) && a != v
    ensures v < e < |d| && d[e].parent == v && Below(d, e, a)
    decreases a
  {
    if d[a].parent == v {
      e := a;
    } else {
      e := ChildAbove(d, v, d[a].parent);
      Later(d, e, d[a].parent);
    }
  }

  lemma {:induction false} BelowRoot(d: Tree, a: nat)
    requires Valid(d) && 1 <= a < |d|
    ensures Below(d, 1, a)
    decreases a
  {
    if a > 1 {
      BelowRoot(d, d[a].parent);
    }
  }

  lemma {:induction false} StepsAreLeaves(d: Tree, v: nat, w: nat)
    requires Valid(d) && 1 <= v < |d| && d[v].kind == STEP && Below(d, v, w)
    ensures w == v
  {
    if w != v {
      var p := ChildAbove(d, v, w);
      ParentIsNoStep(d, p);
    }
  }

  lemma {:induction false} ParentIsNoStep(d: Tree, v: nat)
    requires Valid(d) && 2 <= v < |d|
    ensures 1 <= d[v].parent < v && d[d[v].parent].kind != STEP
  {
  }

  lemma {:induction false} KindKnown(d: Tree, c: nat)
    requires Valid(d) && 1 <= c < |d|
    ensures d[c].kind != NO_TYPE
  {
  }

  lemma {:induction false} BelowItself(d: Tree, v: nat)
    ensures Below(d, v, v)
  {
  }

  lemma {:induction false} ValidSize(d: Tree)
    requires Valid(d)
    ensures |d| >= 2
  {
  }

  // ---- trees that differ in the works only ----

  ghost predicate SameShape(d: Tree, e: Tree) {
    |d| == |e| && forall i {:trigger d[i]} {:trigger e[i]} :: 0 <= i < |d| ==> e[i] == d[i].(work := e[i].work)
  }

  lemma {:induction false} SameBelow(d: Tree, e: Tree, f: nat, w: nat)
    requires SameShape(d, e)
    ensures Below(d, f, w) == Below(e, f, w)
    decreases w
  {
    if f < w < |d| && d[w].parent < w {
      SameBelow(d, e, f, d[w].parent);
    }
    assert w < |d| ==> d[w].parent == e[w].parent;
  }

  lemma {:induction false} SameValid(d: Tree, e: Tree)
    requires SameShape(d, e) && Valid(d)
    ensures Valid(e)
  {
    forall i | 1 <= i < |e| ensures e[i].parent == d[i].parent && e[i].kind == d[i].kind && e[i].callSite == d[i].callSite {
    }
    forall i | 1 <= i < |e| && e[i].kind != STEP ensures exists c :: i < c < |e| && e[c].parent == i {
      assert d[i].kind != STEP;
      var c :| i < c < |d| && d[c].parent == i;
      assert e[c].parent == i;
    }
  }

  lemma {:induction false} SameOrdered(d: Tree, e: Tree)
    requires SameShape(d, e) && FinishOrdered(d)
    ensures FinishOrdered(e)
  {
    forall f: nat, s: nat, w: nat | 1 <= f < s < |e| && e[f].kind == FINISH && e[f].parent == e[s].parent && Below(e, f, w)
      ensures w < s
    {
      SameBelow(d, e, f, w);
      assert d[f].kind == e[f].kind && d[f].parent == e[f].parent && d[s].parent == e[s].parent;
    }
  }
}
