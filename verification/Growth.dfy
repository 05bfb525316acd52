/** What keeps a DPST well ordered while it grows one node at a time. `live` holds the inner
    nodes that may still get children, `open` the steps that are still running. */
module Growth {
  import opened Dpst

  /** A FINISH above a live node is the youngest child of its parent. */
  ghost predicate Youngest(d: Tree, live: set<nat>) {
    forall f: nat, x: nat, s: nat {:trigger Below(d, f, x), d[s].parent} ::
      1 <= f < |d| && s < |d| && d[f].kind == FINISH && x in live && Below(d, f, x) && d[s].parent == d[f].parent ==> s <= f
  }

  /** Nothing is running any more below a step or FINISH that has a later sibling. */
  ghost predicate Quiet(d: Tree, open: set<nat>) {
    forall x: nat, y: nat, a: nat {:trigger Below(d, x, a), d[y].parent} ::
      1 <= x < y < |d| && d[x].parent == d[y].parent && d[x].kind != ASYNC && Below(d, x, a) ==> a !in open
  }

  ghost predicate ParentsFirst(d: Tree) {
    && |d| >= 2 && d[0].parent == d[1].parent == 0 && d[1].kind == FINISH
    && (forall i {:trigger d[i].parent} :: 2 <= i < |d| ==> 1 <= d[i].parent < i)
    && (forall i {:trigger d[i].kind} :: 1 <= i < |d| ==> d[i].kind != NO_TYPE)
  }

  /** The invariant of a growing tree. */
  ghost predicate Ordered(d: Tree, live: set<nat>, open: set<nat>) {
    && ParentsFirst(d)
    && (forall x :: x in live ==> 1 <= x < |d| && d[x].kind != STEP)
    && (forall a :: a in open ==> 2 <= a < |d| && d[a].kind == STEP && d[a].parent in live)
    && (forall a {:trigger d[a].kind} :: 0 <= a < |d| && d[a].kind == STEP ==>
          forall c {:trigger d[c].parent} :: 0 < c < |d| ==> d[c].parent != a)
    && FinishOrdered(d)
    && Youngest(d, live)
    && Quiet(d, open)
  }

  /** Node `p` may get another child: its steps have ended, and no FINISH below it is alive. */
  ghost predicate Settled(d: Tree, live: set<nat>, open: set<nat>, p: nat) {
    && (forall f: nat, x: nat {:trigger Below(d, f, x)} ::
          1 <= f < |d| && d[f].parent == p && d[f].kind == FINISH && x in live ==> !Below(d, f, x))
    && (forall a :: a in open && a < |d| ==> d[a].parent != p)
  }

  lemma {:induction false} BelowAppend(d: Tree, n: Node, f: nat, w: nat)
    requires w < |d|
    ensures Below(d + [n], f, w) == Below(d, f, w)
    decreases w
  {
    if f < w && d[w].parent < w {
      BelowAppend(d, n, f, d[w].parent);
    }
  }

  /** The new node is below itself and whatever its parent is below. */
  lemma {:induction false} BelowNew(d: Tree, n: Node, f: nat)
    requires n.parent < |d|
    ensures Below(d + [n], f, |d|) <==> f == |d| || Below(d, f, n.parent)
  {
    BelowAppend(d, n, f, n.parent);
    if Below(d, f, n.parent) {
      Later(d, f, n.parent);
    }
  }

  lemma {:induction false} GrowYoungest(d: Tree, live: set<nat>, open: set<nat>, n: Node, more: set<nat>)
    requires Ordered(d, live, open) && n.parent in live && Settled(d, live, open, n.parent)
    requires more <= {|d|}
    ensures Youngest(d + [n], live + more)
  {
    var e := d + [n];
    forall f: nat, x: nat, s: nat | 1 <= f < |e| && s < |e| && e[f].kind == FINISH && x in live + more
                                    && Below(e, f, x) && e[s].parent == e[f].parent
      ensures s <= f
    {
      if x == |d| {
        BelowNew(d, n, f);
      } else {
        BelowAppend(d, n, f, x);
        Later(d, f, x);
      }
    }
  }

  lemma {:induction false} GrowFinishOrdered(d: Tree, live: set<nat>, open: set<nat>, n: Node)
    requires Ordered(d, live, open) && n.parent in live
    ensures FinishOrdered(d + [n])
  {
    var e := d + [n];
    forall f: nat, s: nat, w: nat | 1 <= f < s < |e| && e[f].kind == FINISH && e[f].parent == e[s].parent && Below(e, f, w)
      ensures w < s
    {
      if w == |d| {
        BelowNew(d, n, f);
        if s == |d| && Below(d, f, n.parent) {
          Later(d, f, n.parent);
        }
      } else {
        WithinBound(e, f, w);
        BelowAppend(d, n, f, w);
      }
    }
  }

  lemma {:induction false} WithinBound(d: Tree, f: nat, w: nat)
    requires Below(d, f, w) && f < |d|
    ensures w < |d|
  {
  }

  lemma {:induction false} GrowQuiet(d: Tree, live: set<nat>, open: set<nat>, n: Node, more: set<nat>)
    requires Ordered(d, live, open) && n.parent in live && Settled(d, live, open, n.parent)
    requires more <= {|d|}
    ensures Quiet(d + [n], open + more)
  {
    var e := d + [n];
    forall x: nat, y: nat, a: nat | 1 <= x < y < |e| && e[x].parent == e[y].parent && e[x].kind != ASYNC && Below(e, x, a)
      ensures a !in open + more
    {
      WithinBound(e, x, a);
      assert x < |d| && e[x] == d[x] && d[x].kind != NO_TYPE;
      if a == |d| {
        BelowNew(d, n, x);
        Later(d, x, n.parent);
        InnerAbove(d, live, open, x, n.parent);
      } else {
        BelowAppend(d, n, x, a);
        if y == |d| && a in open && a != x {
          // the parent of an open step is live, and x is a FINISH above it
          assert Below(d, x, d[a].parent);
          InnerAbove(d, live, open, x, d[a].parent);
        } else if y < |d| {
          assert e[y] == d[y];
        }
      }
    }
  }

  /** A node above a live node is not a step. */
  lemma {:induction false} InnerAbove(d: Tree, live: set<nat>, open: set<nat>, f: nat, x: nat)
    requires Ordered(d, live, open) && 1 <= f < |d| && x < |d| && d[x].kind != STEP && Below(d, f, x)
    ensures d[f].kind != STEP
    decreases x
  {
    if x != f {
      InnerAbove(d, live, open, f, d[x].parent);
    }
  }

  /** Growing a settled node keeps the invariant. */
  lemma {:induction false} Grow(d: Tree, live: set<nat>, open: set<nat>, n: Node)
    requires Ordered(d, live, open) && n.parent in live && Settled(d, live, open, n.parent)
    requires n.kind in {ASYNC, FINISH, STEP}
    ensures n.kind == STEP ==> Ordered(d + [n], live, open + {|d|})
    ensures n.kind != STEP ==> Ordered(d + [n], live + {|d|}, open)
  {
    GrowYoungest(d, live, open, n, if n.kind == STEP then {} else {|d|});
    GrowFinishOrdered(d, live, open, n);
    GrowQuiet(d, live, open, n, if n.kind == STEP then {|d|} else {});
    var e := d + [n];
    if n.kind == STEP {
      assert live + {} == live;
    } else {
      assert open + {} == open;
    }
    forall i | 2 <= i < |e| ensures 1 <= e[i].parent < i {
      if i < |d| {
        assert d[i].parent < i;
      }
    }
  }

  /** Nodes may stop being live and steps may end at any time. */
  lemma {:induction false} Shrink(d: Tree, live: set<nat>, open: set<nat>, less: set<nat>, fewer: set<nat>)
    requires Ordered(d, live, open) && less <= live && fewer <= open
    requires forall a :: a in fewer ==> d[a].parent in less
    ensures Ordered(d, less, fewer)
  {
  }

  /** A node that has just been created is settled. */
  lemma {:induction false} SettledNew(d: Tree, live: set<nat>, open: set<nat>, n: Node)
    requires Ordered(d, live, open) && n.parent in live
    ensures Settled(d + [n], live + {|d|}, open, |d|)
  {
    var e := d + [n];
    forall i | 1 <= i < |e| ensures e[i].parent != |d| {
      if 2 <= i < |d| {
        assert d[i].parent < i;
      }
    }
  }

  /** A node stays settled when a task is created below it. */
  lemma {:induction false} SettledTask(d: Tree, live: set<nat>, open: set<nat>, n: Node)
    requires Ordered(d, live, open) && n.parent in live && n.kind == ASYNC && Settled(d, live, open, n.parent)
    ensures Settled(d + [n], live + {|d|}, open, n.parent)
  {
    var e, p := d + [n], n.parent;
    forall f: nat, x: nat | 1 <= f < |e| && e[f].parent == p && e[f].kind == FINISH && x in live + {|d|}
      ensures !Below(e, f, x)
    {
      if x == |d| {
        BelowNew(d, n, f);
        if Below(d, f, p) {
          Later(d, f, p);
        }
      } else {
        BelowAppend(d, n, f, x);
      }
    }
  }

  /** A node stays settled when a step starts below another node. */
  lemma {:induction false} SettledStep(d: Tree, live: set<nat>, open: set<nat>, n: Node, p: nat)
    requires Ordered(d, live, open) && n.kind == STEP && n.parent != p && Settled(d, live, open, p)
    ensures Settled(d + [n], live, open + {|d|}, p)
  {
    var e := d + [n];
    forall f: nat, x: nat | 1 <= f < |e| && e[f].parent == p && e[f].kind == FINISH && x in live
      ensures !Below(e, f, x)
    {
      BelowAppend(d, n, f, x);
    }
  }

  function InnerNode(parent: nat, kind: NodeType, callSite: nat): Node {
    Node(parent, kind, callSite, 0)
  }

  function StepNode(parent: nat): Node {
    Node(parent, STEP, 0, 0)
  }

  /** A task with its first step, followed by the next step of the spawning node. */
  lemma {:induction false} GrowTask(d: Tree, live: set<nat>, open: set<nat>, p: nat, callSite: nat)
    requires Ordered(d, live, open) && p in live && Settled(d, live, open, p)
    ensures Ordered(d + [InnerNode(p, ASYNC, callSite), StepNode(|d|)], live + {|d|}, open + {|d| + 1})
    ensures Settled(d + [InnerNode(p, ASYNC, callSite), StepNode(|d|)], live + {|d|}, open + {|d| + 1}, p)
  {
    var n, k := InnerNode(p, ASYNC, callSite), StepNode(|d|);
    var e := d + [n];
    hide Ordered, Settled;
    Grow(d, live, open, n);
    SettledNew(d, live, open, n);
    SettledTask(d, live, open, n);
    Grow(e, live + {|d|}, open, k);
    LiveBound(d, live, open, p);
    SettledStep(e, live + {|d|}, open, k, p);
    assert e + [k] == d + [n, k];
  }

  lemma {:induction false} LiveBound(d: Tree, live: set<nat>, open: set<nat>, p: nat)
    requires Ordered(d, live, open) && p in live
    ensures 1 <= p < |d| && d[p].kind != STEP
  {
  }

  /** A FINISH created below a settled node. */
  lemma {:induction false} GrowFinish(d: Tree, live: set<nat>, open: set<nat>, p: nat, callSite: nat)
    requires Ordered(d, live, open) && p in live && Settled(d, live, open, p)
    ensures var e := d + [InnerNode(p, FINISH, callSite)];
            Ordered(e, live + {|d|}, open) && Settled(e, live + {|d|}, open, |d|)
  {
    Grow(d, live, open, InnerNode(p, FINISH, callSite));
    SettledNew(d, live, open, InnerNode(p, FINISH, callSite));
  }
}
