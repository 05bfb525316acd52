/** The shape of the trees that the collection phase can grow, disciplined or not: the conditions under
    which the shape decides how well the critical path is attributed. */
module ProtocolShapes {
  import opened Dpst
  import opened Growth
  import opened Collector
  import opened Attribution
  import opened Protocol
  import opened ProtocolRuns

  /** A task, or the FINISH of a spawn_root_and_wait, is created together with its first step. */
  lemma {:induction false} GrowsInner(d: Tree, p: nat, kind: NodeType, callSite: nat)
    requires Grown(d) && |d| >= 2 && p < |d| && kind in {ASYNC, FINISH} && (kind == ASYNC ==> Sync(d, p))
    ensures Grown(d + [InnerNode(p, kind, callSite), StepNode(|d|)])
  {
    var e := d + [InnerNode(p, kind, callSite), StepNode(|d|)];
    Extends(d, e);
  }

  /** An implicit FINISH is created together with its first task. */
  lemma {:induction false} GrowsSync(d: Tree, p: nat, callSite: nat)
    requires Grown(d) && |d| >= 2 && p < |d|
    ensures Grown(d + [InnerNode(p, FINISH, 0), InnerNode(|d|, ASYNC, callSite), StepNode(|d| + 1)])
  {
    var e := d + [InnerNode(p, FINISH, 0), InnerNode(|d|, ASYNC, callSite), StepNode(|d| + 1)];
    Extends(d, e);
  }

  lemma {:induction false} GrowsStep(d: Tree, p: nat)
    requires Grown(d) && |d| >= 2
    ensures Grown(d + [StepNode(p)])
  {
    Extends(d, d + [StepNode(p)]);
  }

  lemma {:induction false} Extends(d: Tree, e: Tree)
    requires Grown(d) && d <= e
    ensures forall v {:trigger e[v]} :: 0 <= v < |d| ==> e[v] == d[v] && Sync(e, v) == Sync(d, v)
    ensures forall c {:trigger e[c].kind} :: 2 <= c < |d| && e[c].kind == ASYNC ==> e[c].parent < |d| && Sync(e, e[c].parent)
    ensures forall v {:trigger e[v].kind} :: 1 <= v < |d| && e[v].kind != STEP ==>
              v + 1 < |d| && e[v + 1].parent == v && (e[v + 1].kind == STEP || (Sync(e, v) && e[v + 1].kind == ASYNC))
  {
    forall v | 0 <= v < |d| ensures e[v] == d[v] && Sync(e, v) == Sync(d, v) {
    }
    forall c | 2 <= c < |d| && e[c].kind == ASYNC ensures e[c].parent < |d| && Sync(e, e[c].parent) {
      assert d[c].kind == ASYNC;
    }
    forall v | 1 <= v < |d| && e[v].kind != STEP
      ensures v + 1 < |d| && e[v + 1].parent == v && (e[v + 1].kind == STEP || (Sync(e, v) && e[v + 1].kind == ASYNC))
    {
      assert e[v] == d[v] && d[v].kind != STEP;
      assert e[v + 1] == d[v + 1];
    }
  }

  /** The top of a stack that has spawned a task is an implicit FINISH. */
  lemma {:induction false} TopIsSync(s: Sys, t: nat)
    requires Inv(s) && Active(s.c, t)
    ensures Top(s.c.stacks[t]).id < |s.tree| == s.c.last && |s.tree| >= 2
    ensures Top(s.c.stacks[t]).young == ASYNC ==> Sync(s.tree, Top(s.c.stacks[t]).id)
  {
    hide PendingOk, StepsOk, LogOk, Blocked, PausesOk, Ordered;
    var st := s.c.stacks[t];
    assert StackOk(s.tree, s.at, st, t);
    assert Top(st) == st[|st| - 1];
    assert st[|st| - 1].young == ASYNC ==> st[|st| - 1].sync;
    assert st[|st| - 1].sync ==> Implicit(s.tree, st[|st| - 2].id, st[|st| - 1].id);
    assert st[|st| - 1].sync ==> 1 <= st[|st| - 2].id;
    RootHasNoParent(s);
  }

  lemma {:induction false} RootHasNoParent(s: Sys)
    requires Inv(s)
    ensures |s.tree| >= 2 && s.tree[1].parent == 0
  {
    hide LogOk, Blocked, PausesOk, PendingOk, StepsOk, StacksOk;
    ValidTree(s);
  }

  lemma {:induction false} GrownSpawn(s: Sys, t: nat, callSite: nat, more: bool)
    requires Inv(s) && Active(s.c, t) && Grown(s.tree)
    ensures Grown(s.tree + SpawnTree(s, t, callSite, more))
  {
    hide Inv, Grown;
    TopIsSync(s, t);
    var d, cur, n := s.tree, Top(s.c.stacks[t]), s.c.last;
    if cur.young == ASYNC {
      GrowsInner(d, cur.id, ASYNC, callSite);
      var e := d + [InnerNode(cur.id, ASYNC, callSite), StepNode(n)];
      GrowsStep(e, cur.id);
      assert d + SpawnTree(s, t, callSite, more) == if more then e + [StepNode(cur.id)] else e;
    } else {
      GrowsSync(d, cur.id, callSite);
      var e := d + [InnerNode(cur.id, FINISH, 0), InnerNode(n, ASYNC, callSite), StepNode(n + 1)];
      GrowsStep(e, n);
      assert d + SpawnTree(s, t, callSite, more) == if more then e + [StepNode(n)] else e;
    }
  }

  lemma {:induction false} GrownKept(s: Sys, e: Event)
    requires Inv(s) && Enabled(s, e) && Grown(s.tree)
    ensures Grown(Next(s, e).tree)
  {
    hide Inv, Grown, Quiescent, SpawnTree, SpawnAt, SpawnPos;
    NextDefined(s, e);
    match e
    case Spawn(t, site) => GrownSpawn(s, t, CallSiteOf(site), true);
    case SpawnAll(t, site) => GrownSpawn(s, t, CallSiteOf(site), false);
    case SpawnRoot(t, site) =>
      TopIsSync(s, t);
      GrowsInner(s.tree, Top(s.c.stacks[t]).id, FINISH, CallSiteOf(site));
    case Resume(t) =>
      TopIsSync(s, t);
      GrowsStep(s.tree, Top(s.c.stacks[t]).id);
      if |s.c.stacks[t]| > 1 {
        GrowsStep(s.tree, Top(Pop(s.c.stacks[t])).id);
      }
    case _ =>
  }

  /** Every tree that a run can grow: tasks hang below FINISH nodes without a call site, and every inner
      node has its first child directly behind it. */
  lemma {:induction false} GrownRun(threads: nat, es: seq<Event>)
    requires threads > 0 && Run(threads, es).Some?
    ensures Grown(Run(threads, es).value.tree)
    decreases |es|
  {
    hide Inv, Next, Enabled, Grown;
    if es != [] {
      GrownRun(threads, es[..|es| - 1]);
      GrownKept(Run(threads, es[..|es| - 1]).value, es[|es| - 1]);
    } else {
      InitialGrown(threads);
    }
  }

  lemma {:induction false} InitialGrown(threads: nat)
    requires threads > 0
    ensures Grown(Initial(threads).tree)
  {
  }

  lemma {:induction false} SameGrown(d: Tree, e: Tree)
    requires SameShape(d, e) && Grown(d)
    ensures Grown(e)
  {
    forall v | 0 <= v < |d| ensures e[v] == d[v].(work := e[v].work) && Sync(e, v) == Sync(d, v) {
    }
    forall v | 1 <= v < |e| && e[v].kind != STEP
      ensures v + 1 < |e| && e[v + 1].parent == v && (e[v + 1].kind == STEP || (Sync(e, v) && e[v + 1].kind == ASYNC))
    {
      assert d[v].kind != STEP;
    }
    forall c | 2 <= c < |e| && e[c].kind == ASYNC ensures e[c].parent < |e| && Sync(e, e[c].parent) {
      assert d[c].kind == ASYNC;
    }
  }

  lemma {:induction false} FinishedGrown(threads: nat, es: seq<Event>)
    requires threads > 0 && Run(threads, es).Some? && Finished(Run(threads, es).value)
    ensures var c := Run(threads, es).value.c; Grown(LoggedTree(c.log, c.last))
  {
    hide Run, Inv, Finished, Grown;
    var s := Run(threads, es).value;
    FinishedState(s);
    GrownRun(threads, es);
    SameGrown(s.tree, LoggedTree(s.c.log, s.c.last));
  }
}
