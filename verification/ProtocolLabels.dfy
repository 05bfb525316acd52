/** What a disciplined run guarantees about node types and call sites: the shape under which the
    analysis phase attributes the whole critical path. */
module ProtocolLabels {
  import opened Dpst
  import opened Attribution
  import opened Growth
  import opened Collector
  import opened Protocol
  import opened ProtocolGrowth
  import opened ProtocolEvents
  import opened ProtocolRuns
  import opened ProtocolDiscipline
  import TaskProfiler

  /** Node `v` is not an implicit FINISH. */
  predicate Plain(d: Tree, v: nat) {
    v < |d| && !Sync(d, v)
  }

  /** Tasks hang below implicit FINISH nodes only, and the stacks know which nodes are implicit. */
  ghost predicate Labelled(d: Tree, stacks: seq<Stack>, pending: map<nat, OpenNode>) {
    && Alternating(d)
    && (forall t, k {:trigger stacks[t][k].id} :: 0 <= t < |stacks| && 0 <= k < |stacks[t]| && !stacks[t][k].sync ==>
          Plain(d, stacks[t][k].id))
    && (forall k {:trigger pending[k]} :: k in pending ==> Plain(d, pending[k].id))
  }

  /** The root of a spawn_root_and_wait has a known call site. */
  predicate Named(e: Event) {
    e.SpawnRoot? ==> CallSiteOf(e.site) != 0
  }

  predicate Fits(d: Tree, n: Node) {
    n.parent < |d| && (n.kind == STEP || n.kind == if Sync(d, n.parent) then ASYNC else FINISH)
  }

  lemma {:induction false} LabelAppend(d: Tree, stacks: seq<Stack>, pending: map<nat, OpenNode>, n: Node)
    requires Labelled(d, stacks, pending) && Fits(d, n)
    requires forall i {:trigger d[i].parent} :: 0 < i < |d| ==> d[i].parent < |d|
    ensures Labelled(d + [n], stacks, pending)
  {
    var e := d + [n];
    assert forall v: nat :: v < |d| ==> Sync(e, v) == Sync(d, v);
    forall c | 2 <= c < |e| && e[c].parent < |e|
      ensures e[c].kind == STEP || e[c].kind == if Sync(e, e[c].parent) then ASYNC else FINISH
    {
      if c < |d| {
        assert e[c] == d[c];
      }
    }
  }

  lemma {:induction false} LabelStack(d: Tree, stacks: seq<Stack>, pending: map<nat, OpenNode>, t: nat, st: Stack)
    requires Labelled(d, stacks, pending) && t < |stacks|
    requires forall k {:trigger st[k].id} :: 0 <= k < |st| && !st[k].sync ==> Plain(d, st[k].id)
    ensures Labelled(d, stacks[t := st], pending)
  {
  }

  lemma {:induction false} TopSync(s: Sys, t: nat)
    requires Core(s) && Active(s.c, t)
    ensures var n := Top(s.c.stacks[t]);
            n.id < |s.tree| && (n.sync ==> Sync(s.tree, n.id)) && (n.young == ASYNC ==> n.sync)
    ensures |s.tree| == s.c.last && forall i {:trigger s.tree[i].parent} :: 0 < i < |s.tree| ==> s.tree[i].parent < |s.tree|
  {
    hide PendingOk, StepsOk, LogOk, Blocked, FinishOrdered, Youngest, Quiet;
    var st := s.c.stacks[t];
    TopPlace(s.tree, s.at, s.c.stacks, t);
    assert StackOk(s.tree, s.at, st, t);
    assert Top(st) == st[|st| - 1];
    assert st[|st| - 1].sync ==> Implicit(s.tree, st[|st| - 2].id, st[|st| - 1].id);
    assert st[|st| - 1].sync ==> 1 <= st[|st| - 2].id;
  }

  /** The label of the top node. */
  lemma {:induction false} TopPlain(d: Tree, stacks: seq<Stack>, pending: map<nat, OpenNode>, t: nat)
    requires Labelled(d, stacks, pending) && t < |stacks| && |stacks[t]| > 0
    ensures !Top(stacks[t]).sync ==> Plain(d, Top(stacks[t]).id)
  {
    assert Top(stacks[t]) == stacks[t][|stacks[t]| - 1];
    assert stacks[t][|stacks[t]| - 1].id == Top(stacks[t]).id;
  }

  ghost predicate Labels(s: Sys) {
    Labelled(s.tree, s.c.stacks, s.c.pending)
  }

  lemma {:induction false} LabelTouch(d: Tree, stacks: seq<Stack>, pending: map<nat, OpenNode>, t: nat, n: OpenNode, more: Stack)
    requires Labelled(d, stacks, pending) && t < |stacks| && |stacks[t]| > 0
    requires n.id == Top(stacks[t]).id && n.sync == Top(stacks[t]).sync
    requires forall m :: m in more ==> m.sync || Plain(d, m.id)
    ensures Labelled(d, stacks[t := SetTop(stacks[t], n) + more], pending)
  {
    var st := SetTop(stacks[t], n) + more;
    TopPlain(d, stacks, pending, t);
    forall k | 0 <= k < |st| && !st[k].sync ensures Plain(d, st[k].id) {
      if k < |stacks[t]| {
        assert k < |stacks[t]| - 1 ==> stacks[t][k].id == st[k].id;
      } else {
        assert st[k] in more;
      }
    }
    LabelStack(d, stacks, pending, t, st);
  }

  lemma {:induction false} LabelOpenSync(s: Sys, t: nat)
    requires Core(s) && Active(s.c, t) && Labels(s) && !Top(s.c.stacks[t]).sync
    ensures Labels(OpenSync(s, t))
  {
    hide Core, Labelled;
    TopSync(s, t);
    TopPlain(s.tree, s.c.stacks, s.c.pending, t);
    var n := Top(s.c.stacks[t]);
    LabelAppend(s.tree, s.c.stacks, s.c.pending, InnerNode(n.id, FINISH, 0));
    LabelTouch(OpenSync(s, t).tree, s.c.stacks, s.c.pending, t, n.(young := FINISH), [OpenNode(s.c.last, 0, ASYNC, true)]);
  }

  lemma {:induction false} LabelAddTask(s: Sys, t: nat, kind: NodeType, callSite: nat)
    requires Core(s) && Active(s.c, t) && Labels(s)
    requires if Top(s.c.stacks[t]).sync then kind == ASYNC else kind == FINISH && callSite != 0
    ensures Labels(AddTask(s, t, kind, callSite))
  {
    hide Core, Labelled;
    TopSync(s, t);
    TopPlain(s.tree, s.c.stacks, s.c.pending, t);
    var p := Top(s.c.stacks[t]).id;
    var n, l := InnerNode(p, kind, callSite), |s.tree|;
    LabelAppend(s.tree, s.c.stacks, s.c.pending, n);
    LabelAppend(s.tree + [n], s.c.stacks, s.c.pending, StepNode(l));
    LabelPending(s.tree + [n] + [StepNode(l)], s.c.stacks, s.c.pending, s.tasks + 1, NewNode(l).(child := l + 1));
  }

  lemma {:induction false} LabelPending(d: Tree, stacks: seq<Stack>, pending: map<nat, OpenNode>, k: nat, n: OpenNode)
    requires Labelled(d, stacks, pending) && Plain(d, n.id)
    ensures Labelled(d, stacks, pending[k := n])
  {
  }

  lemma {:induction false} LabelStart(d: Tree, stacks: seq<Stack>, pending: map<nat, OpenNode>, t: nat, child: nat)
    requires Labelled(d, stacks, pending) && t < |stacks| && |stacks[t]| > 0 && Top(stacks[t]).id < |d|
    requires forall i {:trigger d[i].parent} :: 0 < i < |d| ==> d[i].parent < |d|
    ensures Labelled(d + [StepNode(Top(stacks[t]).id)], stacks[t := SetTop(stacks[t], Top(stacks[t]).(child := child))], pending)
  {
    hide Labelled;
    var n := Top(stacks[t]);
    LabelAppend(d, stacks, pending, StepNode(n.id));
    LabelTouch(d + [StepNode(n.id)], stacks, pending, t, n.(child := child), []);
    assert SetTop(stacks[t], n.(child := child)) + [] == SetTop(stacks[t], n.(child := child));
  }

  lemma {:induction false} LabelStartStep(s: Sys, t: nat)
    requires Core(s) && Active(s.c, t) && Labels(s) && t < |s.mode|
    ensures Labels(StartStep(s, t))
  {
    hide Core, Labelled;
    TopSync(s, t);
    LabelStart(s.tree, s.c.stacks, s.c.pending, t, s.c.last);
  }

  lemma {:induction false} LabelSpawnTask(s: Sys, t: nat, site: Site)
    requires Core(s) && Planted(s.tree) && Active(s.c, t) && Ready(s, t) && Labels(s) && Flat(s.c.stacks)
    ensures Labels(SpawnTask(s, t, site))
  {
    hide Core, Labels, Flat;
    var s0 := Known(s, site);
    KnownCore(s, site, t);
    TopSync(s, t);
    FlatTop(s.c.stacks, t);
    KnownLabels(s, site);
    if Top(s.c.stacks[t]).young == ASYNC {
      LabelAddTask(s0, t, ASYNC, CallSiteOf(site));
    } else {
      OpenSyncCore(s0, t);
      LabelOpenSync(s0, t);
      LabelAddTask(OpenSync(s0, t), t, ASYNC, CallSiteOf(site));
    }
  }

  lemma {:induction false} KnownLabels(s: Sys, site: Site)
    requires Labels(s)
    ensures Labels(Known(s, site))
  {
  }

  lemma {:induction false} LabelsKept(s: Sys, e: Event)
    requires Inv(s) && Enabled(s, e) && Polite(s, e) && Named(e) && Flat(s.c.stacks) && Labels(s)
    ensures Labels(Next(s, e))
  {
    hide Core, Labelled, Flat, StacksOk, PendingOk, StepsOk, LogOk, PausesOk, Ordered, Blocked, TreeOk, Quiescent, Ready,
         AfterSpawn, AfterSpawnAll, AfterSpawnRoot, AfterResumeRoot, AfterResumeTasks;
    CoreOf(s);
    NextDefined(s, e);
    match e
    case EndStep(_, _) =>
    case Spawn(t, site) =>
      BetweenReady(s, t);
      SpawnTaskCore(s, t, site);
      LabelSpawnTask(s, t, site);
      SpawnIsMoves(s, t, site);
      LabelStartStep(SpawnTask(s, t, site), t);
    case SpawnAll(t, site) =>
      BetweenReady(s, t);
      LabelSpawnTask(s, t, site);
      SpawnAllIsMoves(s, t, site);
    case SpawnRoot(t, site) =>
      BetweenReady(s, t);
      LabelSpawnRoot(s, t, site);
    case WaitAll(_) =>
    case EndTask(t) =>
      LabelPop(s.tree, s.c.stacks, s.c.pending, t, |Returned(s.c.stacks[t])|);
      assert s.c.stacks[t][..|Returned(s.c.stacks[t])|] == Returned(s.c.stacks[t]);
    case Begin(t, k) =>
      LabelBegin(s, t, k);
    case Resume(t) =>
      LabelResume(s, t);
  }

  lemma {:induction false} LabelPop(d: Tree, stacks: seq<Stack>, pending: map<nat, OpenNode>, t: nat, m: nat)
    requires Labelled(d, stacks, pending) && t < |stacks| && m <= |stacks[t]|
    ensures Labelled(d, stacks[t := stacks[t][..m]], pending)
  {
    var st := stacks[t][..m];
    forall k | 0 <= k < m && !st[k].sync ensures Plain(d, st[k].id) {
      assert st[k].id == stacks[t][k].id;
    }
    LabelStack(d, stacks, pending, t, st);
  }

  lemma {:induction false} LabelBegin(s: Sys, t: nat, k: nat)
    requires Labels(s) && t < |s.c.stacks| && k in s.c.pending
    ensures Labelled(s.tree, s.c.stacks[t := s.c.stacks[t] + [s.c.pending[k]]], s.c.pending - {k})
  {
    var n := s.c.pending[k];
    var st := s.c.stacks[t] + [n];
    forall j | 0 <= j < |st| && !st[j].sync ensures Plain(s.tree, st[j].id) {
      assert j < |s.c.stacks[t]| ==> st[j].id == s.c.stacks[t][j].id;
    }
    LabelStack(s.tree, s.c.stacks, s.c.pending, t, st);
  }

  lemma {:induction false} LabelSpawnRoot(s: Sys, t: nat, site: Site)
    requires Core(s) && Ready(s, t) && Indexed(s, t) && Labels(s) && CallSiteOf(site) != 0 && !Top(s.c.stacks[t]).sync
    ensures Labels(AfterSpawnRoot(s, t, site))
  {
    hide Core, Labelled, AfterSpawnRoot;
    TouchedCore(s, t, site);
    LengthOf(s);
    var n := Top(s.c.stacks[t]).(young := FINISH);
    LabelTouch(s.tree, s.c.stacks, s.c.pending, t, n, []);
    assert SetTop(s.c.stacks[t], n) + [] == SetTop(s.c.stacks[t], n);
    EnterCore(Touched(s, t, site), t, ForRoot(|s.tree|));
    LabelAddTask(Enter(Touched(s, t, site), t, ForRoot(|s.tree|)), t, FINISH, CallSiteOf(site));
    SpawnRootIsMoves(s, t, site);
  }

  lemma {:induction false} Bounds(s: Sys, t: nat)
    requires Inv(s) && t < |s.c.stacks|
    ensures |s.tree| == s.c.last && forall i {:trigger s.tree[i].parent} :: 0 < i < |s.tree| ==> s.tree[i].parent < |s.tree|
    ensures forall k {:trigger s.c.stacks[t][k]} :: 0 <= k < |s.c.stacks[t]| ==> s.c.stacks[t][k].id < |s.tree|
  {
    hide PendingOk, StepsOk, LogOk, Blocked, PausesOk, TreeOk, FinishOrdered, Youngest, Quiet;
    assert StackOk(s.tree, s.at, s.c.stacks[t], t);
  }

  lemma {:induction false} LabelResume(s: Sys, t: nat)
    requires Inv(s) && Enabled(s, Resume(t)) && Labels(s)
    ensures Labels(Next(s, Resume(t)))
  {
    hide Inv, Labelled, Quiescent;
    NextDefined(s, Resume(t));
    Bounds(s, t);
    var st := s.c.stacks[t];
    if Last(s.pauses[t]).why == ForTasks {
      LabelPop(s.tree, s.c.stacks, s.c.pending, t, |st| - 1);
      LabelStart(s.tree, s.c.stacks[t := Pop(st)], s.c.pending, t, s.c.last);
    } else {
      LabelStart(s.tree, s.c.stacks, s.c.pending, t, s.c.last);
    }
  }

  // ---- call sites ----

  /** The call site of every explicit FINISH is written to the call-site file. */
  ghost predicate Sites(s: Sys) {
    TaskProfiler.Known(s.tree, s.c.callSites)
  }

  lemma {:induction false} SitesKept(s: Sys, e: Event)
    requires Inv(s) && Enabled(s, e) && Sites(s)
    ensures Sites(Next(s, e))
  {
    hide Inv, Quiescent, SpawnAt, SpawnPos, PushPause, PopPause;
    NextDefined(s, e);
  }

  lemma {:induction false} SitesRun(threads: nat, es: seq<Event>)
    requires threads > 0 && Run(threads, es).Some?
    ensures Sites(Run(threads, es).value)
    decreases |es|
  {
    hide Inv, Next, Enabled, Sites;
    if es != [] {
      SitesRun(threads, es[..|es| - 1]);
      SitesKept(Run(threads, es[..|es| - 1]).value, es[|es| - 1]);
    } else {
      InitialLabels(threads);
    }
  }

  lemma {:induction false} InitialLabels(threads: nat)
    requires threads > 0
    ensures Sites(Initial(threads)) && Labels(Initial(threads))
  {
  }

  lemma {:induction false} LabelsRun(threads: nat, es: seq<Event>)
    requires threads > 0 && Run(threads, es).Some? && Disciplined(threads, es)
    requires forall k {:trigger es[k]} :: 0 <= k < |es| ==> Named(es[k])
    ensures Labels(Run(threads, es).value)
    decreases |es|
  {
    hide Inv, Next, Enabled, Labels, Polite, Named, Flat;
    if es != [] {
      var k := |es| - 1;
      DisciplinedPrefix(threads, es, k);
      DisciplinedRun(threads, es[..k]);
      LabelsRun(threads, es[..k]);
      assert Polite(StateAt(threads, es, k), es[k]);
      LabelsKept(Run(threads, es[..k]).value, es[k]);
    } else {
      InitialLabels(threads);
    }
  }

  lemma {:induction false} SameLabels(d: Tree, e: Tree)
    requires SameShape(d, e)
    ensures Alternating(d) ==> Alternating(e)
    ensures forall m {:trigger TaskProfiler.Known(d, m)} :: TaskProfiler.Known(d, m) ==> TaskProfiler.Known(e, m)
  {
    assert forall v: nat {:trigger d[v]} {:trigger e[v]} :: v < |d| ==>
      d[v].kind == e[v].kind && d[v].callSite == e[v].callSite && d[v].parent == e[v].parent;
    assert forall v: nat {:trigger Sync(e, v)} :: v < |d| ==> Sync(e, v) == Sync(d, v);
  }

  /** The log of a finished run names every call site it uses; if the run is disciplined and every
      root has a known call site, tasks hang below implicit FINISH nodes only. */
  lemma {:induction false} FinishedLabels(threads: nat, es: seq<Event>)
    requires threads > 0 && Run(threads, es).Some? && Finished(Run(threads, es).value)
    ensures var c := Run(threads, es).value.c;
            && TaskProfiler.Known(LoggedTree(c.log, c.last), c.callSites)
            && (Disciplined(threads, es) && (forall k {:trigger es[k]} :: 0 <= k < |es| ==> Named(es[k]))
                ==> Alternating(LoggedTree(c.log, c.last)))
  {
    hide Run, Inv, Alternating, TaskProfiler.Known, Disciplined, Named, SameShape, Finished;
    var s := Run(threads, es).value;
    FinishedState(s);
    SitesRun(threads, es);
    SameLabels(s.tree, LoggedTree(s.c.log, s.c.last));
    if Disciplined(threads, es) && forall k {:trigger es[k]} :: 0 <= k < |es| ==> Named(es[k]) {
      LabelsRun(threads, es);
    }
  }
}
