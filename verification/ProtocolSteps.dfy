/** Every step of the collection protocol keeps its invariant. */
module ProtocolSteps {
  import opened Dpst
  import opened Growth
  import opened Collector
  import opened Protocol

  // ---- what stays explained ----

  ghost predicate SameSpine(a: Stack, b: Stack) {
    && |a| <= |b|
    && forall k {:trigger b[k]} {:trigger a[k]} :: 0 <= k < |a| ==> b[k].id == a[k].id && b[k].sync == a[k].sync
  }

  /** Stacks and scheduler calls are extended only. */
  ghost predicate Extends(stacks: seq<Stack>, stacks': seq<Stack>, pauses: seq<seq<Pause>>, pauses': seq<seq<Pause>>) {
    && |stacks| == |stacks'| == |pauses| == |pauses'|
    && (forall t {:trigger stacks'[t]} {:trigger stacks[t]} :: 0 <= t < |stacks| ==> SameSpine(stacks[t], stacks'[t]))
    && (forall t {:trigger pauses'[t]} {:trigger pauses[t]} :: 0 <= t < |pauses| ==> pauses[t] <= pauses'[t])
  }

  lemma {:induction false} KeepExplained(stacks: seq<Stack>, stacks': seq<Stack>, pauses: seq<seq<Pause>>,
                                         pauses': seq<seq<Pause>>, f: nat, t: nat, k: nat)
    requires Extends(stacks, stacks', pauses, pauses') && Explained(stacks, pauses, f, t, k)
    ensures Explained(stacks', pauses', f, t, k)
  {
    var ps, qs := pauses[t], pauses'[t];
    assert SameSpine(stacks[t], stacks'[t]) && ps <= qs;
    if ExplainedByWait(ps, f, k) {
      var j :| 0 <= j < |ps| && ps[j].why == ForRoot(f) && |ps[j].stack| == k + 1;
      assert qs[j] == ps[j];
    }
  }

  // ---- nesting of scheduler calls ----

  /** The running frame of a thread changes. */
  lemma {:induction false} NestFrame(d: Tree, e: Tree, st: Stack, st': Stack, ps: seq<Pause>)
    requires Nested(d, st, ps, false) && d <= e && SameSpine(st, st')
    requires st'[..|st| - 1] == st[..|st| - 1]
    requires forall k :: |st| <= k < |st'| ==> st'[k].sync
    ensures Nested(e, st', ps, false)
  {
    forall j | 0 <= j < |ps| ensures ps[j].stack == st'[..|ps[j].stack|] {
      assert |ps[j].stack| <= |ps[|ps| - 1].stack| < |st|;
      assert ps[j].stack == st[..|ps[j].stack|];
    }
    forall j | 0 <= j < |ps| && |ps[j].stack| < |st'| ensures !st'[|ps[j].stack|].sync {
      assert |ps[j].stack| <= |ps[|ps| - 1].stack| < |st|;
      assert !st[|ps[j].stack|].sync;
    }
    forall k: nat | k < |st'| && !st'[k].sync ensures FrameStart(ps, k) {
      assert k < |st|;
      assert !st[k].sync;
    }
  }

  lemma {:induction false} NestTree(d: Tree, e: Tree, st: Stack, ps: seq<Pause>, scheduling: bool)
    requires Nested(d, st, ps, scheduling) && d <= e
    ensures Nested(e, st, ps, scheduling)
  {
  }

  lemma {:induction false} LayerPush(st: Stack, ps: seq<Pause>, p: Pause)
    requires Layered(st, ps) && |ps| > 0 && |Last(ps).stack| < |st| && p.stack == st
    ensures Layered(st, ps + [p])
  {
    var qs := ps + [p];
    forall j | 0 <= j < |ps| ensures qs[j] == ps[j] && |ps[j].stack| < |st| {
      assert |ps[j].stack| <= |ps[|ps| - 1].stack|;
    }
    assert st[..|st|] == st;
  }

  lemma {:induction false} StartsPush(st: Stack, ps: seq<Pause>, p: Pause, k: nat)
    requires FrameStart(ps, k)
    ensures FrameStart(ps + [p], k)
  {
    var j :| 0 <= j < |ps| && |ps[j].stack| == k;
    assert (ps + [p])[j] == ps[j];
  }

  /** The thread enters the scheduler. */
  lemma {:induction false} NestPush(d: Tree, st: Stack, ps: seq<Pause>, why: Why)
    requires Nested(d, st, ps, false) && Purposeful(d, Pause(why, st))
    ensures Nested(d, st, ps + [Pause(why, st)], true)
  {
    hide Layered, FrameStart, Purposeful;
    var qs := ps + [Pause(why, st)];
    LayerPush(st, ps, Pause(why, st));
    forall k: nat | k < |st| && !st[k].sync ensures FrameStart(qs, k) {
      StartsPush(st, ps, Pause(why, st), k);
    }
    forall j | 0 < j < |qs| ensures Purposeful(d, qs[j]) {
      if j < |ps| {
        assert qs[j].why == ps[j].why;
      }
    }
  }

  /** A task starts on the stack of the scheduler call. */
  lemma {:induction false} NestBegin(d: Tree, st: Stack, ps: seq<Pause>, n: OpenNode)
    requires Nested(d, st, ps, true) && !n.sync
    ensures Nested(d, st + [n], ps, false)
  {
    var st' := st + [n];
    forall j | 0 <= j < |ps| ensures ps[j].stack == st'[..|ps[j].stack|] {
      assert ps[j].stack == st[..|ps[j].stack|];
    }
    assert |ps[|ps| - 1].stack| == |st|;
    assert FrameStart(ps, |st|);
    forall k: nat | k < |st'| && !st'[k].sync ensures FrameStart(ps, k) {
      if k < |st| {
        assert !st[k].sync;
      }
    }
  }

  /** The stack of a task that ends is again what it was when the task started. */
  lemma {:induction false} NestEnd(d: Tree, st: Stack, ps: seq<Pause>)
    requires Nested(d, st, ps, false) && AtMostOneSync(st)
    ensures Returned(st) == Last(ps).stack
    ensures Nested(d, Returned(st), ps, true)
  {
    var k := if Top(st).sync then |st| - 2 else |st| - 1;
    var b := |ps[|ps| - 1].stack|;
    assert !st[k].sync;
    var j :| 0 <= j < |ps| && |ps[j].stack| == k;
    assert |ps[j].stack| <= b;
    assert !st[b].sync;
    assert b == k;
    assert Returned(st) == st[..k];
    forall i | 0 <= i < |ps| ensures ps[i].stack == st[..k][..|ps[i].stack|] && |ps[i].stack| <= k {
      assert |ps[i].stack| <= b;
    }
    forall i: nat | i < k && !st[..k][i].sync ensures FrameStart(ps, i) {
      assert !st[i].sync;
    }
  }

  /** The scheduler call returns. */
  lemma {:induction false} NestPop(d: Tree, st: Stack, ps: seq<Pause>)
    requires Nested(d, st, ps, true) && |ps| > 1
    ensures Nested(d, st, ps[..|ps| - 1], false)
  {
    var qs := ps[..|ps| - 1];
    forall k: nat | k < |st| && !st[k].sync ensures FrameStart(qs, k) {
      var j :| 0 <= j < |ps| && |ps[j].stack| == k;
      assert j < |qs| && qs[j] == ps[j];
    }
    assert |ps[|qs| - 1].stack| < |ps[|qs|].stack|;
  }

  // ---- the current step ends ----

  lemma {:induction false} EndStepPlaces(d: Tree, at: seq<Place>, stacks: seq<Stack>, mode: seq<Mode>,
                                         pending: map<nat, OpenNode>, tasks: nat, t: nat)
    requires t < |mode| && mode[t] == Computing
    requires StacksOk(d, at, stacks) && PendingOk(d, at, pending, tasks) && StepsOk(d, at, stacks, mode, pending)
    ensures |stacks[t]| > 0 && OpenChild(d, at, Top(stacks[t]))
    ensures var at' := at[Top(stacks[t]).child := Gone];
            && StacksOk(d, at', stacks) && PendingOk(d, at', pending, tasks)
            && StepsOk(d, at', stacks, mode[t := Between], pending)
            && Live(at') == Live(at) && Open(at') == Open(at) - {Top(stacks[t]).child}
  {
    var at' := at[Top(stacks[t]).child := Gone];
    forall u | 0 <= u < |stacks| ensures StackOk(d, at', stacks[u], u) {
    }
  }

  lemma {:induction false} EndStepLog(d: Tree, at: seq<Place>, pos: seq<int>, log: seq<Record>, r: Record)
    requires LogOk(d, at, pos, log)
    requires 0 < r.id < |at| && at[r.id].Running? && Describes(r, d[r.id])
    ensures LogOk(d, at[r.id := Gone], pos[r.id := |log|], log + [r])
  {
  }

  lemma {:induction false} KeepBlocked(d: Tree, at: seq<Place>, at': seq<Place>, stacks: seq<Stack>, stacks': seq<Stack>,
                                       pauses: seq<seq<Pause>>, pauses': seq<seq<Pause>>)
    requires Blocked(d, at, stacks, pauses) && Extends(stacks, stacks', pauses, pauses')
    requires |at'| == |at| && Live(at') <= Live(at)
    requires forall i {:trigger at'[i].OnStack?} :: 0 <= i < |at| && at'[i].OnStack? ==> at'[i] == at[i]
    ensures Blocked(d, at', stacks', pauses')
  {
    forall f: nat, x: nat | 2 <= f < |d| && d[f].kind == FINISH && x in Live(at') && Below(d, f, x)
                            && d[f].parent < |at| && at'[d[f].parent].OnStack?
      ensures Explained(stacks', pauses', f, at'[d[f].parent].thread, at'[d[f].parent].depth)
    {
      KeepExplained(stacks, stacks', pauses, pauses', f, at[d[f].parent].thread, at[d[f].parent].depth);
    }
  }

  lemma {:induction false} EndStepInv(s: Sys, t: nat, work: nat)
    requires Inv(s) && Enabled(s, EndStep(t, work))
    ensures Inv(Next(s, EndStep(t, work)))
  {
    hide Ordered, Blocked, Nested, LogOk;
    EndStepPlaces(s.tree, s.at, s.c.stacks, s.mode, s.c.pending, s.tasks, t);
    var top := Top(s.c.stacks[t]);
    var n := AfterEndStep(s, t, work);
    assert Describes(Record(top.child, top.id, work, STEP, 0), s.tree[top.child]);
    EndStepLog(s.tree, s.at, s.pos, s.c.log, Record(top.child, top.id, work, STEP, 0));
    EndStepOrdered(s.tree, s.at, n.at);
    KeepBlocked(s.tree, s.at, n.at, s.c.stacks, n.c.stacks, s.pauses, n.pauses);
  }

  lemma {:induction false} EndStepOrdered(d: Tree, at: seq<Place>, at': seq<Place>)
    requires Ordered(d, Live(at), Open(at)) && Live(at') == Live(at) && Open(at') <= Open(at)
    ensures Ordered(d, Live(at'), Open(at'))
  {
    Shrink(d, Live(at), Open(at), Live(at'), Open(at'));
  }

  // ---- wait_for_all enters the scheduler ----

  lemma {:induction false} PauseExtends(stacks: seq<Stack>, stacks': seq<Stack>, pauses: seq<seq<Pause>>, t: nat, p: Pause)
    requires |stacks| == |pauses| == |stacks'| && t < |stacks|
    requires stacks' == stacks[t := stacks'[t]] && SameSpine(stacks[t], stacks'[t])
    ensures Extends(stacks, stacks', pauses, pauses[t := pauses[t] + [p]])
    ensures Extends(stacks, stacks', pauses, pauses)
  {
  }

  /** A thread that is not executing a step may change its mode. */
  lemma {:induction false} KeepSteps(d: Tree, at: seq<Place>, stacks: seq<Stack>, mode: seq<Mode>,
                                     pending: map<nat, OpenNode>, t: nat)
    requires t < |mode| && mode[t] != Computing && StepsOk(d, at, stacks, mode, pending)
    ensures StepsOk(d, at, stacks, mode[t := Scheduling], pending)
  {
  }

  lemma {:induction false} WaitAllInv(s: Sys, t: nat)
    requires Inv(s) && Enabled(s, WaitAll(t))
    ensures Inv(Next(s, WaitAll(t)))
  {
    hide Ordered, Blocked, Nested, LogOk, StacksOk, PendingOk, StepsOk, TreeOk;
    var n, st := AfterWaitAll(s, t), s.c.stacks[t];
    KeepSteps(s.tree, s.at, s.c.stacks, s.mode, s.c.pending, t);
    NestPush(s.tree, st, s.pauses[t], ForTasks);
    PauseExtends(s.c.stacks, s.c.stacks, s.pauses, t, Pause(ForTasks, st));
    assert forall i :: 0 <= i < |s.at| && n.at[i].OnStack? ==> n.at[i] == s.at[i];
    KeepBlocked(s.tree, s.at, n.at, s.c.stacks, n.c.stacks, s.pauses, n.pauses);
  }

  // ---- a task starts ----

  lemma {:induction false} BeginPlaces(d: Tree, at: seq<Place>, stacks: seq<Stack>, mode: seq<Mode>,
                                       pending: map<nat, OpenNode>, tasks: nat, t: nat, k: nat)
    requires t < |mode| && mode[t] == Scheduling && k in pending
    requires StacksOk(d, at, stacks) && PendingOk(d, at, pending, tasks) && StepsOk(d, at, stacks, mode, pending)
    ensures pending[k].id < |at| && at[pending[k].id] == Pending(k) && !pending[k].sync && |stacks| == |mode|
    ensures var st, n := stacks[t], pending[k];
            var at' := at[n.id := OnStack(t, |st|)];
            && StacksOk(d, at', stacks[t := st + [n]]) && PendingOk(d, at', pending - {k}, tasks)
            && StepsOk(d, at', stacks[t := st + [n]], mode[t := Computing], pending - {k})
            && Live(at') == Live(at) && Open(at') == Open(at)
  {
    var st, n := stacks[t], pending[k];
    assert Unstarted(d, at, k, n);
    var at', stacks' := at[n.id := OnStack(t, |st|)], stacks[t := st + [n]];
    BeginStacks(d, at, stacks, t, k, n);
    forall j | j in pending - {k} ensures Unstarted(d, at', j, pending[j]) {
      assert Unstarted(d, at, j, pending[j]);
    }
    BeginSteps(d, at, stacks, mode, pending, t, k);
    assert forall i :: 0 <= i < |at| && i != n.id ==> at'[i] == at[i];
  }

  lemma {:induction false} BeginStacks(d: Tree, at: seq<Place>, stacks: seq<Stack>, t: nat, k: nat, n: OpenNode)
    requires StacksOk(d, at, stacks) && t < |stacks| && 1 <= n.id < |at| && at[n.id] == Pending(k) && !n.sync && n.young == NO_TYPE
    ensures StacksOk(d, at[n.id := OnStack(t, |stacks[t]|)], stacks[t := stacks[t] + [n]])
  {
    var at', stacks' := at[n.id := OnStack(t, |stacks[t]|)], stacks[t := stacks[t] + [n]];
    forall u | 0 <= u < |stacks'| ensures StackOk(d, at', stacks'[u], u) {
      assert StackOk(d, at, stacks[u], u);
    }
    forall i | 0 <= i < |at'| && at'[i].OnStack? ensures Holds(stacks', at'[i].thread, at'[i].depth, i) {
      assert i != n.id ==> at[i].OnStack?;
    }
  }

  lemma {:induction false} BeginSteps(d: Tree, at: seq<Place>, stacks: seq<Stack>, mode: seq<Mode>,
                                      pending: map<nat, OpenNode>, t: nat, k: nat)
    requires t < |mode| && mode[t] == Scheduling && k in pending && |d| == |at| && Unstarted(d, at, k, pending[k])
    requires StepsOk(d, at, stacks, mode, pending)
    ensures var st, n := stacks[t], pending[k];
            StepsOk(d, at[n.id := OnStack(t, |st|)], stacks[t := st + [n]], mode[t := Computing], pending - {k})
  {
    var st, n := stacks[t], pending[k];
    var at', stacks', mode' := at[n.id := OnStack(t, |st|)], stacks[t := st + [n]], mode[t := Computing];
    forall u | 0 <= u < |mode'| && mode'[u] == Computing ensures |stacks'[u]| > 0 && OpenChild(d, at', Top(stacks'[u])) {
      if u != t {
        assert mode[u] == Computing;
      }
    }
    forall a | 0 <= a < |at'| && at'[a].Running?
      ensures d[a].parent < |at'| && Executed(at'[d[a].parent], stacks', mode', pending - {k}, a)
    {
      assert at[a].Running?;
    }
  }

  lemma {:induction false} BeginBlocked(d: Tree, at: seq<Place>, stacks: seq<Stack>, stacks': seq<Stack>,
                                        pauses: seq<seq<Pause>>, k: nat, n: OpenNode, p: Place)
    requires Blocked(d, at, stacks, pauses) && Extends(stacks, stacks', pauses, pauses)
    requires |d| == |at| && Unstarted(d, at, k, n) && d[n.child].kind == STEP && p.OnStack?
    requires Live(at[n.id := p]) == Live(at)
    ensures Blocked(d, at[n.id := p], stacks', pauses)
  {
    var at' := at[n.id := p];
    forall f: nat, x: nat | 2 <= f < |d| && d[f].kind == FINISH && x in Live(at') && Below(d, f, x)
                            && d[f].parent < |at| && at'[d[f].parent].OnStack?
      ensures Explained(stacks', pauses, f, at'[d[f].parent].thread, at'[d[f].parent].depth)
    {
      assert d[f].parent != n.id;
      KeepExplained(stacks, stacks', pauses, pauses, f, at[d[f].parent].thread, at[d[f].parent].depth);
    }
  }

  lemma {:induction false} BeginInv(s: Sys, t: nat, k: nat)
    requires Inv(s) && Enabled(s, Begin(t, k))
    ensures Inv(Next(s, Begin(t, k)))
  {
    hide Ordered, Blocked, Nested, LogOk;
    var n, st, m := AfterBegin(s, t, k), s.c.stacks[t], s.c.pending[k];
    BeginPlaces(s.tree, s.at, s.c.stacks, s.mode, s.c.pending, s.tasks, t, k);
    NestBegin(s.tree, st, s.pauses[t], m);
    PauseExtends(s.c.stacks, n.c.stacks, s.pauses, t, Pause(Idle, []));
    assert Unstarted(s.tree, s.at, k, m);
    BeginBlocked(s.tree, s.at, s.c.stacks, n.c.stacks, s.pauses, k, m, OnStack(t, |st|));
    hide StacksOk, PendingOk, StepsOk;
    SamePositions(s.tree, s.at, n.at, s.pos, s.c.log);
  }

  lemma {:induction false} SamePositions(d: Tree, at: seq<Place>, at': seq<Place>, pos: seq<int>, log: seq<Record>)
    requires LogOk(d, at, pos, log) && |at'| == |at| && Open(at') == Open(at)
    ensures LogOk(d, at', pos, log)
  {
    forall i | 1 <= i < |pos| ensures if at'[i].Running? then pos[i] == -1 else 0 <= pos[i] < |log| && log[pos[i]].id == i {
      assert at'[i].Running? <==> i in Open(at');
      assert at[i].Running? <==> i in Open(at);
    }
  }

  // ---- a task ends ----

  lemma {:induction false} EndTaskStacks(d: Tree, at: seq<Place>, stacks: seq<Stack>, t: nat, k: nat)
    requires StacksOk(d, at, stacks) && t < |stacks| && 0 <= k < |stacks[t]|
    ensures stacks[t][k].id < |at| && at[stacks[t][k].id] == OnStack(t, k)
    ensures k == |stacks[t]| - 1 ==> StacksOk(d, at[stacks[t][k].id := Gone], stacks[t := stacks[t][..k]])
  {
    var st := stacks[t];
    assert st[k].id == st[k].id;
    var at', stacks' := at[st[k].id := Gone], stacks[t := st[..k]];
    if k == |st| - 1 {
      forall u | 0 <= u < |stacks'| ensures StackOk(d, at', stacks'[u], u) {
        assert StackOk(d, at, stacks[u], u);
      }
      forall i | 0 <= i < |at'| && at'[i].OnStack? ensures Holds(stacks', at'[i].thread, at'[i].depth, i) {
        assert at[i].OnStack?;
      }
    }
  }

  lemma {:induction false} EndTaskSteps(d: Tree, at: seq<Place>, stacks: seq<Stack>, mode: seq<Mode>,
                                        pending: map<nat, OpenNode>, t: nat, v: nat)
    requires t < |mode| && mode[t] != Computing && |mode| == |stacks| && |stacks[t]| > 0
    requires StepsOk(d, at, stacks, mode, pending) && v < |at| && at[v] == OnStack(t, |stacks[t]| - 1)
    ensures StepsOk(d, at[v := Gone], stacks[t := Pop(stacks[t])], mode, pending)
  {
    var at', stacks' := at[v := Gone], stacks[t := Pop(stacks[t])];
    forall a | 0 <= a < |at'| && at'[a].Running?
      ensures d[a].parent < |at'| && Executed(at'[d[a].parent], stacks', mode, pending, a)
    {
      assert at[a].Running?;
    }
  }

  lemma {:induction false} EndTaskPending(d: Tree, at: seq<Place>, pending: map<nat, OpenNode>, tasks: nat, v: nat)
    requires PendingOk(d, at, pending, tasks) && v < |at| && at[v].OnStack?
    ensures PendingOk(d, at[v := Gone], pending, tasks)
  {
    var at' := at[v := Gone];
    forall j | j in pending ensures Unstarted(d, at', j, pending[j]) {
      assert Unstarted(d, at, j, pending[j]);
    }
  }

  /** Closing the top node of a thread that executes no step. */
  lemma {:induction false} EndTaskPlaces(d: Tree, at: seq<Place>, stacks: seq<Stack>, mode: seq<Mode>,
                                         pending: map<nat, OpenNode>, tasks: nat, t: nat)
    requires t < |mode| && mode[t] != Computing && |mode| == |stacks| && |stacks[t]| > 0
    requires StacksOk(d, at, stacks) && PendingOk(d, at, pending, tasks) && StepsOk(d, at, stacks, mode, pending)
    ensures Top(stacks[t]).id < |at| && at[Top(stacks[t]).id] == OnStack(t, |stacks[t]| - 1)
    ensures var at', stacks' := at[Top(stacks[t]).id := Gone], stacks[t := Pop(stacks[t])];
            && StacksOk(d, at', stacks') && PendingOk(d, at', pending, tasks) && StepsOk(d, at', stacks', mode, pending)
            && Live(at') <= Live(at) && Open(at') == Open(at)
  {
    EndTaskStacks(d, at, stacks, t, |stacks[t]| - 1);
    var v := Top(stacks[t]).id;
    EndTaskSteps(d, at, stacks, mode, pending, t, v);
    EndTaskPending(d, at, pending, tasks, v);
    hide StacksOk, PendingOk, StepsOk;
    var at' := at[v := Gone];
    assert forall i {:trigger at'[i]} :: 0 <= i < |at| && i != v ==> at'[i] == at[i];
  }

  /** What remains on the stack is not followed by the task that was popped. */
  lemma {:induction false} EndTaskBlocked(d: Tree, at: seq<Place>, at': seq<Place>, stacks: seq<Stack>,
                                          pauses: seq<seq<Pause>>, t: nat, b: nat)
    requires Blocked(d, at, stacks, pauses) && t < |stacks| && b < |stacks[t]| && !stacks[t][b].sync
    requires |at'| == |at| && Live(at') <= Live(at) && StacksOk(d, at', stacks[t := stacks[t][..b]])
    requires forall i {:trigger at'[i].OnStack?} :: 0 <= i < |at| && at'[i].OnStack? ==> at'[i] == at[i]
    ensures Blocked(d, at', stacks[t := stacks[t][..b]], pauses)
  {
    var stacks' := stacks[t := stacks[t][..b]];
    forall f: nat, x: nat | 2 <= f < |d| && d[f].kind == FINISH && x in Live(at') && Below(d, f, x)
                            && d[f].parent < |at| && at'[d[f].parent].OnStack?
      ensures Explained(stacks', pauses, f, at'[d[f].parent].thread, at'[d[f].parent].depth)
    {
      var p := d[f].parent;
      assert Explained(stacks, pauses, f, at[p].thread, at[p].depth);
      assert Holds(stacks', at'[p].thread, at'[p].depth, p);
    }
  }

  /** The nodes that CaptureReturn closes. */
  lemma {:induction false} EndTaskCloses(d: Tree, at: seq<Place>, stacks: seq<Stack>, mode: seq<Mode>,
                                         pending: map<nat, OpenNode>, tasks: nat, t: nat)
    requires t < |mode| && mode[t] != Computing && |mode| == |stacks| && CanReturn(stacks[t])
    requires StacksOk(d, at, stacks) && PendingOk(d, at, pending, tasks) && StepsOk(d, at, stacks, mode, pending)
    ensures Top(stacks[t]).id < |at| && (Top(stacks[t]).sync ==> Top(Pop(stacks[t])).id < |at|)
    ensures var at1, stacks' := at[Top(stacks[t]).id := Gone], stacks[t := Returned(stacks[t])];
            var at' := if Top(stacks[t]).sync then at1[Top(Pop(stacks[t])).id := Gone] else at1;
            && StacksOk(d, at', stacks') && PendingOk(d, at', pending, tasks) && StepsOk(d, at', stacks', mode, pending)
            && Live(at') <= Live(at) && Open(at') == Open(at)
            && (forall i {:trigger at'[i].OnStack?} :: 0 <= i < |at| && at'[i].OnStack? ==> at'[i] == at[i])
  {
    hide StacksOk, PendingOk, StepsOk, Live, Open;
    EndTaskPlaces(d, at, stacks, mode, pending, tasks, t);
    if Top(stacks[t]).sync {
      var stacks1 := stacks[t := Pop(stacks[t])];
      EndTaskPlaces(d, at[Top(stacks[t]).id := Gone], stacks1, mode, pending, tasks, t);
      assert stacks1[t := Pop(stacks1[t])] == stacks[t := Returned(stacks[t])];
    }
  }

  lemma {:induction false} EndTaskInv(s: Sys, t: nat)
    requires Inv(s) && Enabled(s, EndTask(t))
    ensures Inv(Next(s, EndTask(t)))
  {
    hide Ordered, Blocked, Nested, LogOk, StacksOk, PendingOk, StepsOk, Live, Open;
    var st, ps := s.c.stacks[t], s.pauses[t];
    NestEnd(s.tree, st, ps);
    EndTaskCloses(s.tree, s.at, s.c.stacks, s.mode, s.c.pending, s.tasks, t);
    var n := AfterEndTask(s, t);
    KeepSteps(s.tree, n.at, n.c.stacks, s.mode, s.c.pending, t);
    SamePositions(s.tree, s.at, n.at, s.pos, s.c.log);
    LastFrame(s.tree, st, ps);
    EndTaskBlocked(s.tree, s.at, n.at, s.c.stacks, s.pauses, t, |Last(ps).stack|);
    OpenParents(s.tree, n.at, n.c.stacks, n.mode, n.c.pending);
    Shrink(s.tree, Live(s.at), Open(s.at), Live(n.at), Open(n.at));
  }

  /** CaptureReturn at the end of a task keeps the invariant if and only if at most one implicit FINISH is
      open in the frame of the task: this is all that the guard of EndTask excludes. */
  lemma {:induction false} EndTaskIff(s: Sys, t: nat)
    requires Inv(s) && t < |s.mode| && s.mode[t] == Between && (t > 0 || |s.pauses[t]| > 1)
    ensures Indexed(s, t) && |s.c.stacks[t]| > 0 && CanReturn(s.c.stacks[t]) && Top(s.c.stacks[t]).id < |s.at|
    ensures Top(s.c.stacks[t]).sync ==> Top(Pop(s.c.stacks[t])).id < |s.at|
    ensures Inv(AfterEndTask(s, t)) <==> AtMostOneSync(s.c.stacks[t])
  {
    hide Ordered, Blocked, LogOk, PendingOk, StepsOk, Live, Open, Nested, TreeOk;
    var st, ps := s.c.stacks[t], s.pauses[t];
    assert Nested(s.tree, st, ps, false);
    LastFrame(s.tree, st, ps);
    assert StackOk(s.tree, s.at, st, t);
    assert st[|st| - 1].id < |s.at| && (|st| > 1 ==> st[|st| - 2].id < |s.at|);
    assert st[|st| - 1].sync ==> |st| > 1;
    if AtMostOneSync(st) {
      assert Enabled(s, EndTask(t));
      EndTaskInv(s, t);
    } else if Inv(AfterEndTask(s, t)) {
      Scheduled(AfterEndTask(s, t), t);
    }
  }

  lemma {:induction false} Scheduled(s: Sys, t: nat)
    requires Inv(s) && t < |s.mode| && s.mode[t] == Scheduling
    ensures t < |s.pauses| && t < |s.c.stacks| && |s.pauses[t]| > 0 && Last(s.pauses[t]).stack == s.c.stacks[t]
  {
    hide Ordered, Blocked, LogOk, PendingOk, StepsOk, StacksOk, TreeOk;
    assert Nested(s.tree, s.c.stacks[t], s.pauses[t], true);
  }

  lemma {:induction false} LastFrame(d: Tree, st: Stack, ps: seq<Pause>)
    requires Nested(d, st, ps, false)
    ensures |ps| > 0 && |Last(ps).stack| < |st| && Last(ps).stack == st[..|Last(ps).stack|] && !st[|Last(ps).stack|].sync
  {
    assert ps[|ps| - 1].stack == Last(ps).stack;
  }

  /** Only live nodes execute steps. */
  lemma {:induction false} OpenParents(d: Tree, at: seq<Place>, stacks: seq<Stack>, mode: seq<Mode>, pending: map<nat, OpenNode>)
    requires StepsOk(d, at, stacks, mode, pending)
    ensures forall a :: a in Open(at) ==> d[a].parent in Live(at)
  {
    forall a | a in Open(at) ensures d[a].parent in Live(at) {
      assert at[a].Running?;
    }
  }
}
