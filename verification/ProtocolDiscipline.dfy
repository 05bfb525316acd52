/** Stack discipline: what CaptureReturn restores, and when at most one implicit FINISH is open. */
module ProtocolDiscipline {
  import opened Dpst
  import opened Growth
  import opened Collector
  import opened Completion
  import opened Protocol
  import opened ProtocolSteps
  import opened ProtocolEvents
  import opened ProtocolRuns

  // ---- CaptureReturn ----

  /** CaptureReturn removes exactly the frame of the ended task if and only if at most one implicit
      FINISH is open in it. */
  lemma {:induction false} ReturnRestores(base: Stack, a: OpenNode, syncs: Stack)
    requires !a.sync && forall k :: 0 <= k < |syncs| ==> syncs[k].sync
    ensures CanReturn(base + [a] + syncs)
    ensures Returned(base + [a] + syncs) == base <==> |syncs| <= 1
  {
    var st := base + [a] + syncs;
    if |syncs| == 0 {
      assert Returned(st) == base;
    } else {
      assert Top(st) == syncs[|syncs| - 1];
      assert Returned(st) == st[..|st| - 2];
    }
  }

  /** spawn_root_and_wait while an implicit FINISH is open makes the next spawn open a second one,
      and the end of a task then leaves its own node on the stack. */
  lemma {:induction false} RootInsideSync(s: State, t: nat, base: Stack, a: OpenNode, task: nat, site: nat)
    requires t < |s.stacks| && s.stacks[t] == base + [a] && a.young != ASYNC && !a.sync
    ensures Active(SpawnOnly(s, t, task, site), t)
    ensures var s1 := SpawnAndWait(SpawnOnly(s, t, task, site), t, task + 1, site);
            && Active(s1, t) && Active(Wait(s1, t), t)
            && var s2 := SpawnOnly(Wait(s1, t), t, task + 2, site);
            && CanReturn(s2.stacks[t])
            && Returned(s2.stacks[t]) == base + [a.(young := FINISH)]
  {
    var s0 := SpawnOnly(s, t, task, site);
    assert Top(s.stacks[t]) == a;
    var b := OpenNode(s.last, s.last + 3, ASYNC, true);
    assert s0.stacks[t] == base + [a.(young := FINISH), b];
    var s1 := SpawnAndWait(s0, t, task + 1, site);
    assert s1.stacks[t] == base + [a.(young := FINISH), b.(young := FINISH)];
    var w := Wait(s1, t);
    assert w.stacks[t] == base + [a.(young := FINISH), b.(young := FINISH, child := s1.last)];
    var s2 := SpawnOnly(w, t, task + 2, site);
    assert s2.stacks[t] == base + [a.(young := FINISH), b.(young := FINISH, child := s1.last),
                                   OpenNode(w.last, w.last + 3, ASYNC, true)];
    assert Returned(s2.stacks[t]) == s2.stacks[t][..|base| + 1];
  }

  // ---- matching starts and ends of tasks ----

  /** How many tasks thread `t` has started and not ended in `es`. */
  function Balance(es: seq<Event>, t: nat): int {
    if es == [] then 0
    else
      var e := es[|es| - 1];
      Balance(es[..|es| - 1], t) + if e.t != t then 0 else if e.Begin? then 1 else if e.EndTask? then -1 else 0
  }

  /** The number of task frames that thread `t` is inside of. */
  function Frames(s: Sys, t: nat): int
    requires Sized(s) && t < |s.mode|
  {
    |s.pauses[t]| - if s.mode[t] == Scheduling then 1 else 0
  }

  lemma {:induction false} RunPrefix(threads: nat, es: seq<Event>, k: nat)
    requires threads > 0 && k <= |es| && Run(threads, es).Some?
    ensures Run(threads, es[..k]).Some?
    decreases |es|
  {
    hide Inv, Enabled, Next;
    if k < |es| {
      RunPrefix(threads, es[..|es| - 1], k);
      assert es[..|es| - 1][..k] == es[..k];
    } else {
      assert es[..k] == es;
    }
  }

  lemma {:induction false} RunStep(threads: nat, es: seq<Event>, k: nat)
    requires threads > 0 && k < |es| && Run(threads, es).Some?
    ensures Run(threads, es[..k]).Some? && Run(threads, es[..k + 1]).Some?
    ensures var s := Run(threads, es[..k]).value;
            Inv(s) && Enabled(s, es[k]) && Run(threads, es[..k + 1]).value == Next(s, es[k])
  {
    hide Inv, Enabled, Next;
    RunPrefix(threads, es, k);
    RunPrefix(threads, es, k + 1);
    var fs := es[..k + 1];
    assert fs[..|fs| - 1] == es[..k] && fs[|fs| - 1] == es[k];
  }

  lemma {:induction false} SizedOf(s: Sys)
    requires Inv(s)
    ensures Sized(s)
  {
  }

  /** What one event does to the scheduler calls of thread `t`. */
  lemma {:induction false} StepFrames(s: Sys, e: Event, t: nat)
    requires Inv(s) && Enabled(s, e) && t < |s.mode|
    ensures Sized(Next(s, e)) && |Next(s, e).mode| == |s.mode|
    ensures Frames(Next(s, e), t) == Frames(s, t) + Balance([e], t)
    ensures var ps, qs := s.pauses[t], Next(s, e).pauses[t];
            forall m: nat {:trigger ps[..m]} {:trigger qs[..m]} :: m <= |ps| && m <= |qs| ==> ps[..m] == qs[..m]
  {
    hide Inv, Quiescent, SpawnOnly, SpawnAndWaitForAll, SpawnAndWait, SpawnTree, SpawnAt, SpawnPos;
    NextDefined(s, e);
    NextInv(s, e);
    SizedOf(Next(s, e));
    assert [e][..0] == [];
    assert Balance([], t) == 0;
  }

  lemma {:induction false} BalanceAppend(es: seq<Event>, e: Event, t: nat)
    ensures Balance(es + [e], t) == Balance(es, t) + Balance([e], t)
  {
    assert (es + [e])[..|es|] == es;
    assert [e][..0] == [];
    assert Balance([], t) == 0;
  }

  /** The task that thread `t` started at event `i` is still running before event `k`. */
  predicate Inside(es: seq<Event>, i: nat, k: nat, t: nat)
    requires i < k <= |es|
  {
    forall m {:trigger es[i..m]} :: i < m <= k ==> Balance(es[i..m], t) >= 1
  }

  ghost function StateAt(threads: nat, es: seq<Event>, k: nat): (s: Sys)
    requires threads > 0 && k <= |es| && Run(threads, es).Some?
    ensures Inv(s) && Run(threads, es[..k]) == Some(s)
  {
    RunPrefix(threads, es, k);
    Run(threads, es[..k]).value
  }

  /** While the task runs, the scheduler calls below it are not touched. */
  lemma {:induction false} CallsKept(threads: nat, es: seq<Event>, i: nat, k: nat, t: nat)
    requires threads > 0 && i < k <= |es| && Run(threads, es).Some? && es[i].Begin? && es[i].t == t
    requires Inside(es, i, k, t)
    ensures var a, b := StateAt(threads, es, i), StateAt(threads, es, k);
            && Sized(a) && Sized(b) && t < |a.mode| && t < |b.mode|
            && Frames(b, t) == Frames(a, t) + Balance(es[i..k], t)
            && a.pauses[t] <= b.pauses[t]
    decreases k
  {
    hide Inv, Next, Run, Enabled, Balance, Frames, Inside;
    var a, b := StateAt(threads, es, i), StateAt(threads, es, k);
    RunStep(threads, es, k - 1);
    var c := StateAt(threads, es, k - 1);
    SizedOf(c);
    assert es[i..k] == es[i..k - 1] + [es[k - 1]];
    BalanceAppend(es[i..k - 1], es[k - 1], t);
    RunStep(threads, es, i);
    StartsInScheduler(a, es[i]);
    if k == i + 1 {
      NoBalance(es, i, t);
    } else {
      InsideLess(es, i, k, t);
      CallsKept(threads, es, i, k - 1, t);
    }
    StepFrames(c, es[k - 1], t);
    InsideNow(es, i, k, t);
    FramesGrow(a, b, t);
    PrefixKept(a.pauses[t], c.pauses[t], b.pauses[t]);
  }

  lemma {:induction false} NoBalance(es: seq<Event>, i: nat, t: nat)
    requires i <= |es|
    ensures Balance(es[i..i], t) == 0
  {
    assert es[i..i] == [];
  }

  lemma {:induction false} InsideLess(es: seq<Event>, i: nat, k: nat, t: nat)
    requires i + 1 < k <= |es| && Inside(es, i, k, t)
    ensures Inside(es, i, k - 1, t)
  {
  }

  lemma {:induction false} InsideNow(es: seq<Event>, i: nat, k: nat, t: nat)
    requires i < k <= |es| && Inside(es, i, k, t)
    ensures Balance(es[i..k], t) >= 1
  {
    assert es[i..k] == es[i..k];
  }

  lemma {:induction false} StartsInScheduler(s: Sys, e: Event)
    requires Enabled(s, e) && e.Begin?
    ensures Sized(s) && e.t < |s.mode| && s.mode[e.t] == Scheduling
  {
  }

  lemma {:induction false} FramesGrow(a: Sys, b: Sys, t: nat)
    requires Sized(a) && Sized(b) && t < |a.mode| && t < |b.mode| && a.mode[t] == Scheduling && Frames(b, t) > Frames(a, t)
    ensures |a.pauses[t]| <= |b.pauses[t]|
  {
  }

  lemma {:induction false} PrefixKept<T>(a: seq<T>, c: seq<T>, b: seq<T>)
    requires a <= c && |a| <= |b|
    requires forall m: nat {:trigger c[..m]} {:trigger b[..m]} :: m <= |c| && m <= |b| ==> c[..m] == b[..m]
    ensures a <= b
  {
    assert c[..|a|] == b[..|a|];
  }

  /** The stack of a thread is, when a task ends, again what it was when the task started. */
  lemma {:induction false} StackRestored(threads: nat, es: seq<Event>, i: nat, j: nat, t: nat)
    requires threads > 0 && i < j < |es| && Run(threads, es).Some?
    requires es[i].Begin? && es[i].t == t && es[j] == EndTask(t)
    requires Inside(es, i, j, t) && Balance(es[i..j + 1], t) == 0
    ensures var a, b := StateAt(threads, es, i), StateAt(threads, es, j + 1);
            t < |a.c.stacks| && t < |b.c.stacks| && b.c.stacks[t] == a.c.stacks[t]
  {
    hide Inv, Run;
    var a, c := StateAt(threads, es, i), StateAt(threads, es, j);
    RunStep(threads, es, i);
    RunStep(threads, es, j);
    CallsKept(threads, es, i, j, t);
    assert es[i..j + 1] == es[i..j] + [es[j]];
    BalanceAppend(es[i..j], es[j], t);
    assert [es[j]][..0] == [];
    assert Balance([es[j]], t) == -1;
    StackOfCall(a, t);
    StackAfterReturn(c, t);
  }

  lemma {:induction false} StackOfCall(s: Sys, t: nat)
    requires Inv(s) && t < |s.mode| && s.mode[t] == Scheduling
    ensures Sized(s) && |s.pauses[t]| > 0 && Last(s.pauses[t]).stack == s.c.stacks[t]
  {
    hide StacksOk, PendingOk, StepsOk, LogOk, Blocked, Ordered, TreeOk, PausesOk;
    NestedOf(s, t);
  }

  lemma {:induction false} StackAfterReturn(s: Sys, t: nat)
    requires Inv(s) && Enabled(s, EndTask(t))
    ensures t < |Next(s, EndTask(t)).c.stacks| && Next(s, EndTask(t)).c.stacks[t] == Last(s.pauses[t]).stack
  {
    hide StacksOk, PendingOk, StepsOk, LogOk, Blocked, Ordered, TreeOk, PausesOk, Nested, Returned;
    NextDefined(s, EndTask(t));
    NestedOf(s, t);
    NestEnd(s.tree, s.c.stacks[t], s.pauses[t]);
  }

  // ---- at most one implicit FINISH ----

  /** Implicit FINISH nodes are never nested directly. */
  ghost predicate Flat(stacks: seq<Stack>) {
    forall t, k {:trigger stacks[t][k].sync} :: 0 <= t < |stacks| && 0 <= k < |stacks[t]| && stacks[t][k].sync ==>
      k > 0 && stacks[t][k].young == ASYNC && !stacks[t][k - 1].sync
  }

  /** spawn_root_and_wait is called only while no implicit FINISH is open. */
  predicate Polite(s: Sys, e: Event) {
    e.SpawnRoot? && Active(s.c, e.t) ==> !Top(s.c.stacks[e.t]).sync
  }

  ghost predicate Disciplined(threads: nat, es: seq<Event>)
    requires threads > 0 && Run(threads, es).Some?
  {
    forall k {:trigger StateAt(threads, es, k)} :: 0 <= k < |es| ==> Polite(StateAt(threads, es, k), es[k])
  }

  lemma {:induction false} FlatPushed(stacks: seq<Stack>, t: nat, st: Stack)
    requires Flat(stacks) && t < |stacks|
    requires forall k {:trigger st[k].sync} :: 0 <= k < |st| && st[k].sync ==> k > 0 && st[k].young == ASYNC && !st[k - 1].sync
    ensures Flat(stacks[t := st])
  {
  }

  lemma {:induction false} FlatSpawn(stacks: seq<Stack>, t: nat, n: OpenNode, more: Stack)
    requires Flat(stacks) && t < |stacks| && |stacks[t]| > 0
    requires n.sync == Top(stacks[t]).sync && (n.sync ==> n.young == ASYNC)
    requires |more| <= 1 && forall m :: m in more ==> m.sync ==> m.young == ASYNC && !n.sync
    ensures Flat(stacks[t := SetTop(stacks[t], n) + more])
  {
    var st := SetTop(stacks[t], n) + more;
    forall k | 0 <= k < |st| && st[k].sync ensures k > 0 && st[k].young == ASYNC && !st[k - 1].sync {
      if k < |stacks[t]| {
        assert stacks[t][k].sync;
      } else {
        assert st[k] == more[0];
      }
    }
    FlatPushed(stacks, t, st);
  }

  lemma {:induction false} FlatPrefix(stacks: seq<Stack>, t: nat, m: nat)
    requires Flat(stacks) && t < |stacks| && m <= |stacks[t]|
    ensures Flat(stacks[t := stacks[t][..m]])
  {
    forall k | 0 <= k < m && stacks[t][..m][k].sync ensures k > 0 && stacks[t][k].young == ASYNC && !stacks[t][k - 1].sync {
      assert stacks[t][k].sync;
    }
    FlatPushed(stacks, t, stacks[t][..m]);
  }

  /** Whether the top of the stack is implicit can be read off its youngest child. */
  lemma {:induction false} FlatTop(stacks: seq<Stack>, t: nat)
    requires Flat(stacks) && t < |stacks| && |stacks[t]| > 0
    ensures Top(stacks[t]).sync ==> |stacks[t]| > 1 && Top(stacks[t]).young == ASYNC && !stacks[t][|stacks[t]| - 2].sync
    ensures AtMostOneSync(stacks[t])
  {
    assert Top(stacks[t]) == stacks[t][|stacks[t]| - 1];
    assert Top(stacks[t]).sync ==> stacks[t][|stacks[t]| - 1].sync;
  }

  lemma {:induction false} FlatSpawnTask(c: State, t: nat, task: nat, site: nat)
    requires Flat(c.stacks) && Active(c, t)
    ensures Flat(SpawnOnly(c, t, task, site).stacks) && Flat(SpawnAndWaitForAll(c, t, task, site).stacks)
    ensures !Top(c.stacks[t]).sync ==> Flat(SpawnAndWait(c, t, task, site).stacks)
    ensures Flat(Wait(c, t).stacks)
  {
    var st := c.stacks[t];
    FlatTop(c.stacks, t);
    var cur, n := Top(st), c.last;
    assert forall m: OpenNode :: SetTop(st, m) + [] == SetTop(st, m);
    if cur.young == ASYNC {
      FlatSpawn(c.stacks, t, cur.(child := n + 2), []);
      assert c.stacks[t := st] == c.stacks;
    } else {
      FlatSpawn(c.stacks, t, cur.(young := FINISH), [OpenNode(n, n + 3, ASYNC, true)]);
      FlatSpawn(c.stacks, t, cur.(young := FINISH), [OpenNode(n, 0, ASYNC, true)]);
    }
    if !cur.sync {
      FlatSpawn(c.stacks, t, cur.(young := FINISH), []);
    }
    FlatSpawn(c.stacks, t, cur.(child := n), []);
  }

  lemma {:induction false} FlatKept(s: Sys, e: Event)
    requires Inv(s) && Enabled(s, e) && Polite(s, e) && Flat(s.c.stacks)
    ensures Flat(Next(s, e).c.stacks)
  {
    hide Inv, Flat, Quiescent, SpawnTree, SpawnAt, SpawnPos, SpawnOnly, SpawnAndWaitForAll, SpawnAndWait, Wait;
    NextDefined(s, e);
    var st := s.c.stacks[e.t];
    match e
    case EndStep(_, _) =>
    case Spawn(t, site) => FlatSpawnTask(Registered(s, site), t, s.tasks + 1, CallSiteOf(site));
    case SpawnAll(t, site) => FlatSpawnTask(Registered(s, site), t, s.tasks + 1, CallSiteOf(site));
    case SpawnRoot(t, site) => FlatSpawnTask(Registered(s, site), t, s.tasks + 1, CallSiteOf(site));
    case WaitAll(_) =>
    case EndTask(t) =>
      FlatPrefix(s.c.stacks, t, |Returned(st)|);
      assert st[..|Returned(st)|] == Returned(st);
    case Begin(t, k) =>
      FlatBegin(s, t, k);
    case Resume(t) =>
      if Last(s.pauses[t]).why == ForTasks {
        var c := s.c.(stacks := s.c.stacks[t := Pop(st)]);
        FlatPrefix(s.c.stacks, t, |st| - 1);
        FlatSpawnTask(c, t, 0, 0);
      } else {
        FlatSpawnTask(s.c, t, 0, 0);
      }
  }

  lemma {:induction false} FlatBegin(s: Sys, t: nat, k: nat)
    requires Inv(s) && t < |s.c.stacks| && k in s.c.pending && Flat(s.c.stacks)
    ensures Flat(s.c.stacks[t := s.c.stacks[t] + [s.c.pending[k]]])
  {
    hide StacksOk, StepsOk, LogOk, Blocked, Ordered, TreeOk, PausesOk;
    assert Unstarted(s.tree, s.at, k, s.c.pending[k]);
    var st := s.c.stacks[t] + [s.c.pending[k]];
    forall j | 0 <= j < |st| && st[j].sync ensures j > 0 && st[j].young == ASYNC && !st[j - 1].sync {
      assert s.c.stacks[t][j].sync;
    }
    FlatPushed(s.c.stacks, t, st);
  }

  /** Whatever thread ends its task next, CaptureReturn removes just the frame of that task. */
  ghost predicate ReturnsRestore(stacks: seq<Stack>) {
    forall t {:trigger stacks[t]} :: 0 <= t < |stacks| && |stacks[t]| > 0 ==> AtMostOneSync(stacks[t])
  }

  lemma {:induction false} FlatReturns(stacks: seq<Stack>)
    requires Flat(stacks)
    ensures ReturnsRestore(stacks)
  {
    forall t | 0 <= t < |stacks| && |stacks[t]| > 0 ensures AtMostOneSync(stacks[t]) {
      FlatTop(stacks, t);
    }
  }

  lemma {:induction false} DisciplinedPrefix(threads: nat, es: seq<Event>, k: nat)
    requires threads > 0 && k <= |es| && Run(threads, es).Some? && Disciplined(threads, es)
    ensures Run(threads, es[..k]).Some? && Disciplined(threads, es[..k])
  {
    hide Run, Inv, Polite;
    RunPrefix(threads, es, k);
    forall m | 0 <= m < k ensures Polite(StateAt(threads, es[..k], m), es[..k][m]) {
      assert es[..k][..m] == es[..m];
      assert StateAt(threads, es, m) == StateAt(threads, es[..k], m);
    }
  }

  /** In a disciplined run at most one implicit FINISH is open in every task frame, so that every
      task may end as soon as its last step has. */
  lemma {:induction false} DisciplinedRun(threads: nat, es: seq<Event>)
    requires threads > 0 && Run(threads, es).Some? && Disciplined(threads, es)
    ensures Flat(Run(threads, es).value.c.stacks)
    ensures ReturnsRestore(Run(threads, es).value.c.stacks)
    decreases |es|
  {
    hide Inv, Next, Polite;
    var s := Run(threads, es).value;
    if es != [] {
      var k := |es| - 1;
      DisciplinedPrefix(threads, es, k);
      DisciplinedRun(threads, es[..k]);
      assert Polite(StateAt(threads, es, k), es[k]);
      FlatKept(Run(threads, es[..k]).value, es[k]);
    } else {
      FlatInitial(threads);
    }
    FlatReturns(s.c.stacks);
  }

  lemma {:induction false} FlatInitial(threads: nat)
    requires threads > 0
    ensures Flat(Initial(threads).c.stacks)
  {
  }
}
