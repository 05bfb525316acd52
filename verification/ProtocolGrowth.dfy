/** The collection protocol while the tree grows: every event that allocates nodes is a sequence of
    three moves, each of which keeps all of the invariant but the nesting of scheduler calls. */
module ProtocolGrowth {
  import opened Dpst
  import opened Growth
  import opened Collector
  import opened Protocol
  import opened ProtocolSteps

  /** TreeOk, but the last node may be waiting for its first child. */
  ghost predicate Budding(d: Tree, at: seq<Place>) {
    && |d| == |at| >= 3 && d[0] == Node(0, NO_TYPE, 0, 0) && d[1].callSite == 0
    && (forall i {:trigger d[i].kind} :: 1 <= i < |d| - 1 && d[i].kind != STEP ==> d[i + 1].parent == i)
    && (forall i {:trigger at[i]} :: 0 <= i < |at| ==>
          && (at[i].Running? ==> d[i].kind == STEP && d[i].callSite == 0)
          && (at[i].OnStack? || at[i].Pending? ==> i > 0 && d[i].kind in {ASYNC, FINISH}))
  }

  ghost predicate Places(d: Tree, at: seq<Place>, stacks: seq<Stack>, mode: seq<Mode>, pending: map<nat, OpenNode>, tasks: nat) {
    StacksOk(d, at, stacks) && PendingOk(d, at, pending, tasks) && StepsOk(d, at, stacks, mode, pending)
  }

  /** The invariant without the nesting of scheduler calls. */
  ghost predicate Core(s: Sys) {
    && Sized(s) && |s.tree| == |s.at| == |s.pos| == s.c.last
    && Budding(s.tree, s.at)
    && Places(s.tree, s.at, s.c.stacks, s.mode, s.c.pending, s.tasks)
    && LogOk(s.tree, s.at, s.pos, s.c.log)
    && Ordered(s.tree, Live(s.at), Open(s.at))
    && Blocked(s.tree, s.at, s.c.stacks, s.pauses)
  }

  /** Thread `t` executes no step, and its current node may get a child. */
  ghost predicate Ready(s: Sys, t: nat) {
    && Active(s.c, t) && t < |s.mode| && s.mode[t] != Computing
    && Settled(s.tree, Live(s.at), Open(s.at), Top(s.c.stacks[t]).id)
  }

  // ---- the moves ----

  /** An implicit FINISH is opened on top of the stack. */
  function OpenSync(s: Sys, t: nat): Sys
    requires Active(s.c, t)
  {
    var st, n := s.c.stacks[t], s.c.last;
    s.(c := s.c.(stacks := s.c.stacks[t := SetTop(st, Top(st).(young := FINISH)) + [OpenNode(n, 0, ASYNC, true)]],
                 last := n + 1, log := s.c.log + [Record(n, Top(st).id, 0, FINISH, 0)]),
       tree := s.tree + [InnerNode(Top(st).id, FINISH, 0)], at := s.at + [OnStack(t, |st|)], pos := s.pos + [|s.c.log|])
  }

  /** A task is created below the current node, together with its first step. */
  function AddTask(s: Sys, t: nat, kind: NodeType, callSite: nat): Sys
    requires Active(s.c, t)
  {
    var p, n := Top(s.c.stacks[t]).id, s.c.last;
    s.(c := s.c.(pending := s.c.pending[s.tasks + 1 := NewNode(n).(child := n + 1)],
                 last := n + 2, log := s.c.log + [Record(n, p, 0, kind, callSite)]),
       tree := s.tree + [InnerNode(p, kind, callSite)] + [StepNode(n)], at := s.at + [Pending(s.tasks + 1)] + [Running],
       pos := s.pos + [|s.c.log|] + [-1], tasks := s.tasks + 1)
  }

  /** A new step of the current node starts. */
  function StartStep(s: Sys, t: nat): Sys
    requires Active(s.c, t) && t < |s.mode|
  {
    s.(c := Wait(s.c, t), tree := s.tree + [StepNode(Top(s.c.stacks[t]).id)], at := s.at + [Running], pos := s.pos + [-1],
       mode := s.mode[t := Computing])
  }

  // ---- places ----

  lemma {:induction false} LiveAppend(at: seq<Place>, p: Place)
    ensures p.OnStack? || p.Pending? ==> Live(at + [p]) == Live(at) + {|at|} && Open(at + [p]) == Open(at)
    ensures p.Running? ==> Live(at + [p]) == Live(at) && Open(at + [p]) == Open(at) + {|at|}
  {
  }

  lemma {:induction false} OpenSyncStacks(d: Tree, at: seq<Place>, stacks: seq<Stack>, t: nat)
    requires t < |stacks| && |stacks[t]| > 0 && StacksOk(d, at, stacks)
    ensures var st := stacks[t];
            StacksOk(d + [InnerNode(Top(st).id, FINISH, 0)], at + [OnStack(t, |st|)],
                     stacks[t := SetTop(st, Top(st).(young := FINISH)) + [OpenNode(|d|, 0, ASYNC, true)]])
  {
    var st := stacks[t];
    var d', at' := d + [InnerNode(Top(st).id, FINISH, 0)], at + [OnStack(t, |st|)];
    var stacks' := stacks[t := SetTop(st, Top(st).(young := FINISH)) + [OpenNode(|d|, 0, ASYNC, true)]];
    forall u | 0 <= u < |stacks'| ensures StackOk(d', at', stacks'[u], u) {
      assert StackOk(d, at, stacks[u], u);
      forall k | 0 <= k < |stacks'[u]|
        ensures 1 <= stacks'[u][k].id < |at'| && at'[stacks'[u][k].id] == OnStack(u, k)
        ensures stacks'[u][k].sync ==> k > 0 && Implicit(d', stacks'[u][k - 1].id, stacks'[u][k].id)
      {
        if k < |stacks[u]| {
          assert stacks[u][k].id == stacks'[u][k].id && stacks[u][k].sync == stacks'[u][k].sync;
        }
      }
    }
    forall i | 0 <= i < |at'| && at'[i].OnStack? ensures Holds(stacks', at'[i].thread, at'[i].depth, i) {
      if i < |at| {
        assert at[i].OnStack?;
      }
    }
  }

  /** A new node that is not the parent of a step disturbs no task and no step. */
  lemma {:induction false} KeepPending(d: Tree, at: seq<Place>, pending: map<nat, OpenNode>, tasks: nat, n: Node, p: Place)
    requires PendingOk(d, at, pending, tasks) && !p.Pending? && n.parent < |at| && !at[n.parent].Pending?
    ensures PendingOk(d + [n], at + [p], pending, tasks)
  {
    var d', at' := d + [n], at + [p];
    forall j | j in pending ensures Unstarted(d', at', j, pending[j]) {
      assert Unstarted(d, at, j, pending[j]);
    }
    forall i | 0 <= i < |at'| && at'[i].Pending? ensures at'[i].task in pending && pending[at'[i].task].id == i {
      assert at[i].Pending?;
    }
  }

  lemma {:induction false} OpenSyncSteps(d: Tree, at: seq<Place>, stacks: seq<Stack>, mode: seq<Mode>,
                                         pending: map<nat, OpenNode>, t: nat, st: Stack, n: Node, p: Place)
    requires t < |mode| && mode[t] != Computing && !p.Running? && StepsOk(d, at, stacks, mode, pending)
    ensures StepsOk(d + [n], at + [p], stacks[t := st], mode, pending)
  {
    var d', at', stacks' := d + [n], at + [p], stacks[t := st];
    forall u | 0 <= u < |mode| && mode[u] == Computing ensures |stacks'[u]| > 0 && OpenChild(d', at', Top(stacks'[u])) {
      assert u != t;
    }
    forall a | 0 <= a < |at'| && at'[a].Running?
      ensures d'[a].parent < |at'| && Executed(at'[d'[a].parent], stacks', mode, pending, a)
    {
      assert at[a].Running?;
    }
  }

  lemma {:induction false} OpenSyncPlaces(d: Tree, at: seq<Place>, stacks: seq<Stack>, mode: seq<Mode>,
                                          pending: map<nat, OpenNode>, tasks: nat, t: nat)
    requires t < |mode| && mode[t] != Computing && |mode| == |stacks| && |stacks[t]| > 0
    requires Places(d, at, stacks, mode, pending, tasks)
    ensures var st := stacks[t];
            Places(d + [InnerNode(Top(st).id, FINISH, 0)], at + [OnStack(t, |st|)],
                   stacks[t := SetTop(st, Top(st).(young := FINISH)) + [OpenNode(|d|, 0, ASYNC, true)]], mode, pending, tasks)
  {
    var st := stacks[t];
    OpenSyncStacks(d, at, stacks, t);
    TopPlace(d, at, stacks, t);
    hide StacksOk, PendingOk, StepsOk;
    KeepPending(d, at, pending, tasks, InnerNode(Top(st).id, FINISH, 0), OnStack(t, |st|));
    OpenSyncSteps(d, at, stacks, mode, pending, t, SetTop(st, Top(st).(young := FINISH)) + [OpenNode(|d|, 0, ASYNC, true)],
                  InnerNode(Top(st).id, FINISH, 0), OnStack(t, |st|));
  }

  lemma {:induction false} TopPlace(d: Tree, at: seq<Place>, stacks: seq<Stack>, t: nat)
    requires t < |stacks| && |stacks[t]| > 0 && StacksOk(d, at, stacks)
    ensures 1 <= Top(stacks[t]).id < |at| == |d| && at[Top(stacks[t]).id] == OnStack(t, |stacks[t]| - 1)
    ensures Top(stacks[t]).id in Live(at)
    ensures Top(stacks[t]).young == ASYNC ==> Top(stacks[t]).sync
  {
    assert StackOk(d, at, stacks[t], t);
    assert Top(stacks[t]) == stacks[t][|stacks[t]| - 1];
    assert Top(stacks[t]).id == stacks[t][|stacks[t]| - 1].id;
  }

  lemma {:induction false} KeepStacks(d: Tree, at: seq<Place>, stacks: seq<Stack>, e: Tree, ps: seq<Place>)
    requires StacksOk(d, at, stacks) && |e| == |ps| && forall p :: p in ps ==> !p.OnStack?
    ensures StacksOk(d + e, at + ps, stacks)
  {
    var d', at' := d + e, at + ps;
    forall u | 0 <= u < |stacks| ensures StackOk(d', at', stacks[u], u) {
      assert StackOk(d, at, stacks[u], u);
    }
    forall i | |at| <= i < |at'| ensures !at'[i].OnStack? {
      assert at'[i] == ps[i - |at|];
    }
    forall i | 0 <= i < |at'| && at'[i].OnStack? ensures Holds(stacks, at'[i].thread, at'[i].depth, i) {
      assert at[i].OnStack?;
    }
  }

  lemma {:induction false} AddTaskPending(d: Tree, at: seq<Place>, pending: map<nat, OpenNode>, tasks: nat, q: nat, n: Node)
    requires PendingOk(d, at, pending, tasks) && n.parent == q < |at| && at[q].OnStack?
    requires forall i {:trigger d[i].parent} :: 0 < i < |d| ==> d[i].parent < |d|
    ensures PendingOk(d + [n] + [StepNode(|d|)], at + [Pending(tasks + 1)] + [Running],
                      pending[tasks + 1 := NewNode(|d|).(child := |d| + 1)], tasks + 1)
  {
    var d', at' := d + [n] + [StepNode(|d|)], at + [Pending(tasks + 1)] + [Running];
    var pending' := pending[tasks + 1 := NewNode(|d|).(child := |d| + 1)];
    forall j | j in pending' ensures j <= tasks + 1 && Unstarted(d', at', j, pending'[j]) {
      if j != tasks + 1 {
        assert Unstarted(d, at, j, pending[j]);
        assert at[pending[j].id].Pending?;
      }
    }
    forall i | 0 <= i < |at'| && at'[i].Pending? ensures at'[i].task in pending' && pending'[at'[i].task].id == i {
      if i < |at| {
        assert at[i].Pending?;
      }
    }
  }

  lemma {:induction false} AddTaskSteps(d: Tree, at: seq<Place>, stacks: seq<Stack>, mode: seq<Mode>,
                                        pending: map<nat, OpenNode>, tasks: nat, n: Node)
    requires StepsOk(d, at, stacks, mode, pending) && tasks + 1 !in pending
    ensures StepsOk(d + [n] + [StepNode(|d|)], at + [Pending(tasks + 1)] + [Running], stacks, mode,
                    pending[tasks + 1 := NewNode(|d|).(child := |d| + 1)])
  {
    var d', at' := d + [n] + [StepNode(|d|)], at + [Pending(tasks + 1)] + [Running];
    var pending' := pending[tasks + 1 := NewNode(|d|).(child := |d| + 1)];
    forall a | 0 <= a < |at'| && at'[a].Running?
      ensures d'[a].parent < |at'| && Executed(at'[d'[a].parent], stacks, mode, pending', a)
    {
      if a < |at| {
        assert at[a].Running?;
        assert Executed(at[d[a].parent], stacks, mode, pending, a);
      } else {
        assert at'[|at|] == Pending(tasks + 1);
      }
    }
  }

  lemma {:induction false} AddTaskPlaces(d: Tree, at: seq<Place>, stacks: seq<Stack>, mode: seq<Mode>,
                                         pending: map<nat, OpenNode>, tasks: nat, q: nat, n: Node)
    requires Places(d, at, stacks, mode, pending, tasks) && n.parent == q < |at| && at[q].OnStack?
    requires forall i {:trigger d[i].parent} :: 0 < i < |d| ==> d[i].parent < |d|
    ensures Places(d + [n] + [StepNode(|d|)], at + [Pending(tasks + 1)] + [Running], stacks, mode,
                   pending[tasks + 1 := NewNode(|d|).(child := |d| + 1)], tasks + 1)
  {
    AddTaskPending(d, at, pending, tasks, q, n);
    assert tasks + 1 !in pending;
    hide StacksOk, PendingOk, StepsOk;
    KeepStacks(d, at, stacks, [n] + [StepNode(|d|)], [Pending(tasks + 1)] + [Running]);
    assert d + ([n] + [StepNode(|d|)]) == d + [n] + [StepNode(|d|)];
    assert at + ([Pending(tasks + 1)] + [Running]) == at + [Pending(tasks + 1)] + [Running];
    AddTaskSteps(d, at, stacks, mode, pending, tasks, n);
  }

  /** The current child and the youngest child of the top node may be overwritten. */
  lemma {:induction false} TouchStacks(d: Tree, at: seq<Place>, stacks: seq<Stack>, t: nat, n: OpenNode)
    requires t < |stacks| && |stacks[t]| > 0 && StacksOk(d, at, stacks)
    requires n.id == Top(stacks[t]).id && n.sync == Top(stacks[t]).sync && (n.young == ASYNC ==> n.sync)
    ensures StacksOk(d, at, stacks[t := SetTop(stacks[t], n)])
  {
    var stacks' := stacks[t := SetTop(stacks[t], n)];
    forall u | 0 <= u < |stacks'| ensures StackOk(d, at, stacks'[u], u) {
      assert StackOk(d, at, stacks[u], u);
      forall k | 0 <= k < |stacks'[u]|
        ensures 1 <= stacks'[u][k].id < |at| && at[stacks'[u][k].id] == OnStack(u, k)
        ensures stacks'[u][k].sync ==> k > 0 && Implicit(d, stacks'[u][k - 1].id, stacks'[u][k].id)
        ensures stacks'[u][k].young == ASYNC ==> stacks'[u][k].sync
      {
        assert stacks[u][k].id == stacks'[u][k].id && stacks[u][k].sync == stacks'[u][k].sync;
        assert u != t || k < |stacks[t]| - 1 ==> stacks[u][k].young == stacks'[u][k].young;
      }
    }
    forall i | 0 <= i < |at| && at[i].OnStack? ensures Holds(stacks', at[i].thread, at[i].depth, i) {
      assert Holds(stacks, at[i].thread, at[i].depth, i);
    }
  }

  lemma {:induction false} TouchSteps(d: Tree, at: seq<Place>, stacks: seq<Stack>, mode: seq<Mode>,
                                      pending: map<nat, OpenNode>, t: nat, st: Stack)
    requires t < |mode| && mode[t] != Computing && StepsOk(d, at, stacks, mode, pending)
    ensures StepsOk(d, at, stacks[t := st], mode, pending)
  {
  }

  lemma {:induction false} StartSteps(d: Tree, at: seq<Place>, stacks: seq<Stack>, mode: seq<Mode>,
                                      pending: map<nat, OpenNode>, t: nat, st: Stack)
    requires t < |mode| == |stacks| && mode[t] != Computing && |st| > 0 && StepsOk(d, at, stacks, mode, pending)
    requires Top(st).id < |at| && at[Top(st).id] == OnStack(t, |st| - 1) && Top(st).child == |d|
    ensures StepsOk(d + [StepNode(Top(st).id)], at + [Running], stacks[t := st], mode[t := Computing], pending)
  {
    var d', at', stacks', mode' := d + [StepNode(Top(st).id)], at + [Running], stacks[t := st], mode[t := Computing];
    forall u | 0 <= u < |mode'| && mode'[u] == Computing ensures |stacks'[u]| > 0 && OpenChild(d', at', Top(stacks'[u])) {
      if u != t {
        assert mode[u] == Computing;
        assert OpenChild(d, at, Top(stacks[u]));
      }
    }
    forall a | 0 <= a < |at'| && at'[a].Running?
      ensures d'[a].parent < |at'| && Executed(at'[d'[a].parent], stacks', mode', pending, a)
    {
      if a < |at| {
        assert at[a].Running?;
        assert Executed(at[d[a].parent], stacks, mode, pending, a);
      }
    }
  }

  lemma {:induction false} StartPlaces(d: Tree, at: seq<Place>, stacks: seq<Stack>, mode: seq<Mode>,
                                       pending: map<nat, OpenNode>, tasks: nat, t: nat)
    requires t < |mode| && mode[t] != Computing && |mode| == |stacks| && |stacks[t]| > 0
    requires Places(d, at, stacks, mode, pending, tasks)
    ensures var st := SetTop(stacks[t], Top(stacks[t]).(child := |d|));
            Places(d + [StepNode(Top(st).id)], at + [Running], stacks[t := st], mode[t := Computing], pending, tasks)
  {
    var st := SetTop(stacks[t], Top(stacks[t]).(child := |d|));
    TopPlace(d, at, stacks, t);
    hide StacksOk, PendingOk, StepsOk;
    TouchStacks(d, at, stacks, t, Top(st));
    KeepStacks(d, at, stacks[t := st], [StepNode(Top(st).id)], [Running]);
    KeepPending(d, at, pending, tasks, StepNode(Top(st).id), Running);
    StartSteps(d, at, stacks, mode, pending, t, st);
  }

  // ---- the log ----

  /** An inner node is logged when it is created. */
  lemma {:induction false} LogNode(d: Tree, at: seq<Place>, pos: seq<int>, log: seq<Record>, n: Node, p: Place)
    requires LogOk(d, at, pos, log) && !p.Running? && |d| >= 1
    ensures LogOk(d + [n], at + [p], pos + [|log|], log + [Record(|d|, n.parent, 0, n.kind, n.callSite)])
  {
    var d', at', pos', log' := d + [n], at + [p], pos + [|log|], log + [Record(|d|, n.parent, 0, n.kind, n.callSite)];
    forall j | 0 <= j < |log'| ensures 1 <= log'[j].id < |d'| && pos'[log'[j].id] == j && Describes(log'[j], d'[log'[j].id]) {
      if j < |log| {
        assert log'[j] == log[j];
      }
    }
    forall i | 1 <= i < |pos'|
      ensures if at'[i].Running? then pos'[i] == -1 else 0 <= pos'[i] < |log'| && log'[pos'[i]].id == i
    {
      if i < |pos| {
        assert pos'[i] == pos[i];
      }
    }
  }

  /** A step is not logged before it ends. */
  lemma {:induction false} LogStart(d: Tree, at: seq<Place>, pos: seq<int>, log: seq<Record>, n: Node)
    requires LogOk(d, at, pos, log) && |d| >= 1
    ensures LogOk(d + [n], at + [Running], pos + [-1], log)
  {
    var d', at', pos' := d + [n], at + [Running], pos + [-1];
    forall j | 0 <= j < |log| ensures 1 <= log[j].id < |d'| && pos'[log[j].id] == j && Describes(log[j], d'[log[j].id]) {
    }
    forall i | 1 <= i < |pos'|
      ensures if at'[i].Running? then pos'[i] == -1 else 0 <= pos'[i] < |log| && log[pos'[i]].id == i
    {
      if i < |pos| {
        assert pos'[i] == pos[i];
      }
    }
  }

  // ---- what blocks a node ----

  /** A new node is blocked by what blocks its parent. */
  lemma {:induction false} GrowBlocked(d: Tree, at: seq<Place>, stacks: seq<Stack>, stacks': seq<Stack>,
                                       pauses: seq<seq<Pause>>, n: Node, p: Place)
    requires Blocked(d, at, stacks, pauses) && Extends(stacks, stacks', pauses, pauses)
    requires n.parent in Live(at) && forall i {:trigger d[i].parent} :: 0 < i < |d| ==> d[i].parent < |d|
    requires n.kind == FINISH && at[n.parent].OnStack? ==> Explained(stacks', pauses, |d|, at[n.parent].thread, at[n.parent].depth)
    ensures Blocked(d + [n], at + [p], stacks', pauses)
  {
    var e, at' := d + [n], at + [p];
    forall f: nat, x: nat | 2 <= f < |e| && e[f].kind == FINISH && x in Live(at') && Below(e, f, x)
                            && e[f].parent < |at'| && at'[e[f].parent].OnStack?
      ensures Explained(stacks', pauses, f, at'[e[f].parent].thread, at'[e[f].parent].depth)
    {
      if f < |d| {
        assert e[f] == d[f];
        if x == |d| {
          BelowNew(d, n, f);
          assert Below(d, f, n.parent);
        } else {
          BelowAppend(d, n, f, x);
          assert x in Live(at);
        }
        KeepExplained(stacks, stacks', pauses, pauses, f, at[d[f].parent].thread, at[d[f].parent].depth);
      }
    }
  }

  // ---- the moves keep the invariant ----

  lemma {:induction false} ParentsBound(d: Tree, live: set<nat>, open: set<nat>)
    requires Ordered(d, live, open)
    ensures forall i {:trigger d[i].parent} :: 0 < i < |d| ==> d[i].parent < |d|
  {
  }

  predicate Planted(d: Tree) {
    |d| > 0 && d[|d| - 1].kind == STEP
  }

  lemma {:induction false} BuddingInner(d: Tree, at: seq<Place>, n: Node, p: Place)
    requires Budding(d, at) && (Planted(d) || n.parent == |d| - 1)
    requires p.OnStack? || p.Pending? ==> n.kind in {ASYNC, FINISH}
    requires p.Running? ==> n.kind == STEP && n.callSite == 0
    ensures Budding(d + [n], at + [p])
  {
    var d', at' := d + [n], at + [p];
    forall i | 1 <= i < |d'| - 1 && d'[i].kind != STEP ensures d'[i + 1].parent == i {
      assert d'[i] == d[i];
    }
    assert forall i {:trigger at'[i]} :: 0 <= i < |at| ==> at'[i] == at[i] && d'[i] == d[i];
  }

  lemma {:induction false} SpineTouch(stacks: seq<Stack>, pauses: seq<seq<Pause>>, t: nat, st: Stack)
    requires t < |stacks| == |pauses| && SameSpine(stacks[t], st)
    ensures Extends(stacks, stacks[t := st], pauses, pauses)
  {
  }

  lemma {:induction false} OpenSyncTree(s: Sys, t: nat)
    requires Core(s) && Ready(s, t) && Planted(s.tree)
    ensures var n := OpenSync(s, t);
            && Budding(n.tree, n.at) && LogOk(n.tree, n.at, n.pos, n.c.log)
            && Ordered(n.tree, Live(n.at), Open(n.at)) && Settled(n.tree, Live(n.at), Open(n.at), |s.tree|)
  {
    hide Ordered, Settled, Budding, LogOk, Places, Blocked, Live, Open;
    var p := Top(s.c.stacks[t]).id;
    var n, place := InnerNode(p, FINISH, 0), OnStack(t, |s.c.stacks[t]|);
    LiveTop(s, t);
    LiveAppend(s.at, place);
    GrowFinish(s.tree, Live(s.at), Open(s.at), p, 0);
    BuddingInner(s.tree, s.at, n, place);
    LogNode(s.tree, s.at, s.pos, s.c.log, n, place);
  }

  lemma {:induction false} LiveTop(s: Sys, t: nat)
    requires Core(s) && Active(s.c, t)
    ensures var st := s.c.stacks[t];
            Top(st).id in Live(s.at) && 1 <= Top(st).id < |s.at| && s.at[Top(st).id] == OnStack(t, |st| - 1)
    ensures forall i {:trigger s.tree[i].parent} :: 0 < i < |s.tree| ==> s.tree[i].parent < |s.tree|
    ensures |s.tree| >= 3
  {
    hide StacksOk, PendingOk, StepsOk, LogOk, Blocked, Ordered;
    TopPlace(s.tree, s.at, s.c.stacks, t);
    ParentsBound(s.tree, Live(s.at), Open(s.at));
  }

  lemma {:induction false} OpenSyncCore(s: Sys, t: nat)
    requires Core(s) && Ready(s, t) && Planted(s.tree)
    ensures Core(OpenSync(s, t)) && Ready(OpenSync(s, t), t)
    ensures Top(OpenSync(s, t).c.stacks[t]).id == |s.tree|
  {
    hide Ordered, Settled, Budding, LogOk, Places, Blocked, Live, Open;
    var n, st := OpenSync(s, t), s.c.stacks[t];
    OpenSyncTree(s, t);
    OpenSyncPlaces(s.tree, s.at, s.c.stacks, s.mode, s.c.pending, s.tasks, t);
    LiveTop(s, t);
    SpineTouch(s.c.stacks, s.pauses, t, n.c.stacks[t]);
    assert ExplainedBySync(n.c.stacks[t], |s.tree|, |st| - 1);
    GrowBlocked(s.tree, s.at, s.c.stacks, n.c.stacks, s.pauses, InnerNode(Top(st).id, FINISH, 0), OnStack(t, |st|));
  }

  lemma {:induction false} AddTaskOrdered(d: Tree, live: set<nat>, open: set<nat>, p: nat, kind: NodeType, callSite: nat)
    requires Ordered(d, live, open) && p in live && Settled(d, live, open, p) && kind in {ASYNC, FINISH}
    ensures var e := d + [InnerNode(p, kind, callSite)] + [StepNode(|d|)];
            && Ordered(e, live + {|d|}, open + {|d| + 1})
            && (kind == ASYNC ==> Settled(e, live + {|d|}, open + {|d| + 1}, p))
  {
    hide Ordered, Settled;
    if kind == ASYNC {
      GrowTask(d, live, open, p, callSite);
      assert d + [InnerNode(p, kind, callSite)] + [StepNode(|d|)] == d + [InnerNode(p, kind, callSite), StepNode(|d|)];
    } else {
      GrowFinish(d, live, open, p, callSite);
      Grow(d + [InnerNode(p, FINISH, callSite)], live + {|d|}, open, StepNode(|d|));
    }
  }

  lemma {:induction false} AddTaskTree(s: Sys, t: nat, kind: NodeType, callSite: nat)
    requires Core(s) && Ready(s, t) && kind in {ASYNC, FINISH} && (Planted(s.tree) || Top(s.c.stacks[t]).id == |s.tree| - 1)
    ensures var n := AddTask(s, t, kind, callSite);
            && Budding(n.tree, n.at) && LogOk(n.tree, n.at, n.pos, n.c.log)
            && Ordered(n.tree, Live(n.at), Open(n.at))
            && (kind == ASYNC ==> Settled(n.tree, Live(n.at), Open(n.at), Top(s.c.stacks[t]).id))
  {
    hide Ordered, Settled, Budding, LogOk, Places, Blocked, Live, Open;
    var p := Top(s.c.stacks[t]).id;
    var n, place := InnerNode(p, kind, callSite), Pending(s.tasks + 1);
    LiveTop(s, t);
    LiveAppend(s.at, place);
    LiveAppend(s.at + [place], Running);
    AddTaskOrdered(s.tree, Live(s.at), Open(s.at), p, kind, callSite);
    BuddingInner(s.tree, s.at, n, place);
    BuddingInner(s.tree + [n], s.at + [place], StepNode(|s.tree|), Running);
    LogNode(s.tree, s.at, s.pos, s.c.log, n, place);
    LogStart(s.tree + [n], s.at + [place], s.pos + [|s.c.log|], s.c.log + [Record(|s.tree|, p, 0, kind, callSite)],
             StepNode(|s.tree|));
  }

  /** A task is added, and nothing but a wait of thread `t` can block a FINISH. */
  lemma {:induction false} AddTaskCore(s: Sys, t: nat, kind: NodeType, callSite: nat)
    requires Core(s) && Ready(s, t) && kind in {ASYNC, FINISH} && (Planted(s.tree) || Top(s.c.stacks[t]).id == |s.tree| - 1)
    requires kind == FINISH ==> Explained(s.c.stacks, s.pauses, |s.tree|, t, |s.c.stacks[t]| - 1)
    ensures Core(AddTask(s, t, kind, callSite)) && Planted(AddTask(s, t, kind, callSite).tree)
    ensures kind == ASYNC ==> Ready(AddTask(s, t, kind, callSite), t)
  {
    hide Ordered, Settled, Budding, LogOk, Places, Blocked, Live, Open, Explained;
    var m, st := AddTask(s, t, kind, callSite), s.c.stacks[t];
    var n, place := InnerNode(Top(st).id, kind, callSite), Pending(s.tasks + 1);
    AddTaskTree(s, t, kind, callSite);
    LiveTop(s, t);
    AddTaskPlaces(s.tree, s.at, s.c.stacks, s.mode, s.c.pending, s.tasks, Top(st).id, n);
    SpineTouch(s.c.stacks, s.pauses, t, st);
    assert s.c.stacks[t := st] == s.c.stacks;
    GrowBlocked(s.tree, s.at, s.c.stacks, s.c.stacks, s.pauses, n, place);
    LiveAppend(s.at, place);
    GrowBlocked(s.tree + [n], s.at + [place], s.c.stacks, s.c.stacks, s.pauses, StepNode(|s.tree|), Running);
  }

  lemma {:induction false} StartStepTree(s: Sys, t: nat)
    requires Core(s) && Ready(s, t) && Planted(s.tree)
    ensures var n := StartStep(s, t);
            && Budding(n.tree, n.at) && LogOk(n.tree, n.at, n.pos, n.c.log) && Ordered(n.tree, Live(n.at), Open(n.at))
  {
    hide Ordered, Settled, Budding, LogOk, Places, Blocked, Live, Open;
    var n := StepNode(Top(s.c.stacks[t]).id);
    LiveTop(s, t);
    LiveAppend(s.at, Running);
    Grow(s.tree, Live(s.at), Open(s.at), n);
    BuddingInner(s.tree, s.at, n, Running);
    LogStart(s.tree, s.at, s.pos, s.c.log, n);
  }

  lemma {:induction false} StartStepCore(s: Sys, t: nat)
    requires Core(s) && Ready(s, t) && Planted(s.tree)
    ensures Core(StartStep(s, t)) && Planted(StartStep(s, t).tree)
  {
    hide Ordered, Settled, Budding, LogOk, Places, Blocked, Live, Open;
    var n, st := StartStep(s, t), s.c.stacks[t];
    StartStepTree(s, t);
    LiveTop(s, t);
    StartPlaces(s.tree, s.at, s.c.stacks, s.mode, s.c.pending, s.tasks, t);
    SpineTouch(s.c.stacks, s.pauses, t, n.c.stacks[t]);
    GrowBlocked(s.tree, s.at, s.c.stacks, n.c.stacks, s.pauses, StepNode(Top(st).id), Running);
  }
}
