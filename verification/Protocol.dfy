/** The collection phase as a protocol: any number of threads call the Capture operations in the
    order that t_debug_task and exec_calls fix, while the scheduler decides which task starts
    where and when a wait returns. */
module Protocol {
  import opened Dpst
  import opened Growth
  import opened Collector

  /** Where a node is: open on a stack, spawned but not started, a step being executed, or closed. */
  datatype Place = OnStack(thread: nat, depth: nat) | Pending(task: nat) | Running | Gone

  /** What a thread is doing: executing a step, between two steps, or inside the scheduler. */
  datatype Mode = Computing | Between | Scheduling

  datatype Why = Idle | ForTasks | ForRoot(finish: nat)

  /** A call into the scheduler that has not returned, with the stack it was made on. */
  datatype Pause = Pause(why: Why, stack: Stack)

  /** The state of the collector, and the history that explains it: the tree built so far, the
      place of every node, and the position of its record in the log (-1 if not logged). */
  datatype Sys = Sys(
    c: State,
    tree: Tree,
    at: seq<Place>,
    pos: seq<int>,
    mode: seq<Mode>,
    pauses: seq<seq<Pause>>,
    tasks: nat)

  datatype Site = Site(returnAddress: nat, known: bool, parFor: bool)

  datatype Event =
    | EndStep(t: nat, work: nat)
    | Spawn(t: nat, site: Site)
    | SpawnAll(t: nat, site: Site)
    | SpawnRoot(t: nat, site: Site)
    | WaitAll(t: nat)
    | EndTask(t: nat)
    | Begin(t: nat, task: nat)
    | Resume(t: nat)

  function Initial(threads: nat): Sys
    requires threads > 0
  {
    Sys(Start(threads),
        [Node(0, NO_TYPE, 0, 0), Node(0, FINISH, 0, 0), Node(1, STEP, 0, 0)],
        [Gone, OnStack(0, 0), Running],
        [-1, 0, -1],
        seq(threads, i => if i == 0 then Computing else Scheduling),
        seq(threads, i => [Pause(Idle, [])]),
        0)
  }

  // ---- guards ----

  function Last<T>(s: seq<T>): T
    requires |s| > 0
  {
    s[|s| - 1]
  }

  ghost function Live(at: seq<Place>): set<nat> {
    set i | 0 <= i < |at| && (at[i].OnStack? || at[i].Pending?)
  }

  ghost function Open(at: seq<Place>): set<nat> {
    set i | 0 <= i < |at| && at[i].Running?
  }

  /** No task below node `f`, other than `f` itself if `f` is `except`, is alive. */
  ghost predicate Quiescent(s: Sys, f: nat, except: nat) {
    forall x: nat {:trigger Below(s.tree, f, x)} :: x in Live(s.at) && x != except ==> !Below(s.tree, f, x)
  }

  predicate AtMostOneSync(st: Stack) {
    |st| > 0 && (Top(st).sync ==> |st| > 1 && !st[|st| - 2].sync)
  }

  predicate Sized(s: Sys) {
    |s.c.stacks| == |s.mode| == |s.pauses| > 0
  }

  ghost predicate Enabled(s: Sys, e: Event) {
    Sized(s) && e.t < |s.mode| && |s.pauses[e.t]| > 0 &&
    var st, m := s.c.stacks[e.t], s.mode[e.t];
    match e
    case EndStep(t, _) => m == Computing && |st| > 0
    case Spawn(_, _) => m == Between && |st| > 0
    case SpawnAll(_, _) => m == Between && |st| > 0
    case SpawnRoot(_, _) => m == Between && |st| > 0
    case WaitAll(_) => m == Between && |st| > 0 && Top(st).sync
    case EndTask(t) => m == Between && (t > 0 || |s.pauses[t]| > 1) && AtMostOneSync(st)
    case Begin(_, task) => m == Scheduling && task in s.c.pending
    case Resume(t) =>
      m == Scheduling && |st| > 0 &&
      match Last(s.pauses[t]).why
      case Idle => false
      case ForTasks => |st| > 1 && Quiescent(s, Top(st).id, Top(st).id)
      case ForRoot(f) => Quiescent(s, f, 0)
  }

  // ---- steps ----

  function PushPause(s: Sys, t: nat, why: Why, st: Stack): seq<seq<Pause>>
    requires t < |s.pauses|
  {
    s.pauses[t := s.pauses[t] + [Pause(why, st)]]
  }

  /** The nodes a spawn creates, with their places and log positions; `more` when the spawning
      thread goes on with a new step. */
  function SpawnTree(s: Sys, t: nat, callSite: nat, more: bool): Tree
    requires Active(s.c, t)
  {
    var cur, n := Top(s.c.stacks[t]), s.c.last;
    if cur.young == ASYNC then
      [InnerNode(cur.id, ASYNC, callSite), StepNode(n)] + if more then [StepNode(cur.id)] else []
    else
      [InnerNode(cur.id, FINISH, 0), InnerNode(n, ASYNC, callSite), StepNode(n + 1)] + if more then [StepNode(n)] else []
  }

  function SpawnAt(s: Sys, t: nat, task: nat, more: bool): seq<Place>
    requires Active(s.c, t)
  {
    (if Top(s.c.stacks[t]).young == ASYNC then [] else [OnStack(t, |s.c.stacks[t]|)])
    + [Pending(task), Running] + if more then [Running] else []
  }

  function SpawnPos(s: Sys, t: nat, more: bool): seq<int>
    requires Active(s.c, t)
  {
    var l := |s.c.log|;
    (if Top(s.c.stacks[t]).young == ASYNC then [l] else [l, l + 1]) + [-1] + if more then [-1] else []
  }

  predicate Indexed(s: Sys, t: nat) {
    Sized(s) && t < |s.mode| && |s.at| == |s.pos| == |s.tree|
  }

  function AfterEndStep(s: Sys, t: nat, work: nat): Sys
    requires Indexed(s, t) && Active(s.c, t) && Top(s.c.stacks[t]).child < |s.at|
  {
    var a := Top(s.c.stacks[t]).child;
    s.(c := LogStep(s.c, t, work), at := s.at[a := Gone], pos := s.pos[a := |s.c.log|], mode := s.mode[t := Between])
  }

  function Registered(s: Sys, site: Site): State {
    Register(s.c, site.returnAddress, site.known, site.parFor)
  }

  function CallSiteOf(site: Site): nat {
    SiteOf(site.returnAddress, site.known)
  }

  function AfterSpawn(s: Sys, t: nat, site: Site): Sys
    requires Indexed(s, t) && Active(s.c, t)
  {
    Sys(SpawnOnly(Registered(s, site), t, s.tasks + 1, CallSiteOf(site)),
        s.tree + SpawnTree(s, t, CallSiteOf(site), true),
        s.at + SpawnAt(s, t, s.tasks + 1, true),
        s.pos + SpawnPos(s, t, true),
        s.mode[t := Computing], s.pauses, s.tasks + 1)
  }

  function AfterSpawnAll(s: Sys, t: nat, site: Site): Sys
    requires Indexed(s, t) && Active(s.c, t)
  {
    var c := SpawnAndWaitForAll(Registered(s, site), t, s.tasks + 1, CallSiteOf(site));
    Sys(c,
        s.tree + SpawnTree(s, t, CallSiteOf(site), false),
        s.at + SpawnAt(s, t, s.tasks + 1, false),
        s.pos + SpawnPos(s, t, false),
        s.mode[t := Scheduling], PushPause(s, t, ForTasks, c.stacks[t]), s.tasks + 1)
  }

  function AfterSpawnRoot(s: Sys, t: nat, site: Site): Sys
    requires Indexed(s, t) && Active(s.c, t)
  {
    var c := SpawnAndWait(Registered(s, site), t, s.tasks + 1, CallSiteOf(site));
    Sys(c,
        s.tree + [InnerNode(Top(s.c.stacks[t]).id, FINISH, CallSiteOf(site)), StepNode(s.c.last)],
        s.at + [Pending(s.tasks + 1), Running],
        s.pos + [|s.c.log|, -1],
        s.mode[t := Scheduling], PushPause(s, t, ForRoot(s.c.last), c.stacks[t]), s.tasks + 1)
  }

  function AfterWaitAll(s: Sys, t: nat): Sys
    requires Indexed(s, t)
  {
    s.(mode := s.mode[t := Scheduling], pauses := PushPause(s, t, ForTasks, s.c.stacks[t]))
  }

  function AfterEndTask(s: Sys, t: nat): Sys
    requires Indexed(s, t) && CanReturn(s.c.stacks[t]) && Top(s.c.stacks[t]).id < |s.at|
    requires Top(s.c.stacks[t]).sync ==> Top(Pop(s.c.stacks[t])).id < |s.at|
  {
    var st := s.c.stacks[t];
    var at := s.at[Top(st).id := Gone];
    s.(c := Return(s.c, t),
       at := if Top(st).sync then at[Top(Pop(st)).id := Gone] else at,
       mode := s.mode[t := Scheduling])
  }

  function AfterBegin(s: Sys, t: nat, task: nat): Sys
    requires Indexed(s, t) && task in s.c.pending && s.c.pending[task].id < |s.at|
  {
    s.(c := Execute(s.c, t, task),
       at := s.at[s.c.pending[task].id := OnStack(t, |s.c.stacks[t]|)],
       mode := s.mode[t := Computing])
  }

  function PopPause(s: Sys, t: nat): seq<seq<Pause>>
    requires t < |s.pauses| && |s.pauses[t]| > 0
  {
    s.pauses[t := s.pauses[t][..|s.pauses[t]| - 1]]
  }

  /** wait_for_all returns: the implicit FINISH is popped, and a new step starts. */
  function AfterResumeTasks(s: Sys, t: nat): Sys
    requires Indexed(s, t) && |s.pauses[t]| > 0 && |s.c.stacks[t]| > 1 && Top(s.c.stacks[t]).id < |s.at|
  {
    var st := s.c.stacks[t];
    Sys(WaitOnly(s.c, t), s.tree + [StepNode(Top(Pop(st)).id)], s.at[Top(st).id := Gone] + [Running], s.pos + [-1],
        s.mode[t := Computing], PopPause(s, t), s.tasks)
  }

  /** spawn_root_and_wait returns: a new step starts. */
  function AfterResumeRoot(s: Sys, t: nat): Sys
    requires Indexed(s, t) && |s.pauses[t]| > 0 && |s.c.stacks[t]| > 0
  {
    Sys(Wait(s.c, t), s.tree + [StepNode(Top(s.c.stacks[t]).id)], s.at + [Running], s.pos + [-1],
        s.mode[t := Computing], PopPause(s, t), s.tasks)
  }

  ghost function Next(s: Sys, e: Event): Sys
    requires Inv(s) && Enabled(s, e)
  {
    NextDefined(s, e);
    match e
    case EndStep(t, work) => AfterEndStep(s, t, work)
    case Spawn(t, site) => AfterSpawn(s, t, site)
    case SpawnAll(t, site) => AfterSpawnAll(s, t, site)
    case SpawnRoot(t, site) => AfterSpawnRoot(s, t, site)
    case WaitAll(t) => AfterWaitAll(s, t)
    case EndTask(t) => AfterEndTask(s, t)
    case Begin(t, task) => AfterBegin(s, t, task)
    case Resume(t) => if Last(s.pauses[t]).why == ForTasks then AfterResumeTasks(s, t) else AfterResumeRoot(s, t)
  }

  lemma {:induction false} NextDefined(s: Sys, e: Event)
    requires Inv(s) && Enabled(s, e)
    ensures Indexed(s, e.t)
    ensures e.EndStep? ==> Top(s.c.stacks[e.t]).child < |s.at|
    ensures e.EndTask? ==> Top(s.c.stacks[e.t]).id < |s.at| && CanReturn(s.c.stacks[e.t])
    ensures e.EndTask? && Top(s.c.stacks[e.t]).sync ==> Top(Pop(s.c.stacks[e.t])).id < |s.at|
    ensures e.Begin? ==> s.c.pending[e.task].id < |s.at|
    ensures e.Resume? ==> Top(s.c.stacks[e.t]).id < |s.at|
  {
    hide Ordered, Blocked, LogOk, Quiescent, Nested;
    assert StackOk(s.tree, s.at, s.c.stacks[e.t], e.t);
  }

  // ---- the invariant ----

  /** Every inner node was created together with its first child. */
  ghost predicate TreeOk(d: Tree, at: seq<Place>) {
    && |d| == |at| >= 3 && d[0] == Node(0, NO_TYPE, 0, 0) && d[1].callSite == 0
    && (forall i {:trigger d[i].kind} :: 1 <= i < |d| && d[i].kind != STEP ==> i + 1 < |d| && d[i + 1].parent == i)
    && (forall i {:trigger at[i]} :: 0 <= i < |at| ==>
          && (at[i].Running? ==> d[i].kind == STEP && d[i].callSite == 0)
          && (at[i].OnStack? || at[i].Pending? ==> i > 0 && d[i].kind in {ASYNC, FINISH}))
  }

  ghost predicate StackOk(d: Tree, at: seq<Place>, st: Stack, t: nat)
    requires |d| == |at|
  {
    && (forall k {:trigger st[k].id} :: 0 <= k < |st| ==> 1 <= st[k].id < |at| && at[st[k].id] == OnStack(t, k))
    && (forall k {:trigger st[k].sync} :: 0 <= k < |st| && st[k].sync ==> k > 0 && Implicit(d, st[k - 1].id, st[k].id))
    && (forall k {:trigger st[k].young} :: 0 <= k < |st| && st[k].young == ASYNC ==> st[k].sync)
  }

  /** Node `f` is an implicit FINISH of node `p`. */
  predicate Implicit(d: Tree, p: nat, f: nat) {
    f < |d| && d[f].kind == FINISH && d[f].callSite == 0 && d[f].parent == p
  }

  ghost predicate StacksOk(d: Tree, at: seq<Place>, stacks: seq<Stack>) {
    && |d| == |at|
    && (forall t {:trigger stacks[t]} :: 0 <= t < |stacks| ==> StackOk(d, at, stacks[t], t))
    && (forall i {:trigger at[i].OnStack?} :: 0 <= i < |at| && at[i].OnStack? ==> Holds(stacks, at[i].thread, at[i].depth, i))
  }

  predicate Holds(stacks: seq<Stack>, t: nat, k: nat, i: nat) {
    t < |stacks| && k < |stacks[t]| && stacks[t][k].id == i
  }

  /** A task that has not started has one child, its first step. */
  ghost predicate PendingOk(d: Tree, at: seq<Place>, pending: map<nat, OpenNode>, tasks: nat) {
    && |d| == |at|
    && (forall k {:trigger pending[k]} :: k in pending ==> k <= tasks && Unstarted(d, at, k, pending[k]))
    && (forall i {:trigger at[i].Pending?} :: 0 <= i < |at| && at[i].Pending? ==>
          at[i].task in pending && pending[at[i].task].id == i)
  }

  ghost predicate Unstarted(d: Tree, at: seq<Place>, k: nat, n: OpenNode)
    requires |d| == |at|
  {
    && 1 <= n.id < |at| && at[n.id] == Pending(k) && !n.sync && n.young == NO_TYPE
    && OpenChild(d, at, n)
    && (forall i {:trigger d[i].parent} :: 0 < i < |d| && d[i].parent == n.id ==> i == n.child)
  }

  /** The step that `n` records as its current child is being executed. */
  predicate OpenChild(d: Tree, at: seq<Place>, n: OpenNode)
    requires |d| == |at|
  {
    0 < n.child < |at| && at[n.child].Running? && d[n.child].parent == n.id
  }

  /** Exactly the computing threads and the tasks that have not started hold an open step. */
  ghost predicate StepsOk(d: Tree, at: seq<Place>, stacks: seq<Stack>, mode: seq<Mode>, pending: map<nat, OpenNode>) {
    && |d| == |at| && |mode| == |stacks|
    && (forall t {:trigger mode[t]} :: 0 <= t < |mode| && mode[t] == Computing ==>
          |stacks[t]| > 0 && OpenChild(d, at, Top(stacks[t])))
    && (forall a {:trigger at[a].Running?} :: 0 <= a < |at| && at[a].Running? ==>
          d[a].parent < |at| && Executed(at[d[a].parent], stacks, mode, pending, a))
  }

  /** A node at place `p` holds the open step `a`. */
  predicate Executed(p: Place, stacks: seq<Stack>, mode: seq<Mode>, pending: map<nat, OpenNode>, a: nat)
    requires |mode| == |stacks|
  {
    match p
    case Pending(k) => k in pending && pending[k].child == a
    case OnStack(t, k) => t < |mode| && mode[t] == Computing && k == |stacks[t]| - 1 && stacks[t][k].child == a
    case _ => false
  }

  /** Every node but the open steps is logged, exactly once, as it stands in the tree. */
  ghost predicate LogOk(d: Tree, at: seq<Place>, pos: seq<int>, log: seq<Record>) {
    && |d| == |at| == |pos|
    && (forall j {:trigger log[j]} :: 0 <= j < |log| ==> 1 <= log[j].id < |d| && pos[log[j].id] == j && Describes(log[j], d[log[j].id]))
    && (forall i {:trigger pos[i]} :: 1 <= i < |pos| ==>
          if at[i].Running? then pos[i] == -1 else 0 <= pos[i] < |log| && log[pos[i]].id == i)
  }

  predicate Describes(r: Record, n: Node) {
    r.parent == n.parent && r.kind == n.kind && r.callSite == n.callSite
  }

  ghost predicate FrameStart(ps: seq<Pause>, k: nat) {
    exists j :: 0 <= j < |ps| && |ps[j].stack| == k
  }

  /** The scheduler calls of a thread are nested, each on an untouched lower part of the stack;
      a task starts right above each of them, and everything above that is implicit. */
  ghost predicate Nested(d: Tree, st: Stack, ps: seq<Pause>, scheduling: bool) {
    && |ps| > 0 && ps[0] == Pause(Idle, [])
    && Layered(st, ps)
    && (forall k: nat {:trigger st[k].sync} :: k < |st| && !st[k].sync ==> FrameStart(ps, k))
    && (forall j {:trigger ps[j].why} :: 0 < j < |ps| ==> Purposeful(d, ps[j]))
    && (if scheduling then Last(ps).stack == st else |Last(ps).stack| < |st|)
  }

  ghost predicate Layered(st: Stack, ps: seq<Pause>) {
    && (forall j {:trigger ps[j].stack} :: 0 <= j < |ps| ==> |ps[j].stack| <= |st| && ps[j].stack == st[..|ps[j].stack|])
    && (forall i, j {:trigger ps[i].stack, ps[j].stack} :: 0 <= i < j < |ps| ==> |ps[i].stack| < |ps[j].stack|)
    && (forall j {:trigger ps[j].stack} :: 0 <= j < |ps| && |ps[j].stack| < |st| ==> !st[|ps[j].stack|].sync)
  }

  ghost predicate Purposeful(d: Tree, p: Pause) {
    && p.why != Idle && |p.stack| > 0
    && (p.why == ForTasks ==> Top(p.stack).sync)
    && (p.why.ForRoot? ==> p.why.finish < |d| && d[p.why.finish].parent == Top(p.stack).id && d[p.why.finish].kind == FINISH)
  }

  ghost predicate PausesOk(d: Tree, stacks: seq<Stack>, pauses: seq<seq<Pause>>, mode: seq<Mode>) {
    && |stacks| == |pauses| == |mode|
    && forall t {:trigger pauses[t]} {:trigger stacks[t]} :: 0 <= t < |mode| ==> Nested(d, stacks[t], pauses[t], mode[t] == Scheduling)
  }

  /** A FINISH child of an open node that still has something alive below it is either the
      implicit FINISH right above that node, or a root the thread is waiting for. */
  ghost predicate Blocked(d: Tree, at: seq<Place>, stacks: seq<Stack>, pauses: seq<seq<Pause>>) {
    && |d| == |at| && |stacks| == |pauses|
    && forall f: nat, x: nat {:trigger Below(d, f, x)} ::
         2 <= f < |d| && d[f].kind == FINISH && x in Live(at) && Below(d, f, x)
         && d[f].parent < |at| && at[d[f].parent].OnStack? ==>
           Explained(stacks, pauses, f, at[d[f].parent].thread, at[d[f].parent].depth)
  }

  ghost predicate Explained(stacks: seq<Stack>, pauses: seq<seq<Pause>>, f: nat, t: nat, k: nat)
    requires |stacks| == |pauses|
  {
    t < |stacks| && (ExplainedBySync(stacks[t], f, k) || ExplainedByWait(pauses[t], f, k))
  }

  predicate ExplainedBySync(st: Stack, f: nat, k: nat) {
    k + 1 < |st| && st[k + 1].sync && st[k + 1].id == f
  }

  ghost predicate ExplainedByWait(ps: seq<Pause>, f: nat, k: nat) {
    exists j :: 0 <= j < |ps| && ps[j].why == ForRoot(f) && |ps[j].stack| == k + 1
  }

  ghost predicate Inv(s: Sys) {
    && Sized(s) && |s.tree| == |s.at| == |s.pos| == s.c.last
    && TreeOk(s.tree, s.at)
    && StacksOk(s.tree, s.at, s.c.stacks)
    && PendingOk(s.tree, s.at, s.c.pending, s.tasks)
    && StepsOk(s.tree, s.at, s.c.stacks, s.mode, s.c.pending)
    && LogOk(s.tree, s.at, s.pos, s.c.log)
    && PausesOk(s.tree, s.c.stacks, s.pauses, s.mode)
    && Ordered(s.tree, Live(s.at), Open(s.at))
    && Blocked(s.tree, s.at, s.c.stacks, s.pauses)
  }

  // ---- the initial state ----

  lemma {:induction false} InitialOrdered(d: Tree)
    requires d == [Node(0, NO_TYPE, 0, 0), Node(0, FINISH, 0, 0), Node(1, STEP, 0, 0)]
    ensures Ordered(d, {1}, {2})
    ensures forall f: nat, w: nat {:trigger Below(d, f, w)} :: 2 <= f && Below(d, f, w) ==> w == f
  {
    forall f: nat, w: nat | 2 <= f && Below(d, f, w) ensures w == f {
      Later(d, f, w);
    }
  }

  lemma {:induction false} InitialFrames(threads: nat)
    requires threads > 0
    ensures var s := Initial(threads);
            StacksOk(s.tree, s.at, s.c.stacks) && PausesOk(s.tree, s.c.stacks, s.pauses, s.mode)
  {
    var s := Initial(threads);
    forall t | 0 <= t < threads
      ensures StackOk(s.tree, s.at, s.c.stacks[t], t)
      ensures Nested(s.tree, s.c.stacks[t], s.pauses[t], s.mode[t] == Scheduling)
    {
      assert s.c.stacks[t] == if t == 0 then [OpenNode(1, 2, NO_TYPE, false)] else [];
      assert s.pauses[t] == [Pause(Idle, [])];
      assert |s.pauses[t][0].stack| == 0;
      assert FrameStart(s.pauses[t], 0);
    }
  }

  lemma {:induction false} InitialPlaces(threads: nat)
    requires threads > 0
    ensures var s := Initial(threads);
            && Live(s.at) == {1} && Open(s.at) == {2} && TreeOk(s.tree, s.at)
            && PendingOk(s.tree, s.at, s.c.pending, s.tasks)
            && StepsOk(s.tree, s.at, s.c.stacks, s.mode, s.c.pending)
            && LogOk(s.tree, s.at, s.pos, s.c.log)
  {
  }

  lemma {:induction false} InitialInv(threads: nat)
    requires threads > 0
    ensures Inv(Initial(threads))
  {
    hide Ordered, PausesOk, StacksOk, TreeOk, PendingOk, StepsOk, LogOk, Live, Open;
    var s := Initial(threads);
    InitialOrdered(s.tree);
    InitialFrames(threads);
    InitialPlaces(threads);
  }
}
