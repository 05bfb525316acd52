/** A run with two threads: the main program spawns a task, which the other thread executes while the
    main program goes on, and waits for it. */
module ProtocolExample {
  import opened Completion
  import opened Dpst
  import opened Collector
  import opened Protocol
  import opened ProtocolRuns

  /** The works of the four steps, and the position of the spawn. */
  datatype Sample = Sample(before: nat, beside: nat, inside: nat, after: nat, site: Site)

  function Events(x: Sample): seq<Event> {
    [EndStep(0, x.before), Spawn(0, x.site), EndStep(0, x.beside), WaitAll(0),
     Begin(1, 1), EndStep(1, x.inside), EndTask(1), Resume(0), EndStep(0, x.after)]
  }

  // ---- the states of the run ----

  function Sites(x: Sample): map<nat, bool> {
    if x.site.known then map[x.site.returnAddress := x.site.parFor] else map[]
  }

  function Log(x: Sample): seq<Record> {
    [Record(1, 0, 0, FINISH, 0), Record(2, 1, x.before, STEP, 0), Record(3, 1, 0, FINISH, 0),
     Record(4, 3, 0, ASYNC, CallSiteOf(x.site)), Record(6, 3, x.beside, STEP, 0),
     Record(5, 4, x.inside, STEP, 0), Record(7, 1, x.after, STEP, 0)]
  }

  function Shape(x: Sample): Tree {
    [Node(0, NO_TYPE, 0, 0), Node(0, FINISH, 0, 0), Node(1, STEP, 0, 0), Node(1, FINISH, 0, 0),
     Node(3, ASYNC, CallSiteOf(x.site), 0), Node(4, STEP, 0, 0), Node(3, STEP, 0, 0), Node(1, STEP, 0, 0)]
  }

  function Root(child: nat, young: NodeType): OpenNode {
    OpenNode(1, child, young, false)
  }

  const SYNC := OpenNode(3, 6, ASYNC, true)
  const TASK := OpenNode(4, 5, NO_TYPE, false)
  const IDLE := [Pause(Idle, [])]
  const WAITING := [Pause(Idle, []), Pause(ForTasks, [OpenNode(1, 2, FINISH, false), SYNC])]

  function After(x: Sample, k: nat): Sys
    requires k <= 9
  {
    match k
    case 0 => Initial(2)
    case 1 => Sys(State([[Root(2, NO_TYPE)], []], map[], 3, Log(x)[..2], map[]), Shape(x)[..3],
                  [Gone, OnStack(0, 0), Gone], [-1, 0, 1], [Between, Scheduling], [IDLE, IDLE], 0)
    case 2 => Sys(State([[Root(2, FINISH), SYNC], []], map[1 := TASK], 7, Log(x)[..4], Sites(x)), Shape(x)[..7],
                  [Gone, OnStack(0, 0), Gone, OnStack(0, 1), Pending(1), Running, Running], [-1, 0, 1, 2, 3, -1, -1],
                  [Computing, Scheduling], [IDLE, IDLE], 1)
    case 3 => Sys(State([[Root(2, FINISH), SYNC], []], map[1 := TASK], 7, Log(x)[..5], Sites(x)), Shape(x)[..7],
                  [Gone, OnStack(0, 0), Gone, OnStack(0, 1), Pending(1), Running, Gone], [-1, 0, 1, 2, 3, -1, 4],
                  [Between, Scheduling], [IDLE, IDLE], 1)
    case 4 => Sys(State([[Root(2, FINISH), SYNC], []], map[1 := TASK], 7, Log(x)[..5], Sites(x)), Shape(x)[..7],
                  [Gone, OnStack(0, 0), Gone, OnStack(0, 1), Pending(1), Running, Gone], [-1, 0, 1, 2, 3, -1, 4],
                  [Scheduling, Scheduling], [WAITING, IDLE], 1)
    case 5 => Sys(State([[Root(2, FINISH), SYNC], [TASK]], map[], 7, Log(x)[..5], Sites(x)), Shape(x)[..7],
                  [Gone, OnStack(0, 0), Gone, OnStack(0, 1), OnStack(1, 0), Running, Gone], [-1, 0, 1, 2, 3, -1, 4],
                  [Scheduling, Computing], [WAITING, IDLE], 1)
    case 6 => Sys(State([[Root(2, FINISH), SYNC], [TASK]], map[], 7, Log(x)[..6], Sites(x)), Shape(x)[..7],
                  [Gone, OnStack(0, 0), Gone, OnStack(0, 1), OnStack(1, 0), Gone, Gone], [-1, 0, 1, 2, 3, 5, 4],
                  [Scheduling, Between], [WAITING, IDLE], 1)
    case 7 => Sys(State([[Root(2, FINISH), SYNC], []], map[], 7, Log(x)[..6], Sites(x)), Shape(x)[..7],
                  [Gone, OnStack(0, 0), Gone, OnStack(0, 1), Gone, Gone, Gone], [-1, 0, 1, 2, 3, 5, 4],
                  [Scheduling, Scheduling], [WAITING, IDLE], 1)
    case 8 => Sys(State([[Root(7, FINISH)], []], map[], 8, Log(x)[..6], Sites(x)), Shape(x),
                  [Gone, OnStack(0, 0), Gone, Gone, Gone, Gone, Gone, Running], [-1, 0, 1, 2, 3, 5, 4, -1],
                  [Computing, Scheduling], [IDLE, IDLE], 1)
    case 9 => Sys(State([[Root(7, FINISH)], []], map[], 8, Log(x), Sites(x)), Shape(x),
                  [Gone, OnStack(0, 0), Gone, Gone, Gone, Gone, Gone, Gone], [-1, 0, 1, 2, 3, 5, 4, 6],
                  [Between, Scheduling], [IDLE, IDLE], 1)
  }

  // ---- one event after the other ----

  ghost predicate Leads(s: Sys, e: Event, s': Sys) {
    Inv(s) ==> Enabled(s, e) && Next(s, e) == s'
  }

  /** States that agree in every component are equal. */
  lemma {:induction false} Same(s: Sys, s': Sys)
    requires |s.c.stacks| == |s'.c.stacks| == 2 && s.c.stacks[0] == s'.c.stacks[0] && s.c.stacks[1] == s'.c.stacks[1]
    requires s.c.pending == s'.c.pending && s.c.last == s'.c.last
    requires s.c.log == s'.c.log && s.c.callSites == s'.c.callSites
    requires s.tree == s'.tree && s.at == s'.at && s.pos == s'.pos && s.mode == s'.mode && s.tasks == s'.tasks
    requires |s.pauses| == |s'.pauses| == 2 && s.pauses[0] == s'.pauses[0] && s.pauses[1] == s'.pauses[1]
    ensures s == s'
  {
  }

  lemma {:induction false} StepEnds(x: Sample)
    ensures Leads(After(x, 0), Events(x)[0], After(x, 1))
  {
    hide Inv;
    if Inv(After(x, 0)) {
      NextDefined(After(x, 0), Events(x)[0]);
      Same(Next(After(x, 0), Events(x)[0]), After(x, 1));
    }
  }

  lemma {:induction false} TaskSpawned(x: Sample)
    ensures Leads(After(x, 1), Events(x)[1], After(x, 2))
  {
    hide Inv;
    if Inv(After(x, 1)) {
      Same(Next(After(x, 1), Events(x)[1]), After(x, 2));
    }
  }

  lemma {:induction false} SecondStepEnds(x: Sample)
    ensures Leads(After(x, 2), Events(x)[2], After(x, 3))
  {
    hide Inv;
    if Inv(After(x, 2)) {
      Same(Next(After(x, 2), Events(x)[2]), After(x, 3));
    }
  }

  lemma {:induction false} WaitCalled(x: Sample)
    ensures Leads(After(x, 3), Events(x)[3], After(x, 4))
  {
    hide Inv;
    if Inv(After(x, 3)) {
      Same(Next(After(x, 3), Events(x)[3]), After(x, 4));
    }
  }

  lemma {:induction false} TaskBegins(x: Sample)
    ensures Leads(After(x, 4), Events(x)[4], After(x, 5))
  {
    hide Inv;
    if Inv(After(x, 4)) {
      Same(Next(After(x, 4), Events(x)[4]), After(x, 5));
    }
  }

  lemma {:induction false} TaskStepEnds(x: Sample)
    ensures Leads(After(x, 5), Events(x)[5], After(x, 6))
  {
    hide Inv;
    if Inv(After(x, 5)) {
      Same(Next(After(x, 5), Events(x)[5]), After(x, 6));
    }
  }

  lemma {:induction false} TaskEnds(x: Sample)
    ensures Leads(After(x, 6), Events(x)[6], After(x, 7))
  {
    hide Inv;
    if Inv(After(x, 6)) {
      Same(Next(After(x, 6), Events(x)[6]), After(x, 7));
    }
  }

  lemma {:induction false} WaitReturns(x: Sample)
    ensures Leads(After(x, 7), Events(x)[7], After(x, 8))
  {
    hide Inv;
    if Inv(After(x, 7)) {
      Same(Next(After(x, 7), Events(x)[7]), After(x, 8));
    }
  }

  lemma {:induction false} LastStepEnds(x: Sample)
    ensures Leads(After(x, 8), Events(x)[8], After(x, 9))
  {
    hide Inv;
    if Inv(After(x, 8)) {
      Same(Next(After(x, 8), Events(x)[8]), After(x, 9));
    }
  }

  lemma {:induction false} Goes(x: Sample, k: nat)
    requires k < 9
    ensures |Events(x)| == 9 && Leads(After(x, k), Events(x)[k], After(x, k + 1))
  {
    hide Leads, After;
    match k
    case 0 => StepEnds(x);
    case 1 => TaskSpawned(x);
    case 2 => SecondStepEnds(x);
    case 3 => WaitCalled(x);
    case 4 => TaskBegins(x);
    case 5 => TaskStepEnds(x);
    case 6 => TaskEnds(x);
    case 7 => WaitReturns(x);
    case 8 => LastStepEnds(x);
  }

  lemma {:induction false} StartsSo(x: Sample)
    ensures |Events(x)| == 9 && Run(2, Events(x)[..0]) == Some(After(x, 0))
  {
    hide Inv;
    assert Events(x)[..0] == [];
  }

  lemma {:induction false} GoesOn(es: seq<Event>, s: Sys, s': Sys)
    requires es != [] && Run(2, es[..|es| - 1]) == Some(s) && Leads(s, es[|es| - 1], s')
    ensures Run(2, es) == Some(s')
  {
    hide Inv, Enabled, Next;
    assert Inv(Run(2, es[..|es| - 1]).value);
  }

  lemma {:induction false} Reaches(x: Sample, k: nat)
    requires k <= 9
    ensures |Events(x)| == 9 && Run(2, Events(x)[..k]) == Some(After(x, k))
  {
    hide Inv, Enabled, Next, After, Events, Run;
    if k == 0 {
      StartsSo(x);
    } else {
      Reaches(x, k - 1);
      Goes(x, k - 1);
      var es := Events(x)[..k];
      assert es[..k - 1] == Events(x)[..k - 1] && es[k - 1] == Events(x)[k - 1];
      GoesOn(es, After(x, k - 1), After(x, k));
    }
  }

  // ---- the span of the run ----

  /** The tree, works included. */
  function Measured(x: Sample): Tree {
    [Node(0, NO_TYPE, 0, 0), Node(0, FINISH, 0, 0), Node(1, STEP, 0, x.before), Node(1, FINISH, 0, 0),
     Node(3, ASYNC, CallSiteOf(x.site), 0), Node(4, STEP, 0, x.inside), Node(3, STEP, 0, x.beside), Node(1, STEP, 0, x.after)]
  }

  lemma {:induction false} LogDescribes(x: Sample)
    requires LogsExactly(Log(x), 8, {})
    ensures LoggedTree(Log(x), 8) == Measured(x)
  {
    var log, d := Log(x), LoggedTree(Log(x), 8);
    assert d[0] == NodeOf(log, 0);
    forall v: nat | 1 <= v < 8 ensures d[v] == Measured(x)[v] {
      assert d[v] == NodeOf(log, v);
      var j := if v <= 4 then v - 1 else if v == 5 then 5 else if v == 6 then 4 else 6;
      assert log[j].id == v;
    }
  }

  lemma {:induction false} NoChild(d: Tree, v: nat, k: nat, m: nat)
    requires v < k <= m <= |d| && forall c {:trigger d[c].parent} :: k <= c < m ==> d[c].parent != v
    ensures Serial(d, v, m) == Serial(d, v, k) && AsyncMax(d, v, m) == AsyncMax(d, v, k)
    decreases m
  {
    hide Span, Contribution;
    if k < m {
      NoChild(d, v, k, m - 1);
    }
  }

  /** Child `c` of `v` is the only one numbered from `k` to below `m`. */
  lemma {:induction false} OneChild(d: Tree, v: nat, k: nat, c: nat, m: nat)
    requires v < k <= c < m <= |d| && d[c].parent == v
    requires forall u {:trigger d[u].parent} :: k <= u < m && u != c ==> d[u].parent != v
    ensures Serial(d, v, m) == Serial(d, v, k) + Contribution(d, c)
    ensures AsyncMax(d, v, m) == Max(AsyncMax(d, v, k), if d[c].kind == ASYNC then Serial(d, v, k) + Span(d, c) else 0)
  {
    hide Span, Contribution;
    NoChild(d, v, k, c);
    NoChild(d, v, c + 1, m);
    assert Serial(d, v, c + 1) == Serial(d, v, c) + Contribution(d, c);
  }

  lemma {:induction false} TaskSpan(x: Sample)
    ensures Span(Measured(x), 4) == x.inside
  {
    hide Serial, AsyncMax;
    var d := Measured(x);
    OneChild(d, 4, 5, 5, 8);
    NothingYet(d, 4);
  }

  lemma {:induction false} NothingYet(d: Tree, v: nat)
    requires v < |d|
    ensures Serial(d, v, v + 1) == AsyncMax(d, v, v + 1) == 0
  {
  }

  lemma {:induction false} SyncSpan(x: Sample)
    ensures Span(Measured(x), 3) == Max(x.beside, x.inside)
  {
    hide Serial, AsyncMax;
    var d := Measured(x);
    TaskSpan(x);
    NothingYet(d, 3);
    OneChild(d, 3, 4, 4, 5);
    OneChild(d, 3, 5, 6, 8);
  }

  lemma {:induction false} RootSpan(x: Sample)
    ensures Span(Measured(x), 1) == x.before + Max(x.beside, x.inside) + x.after
  {
    hide Serial, AsyncMax;
    var d := Measured(x);
    SyncSpan(x);
    NothingYet(d, 1);
    OneChild(d, 1, 2, 2, 3);
    OneChild(d, 1, 3, 3, 5);
    OneChild(d, 1, 5, 7, 8);
  }

  /** The task runs beside the main program: only the longer of the two counts. */
  lemma {:induction false} SampleRun(x: Sample)
    ensures Run(2, Events(x)).Some? && Finished(Run(2, Events(x)).value)
    ensures var c := Run(2, Events(x)).value.c;
            Span(LoggedTree(c.log, c.last), 1) == x.before + Max(x.beside, x.inside) + x.after
  {
    hide Run, LoggedTree, Span, Inv, Valid, FinishOrdered, Events;
    Reaches(x, 9);
    assert Events(x)[..9] == Events(x);
    FinishedRun(2, Events(x));
    LogDescribes(x);
    RootSpan(x);
  }
}
