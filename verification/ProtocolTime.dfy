/** What the DPST says about time: steps that are in series in the tree were executed in that order. */
module ProtocolTime {
  import opened Dpst
  import opened Chains
  import opened Growth
  import opened Collector
  import opened Protocol
  import opened ProtocolEvents
  import opened ProtocolRuns

  /** If step `b` has ended, every step it is in series after was logged earlier. */
  ghost predicate Timed(d: Tree, at: seq<Place>, pos: seq<int>) {
    && |d| == |at| == |pos|
    && forall a: nat, b: nat {:trigger Series(d, a, b)} ::
         a < |d| && b < |d| && d[a].kind == STEP && d[b].kind == STEP && Series(d, a, b) && !at[b].Running? ==> pos[a] < pos[b]
  }

  lemma {:induction false} BelowPrefix(d: Tree, e: Tree, f: nat, w: nat)
    requires d <= e && w < |d|
    ensures Below(e, f, w) == Below(d, f, w)
    decreases w
  {
    assert e[w] == d[w];
    if f < w && d[w].parent < w {
      BelowPrefix(d, e, f, d[w].parent);
    }
  }

  /** A step that others follow in series has ended. */
  lemma {:induction false} SeriesEnded(d: Tree, live: set<nat>, open: set<nat>, a: nat, b: nat)
    requires Ordered(d, live, open) && Series(d, a, b)
    ensures a !in open
  {
    var x: nat, y: nat :| Via(d, x, y, a, b);
  }

  lemma {:induction false} SeriesPrefix(d: Tree, e: Tree, a: nat, b: nat)
    requires d <= e && a < |d| && b < |d| && Series(e, a, b)
    ensures Series(d, a, b)
  {
    var x: nat, y: nat :| Via(e, x, y, a, b);
    Later(e, x, a);
    Later(e, y, b);
    BelowPrefix(d, e, x, a);
    BelowPrefix(d, e, y, b);
    assert e[x] == d[x] && e[y] == d[y];
    assert Via(d, x, y, a, b);
  }

  /** New steps start last. */
  lemma {:induction false} TimedGrow(d: Tree, at: seq<Place>, pos: seq<int>, e: Tree, at': seq<Place>, pos': seq<int>, live: set<nat>)
    requires Timed(d, at, pos) && Ordered(e, live, Open(at')) && d <= e && pos <= pos' && |e| == |at'| == |pos'|
    requires forall i {:trigger at'[i]} :: 0 <= i < |d| && at[i].Running? ==> at'[i].Running?
    requires forall i {:trigger at'[i]} :: |d| <= i < |e| && e[i].kind == STEP ==> at'[i].Running?
    ensures Timed(e, at', pos')
  {
    hide Ordered, Series;
    forall a: nat, b: nat | a < |e| && b < |e| && e[a].kind == STEP && e[b].kind == STEP && Series(e, a, b) && !at'[b].Running?
      ensures pos'[a] < pos'[b]
    {
      SeriesEnded(e, live, Open(at'), a, b);
      assert !at'[a].Running?;
      assert a < |d| && b < |d| && e[a] == d[a] && e[b] == d[b];
      SeriesPrefix(d, e, a, b);
    }
  }

  lemma {:induction false} TimedEnd(d: Tree, at: seq<Place>, pos: seq<int>, c: nat, l: int, live: set<nat>)
    requires Timed(d, at, pos) && Ordered(d, live, Open(at)) && c < |d| && at[c].Running?
    requires forall i {:trigger pos[i]} :: 0 <= i < |pos| ==> pos[i] < l
    ensures Timed(d, at[c := Gone], pos[c := l])
  {
    hide Ordered, Series;
    forall a: nat, b: nat | a < |d| && b < |d| && d[a].kind == STEP && d[b].kind == STEP && Series(d, a, b)
                            && !at[c := Gone][b].Running?
      ensures pos[c := l][a] < pos[c := l][b]
    {
      SeriesEnded(d, live, Open(at), a, b);
      assert a != c;
    }
  }

  lemma {:induction false} EndedPositions(s: Sys)
    requires Inv(s) && s.pos[0] == -1
    ensures forall i {:trigger s.pos[i]} :: 0 <= i < |s.pos| ==> s.pos[i] < |s.c.log|
  {
    hide StacksOk, PendingOk, StepsOk, Blocked, PausesOk, Ordered, TreeOk;
  }

  /** Apart from the end of a step, events only extend what has happened. */
  lemma {:induction false} OnlyGrows(s: Sys, e: Event)
    requires Inv(s) && Enabled(s, e) && !e.EndStep?
    ensures var n := Next(s, e);
            && s.tree <= n.tree && s.pos <= n.pos && |s.at| <= |n.at| == |n.tree|
            && (forall i {:trigger n.at[i]} :: 0 <= i < |s.tree| && s.at[i].Running? ==> n.at[i].Running?)
            && (forall i {:trigger n.at[i]} :: |s.tree| <= i < |n.tree| && n.tree[i].kind == STEP ==> n.at[i].Running?)
  {
    hide Inv, Quiescent, SpawnOnly, SpawnAndWait, SpawnAndWaitForAll, Wait, WaitOnly, Execute;
    NextDefined(s, e);
    NotRunning(s, e);
    LengthsOf(s);
  }

  lemma {:induction false} LengthsOf(s: Sys)
    requires Inv(s)
    ensures |s.tree| == |s.at| == |s.pos|
  {
  }

  /** The nodes that an event moves are not steps being executed. */
  lemma {:induction false} NotRunning(s: Sys, e: Event)
    requires Inv(s) && Enabled(s, e)
    ensures e.EndTask? || (e.Resume? && Last(s.pauses[e.t]).why == ForTasks) ==>
              Top(s.c.stacks[e.t]).id < |s.at| && !s.at[Top(s.c.stacks[e.t]).id].Running?
    ensures e.EndTask? && Top(s.c.stacks[e.t]).sync ==>
              |s.c.stacks[e.t]| > 1 && Top(Pop(s.c.stacks[e.t])).id < |s.at| && !s.at[Top(Pop(s.c.stacks[e.t])).id].Running?
    ensures e.Begin? ==> s.c.pending[e.task].id < |s.at| && !s.at[s.c.pending[e.task].id].Running?
  {
    hide LogOk, Blocked, PausesOk, Ordered, TreeOk, Quiescent;
    var st := s.c.stacks[e.t];
    assert StackOk(s.tree, s.at, st, e.t);
    assert forall k {:trigger st[k].id} :: 0 <= k < |st| ==> s.at[st[k].id].OnStack?;
    if e.Begin? {
      assert Unstarted(s.tree, s.at, e.task, s.c.pending[e.task]);
    } else if |st| > 0 {
      assert Top(st).id == st[|st| - 1].id;
      assert |st| > 1 ==> Top(Pop(st)).id == st[|st| - 2].id;
    }
  }

  ghost predicate InTime(s: Sys) {
    Timed(s.tree, s.at, s.pos) && |s.pos| > 0 && s.pos[0] == -1
  }

  lemma {:induction false} InTimeKept(s: Sys, e: Event)
    requires Inv(s) && Enabled(s, e) && InTime(s)
    ensures InTime(Next(s, e))
  {
    hide StacksOk, PendingOk, StepsOk, LogOk, Blocked, PausesOk, TreeOk, Ordered, Timed, Live, Open, Quiescent;
    NextInv(s, e);
    if e.EndStep? {
      EndedPositions(s);
      RunningChild(s, e.t);
      TimedEnd(s.tree, s.at, s.pos, Top(s.c.stacks[e.t]).child, |s.c.log|, Live(s.at));
    } else {
      OnlyGrows(s, e);
      var n := Next(s, e);
      TimedGrow(s.tree, s.at, s.pos, n.tree, n.at, n.pos, Live(n.at));
      assert n.pos[0] == s.pos[0];
    }
  }

  lemma {:induction false} RunningChild(s: Sys, t: nat)
    requires Inv(s) && t < |s.mode| && s.mode[t] == Computing
    ensures Active(s.c, t) && 0 < Top(s.c.stacks[t]).child < |s.tree| && s.at[Top(s.c.stacks[t]).child].Running?
  {
    hide StacksOk, PendingOk, LogOk, Blocked, PausesOk, TreeOk, Ordered;
  }

  lemma {:induction false} InTimeRun(threads: nat, es: seq<Event>)
    requires threads > 0 && Run(threads, es).Some?
    ensures InTime(Run(threads, es).value)
    decreases |es|
  {
    hide Inv, Next, Enabled, InTime;
    if es != [] {
      InTimeRun(threads, es[..|es| - 1]);
      InTimeKept(Run(threads, es[..|es| - 1]).value, es[|es| - 1]);
    } else {
      InitialInTime(threads);
    }
  }

  lemma {:induction false} InitialInTime(threads: nat)
    requires threads > 0
    ensures InTime(Initial(threads))
  {
    var s := Initial(threads);
    forall a: nat, b: nat | a < 3 && b < 3 && s.tree[a].kind == STEP && s.tree[b].kind == STEP && Series(s.tree, a, b)
      ensures s.at[b].Running?
    {
      assert b == 2;
    }
  }

  lemma {:induction false} SameSeries(d: Tree, e: Tree, a: nat, b: nat)
    requires SameShape(d, e) && Series(e, a, b) && a < |d| && b < |d|
    ensures Series(d, a, b)
  {
    var x: nat, y: nat :| Via(e, x, y, a, b);
    SameBelow(d, e, x, a);
    SameBelow(d, e, y, b);
    assert d[x].kind == e[x].kind && d[x].parent == e[x].parent && d[y].parent == e[y].parent;
    assert Via(d, x, y, a, b);
  }

  /** In the log of a finished run, a step comes before every step it is in series before. */
  lemma {:induction false} SeriesIsTime(threads: nat, es: seq<Event>, i: nat, j: nat)
    requires threads > 0 && Run(threads, es).Some? && Finished(Run(threads, es).value)
    requires var c := Run(threads, es).value.c;
             && i < |c.log| && j < |c.log| && c.log[i].kind == STEP && c.log[j].kind == STEP
             && Series(LoggedTree(c.log, c.last), c.log[i].id, c.log[j].id)
    ensures i < j
  {
    hide Inv, Run, Series, Finished, SameShape;
    var s := Run(threads, es).value;
    InTimeRun(threads, es);
    FinishedState(s);
    NothingOpen(s);
    LogPlaces(s, i);
    LogPlaces(s, j);
    SameSeries(s.tree, LoggedTree(s.c.log, s.c.last), s.c.log[i].id, s.c.log[j].id);
    assert s.c.log[j].id !in Open(s.at);
  }

  lemma {:induction false} LogPlaces(s: Sys, i: nat)
    requires Inv(s) && i < |s.c.log|
    ensures var v := s.c.log[i].id;
            v < |s.tree| == |s.at| == |s.pos| && s.pos[v] == i && s.tree[v].kind == s.c.log[i].kind
  {
    hide StacksOk, PendingOk, StepsOk, Blocked, PausesOk, TreeOk, Ordered;
    assert Describes(s.c.log[i], s.tree[s.c.log[i].id]);
  }
}
