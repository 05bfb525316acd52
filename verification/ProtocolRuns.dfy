/** Whole runs of the collection phase: what every reachable state and every finished run looks like. */
module ProtocolRuns {
  import opened Completion
  import opened Dpst
  import opened Growth
  import opened Collector
  import opened Protocol
  import opened ProtocolEvents

  /** The state after a sequence of events, or None if one of them was not possible. */
  ghost function Run(threads: nat, es: seq<Event>): (r: Option<Sys>)
    requires threads > 0
    ensures r.Some? ==> Inv(r.value)
    decreases |es|
  {
    if es == [] then
      InitialInv(threads);
      Some(Initial(threads))
    else
      var r := Run(threads, es[..|es| - 1]);
      var e := es[|es| - 1];
      if r.Some? && Enabled(r.value, e) then
        NextInv(r.value, e);
        Some(Next(r.value, e))
      else None
  }

  /** No step is being executed and no task waits to be started. The main program may end with an
      implicit FINISH still open. */
  predicate Finished(s: Sys) {
    Sized(s) && s.c.pending == map[] && forall t {:trigger s.mode[t]} :: 0 <= t < |s.mode| ==> s.mode[t] != Computing
  }

  /** The log mentions each id below `n` that is not in `open`, once, and no other id. */
  ghost predicate LogsExactly(log: seq<Record>, n: nat, open: set<nat>) {
    && (forall j {:trigger log[j]} :: 0 <= j < |log| ==> 1 <= log[j].id < n && log[j].id !in open)
    && (forall i, j {:trigger log[i], log[j]} :: 0 <= i < j < |log| ==> log[i].id != log[j].id)
    && (forall v: nat {:trigger Logged(log, v)} :: 1 <= v < n && v !in open ==> Logged(log, v))
  }

  ghost predicate Logged(log: seq<Record>, v: nat) {
    exists j :: 0 <= j < |log| && log[j].id == v
  }

  /** Id accounting: every id given out so far is either in the log, exactly once, or the step that
      exactly one open or unstarted node is executing. */
  lemma {:induction false} IdAccounting(threads: nat, es: seq<Event>)
    requires threads > 0 && Run(threads, es).Some?
    ensures var s := Run(threads, es).value;
            && LogsExactly(s.c.log, s.c.last, Open(s.at))
            && (forall a {:trigger s.tree[a]} :: a in Open(s.at) && a < |s.tree| ==>
                  1 <= a < s.c.last && HolderOf(s, a) && s.tree[a].parent in Live(s.at))
  {
    hide Run;
    var s := Run(threads, es).value;
    LogExact(s);
    forall a | a in Open(s.at) && a < |s.tree|
      ensures 1 <= a < s.c.last && HolderOf(s, a) && s.tree[a].parent in Live(s.at)
    {
      OpenHolder(s, a);
    }
  }

  /** The parent of the open step `a` is an unstarted task, or the top of the stack of a thread
      that is computing; either way it records `a` as its current child. */
  predicate HolderOf(s: Sys, a: nat)
    requires a < |s.tree|
  {
    var p := s.tree[a].parent;
    || (exists k :: k in s.c.pending && s.c.pending[k].id == p && s.c.pending[k].child == a)
    || (exists t :: 0 <= t < |s.mode| && s.mode[t] == Computing && Active(s.c, t)
                    && Top(s.c.stacks[t]).id == p && Top(s.c.stacks[t]).child == a)
  }

  lemma {:induction false} OpenHolder(s: Sys, a: nat)
    requires Inv(s) && a in Open(s.at)
    ensures 1 <= a < s.c.last && HolderOf(s, a) && s.tree[a].parent in Live(s.at)
  {
    hide LogOk, Blocked, PausesOk;
    assert s.at[a].Running?;
    var p := s.tree[a].parent;
    match s.at[p]
    case Pending(k) =>
      assert s.c.pending[k].id == p;
    case OnStack(t, k) =>
      assert Holds(s.c.stacks, t, k, p);
    case _ =>
  }

  lemma {:induction false} LogExact(s: Sys)
    requires Inv(s)
    ensures LogsExactly(s.c.log, s.c.last, Open(s.at))
  {
    hide StacksOk, PendingOk, StepsOk, Blocked, PausesOk, Ordered, TreeOk;
    var log := s.c.log;
    forall v: nat | 1 <= v < s.c.last && v !in Open(s.at) ensures Logged(log, v) {
      assert !s.at[v].Running?;
      assert log[s.pos[v]].id == v;
    }
    forall j | 0 <= j < |log| ensures 1 <= log[j].id < s.c.last && log[j].id !in Open(s.at) {
      assert s.pos[log[j].id] == j;
    }
  }

  // ---- the tree that the log describes ----

  /** Whose record is at which place of the log. */
  ghost function IndexOf(log: seq<Record>, v: nat): (r: Option<nat>)
    ensures r.Some? ==> r.value < |log| && log[r.value].id == v
    ensures r.None? ==> forall j {:trigger log[j]} :: 0 <= j < |log| ==> log[j].id != v
  {
    if exists j: nat :: j < |log| && log[j].id == v then
      var j: nat :| j < |log| && log[j].id == v;
      Some(j)
    else None
  }

  ghost function NodeOf(log: seq<Record>, v: nat): Node {
    match IndexOf(log, v)
    case None => Node(0, NO_TYPE, 0, 0)
    case Some(j) => Node(log[j].parent, log[j].kind, log[j].callSite, log[j].work)
  }

  /** The DPST that the first `n` ids of the log describe, works included. */
  ghost function LoggedTree(log: seq<Record>, n: nat): (d: Tree)
    ensures |d| == n && forall v {:trigger d[v]} :: 0 <= v < n ==> d[v] == NodeOf(log, v)
  {
    seq(n, v requires 0 <= v < n => NodeOf(log, v))
  }

  lemma {:induction false} NothingOpen(s: Sys)
    requires Inv(s) && Finished(s)
    ensures Open(s.at) == {}
  {
    hide Inv;
    forall a ensures a !in Open(s.at) {
      if a in Open(s.at) {
        OpenBound(s, a);
        OpenHolder(s, a);
      }
    }
  }

  lemma {:induction false} OpenBound(s: Sys, a: int)
    requires Inv(s) && a in Open(s.at)
    ensures 0 <= a < |s.tree|
  {
  }

  lemma {:induction false} LoggedShape(d: Tree, at: seq<Place>, pos: seq<int>, log: seq<Record>)
    requires LogOk(d, at, pos, log) && Open(at) == {} && |d| > 0 && d[0] == Node(0, NO_TYPE, 0, 0)
    ensures SameShape(d, LoggedTree(log, |d|))
  {
    var e := LoggedTree(log, |d|);
    forall v | 0 <= v < |d| ensures e[v] == d[v].(work := e[v].work) {
      if v > 0 {
        assert v !in Open(at);
        assert log[pos[v]].id == v;
        var j := IndexOf(log, v).value;
        assert pos[log[j].id] == j;
      } else {
        assert forall j {:trigger log[j]} :: 0 <= j < |log| ==> log[j].id != v;
      }
    }
  }

  /** Every finished run has logged each id that was given out exactly once, and the log describes
      a DPST in the order that the analysis phase relies on. */
  lemma {:induction false} FinishedRun(threads: nat, es: seq<Event>)
    requires threads > 0 && Run(threads, es).Some? && Finished(Run(threads, es).value)
    ensures var c := Run(threads, es).value.c;
            && LogsExactly(c.log, c.last, {})
            && Valid(LoggedTree(c.log, c.last)) && FinishOrdered(LoggedTree(c.log, c.last))
  {
    hide Run;
    FinishedState(Run(threads, es).value);
  }

  lemma {:induction false} FinishedState(s: Sys)
    requires Inv(s) && Finished(s)
    ensures LogsExactly(s.c.log, s.c.last, {})
    ensures SameShape(s.tree, LoggedTree(s.c.log, s.c.last))
    ensures Valid(LoggedTree(s.c.log, s.c.last)) && FinishOrdered(LoggedTree(s.c.log, s.c.last))
  {
    hide LogOk, Blocked, Ordered, PausesOk, PendingOk, StepsOk, StacksOk, LogsExactly, FinishOrdered, Valid, SameShape;
    LogExact(s);
    NothingOpen(s);
    ValidTree(s);
    LoggedShape(s.tree, s.at, s.pos, s.c.log);
    SameValid(s.tree, LoggedTree(s.c.log, s.c.last));
    SameOrdered(s.tree, LoggedTree(s.c.log, s.c.last));
  }

  lemma {:induction false} ValidTree(s: Sys)
    requires Inv(s)
    ensures Valid(s.tree) && FinishOrdered(s.tree) && s.tree[0] == Node(0, NO_TYPE, 0, 0)
  {
    hide LogOk, Blocked, PausesOk, PendingOk, StepsOk, StacksOk;
    OrderedValid(s.tree, s.at, Live(s.at), Open(s.at));
  }

  lemma {:induction false} OrderedValid(d: Tree, at: seq<Place>, live: set<nat>, open: set<nat>)
    requires TreeOk(d, at) && Ordered(d, live, open)
    ensures Valid(d) && FinishOrdered(d)
  {
    hide FinishOrdered, Youngest, Quiet;
    forall i | 2 <= i < |d| ensures 1 <= d[i].parent < i && d[d[i].parent].kind != STEP {
    }
    forall i | 1 <= i < |d| && d[i].kind != STEP ensures exists c :: i < c < |d| && d[c].parent == i {
      assert d[i + 1].parent == i;
    }
  }
}
