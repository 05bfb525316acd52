/** Trees in which very few steps have any work: what they do to the shares of the critical path. */
module Losses {
  import opened Dpst
  import opened CountMaps
  import opened Completion
  import opened Progress
  import opened Attribution
  import opened Shares

  // ---- subtrees with one step that has work, or none ----

  ghost predicate Workless(d: Tree, v: nat) {
    forall w: nat {:trigger Below(d, v, w)} :: Below(d, v, w) && w < |d| && d[w].kind == STEP ==> d[w].work == 0
  }

  ghost predicate Lone(d: Tree, v: nat, t: nat) {
    && t < |d| && d[t].kind == STEP && Below(d, v, t)
    && forall w: nat {:trigger Below(d, v, w)} :: Below(d, v, w) && w < |d| && d[w].kind == STEP && w != t ==> d[w].work == 0
  }

  lemma {:induction false} IdleChild(d: Tree, v: nat, c: nat)
    requires Valid(d) && Workless(d, v) && 1 <= v < c < |d| && d[c].parent == v
    ensures Workless(d, c)
  {
    forall w: nat {:trigger Below(d, c, w)} | Below(d, c, w) ensures Below(d, v, w) {
      Transitive(d, v, c, w);
    }
  }

  lemma {:induction false} LoneChild(d: Tree, v: nat, t: nat, c: nat)
    requires Valid(d) && Lone(d, v, t) && 1 <= v < c < |d| && d[c].parent == v
    ensures Below(d, c, t) ==> Lone(d, c, t)
    ensures !Below(d, c, t) ==> Workless(d, c)
  {
    forall w: nat {:trigger Below(d, c, w)} | Below(d, c, w) ensures Below(d, v, w) {
      Transitive(d, v, c, w);
    }
  }

  /** The child of `v` on the way to `t`, and the others. */
  lemma {:induction false} LoneOthers(d: Tree, v: nat, t: nat, p: nat, c: nat)
    requires Valid(d) && Lone(d, v, t) && 1 <= v < c < |d| && d[c].parent == v && v < p < |d| && d[p].parent == v && Below(d, p, t)
    ensures c == p ==> Lone(d, c, t)
    ensures c != p ==> Workless(d, c)
  {
    LoneChild(d, v, t, c);
    if c != p {
      SiblingsDisjoint(d, c, p, t);
    }
  }

  lemma {:induction false} IdleSpan(d: Tree, v: nat)
    requires Valid(d) && Workless(d, v) && 1 <= v < |d|
    ensures Span(d, v) == 0
    decreases |d| - v, |d| + 1
  {
    if d[v].kind == STEP {
      assert Below(d, v, v);
    } else {
      IdleSums(d, v, |d|);
    }
  }

  lemma {:induction false} IdleSums(d: Tree, v: nat, k: nat)
    requires Valid(d) && Workless(d, v) && 1 <= v < |d| && k <= |d|
    ensures Serial(d, v, k) == AsyncMax(d, v, k) == 0
    decreases |d| - v, k
  {
    hide Workless, Below, Valid, Span;
    if k > v + 1 {
      IdleSums(d, v, k - 1);
      if d[k - 1].parent == v {
        IdleChild(d, v, k - 1);
        IdleSpan(d, k - 1);
        KindKnown(d, k - 1);
        ContributionOf(d, k - 1);
      }
    }
  }

  lemma {:induction false} LoneSpan(d: Tree, v: nat, t: nat)
    requires Valid(d) && Lone(d, v, t) && 1 <= v < |d|
    ensures Span(d, v) == d[t].work
    decreases |d| - v, |d| + 1
  {
    if d[v].kind == STEP {
      StepsAreLeaves(d, v, t);
    } else {
      var p := ChildAbove(d, v, t);
      LoneSums(d, v, t, p, |d|);
    }
  }

  lemma {:induction false} LoneSums(d: Tree, v: nat, t: nat, p: nat, k: nat)
    requires Valid(d) && t < |d| && Lone(d, v, t) && 1 <= v < |d| && k <= |d|
    requires v < p < |d| && d[p].parent == v && Below(d, p, t)
    ensures Serial(d, v, k) == if p < k && d[p].kind != ASYNC then d[t].work else 0
    ensures AsyncMax(d, v, k) <= d[t].work
    ensures d[p].kind == ASYNC ==> AsyncMax(d, v, k) == if p < k then d[t].work else 0
    decreases |d| - v, k
  {
    hide Lone, Workless, Below, Valid, Span;
    if k > v + 1 {
      LoneSums(d, v, t, p, k - 1);
      var c := k - 1;
      if d[c].parent == v {
        LoneOthers(d, v, t, p, c);
        if c == p {
          LoneSpan(d, c, t);
        } else {
          IdleSpan(d, c);
        }
        KindKnown(d, c);
        ContributionOf(d, c);
      }
    }
  }

  lemma {:induction false} ContributionOf(d: Tree, c: nat)
    requires c < |d| && d[c].kind != NO_TYPE
    ensures Contribution(d, c) == if d[c].kind == ASYNC then 0 else Span(d, c)
  {
  }

  // ---- the shares of nodes without work below them ----

  ghost predicate Zero(t: AFTask) {
    t.localLocalWork == 0 && Sum(CallSites(t)) == 0
  }

  ghost predicate Zeros(d: Tree, s: seq<AFTask>, done: set<nat>) {
    && |d| <= |s|
    && forall v: nat {:trigger s[v]} :: 1 <= v < |d| && d[v].kind != STEP && v !in done && Workless(d, v) ==> Zero(s[v])
  }

  /** A completion without work changes nothing, but for a task that takes over the critical path. */
  lemma {:induction false} IdleInto(d: Tree, parFor: map<nat, bool>, s: seq<AFTask>, done: set<nat>, i: nat, v: nat)
    requires Completing(d, s, done, i, v) && Zeros(d, s, done) && Workless(d, v) && v > 1
    requires s[v].parent == d[v].parent < v && s[d[v].parent].kind != STEP
    ensures var p, r := s[d[v].parent], Parent(s[v], s[d[v].parent], parFor);
            && r.localLocalWork == p.localLocalWork
            && (Sum(CallSites(r)) == Sum(CallSites(p)) || (d[v].kind == ASYNC && s[v].parentWork > p.criticalChild && Sum(CallSites(r)) == 0))
  {
    hide Spans, Loaded, ParentWorks, MapsReady, Closed, AllIn, FinishOrdered, Valid, Workless;
    AtCompletion(d, s, done, i, v);
    IdleSpan(d, v);
    if d[v].kind == STEP {
      StepIsIdle(d, v);
      StepInto(s[v], s[d[v].parent], parFor);
    } else {
      assert Zero(s[v]);
      if d[v].kind == FINISH {
        FinishInto(s[v], s[d[v].parent], parFor);
      } else {
        AsyncInto(s[v], s[d[v].parent], parFor);
      }
    }
  }

  lemma {:induction false} StepIsIdle(d: Tree, v: nat)
    requires Workless(d, v) && v < |d| && d[v].kind == STEP
    ensures d[v].work == 0
  {
    assert Below(d, v, v);
  }

  lemma {:induction false} KeepZeros(d: Tree, parFor: map<nat, bool>, s: seq<AFTask>, done: set<nat>, i: nat, v: nat)
    requires Completing(d, s, done, i, v) && Zeros(d, s, done)
    requires s[v].parent == d[v].parent < v && s[d[v].parent].kind != STEP
    ensures Zeros(d, Completed(s, v, parFor), done + {v})
  {
    hide Spans, Loaded, ParentWorks, MapsReady, Closed, AllIn, FinishOrdered, Valid, Workless, Zero;
    AtCompletion(d, s, done, i, v);
    SharesAfter(s, v, parFor);
    var t, q := Completed(s, v, parFor), d[v].parent;
    if v > 1 && Workless(d, q) {
      IdleChild(d, q, v);
      IdleInto(d, parFor, s, done, i, v);
      IdleSums(d, q, v);
      assert Zero(s[q]);
      assert Zero(t[q]) by {
        ZeroKept(s[q], t[q]);
      }
    }
  }

  lemma {:induction false} ZeroKept(p: AFTask, r: AFTask)
    requires Zero(p) && r.localLocalWork == p.localLocalWork && (Sum(CallSites(r)) == Sum(CallSites(p)) || Sum(CallSites(r)) == 0)
    ensures Zero(r)
  {
  }

  // ---- the shares on the way up from the only step with work ----

  /** Node `x`, whose child is the only step `t` with work below it, has nothing but that work. */
  ghost predicate Held(d: Tree, s: seq<AFTask>, done: set<nat>, x: nat, t: nat)
  {
    x < |s| && t < |d| && (x !in done ==> s[x].localLocalWork == (if t in done then d[t].work else 0) && Sum(CallSites(s[x])) == 0)
  }

  predicate Holder(d: Tree, x: nat, t: nat) {
    1 < x < t < |d| && d[t].kind == STEP && d[t].parent == x && !Sync(d, x)
  }

  lemma {:induction false} KeepHeld(d: Tree, parFor: map<nat, bool>, s: seq<AFTask>, done: set<nat>, i: nat, v: nat, x: nat, t: nat)
    requires Completing(d, s, done, i, v) && Zeros(d, s, done) && Forked(d)
    requires s[v].parent == d[v].parent < v && s[d[v].parent].kind != STEP
    requires Holder(d, x, t) && Lone(d, x, t) && Held(d, s, done, x, t)
    ensures Held(d, Completed(s, v, parFor), done + {v}, x, t)
  {
    hide Spans, Loaded, ParentWorks, MapsReady, Closed, AllIn, FinishOrdered, Valid, Workless, Zeros, Lone;
    AtCompletion(d, s, done, i, v);
    SharesAfter(s, v, parFor);
    assert d[t].parent == x;
    if d[v].parent == x {
      assert x !in done;
      if v == t {
        StepInto(s[v], s[x], parFor);
      } else {
        BelowItself(d, t);
        LoneOthers(d, x, t, t, v);
        IdleInto(d, parFor, s, done, i, v);
        if d[v].kind == ASYNC {
          ForkedAt(d, v);
        }
      }
    }
  }

  /** FINISH `c` passes on the work of step `t`, its own child or the child of a task of its own. */
  predicate Source(d: Tree, c: nat, t: nat) {
    && 1 < c < t < |d| && d[c].kind == FINISH && d[t].kind == STEP && c <= d[t].parent < t
    && if d[t].parent == c then d[c].callSite != 0
       else d[c].callSite == 0 && d[d[t].parent].kind == ASYNC && d[d[t].parent].parent == c
  }

  ghost predicate Carried(d: Tree, s: seq<AFTask>, done: set<nat>, c: nat, t: nat)
  {
    t < |d| &&
    var x := d[t].parent;
    && Held(d, s, done, x, t)
    && (x != c ==> c < |s| && (c !in done ==> s[c].localLocalWork == 0 && Sum(CallSites(s[c])) == if x in done then d[t].work else 0))
  }

  lemma {:induction false} SourceLone(d: Tree, c: nat, t: nat)
    requires Valid(d) && Source(d, c, t) && Lone(d, c, t)
    ensures Holder(d, d[t].parent, t) && Lone(d, d[t].parent, t) && Below(d, d[t].parent, t)
  {
    BelowItself(d, t);
    BelowItself(d, d[t].parent);
    if d[t].parent != c {
      LoneChild(d, c, t, d[t].parent);
    }
  }

  lemma {:induction false} KeepCarried(d: Tree, parFor: map<nat, bool>, s: seq<AFTask>, done: set<nat>, i: nat, v: nat, c: nat, t: nat)
    requires Completing(d, s, done, i, v) && Zeros(d, s, done) && Forked(d)
    requires s[v].parent == d[v].parent < v && s[d[v].parent].kind != STEP
    requires Source(d, c, t) && Lone(d, c, t) && d[t].work > 0 && Carried(d, s, done, c, t)
    ensures Carried(d, Completed(s, v, parFor), done + {v}, c, t)
  {
    hide Spans, Loaded, ParentWorks, MapsReady, Closed, AllIn, FinishOrdered, Valid, Workless, Zeros, Lone, Held;
    AtCompletion(d, s, done, i, v);
    SharesAfter(s, v, parFor);
    SourceLone(d, c, t);
    var x := d[t].parent;
    KeepHeld(d, parFor, s, done, i, v, x, t);
    if x != c && d[v].parent == c {
      assert c !in done;
      if v == x {
        TaskCarries(d, parFor, s, done, i, c, t);
      } else {
        LoneOthers(d, c, t, x, v);
        IdleInto(d, parFor, s, done, i, v);
        LoneSums(d, c, t, x, v);
      }
    }
  }

  /** The task with the only work below `c` determines the span of `c`. */
  lemma {:induction false} TaskCarries(d: Tree, parFor: map<nat, bool>, s: seq<AFTask>, done: set<nat>, i: nat, c: nat, t: nat)
    requires Source(d, c, t) && Lone(d, c, t) && d[t].work > 0 && Carried(d, s, done, c, t) && d[t].parent != c
    requires Completing(d, s, done, i, d[t].parent) && c !in done
    ensures var x := d[t].parent;
            && s[x].parent == c < x < |s| && s[c].kind != STEP
            && Parent(s[x], s[c], parFor).localLocalWork == 0
            && Sum(CallSites(Parent(s[x], s[c], parFor))) == d[t].work
  {
    hide Spans, Loaded, ParentWorks, MapsReady, Closed, FinishOrdered, Valid, Workless, Lone;
    var x := d[t].parent;
    AtCompletion(d, s, done, i, x);
    AsyncInto(s[x], s[c], parFor);
    SourceLone(d, c, t);
    LoneSpan(d, x, t);
    assert t in done;
    NotYet(d, done, c, t, x, |d|);
  }

  lemma {:induction false} NotYet(d: Tree, done: set<nat>, c: nat, t: nat, x: nat, k: nat)
    requires Valid(d) && t < |d| && Lone(d, c, t) && 1 <= c < x < |d| && d[x].parent == c && Below(d, x, t) && d[x].kind == ASYNC
    requires x !in done && k <= |d|
    ensures AsyncDone(d, done, c, k) == 0
    decreases k
  {
    hide Lone, Workless, Below, Valid, Span, Serial;
    if k > c + 1 {
      NotYet(d, done, c, t, x, k - 1);
      if d[k - 1].parent == c && k - 1 != x {
        LoneOthers(d, c, t, x, k - 1);
        LoneSums(d, c, t, x, k - 1);
        IdleSpan(d, k - 1);
      }
    }
  }

  /** All of the work is passed on as call sites. */
  lemma {:induction false} CarriedInto(d: Tree, parFor: map<nat, bool>, s: seq<AFTask>, done: set<nat>, i: nat, c: nat, t: nat)
    requires Completing(d, s, done, i, c) && Forked(d) && Source(d, c, t) && Lone(d, c, t) && d[t].work > 0
    requires Carried(d, s, done, c, t) && s[c].parent == d[c].parent < c && s[d[c].parent].kind != STEP
    ensures var p, r := s[d[c].parent], Parent(s[c], s[d[c].parent], parFor);
            r.localLocalWork == p.localLocalWork && Sum(CallSites(r)) == Sum(CallSites(p)) + d[t].work
  {
    hide Spans, Loaded, ParentWorks, MapsReady, Closed, FinishOrdered, Valid, Workless, Lone;
    AtCompletion(d, s, done, i, c);
    SourceLone(d, c, t);
    var x := d[t].parent;
    assert x != c ==> d[x].parent == c;
    assert d[t].parent == x;
    var p := if x == c then t else x;
    assert p in done;
    assert Below(d, p, t) by {
      BelowItself(d, t);
    }
    LoneSums(d, c, t, p, |d|);
    FinishInto(s[c], s[d[c].parent], parFor);
    if x == c {
      PlainIsSerial(d, c);
    }
  }

  // ---- a FINISH that drops the call sites it receives ----

  /** The only work of the whole tree is passed on by `c` and dropped by `n`. */
  ghost predicate Dropped(d: Tree, parFor: map<nat, bool>, n: nat, c: nat, t: nat) {
    Drops(d, parFor, n, c) && Source(d, c, t) && Lone(d, 1, t) && d[t].work > 0
  }

  /** Nothing of it reaches the nodes above. */
  ghost predicate NothingAbove(d: Tree, s: seq<AFTask>, done: set<nat>, n: nat) {
    && |d| <= |s|
    && forall v: nat {:trigger s[v]} :: 1 <= v < |d| && Below(d, v, n) && (v == 1 || v !in done) ==>
         s[v].localLocalWork == 0 && (!Sync(d, v) ==> Sum(CallSites(s[v])) == 0)
  }

  ghost predicate Lost(d: Tree, s: seq<AFTask>, done: set<nat>, n: nat, c: nat, t: nat)
  {
    Carried(d, s, done, c, t) && NothingAbove(d, s, done, n)
  }

  lemma {:induction false} LoneBelow(d: Tree, u: nat, v: nat, t: nat)
    requires Valid(d) && Lone(d, u, t) && Below(d, u, v) && Below(d, v, t)
    ensures Lone(d, v, t)
  {
    forall w: nat {:trigger Below(d, v, w)} | Below(d, v, w) ensures Below(d, u, w) {
      Transitive(d, u, v, w);
    }
  }

  lemma {:induction false} DroppedPath(d: Tree, parFor: map<nat, bool>, n: nat, c: nat, t: nat, v: nat)
    requires Valid(d) && Dropped(d, parFor, n, c, t) && 1 <= v < |d| && (Below(d, v, n) || v == c)
    ensures Below(d, v, t) && Lone(d, v, t)
  {
    SourceBelow(d, c, t);
    BelowItself(d, c);
    if v != c {
      Transitive(d, n, c, t);
      Transitive(d, v, n, t);
    }
    BelowRoot(d, v);
    LoneBelow(d, 1, v, t);
  }

  lemma {:induction false} SourceBelow(d: Tree, c: nat, t: nat)
    requires Source(d, c, t)
    ensures Below(d, c, t)
  {
    BelowItself(d, c);
    assert Below(d, c, d[t].parent);
  }

  /** The nodes above an exposed node are exposed FINISH nodes that do not collapse. */
  lemma {:induction false} SpineExposed(d: Tree, parFor: map<nat, bool>, n: nat, v: nat)
    requires Exposed(d, parFor, n) && Below(d, v, n) && 1 <= v < |d| && d[1].kind == FINISH && d[1].parent == 0
    ensures d[v].kind == FINISH && Exposed(d, parFor, v) && (v < n ==> !Collapses(d, parFor, v))
    decreases n
  {
    if v != n {
      SpineExposed(d, parFor, d[n].parent, v);
      Later(d, v, d[n].parent);
    }
  }

  lemma {:induction false} KeepLost(d: Tree, parFor: map<nat, bool>, s: seq<AFTask>, done: set<nat>, i: nat, v: nat, n: nat, c: nat, t: nat)
    requires Completing(d, s, done, i, v) && Zeros(d, s, done) && Forked(d)
    requires s[v].parent == d[v].parent < v && s[d[v].parent].kind != STEP
    requires Dropped(d, parFor, n, c, t) && Lost(d, s, done, n, c, t)
    ensures Lost(d, Completed(s, v, parFor), done + {v}, n, c, t)
  {
    hide Spans, Loaded, ParentWorks, MapsReady, Closed, AllIn, FinishOrdered, Valid, Workless, Zeros, Lone, Drops, Carried, Exposed, Below;
    AtCompletion(d, s, done, i, v);
    SharesAfter(s, v, parFor);
    DroppedPath(d, parFor, n, c, t, c);
    KeepCarried(d, parFor, s, done, i, v, c, t);
    var r, q := Completed(s, v, parFor), d[v].parent;
    if v == 1 {
      RootShares(d, s, parFor);
    }
    if v > 1 && Below(d, q, n) {
      NothingComes(d, parFor, s, done, i, v, n, c, t);
    }
  }

  lemma {:induction false} NothingComes(d: Tree, parFor: map<nat, bool>, s: seq<AFTask>, done: set<nat>, i: nat, v: nat, n: nat, c: nat, t: nat)
    requires Completing(d, s, done, i, v) && Zeros(d, s, done) && Forked(d)
    requires s[v].parent == d[v].parent < v && s[d[v].parent].kind != STEP
    requires Dropped(d, parFor, n, c, t) && Lost(d, s, done, n, c, t) && v > 1 && Below(d, d[v].parent, n)
    ensures var r := Parent(s[v], s[d[v].parent], parFor);
            r.localLocalWork == 0 && (!Sync(d, d[v].parent) ==> Sum(CallSites(r)) == 0)
  {
    hide Spans, Loaded, ParentWorks, MapsReady, Closed, AllIn, FinishOrdered, Valid, Workless, Zeros, Lone, Carried, Exposed, Below, Emits;
    AtCompletion(d, s, done, i, v);
    var q := d[v].parent;
    DroppedPath(d, parFor, n, c, t, q);
    assert s[q].localLocalWork == 0;
    if v == c {
      DroppedPath(d, parFor, n, c, t, c);
      CarriedInto(d, parFor, s, done, i, c, t);
    } else if Below(d, v, n) {
      SpineInto(d, parFor, s, done, i, v, n, c, t);
    } else {
      OffPath(d, parFor, n, c, t, v);
      IdleInto(d, parFor, s, done, i, v);
      if d[v].kind == ASYNC {
        ForkedAt(d, v);
      }
    }
  }

  /** A child that is not on the way to the work. */
  lemma {:induction false} OffPath(d: Tree, parFor: map<nat, bool>, n: nat, c: nat, t: nat, v: nat)
    requires Valid(d) && Dropped(d, parFor, n, c, t) && 1 < v < |d| && Below(d, d[v].parent, n) && v != c && !Below(d, v, n)
    ensures Workless(d, v)
  {
    hide Lone, Workless, Emits, Exposed;
    var q := d[v].parent;
    DroppedPath(d, parFor, n, c, t, q);
    LoneChild(d, q, t, v);
    var p := c;
    if q != n {
      p := ChildAbove(d, q, n);
    }
    DroppedPath(d, parFor, n, c, t, p);
    SiblingsDisjoint(d, v, p, t);
  }

  /** A FINISH above the drop has nothing to give to its parent. */
  lemma {:induction false} SpineInto(d: Tree, parFor: map<nat, bool>, s: seq<AFTask>, done: set<nat>, i: nat, v: nat, n: nat, c: nat, t: nat)
    requires Completing(d, s, done, i, v) && Forked(d) && Dropped(d, parFor, n, c, t) && NothingAbove(d, s, done, n)
    requires s[v].parent == d[v].parent < v && s[d[v].parent].kind != STEP && v > 1 && Below(d, v, n)
    ensures var p, r := s[d[v].parent], Parent(s[v], s[d[v].parent], parFor);
            r.localLocalWork == p.localLocalWork && Sum(CallSites(r)) == Sum(CallSites(p))
  {
    hide Spans, Loaded, ParentWorks, MapsReady, Closed, AllIn, FinishOrdered, Lone, Emits, Exposed;
    AtCompletion(d, s, done, i, v);
    SpineExposed(d, parFor, n, v);
    SpineSums(d, parFor, n, c, t, v);
    FinishInto(s[v], s[d[v].parent], parFor);
    assert s[v].localLocalWork == 0 && (!Sync(d, v) ==> Sum(CallSites(s[v])) == 0);
    Later(d, v, n);
  }

  lemma {:induction false} SpineSums(d: Tree, parFor: map<nat, bool>, n: nat, c: nat, t: nat, v: nat)
    requires Valid(d) && Dropped(d, parFor, n, c, t) && 1 <= v < |d| && Below(d, v, n)
    ensures Serial(d, v, |d|) == d[t].work && AsyncMax(d, v, |d|) <= d[t].work
  {
    hide Lone, Emits, Exposed;
    DroppedPath(d, parFor, n, c, t, v);
    var p := c;
    if v != n {
      p := ChildAbove(d, v, n);
      SpineExposed(d, parFor, n, p);
    }
    DroppedPath(d, parFor, n, c, t, p);
    LoneSums(d, v, t, p, |d|);
  }

  /** The root ends with the whole span and without any share of it. */
  lemma {:induction false} FinalLost(d: Tree, parFor: map<nat, bool>, s: seq<AFTask>, done: set<nat>, n: nat, c: nat, t: nat)
    requires Valid(d) && Dropped(d, parFor, n, c, t) && Lost(d, s, done, n, c, t) && Spans(d, s, done) && 1 in done
    ensures s[1].criticalChild == d[t].work && s[1].localLocalWork == 0 && Sum(CallSites(s[1])) == 0
  {
    BelowRoot(d, n);
    assert !Sync(d, 1);
    LoneSpan(d, 1, t);
  }

  // ---- a FINISH that passes call sites on too late ----

  /** The only work of the tree lies in task `a`, and in `c`, which passes it on after `a` is done. */
  ghost predicate Late(d: Tree, n: nat, a: nat, c: nat, ta: nat, tc: nat) {
    && Overtakes(d, n, a, c) && a < c && Holder(d, a, ta) && Source(d, c, tc) && 0 < d[tc].work < d[ta].work
    && Lone(d, a, ta) && Lone(d, c, tc)
    && forall v: nat {:trigger d[v].parent} :: n < v < |d| && d[v].parent == n && v != a && v != c ==> Workless(d, v)
  }

  ghost predicate Exceeded(d: Tree, s: seq<AFTask>, done: set<nat>, n: nat, a: nat, c: nat, ta: nat, tc: nat)
  {
    && Held(d, s, done, a, ta) && Carried(d, s, done, c, tc) && n < |s|
    && (c in done ==> a in done)
    && Sum(CallSites(s[n])) == if n in done then d[ta].work + d[tc].work
                               else (if a in done then d[ta].work else 0) + (if c in done then d[tc].work else 0)
  }

  lemma {:induction false} LateSums(d: Tree, n: nat, a: nat, c: nat, ta: nat, tc: nat, k: nat)
    requires Valid(d) && Late(d, n, a, c, ta, tc) && k <= |d|
    ensures ta < |d| && tc < |d| && Serial(d, n, k) == if c < k then d[tc].work else 0
    ensures AsyncMax(d, n, k) == if a < k then d[ta].work else 0
    decreases k
  {
    hide Overtakes, Lone, Workless, Source, Holder, Below, Valid, Span;
    LateKinds(d, n, a, c);
    LateSteps(d, n, a, c, ta, tc);
    if k > n + 1 {
      LateSums(d, n, a, c, ta, tc, k - 1);
      var v := k - 1;
      if d[v].parent == n {
        KindKnown(d, v);
        ContributionOf(d, v);
        if v == a {
          LoneSpan(d, a, ta);
        } else if v == c {
          LoneSpan(d, c, tc);
        } else {
          IdleSpan(d, v);
        }
      }
    }
  }

  lemma {:induction false} LateSteps(d: Tree, n: nat, a: nat, c: nat, ta: nat, tc: nat)
    requires Late(d, n, a, c, ta, tc)
    ensures ta < |d| && tc < |d| && 0 < d[tc].work < d[ta].work
  {
  }

  lemma {:induction false} LateKinds(d: Tree, n: nat, a: nat, c: nat)
    requires Overtakes(d, n, a, c)
    ensures n > 1 && d[a].kind == ASYNC && d[c].kind == FINISH && n < a < |d| && n < c < |d| && d[a].parent == d[c].parent == n && Sync(d, n)
  {
  }

  /** As long as `a` is not done, the span through a task is at most the work below `c`. */
  lemma {:induction false} LateSpans(d: Tree, done: set<nat>, n: nat, a: nat, c: nat, ta: nat, tc: nat, k: nat)
    requires Valid(d) && Late(d, n, a, c, ta, tc) && k <= |d|
    ensures ta < |d| && tc < |d| && (a !in done ==> AsyncDone(d, done, n, k) <= d[tc].work)
    ensures a in done && a < k ==> AsyncDone(d, done, n, k) == d[ta].work
    ensures AsyncDone(d, done, n, k) <= d[ta].work
    decreases k
  {
    hide Overtakes, Lone, Workless, Source, Holder, Below, Valid, Span, Serial;
    LateKinds(d, n, a, c);
    LateSteps(d, n, a, c, ta, tc);
    if k > n + 1 {
      LateSpans(d, done, n, a, c, ta, tc, k - 1);
      var v := k - 1;
      if d[v].parent == n && d[v].kind == ASYNC {
        LateSums(d, n, a, c, ta, tc, v);
        if v == a {
          LoneSpan(d, a, ta);
        } else {
          IdleSpan(d, v);
        }
      }
    }
  }

  lemma {:induction false} KeepExceeded(d: Tree, parFor: map<nat, bool>, s: seq<AFTask>, done: set<nat>, i: nat, v: nat,
                                        n: nat, a: nat, c: nat, ta: nat, tc: nat)
    requires Completing(d, s, done, i, v) && Zeros(d, s, done) && Forked(d)
    requires s[v].parent == d[v].parent < v && s[d[v].parent].kind != STEP
    requires Late(d, n, a, c, ta, tc) && Exceeded(d, s, done, n, a, c, ta, tc)
    ensures Exceeded(d, Completed(s, v, parFor), done + {v}, n, a, c, ta, tc)
  {
    hide Spans, Loaded, ParentWorks, MapsReady, Closed, AllIn, FinishOrdered, Valid, Workless, Zeros, Lone, Overtakes, Below, Held, Carried,
         Source, Holder, Completed;
    AtCompletion(d, s, done, i, v);
    SharesAfter(s, v, parFor);
    LateKinds(d, n, a, c);
    KeepHeld(d, parFor, s, done, i, v, a, ta);
    KeepCarried(d, parFor, s, done, i, v, c, tc);
    if v == c {
      TaskIsDone(d, done, i, n, a, c);
    }
    if d[v].parent == n {
      LatePassed(d, parFor, s, done, i, v, n, a, c, ta, tc);
    } else if v == n {
      LateSums(d, n, a, c, ta, tc, |d|);
      BothDone(d, done, n, a, c);
    }
  }

  lemma {:induction false} BothDone(d: Tree, done: set<nat>, n: nat, a: nat, c: nat)
    requires AllIn(d, done, n) && Overtakes(d, n, a, c)
    ensures a in done && c in done
  {
    assert d[a].parent == n && d[c].parent == n;
  }

  /** When `c` is complete, so is the task that it outlasts. */
  lemma {:induction false} TaskIsDone(d: Tree, done: set<nat>, i: nat, n: nat, a: nat, c: nat)
    requires Valid(d) && Closed(d, done, i, c) && 1 <= c < i && c < |d| && AllIn(d, done, c) && Overtakes(d, n, a, c)
    ensures a in done
  {
    hide Closed, AllIn, Below, Valid, Emits;
    var w: nat :| w < |d| && Below(d, c, w) && Precedes(d, a, w);
    DoneBelow(d, done, i, c, c, w);
    RootIsFinish(d);
    Separate(d, a, c);
    SubtreeDone(d, done, i, c, a);
  }

  lemma {:induction false} LatePassed(d: Tree, parFor: map<nat, bool>, s: seq<AFTask>, done: set<nat>, i: nat, v: nat,
                                      n: nat, a: nat, c: nat, ta: nat, tc: nat)
    requires Completing(d, s, done, i, v) && Zeros(d, s, done) && Forked(d) && d[v].parent == n
    requires s[v].parent == d[v].parent < v && s[d[v].parent].kind != STEP
    requires Late(d, n, a, c, ta, tc) && Exceeded(d, s, done, n, a, c, ta, tc) && (v == c ==> a in done)
    ensures ta < |d| && tc < |d| && Sum(CallSites(Parent(s[v], s[n], parFor))) ==
            (if a in done + {v} then d[ta].work else 0) + (if c in done + {v} then d[tc].work else 0)
  {
    hide Spans, Loaded, ParentWorks, MapsReady, Closed, FinishOrdered, Valid, Workless, Zeros, Lone, Overtakes, Below, Carried;
    AtCompletion(d, s, done, i, v);
    LateKinds(d, n, a, c);
    if v == c {
      CarriedInto(d, parFor, s, done, i, c, tc);
    } else {
      LateSpans(d, done, n, a, c, ta, tc, |d|);
      if v == a {
        assert d[ta].parent == a;
        LoneSpan(d, a, ta);
        AsyncInto(s[a], s[n], parFor);
      } else {
        IdleInto(d, parFor, s, done, i, v);
        LateSums(d, n, a, c, ta, tc, v);
      }
    }
  }

  lemma {:induction false} FinalExceeded(d: Tree, s: seq<AFTask>, done: set<nat>, n: nat, a: nat, c: nat, ta: nat, tc: nat)
    requires Valid(d) && Late(d, n, a, c, ta, tc) && Exceeded(d, s, done, n, a, c, ta, tc) && Spans(d, s, done)
    requires s[n].kind == d[n].kind && n in done && forall u :: 1 <= u < |d| ==> u in done
    ensures Borrows(s[n]) && s[n].criticalChild == d[ta].work && Sum(CallSites(s[n])) == d[ta].work + d[tc].work
  {
    LateKinds(d, n, a, c);
    LateSums(d, n, a, c, ta, tc, |d|);
    DoneAll(d, done, n, |d|);
  }
}
