/** What the analysis pass knows about the shares of the critical path while it is under way. */
module Shares {
  import opened Dpst
  import opened CountMaps
  import opened Completion
  import opened Progress
  import opened Attribution

  /** Node `v` is about to be completed: all its children are done. */
  ghost predicate Completing(d: Tree, s: seq<AFTask>, done: set<nat>, i: nat, v: nat) {
    && Valid(d) && Loaded(d, s) && Spans(d, s, done) && ParentWorks(d, s, i) && MapsReady(d, s, done, i)
    && Closed(d, done, i, v) && 1 <= v < i && v < |d| && v !in done && AllIn(d, done, v) && d[v].parent !in done
  }

  /** What is known of node `v` and of its parent then. */
  lemma {:induction false} AtCompletion(d: Tree, s: seq<AFTask>, done: set<nat>, i: nat, v: nat)
    requires Completing(d, s, done, i, v)
    ensures d[v].parent < v < |d| <= |s| && s[v].parent == d[v].parent && s[d[v].parent].kind != STEP
    ensures s[v].kind == d[v].kind && s[v].kind != NO_TYPE && s[v].callSite == d[v].callSite
    ensures s[v].spRootNWt == (d[v].kind == FINISH && d[v].callSite != 0)
    ensures d[v].kind == STEP ==> s[v].work == d[v].work && v > 1
    ensures d[v].kind != STEP ==> s[v].criticalCallSites.Some? && s[v].localWork == Serial(d, v, |d|)
    ensures d[v].kind != STEP ==> s[v].criticalChild == AsyncMax(d, v, |d|) && OwnSpan(s[v]) == Span(d, v)
    ensures v > 1 ==> d[v].parent >= 1 && d[d[v].parent].kind != STEP && s[d[v].parent].criticalCallSites.Some?
    ensures v > 1 ==> s[d[v].parent].localWork == SerialDone(d, done, d[v].parent, |d|)
    ensures v > 1 ==> s[d[v].parent].criticalChild == AsyncDone(d, done, d[v].parent, |d|)
    ensures v == 1 ==> d[v].parent == 0 && d[v].kind == FINISH && d[v].callSite == 0
    ensures d[v].kind == ASYNC ==> v > 1 && s[v].parentWork == Serial(d, d[v].parent, v)
  {
    ParentIsInner(d, s, v);
    if d[v].kind != STEP {
      OwnSpanIsSpan(d, s, done, v);
      DoneAll(d, done, v, |d|);
    }
  }

  lemma {:induction false} NoTasks(d: Tree, v: nat, k: nat)
    requires 1 <= v < |d| && k <= |d| && forall c {:trigger d[c].kind} :: v < c < |d| && d[c].parent == v ==> d[c].kind != ASYNC
    ensures AsyncMax(d, v, k) == 0
    decreases k
  {
    if k > v + 1 {
      NoTasks(d, v, k - 1);
    }
  }

  /** Only an implicit FINISH can have its span determined by a task. */
  lemma {:induction false} PlainIsSerial(d: Tree, v: nat)
    requires Valid(d) && Forked(d) && 1 <= v < |d| && !Sync(d, v)
    ensures AsyncMax(d, v, |d|) == 0
  {
    forall c {:trigger d[c].kind} | v < c < |d| && d[c].parent == v ensures d[c].kind != ASYNC {
    }
    NoTasks(d, v, |d|);
  }

  lemma {:induction false} QuietIsSerial(d: Tree, v: nat)
    requires 1 <= v < |d| && !Emits(d, v)
    ensures AsyncMax(d, v, |d|) == 0
  {
    NoTasks(d, v, |d|);
  }

  // ---- exact attribution ----

  /** An implicit FINISH keeps what was not spent in tasks; anywhere else the serial work so far is
      split between the node's own share and the call sites of finished children. */
  ghost predicate Split(t: AFTask, sync: bool) {
    if sync then t.localLocalWork == t.localWork else t.localLocalWork + Sum(CallSites(t)) == t.localWork
  }

  predicate Counts(d: Tree, parFor: map<nat, bool>, v: nat) {
    1 <= v < |d| && d[v].kind == FINISH && Exposed(d, parFor, v) && !Collapses(d, parFor, v)
  }

  ghost predicate Attributed(d: Tree, parFor: map<nat, bool>, s: seq<AFTask>, done: set<nat>) {
    && |d| <= |s|
    && forall v: nat {:trigger s[v]} :: v < |d| && Counts(d, parFor, v) && (v == 1 || v !in done) ==> Split(s[v], Sync(d, v))
  }

  lemma {:induction false} KeepAttributed(d: Tree, parFor: map<nat, bool>, s: seq<AFTask>, done: set<nat>, i: nat, v: nat)
    requires Completing(d, s, done, i, v) && Forked(d) && !Lossy(d, parFor) && Attributed(d, parFor, s, done)
    requires s[v].parent == d[v].parent < v && s[d[v].parent].kind != STEP
    ensures Attributed(d, parFor, Completed(s, v, parFor), done + {v})
  {
    hide Spans, Loaded, ParentWorks, MapsReady, Closed, AllIn, FinishOrdered, Valid, Emits, Exposed;
    AtCompletion(d, s, done, i, v);
    SharesAfter(s, v, parFor);
    var t, q := Completed(s, v, parFor), d[v].parent;
    if v == 1 {
      RootShares(d, s, parFor);
    }
    if Counts(d, parFor, q) {
      assert Split(s[q], Sync(d, q));
      if d[v].kind == FINISH {
        FinishSplit(d, parFor, s, done, i, v);
      } else if d[v].kind == ASYNC {
        AsyncInto(s[v], s[q], parFor);
        ForkedAt(d, v);
      } else {
        StepInto(s[v], s[q], parFor);
      }
      assert Split(t[q], Sync(d, q));
    }
  }

  lemma {:induction false} ForkedAt(d: Tree, v: nat)
    requires Forked(d) && 2 <= v < |d| && d[v].kind == ASYNC
    ensures d[v].parent < |d| && Sync(d, d[v].parent)
  {
  }

  /** The root has no parent to give anything to. */
  lemma {:induction false} RootShares(d: Tree, s: seq<AFTask>, parFor: map<nat, bool>)
    requires 1 < |s| && s[1].parent == 0 && s[1].kind == FINISH && !s[1].spRootNWt && s[0].kind != STEP
    ensures var t := Completed(s, 1, parFor);
            |t| == |s| && t[1].localLocalWork == s[1].localLocalWork && t[1].criticalCallSites == s[1].criticalCallSites
            && t[1].localWork == s[1].localWork
  {
  }

  lemma {:induction false} FinishSplit(d: Tree, parFor: map<nat, bool>, s: seq<AFTask>, done: set<nat>, i: nat, v: nat)
    requires Completing(d, s, done, i, v) && Forked(d) && !Lossy(d, parFor) && Attributed(d, parFor, s, done)
    requires s[v].parent == d[v].parent < v && s[d[v].parent].kind != STEP && d[v].kind == FINISH
    requires Counts(d, parFor, d[v].parent)
    ensures Split(Parent(s[v], s[d[v].parent], parFor), Sync(d, d[v].parent))
  {
    hide Spans, Loaded, ParentWorks, MapsReady, Closed, AllIn, FinishOrdered, Valid, Emits;
    AtCompletion(d, s, done, i, v);
    var q := d[v].parent;
    assert Exposed(d, parFor, v) && Split(s[q], Sync(d, q));
    FinishInto(s[v], s[q], parFor);
    if Sync(d, q) {
      assert !Drops(d, parFor, q, v);
      QuietIsSerial(d, v);
      QuietIsSync(d, v);
    } else if !Sync(d, v) {
      PlainIsSerial(d, v);
    }
    assert !Collapses(d, parFor, v) ==> Split(s[v], Sync(d, v));
  }

  lemma {:induction false} QuietIsSync(d: Tree, v: nat)
    requires 1 < v < |d| && d[v].kind == FINISH && !Emits(d, v)
    ensures Sync(d, v)
  {
  }

  /** A visit changes nothing about the shares. */
  lemma {:induction false} FinalAttributed(d: Tree, parFor: map<nat, bool>, s: seq<AFTask>, done: set<nat>)
    requires Valid(d) && Forked(d) && Spans(d, s, done) && Attributed(d, parFor, s, done)
    requires AllIn(d, done, 1) && 1 in done
    ensures s[1].localLocalWork + Sum(CallSites(s[1])) == s[1].criticalChild
  {
    PlainIsSerial(d, 1);
    DoneAll(d, done, 1, |d|);
    assert Counts(d, parFor, 1);
    assert Split(s[1], Sync(d, 1));
  }

  // ---- subtractions that do not borrow ----

  /** The subtraction at the completion of `t` has had a negative result, or would have subtracted one. */
  ghost predicate Borrows(t: AFTask) {
    t.kind == FINISH && t.localWork < t.criticalChild && !(0 <= Sum(CallSites(t)) <= t.criticalChild)
  }

  ghost predicate Sound(t: AFTask, sync: bool) {
    && 0 <= t.localLocalWork <= t.localWork && NonNegative(CallSites(t))
    && if sync then t.criticalChild > 0 ==> Sum(CallSites(t)) <= t.criticalChild
       else t.localLocalWork + Sum(CallSites(t)) <= t.localWork
  }

  ghost predicate Bounded(d: Tree, s: seq<AFTask>, done: set<nat>) {
    && |d| <= |s|
    && (forall v: nat {:trigger s[v]} :: 1 <= v < |d| && d[v].kind != STEP && (v == 1 || v !in done) ==> Sound(s[v], Sync(d, v)))
    && (forall v: nat {:trigger s[v]} :: 1 <= v < |d| && v in done ==> !Borrows(s[v]))
  }

  /** Task `a` and FINISH `c` have the same parent. */
  predicate Beside(d: Tree, a: nat, c: nat) {
    1 <= a < |d| && 1 <= c < |d| && d[a].parent == d[c].parent && d[a].kind == ASYNC && d[c].kind == FINISH
  }

  /** A FINISH that is not done goes on for longer than a task beside it that is done. */
  ghost predicate Outlasting(d: Tree, done: set<nat>) {
    forall a: nat, c: nat {:trigger Beside(d, a, c)} :: Beside(d, a, c) && a in done && c !in done ==> Outlasts(d, c, a)
  }

  lemma {:induction false} DoneBelow(d: Tree, done: set<nat>, i: nat, e: nat, v: nat, w: nat)
    requires Valid(d) && Closed(d, done, i, e) && 1 <= v < |d| && AllIn(d, done, v) && v < i && Below(d, v, w)
    ensures w < i && (w == v || w in done)
    decreases w
  {
    if w != v {
      DoneBelow(d, done, i, e, v, d[w].parent);
      assert d[w].parent == v || AllIn(d, done, d[w].parent);
    }
  }

  lemma {:induction false} KeepOutlasting(d: Tree, done: set<nat>, i: nat, v: nat)
    requires Valid(d) && Closed(d, done, i, v) && 1 <= v < i && v < |d| && v !in done && AllIn(d, done, v) && Outlasting(d, done)
    ensures Outlasting(d, done + {v})
  {
    hide Valid, Closed, AllIn, Outlasts;
    forall a: nat, c: nat | Beside(d, a, c) && a in done + {v} && c !in done + {v} ensures Outlasts(d, c, a) {
      if a == v {
        NewOutlasting(d, done, i, v, c);
      }
    }
  }

  lemma {:induction false} NewOutlasting(d: Tree, done: set<nat>, i: nat, v: nat, c: nat)
    requires Valid(d) && Closed(d, done, i, v) && 1 <= v < i && v < |d| && v !in done && AllIn(d, done, v)
    requires Beside(d, v, c) && c !in done
    ensures Outlasts(d, c, v)
  {
    hide Valid, Closed, AllIn, Below;
    forall x: nat {:trigger Below(d, v, x)} | Below(d, v, x) && x < |d| ensures x < i {
      DoneBelow(d, done, i, v, v, x);
    }
    if forall w: nat {:trigger Below(d, c, w)} :: Below(d, c, w) && w < |d| ==> w < i {
      RootIsFinish(d);
      Separate(d, c, v);
      SubtreeDone(d, done, i, v, c);
    } else {
      var w: nat :| Below(d, c, w) && w < |d| && w >= i;
      assert Precedes(d, v, w);
    }
  }

  lemma {:induction false} RootIsFinish(d: Tree)
    requires Valid(d)
    ensures d[1].kind == FINISH && d[1].parent == 0 && forall v {:trigger d[v].parent} :: 2 <= v < |d| ==> d[v].parent >= 1
  {
  }

  lemma {:induction false} Separate(d: Tree, c: nat, v: nat)
    requires Valid(d) && 2 <= c < |d| && 2 <= v < |d| && c != v && d[c].parent == d[v].parent
    ensures !Below(d, c, v)
  {
    SiblingsDisjoint(d, c, v, v);
  }

  lemma {:induction false} KeepBounded(d: Tree, parFor: map<nat, bool>, s: seq<AFTask>, done: set<nat>, i: nat, v: nat)
    requires Completing(d, s, done, i, v) && Forked(d) && !Overtaken(d) && Bounded(d, s, done) && Outlasting(d, done)
    requires s[v].parent == d[v].parent < v && s[d[v].parent].kind != STEP
    ensures Bounded(d, Completed(s, v, parFor), done + {v})
  {
    hide Spans, Loaded, ParentWorks, MapsReady, Closed, AllIn, FinishOrdered, Valid, Emits, Borrows, Sound, Outlasting;
    AtCompletion(d, s, done, i, v);
    SharesAfter(s, v, parFor);
    var t, q := Completed(s, v, parFor), d[v].parent;
    if v == 1 {
      RootShares(d, s, parFor);
    }
    OwnBounded(d, parFor, s, done, i, v);
    if v > 1 {
      ParentBounded(d, parFor, s, done, i, v);
    }
  }

  lemma {:induction false} OwnBounded(d: Tree, parFor: map<nat, bool>, s: seq<AFTask>, done: set<nat>, i: nat, v: nat)
    requires Completing(d, s, done, i, v) && Forked(d) && Bounded(d, s, done)
    requires s[v].parent == d[v].parent < v && s[d[v].parent].kind != STEP
    ensures !Borrows(Completed(s, v, parFor)[v])
    ensures v == 1 ==> Sound(Completed(s, v, parFor)[v], Sync(d, v))
  {
    hide Spans, Loaded, ParentWorks, MapsReady, Closed, AllIn, FinishOrdered, Valid;
    AtCompletion(d, s, done, i, v);
    SharesAfter(s, v, parFor);
    if d[v].kind != STEP {
      assert Sound(s[v], Sync(d, v));
      if !Sync(d, v) {
        PlainIsSerial(d, v);
      }
    }
    if v == 1 {
      RootShares(d, s, parFor);
    }
  }

  lemma {:induction false} ParentBounded(d: Tree, parFor: map<nat, bool>, s: seq<AFTask>, done: set<nat>, i: nat, v: nat)
    requires Completing(d, s, done, i, v) && Forked(d) && !Overtaken(d) && Bounded(d, s, done) && Outlasting(d, done)
    requires s[v].parent == d[v].parent < v && s[d[v].parent].kind != STEP && v > 1
    ensures Sound(Parent(s[v], s[d[v].parent], parFor), Sync(d, d[v].parent))
  {
    hide Spans, Loaded, ParentWorks, MapsReady, Closed, AllIn, FinishOrdered, Valid, Emits, Outlasting;
    AtCompletion(d, s, done, i, v);
    var q := d[v].parent;
    assert Sound(s[q], Sync(d, q));
    if d[v].kind != STEP {
      assert Sound(s[v], Sync(d, v));
      if !Sync(d, v) {
        PlainIsSerial(d, v);
      }
    }
    if d[v].kind == FINISH {
      FinishInto(s[v], s[q], parFor);
      if Sync(d, q) {
        if Emits(d, v) {
          FirstToEmit(d, done, i, v);
        } else {
          QuietIsSerial(d, v);
          QuietIsSync(d, v);
        }
      }
    } else if d[v].kind == ASYNC {
      AsyncInto(s[v], s[q], parFor);
      ForkedAt(d, v);
    } else {
      StepInto(s[v], s[q], parFor);
    }
  }

  /** Unless a FINISH overtakes a task, no task beside it is done when it passes call sites on. */
  lemma {:induction false} FirstToEmit(d: Tree, done: set<nat>, i: nat, v: nat)
    requires Valid(d) && !Overtaken(d) && Outlasting(d, done) && 1 < v < |d| && v !in done
    requires d[v].kind == FINISH && Sync(d, d[v].parent) && Emits(d, v) && Closed(d, done, i, v)
    ensures AsyncDone(d, done, d[v].parent, |d|) == 0
  {
    hide Emits, Outlasts, AllIn;
    var q := d[v].parent;
    forall a: nat {:trigger d[a].kind} | q < a < |d| && d[a].parent == q && d[a].kind == ASYNC ensures a !in done {
      assert Beside(d, a, v) && !Overtakes(d, q, a, v);
    }
    NoneDone(d, done, q, |d|);
  }

  lemma {:induction false} NoneDone(d: Tree, done: set<nat>, q: nat, k: nat)
    requires q < |d| && k <= |d|
    requires forall a: nat {:trigger d[a].kind} :: q < a < |d| && d[a].parent == q && d[a].kind == ASYNC ==> a !in done
    ensures AsyncDone(d, done, q, k) == 0
    decreases k
  {
    if k > q + 1 {
      NoneDone(d, done, q, k - 1);
    }
  }

  lemma {:induction false} FinalBounded(d: Tree, s: seq<AFTask>, done: set<nat>)
    requires Valid(d) && Bounded(d, s, done) && forall v :: 1 <= v < |d| ==> v in done
    ensures 0 <= s[1].localLocalWork && NonNegative(CallSites(s[1])) && Sum(CallSites(s[1])) >= 0
    ensures forall v: nat {:trigger s[v]} :: 1 <= v < |d| ==> !Borrows(s[v])
  {
    assert Sound(s[1], Sync(d, 1));
  }
}
