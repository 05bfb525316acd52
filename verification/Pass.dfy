/** The analysis pass as a function: what the graph holds after the nodes have been visited in id
    order, each leaf completing itself and every ancestor whose last child it was. */
module Pass {
  import opened Dpst
  import opened CountMaps
  import opened Completion
  import opened Progress
  import opened Attribution
  import opened Shares
  import opened Losses
  import opened Sites

  /** Nobody is processed twice, and everybody after all of its children. */
  ghost predicate Topological(d: Tree, order: seq<nat>) {
    forall j {:trigger order[j]} :: 0 <= j < |order| ==>
      order[j] !in order[..j] && AllIn(d, Elems(order[..j]), order[j])
  }

  // ---- the invariant ----

  /** What is known about the shares of the critical path, depending on the shape and the works. */
  ghost predicate Shared(d: Tree, parFor: map<nat, bool>, s: seq<AFTask>, done: set<nat>) {
    && Zeros(d, s, done) && Outlasting(d, done)
    && (!Lossy(d, parFor) ==> Attributed(d, parFor, s, done))
    && (!Overtaken(d) ==> Bounded(d, s, done))
    && (Clean(d) ==> Story(d, parFor, s, done))
    && (forall n: nat, c: nat, t: nat {:trigger Dropped(d, parFor, n, c, t)} :: Dropped(d, parFor, n, c, t) ==> Lost(d, s, done, n, c, t))
    && (forall n: nat, a: nat, c: nat, ta: nat, tc: nat {:trigger Late(d, n, a, c, ta, tc)} ::
         Late(d, n, a, c, ta, tc) ==> Exceeded(d, s, done, n, a, c, ta, tc))
  }

  /** The invariant of the pass once the nodes below `i` have been visited. Node `e` may be waiting for
      its own completion. */
  ghost predicate Mid(d: Tree, parFor: map<nat, bool>, s: seq<AFTask>, order: seq<nat>, i: nat, e: nat) {
    && Loaded(d, s)
    && Spans(d, s, Elems(order))
    && Works(d, s, Elems(order))
    && ParentWorks(d, s, i)
    && MapsReady(d, s, Elems(order), i)
    && Closed(d, Elems(order), i, e)
    && Topological(d, order)
    && (Forked(d) ==> Shared(d, parFor, s, Elems(order)))
  }

  // ---- completing a node ----

  lemma {:induction false} KeepTopological(d: Tree, order: seq<nat>, v: nat)
    requires Topological(d, order) && v !in order && AllIn(d, Elems(order), v)
    ensures Topological(d, order + [v]) && Elems(order + [v]) == Elems(order) + {v}
  {
    var t := order + [v];
    forall j | 0 <= j < |t| ensures t[j] !in t[..j] && AllIn(d, Elems(t[..j]), t[j]) {
      if j < |order| {
        assert t[..j] == order[..j] && t[j] == order[j];
      } else {
        assert t[..j] == order;
      }
    }
  }

  lemma {:induction false} KeepShared(d: Tree, parFor: map<nat, bool>, s: seq<AFTask>, done: set<nat>, i: nat, v: nat)
    requires Completing(d, s, done, i, v) && Forked(d) && Shared(d, parFor, s, done)
    requires s[v].parent == d[v].parent < v && s[d[v].parent].kind != STEP
    ensures Shared(d, parFor, Completed(s, v, parFor), done + {v})
  {
    hide Zeros, Outlasting, Lossy, Attributed, Overtaken, Bounded, Dropped, Lost, Late, Exceeded, Forked, Completed, Clean, Story;
    if Clean(d) {
      KeepStory(d, parFor, s, done, i, v);
    }
    KeepZeros(d, parFor, s, done, i, v);
    KeepOutlasting(d, done, i, v);
    if !Lossy(d, parFor) {
      KeepAttributed(d, parFor, s, done, i, v);
    }
    if !Overtaken(d) {
      KeepBounded(d, parFor, s, done, i, v);
    }
    forall n: nat, c: nat, t: nat | Dropped(d, parFor, n, c, t) ensures Lost(d, Completed(s, v, parFor), done + {v}, n, c, t) {
      KeepLost(d, parFor, s, done, i, v, n, c, t);
    }
    forall n: nat, a: nat, c: nat, ta: nat, tc: nat | Late(d, n, a, c, ta, tc)
      ensures Exceeded(d, Completed(s, v, parFor), done + {v}, n, a, c, ta, tc)
    {
      KeepExceeded(d, parFor, s, done, i, v, n, a, c, ta, tc);
    }
  }

  /** Completing `v` keeps the invariant, and the parent may be the next one. */
  lemma {:induction false} KeepMid(d: Tree, parFor: map<nat, bool>, s: seq<AFTask>, order: seq<nat>, i: nat, v: nat)
    requires Valid(d) && Mid(d, parFor, s, order, i, v) && 1 <= v < i && v < |d| && v !in order && AllIn(d, Elems(order), v)
    ensures s[v].parent == d[v].parent < v && s[d[v].parent].kind != STEP && d[v].parent !in order + [v]
    ensures Elems(order + [v]) == Elems(order) + {v}
    ensures Mid(d, parFor, Completed(s, v, parFor), order + [v], i, d[v].parent)
    ensures SameRegions(s, Completed(s, v, parFor))
  {
    hide Shared, Forked, Spans, Works, MapsReady, Topological, Completed, AllIn, Loaded, Linked, Closed;
    var done := Elems(order);
    LoadedSize(d, s);
    ParentIsInner(d, s, v);
    NodeKind(d, v);
    var t := Completed(s, v, parFor);
    KeepTopological(d, order, v);
    NotBeforeChild(d, done, i, v);
    CompletedSpans(d, s, v, parFor);
    KeepLoaded(d, s, t);
    KeepSpans(d, s, t, done, v);
    KeepWorks(d, s, done, v, parFor);
    KeepMaps(d, s, done, v, i, parFor);
    KeepClosed(d, done, i, v);
    if Forked(d) {
      KeepShared(d, parFor, s, done, i, v);
    }
  }

  lemma {:induction false} LoadedSize(d: Tree, s: seq<AFTask>)
    requires Loaded(d, s)
    ensures Linked(d, s) && 0 < |d| <= |s|
  {
  }

  lemma {:induction false} NodeKind(d: Tree, v: nat)
    requires Valid(d) && 1 <= v < |d|
    ensures d[v].parent < v && d[v].kind != NO_TYPE
  {
  }

  /** The regions are those that the loader has left. */
  ghost predicate SameRegions(s: seq<AFTask>, t: seq<AFTask>) {
    |t| == |s| && forall u {:trigger t[u]} :: 0 <= u < |s| ==> t[u].regionWork == s[u].regionWork
  }

  lemma {:induction false} RegionsTrans(s: seq<AFTask>, t: seq<AFTask>, u: seq<AFTask>)
    requires s == t || SameRegions(s, t)
    requires t == u || SameRegions(t, u)
    ensures SameRegions(s, u)
  {
  }

  lemma {:induction false} StepBelowParent(d: Tree, i: nat)
    requires Valid(d) && 1 <= i < |d|
    ensures d[i].parent < i
  {
  }

  /** If a child of `p` is not done, `p` has to wait. */
  lemma {:induction false} Waits(d: Tree, parFor: map<nat, bool>, s: seq<AFTask>, order: seq<nat>, i: nat, p: nat)
    requires Mid(d, parFor, s, order, i, p) && !AllIn(d, Elems(order), p)
    ensures Mid(d, parFor, s, order, i, 0)
  {
    hide Shared, Forked, Spans, Works, Loaded, ParentWorks, MapsReady, Topological;
  }

  // ---- visiting a node ----

  /** A node with children gets an empty map of call sites and, if it is a task, remembers the
      serial work its parent had done when it was spawned. */
  function Visited(s: seq<AFTask>, i: nat): seq<AFTask>
    requires i < |s| && s[i].parent < |s|
  {
    s[i := s[i].(criticalCallSites := Some(map[]),
                 parentWork := if s[i].kind == ASYNC then s[s[i].parent].localWork else s[i].parentWork)]
  }

  lemma {:induction false} VisitFrame(d: Tree, s: seq<AFTask>, done: set<nat>, i: nat)
    requires 1 <= i < |d| <= |s| && s[i].parent < i && d[i].kind != STEP && s[i].kind == d[i].kind && i !in done
    ensures Loaded(d, s) ==> Loaded(d, Visited(s, i))
    ensures Spans(d, s, done) ==> Spans(d, Visited(s, i), done)
    ensures Works(d, s, done) ==> Works(d, Visited(s, i), done)
    ensures MapsReady(d, s, done, i) ==> MapsReady(d, Visited(s, i), done, i + 1)
  {
  }

  lemma {:induction false} VisitParentWorks(d: Tree, s: seq<AFTask>, done: set<nat>, i: nat)
    requires Valid(d) && FinishOrdered(d) && Closed(d, done, i, 0) && Spans(d, s, done) && ParentWorks(d, s, i)
    requires 1 <= i < |d| && s[i].parent == d[i].parent < i && s[i].kind == d[i].kind
    ensures ParentWorks(d, Visited(s, i), i + 1)
  {
    if d[i].kind == ASYNC {
      SpawnTimeWork(d, s, done, i);
    }
  }

  lemma {:induction false} VisitShared(d: Tree, parFor: map<nat, bool>, s: seq<AFTask>, done: set<nat>, i: nat)
    requires 1 <= i < |d| <= |s| && s[i].parent < i && CallSites(s[i]) == map[] && s[i].kind == d[i].kind && i !in done
    requires d[i].kind != STEP && Shared(d, parFor, s, done)
    ensures Shared(d, parFor, Visited(s, i), done)
  {
    var t := Visited(s, i);
    forall v: nat | v < |s| ensures SameShares(s[v], t[v]) {
    }
    SharedFrame(d, parFor, s, t, done);
  }

  predicate SameShares(n: AFTask, m: AFTask) {
    && n.localLocalWork == m.localLocalWork && CallSites(n) == CallSites(m) && n.localWork == m.localWork
    && n.criticalChild == m.criticalChild && n.kind == m.kind
  }

  lemma {:induction false} SharedFrame(d: Tree, parFor: map<nat, bool>, s: seq<AFTask>, t: seq<AFTask>, done: set<nat>)
    requires Shared(d, parFor, s, done) && |s| == |t| && |d| <= |s|
    requires forall v {:trigger t[v]} :: 0 <= v < |s| ==> SameShares(s[v], t[v])
    ensures Shared(d, parFor, t, done)
  {
    hide Outlasting, Lossy, Overtaken, Dropped, Late, Lost, Exceeded, Zeros, Attributed, Bounded, Clean, Story;
    SomeFrame(d, parFor, s, t, done);
    if Story(d, parFor, s, done) {
      StoryFrame(d, parFor, s, t, done);
    }
    forall n: nat, c: nat, u: nat | Dropped(d, parFor, n, c, u) ensures Lost(d, t, done, n, c, u) {
      LostFrame(d, s, t, done, n, c, u);
    }
    forall n: nat, a: nat, c: nat, ta: nat, tc: nat | Late(d, n, a, c, ta, tc) ensures Exceeded(d, t, done, n, a, c, ta, tc) {
      ExceededFrame(d, s, t, done, n, a, c, ta, tc);
    }
  }

  lemma {:induction false} StoryFrame(d: Tree, parFor: map<nat, bool>, s: seq<AFTask>, t: seq<AFTask>, done: set<nat>)
    requires |s| == |t| && |d| <= |s| && forall v {:trigger t[v]} :: 0 <= v < |s| ==> SameShares(s[v], t[v])
    requires Story(d, parFor, s, done)
    ensures Story(d, parFor, t, done)
  {
    hide Told;
    forall v: nat | 1 <= v < |d| && d[v].kind != STEP && (v == 1 || v !in done) ensures Told(d, parFor, t[v], v, done) {
      ToldFrame(d, parFor, s[v], t[v], v, done);
    }
  }

  lemma {:induction false} ToldFrame(d: Tree, parFor: map<nat, bool>, n: AFTask, m: AFTask, v: nat, done: set<nat>)
    requires v < |d| && SameShares(n, m) && Told(d, parFor, n, v, done)
    ensures Told(d, parFor, m, v, done)
  {
    hide Explains, Gathered, Sync;
    if Sync(d, v) {
      var c :| SyncExplains(d, parFor, n, v, c);
      assert SyncExplains(d, parFor, m, v, c);
    }
  }

  lemma {:induction false} SomeFrame(d: Tree, parFor: map<nat, bool>, s: seq<AFTask>, t: seq<AFTask>, done: set<nat>)
    requires |s| == |t| && |d| <= |s| && forall v {:trigger t[v]} :: 0 <= v < |s| ==> SameShares(s[v], t[v])
    ensures Zeros(d, s, done) ==> Zeros(d, t, done)
    ensures Attributed(d, parFor, s, done) ==> Attributed(d, parFor, t, done)
    ensures Bounded(d, s, done) ==> Bounded(d, t, done)
  {
    hide Workless, Counts;
  }

  lemma {:induction false} LostFrame(d: Tree, s: seq<AFTask>, t: seq<AFTask>, done: set<nat>, n: nat, c: nat, u: nat)
    requires |s| == |t| && |d| <= |s| && forall v {:trigger t[v]} :: 0 <= v < |s| ==> SameShares(s[v], t[v])
    requires Lost(d, s, done, n, c, u)
    ensures Lost(d, t, done, n, c, u)
  {
    hide Below;
  }

  lemma {:induction false} ExceededFrame(d: Tree, s: seq<AFTask>, t: seq<AFTask>, done: set<nat>, n: nat, a: nat, c: nat, ta: nat, tc: nat)
    requires |s| == |t| && |d| <= |s| && forall v {:trigger t[v]} :: 0 <= v < |s| ==> SameShares(s[v], t[v])
    requires Exceeded(d, s, done, n, a, c, ta, tc)
    ensures Exceeded(d, t, done, n, a, c, ta, tc)
  {
  }

  lemma {:induction false} VisitMid(d: Tree, parFor: map<nat, bool>, s: seq<AFTask>, order: seq<nat>, i: nat)
    requires Valid(d) && FinishOrdered(d) && Mid(d, parFor, s, order, i, 0) && 1 <= i < |d| && d[i].kind != STEP
    ensures s[i].parent == d[i].parent < i && i !in order && !AllIn(d, Elems(order), i)
    ensures Mid(d, parFor, Visited(s, i), order, i + 1, 0) && SameRegions(s, Visited(s, i))
  {
    hide Shared, Forked, Spans, Works, FinishOrdered, Topological;
    ParentIsInner(d, s, i);
    assert s[i].kind == d[i].kind;
    var done := Elems(order);
    assert i !in done;
    ChildNotDone(d, done, i);
    assert s[i].criticalCallSites == None;
    VisitParentWorks(d, s, done, i);
    VisitFrame(d, s, done, i);
    if Forked(d) {
      VisitShared(d, parFor, s, done, i);
    }
  }

  lemma {:induction false} ChildNotDone(d: Tree, done: set<nat>, i: nat)
    requires Valid(d) && Closed(d, done, i, 0) && 1 <= i < |d| && d[i].kind != STEP
    ensures !AllIn(d, done, i)
  {
    var c :| i < c < |d| && d[c].parent == i;
    assert c !in done;
  }

  /** A step is complete as soon as it is visited. */
  lemma {:induction false} VisitStep(d: Tree, parFor: map<nat, bool>, s: seq<AFTask>, order: seq<nat>, i: nat)
    requires Valid(d) && Mid(d, parFor, s, order, i, 0) && 1 <= i < |d| && d[i].kind == STEP
    ensures i !in order && AllIn(d, Elems(order), i) && Mid(d, parFor, s, order, i + 1, i)
    ensures d[i].parent >= 1 && d[d[i].parent].kind != STEP
  {
    hide Shared, Forked, Spans, Works, Topological;
    var done := Elems(order);
    assert i !in done;
    forall c {:trigger d[c].parent} | i < c < |d| ensures d[c].parent != i {
      ParentIsNoStep(d, c);
    }
  }

  // ---- the pass ----

  datatype Snapshot = Snapshot(nodes: seq<AFTask>, order: seq<nat>)

  /** The last child of `p` that was visited is done: `p` is completed if all of them are, and so on. */
  ghost function Climb(d: Tree, parFor: map<nat, bool>, x: Snapshot, i: nat, p: nat): (r: Snapshot)
    requires Valid(d) && Mid(d, parFor, x.nodes, x.order, i, p) && 1 <= p < i <= |d| && d[p].kind != STEP && p !in x.order
    ensures Mid(d, parFor, r.nodes, r.order, i, 0) && SameRegions(x.nodes, r.nodes)
    decreases p
  {
    hide Mid, AllIn, Elems, Valid, SameRegions, Completed;
    if AllIn(d, Elems(x.order), p) then
      KeepMid(d, parFor, x.nodes, x.order, i, p);
      var y := Snapshot(Completed(x.nodes, p, parFor), x.order + [p]);
      if d[p].parent == 0 then y
      else
        ParentInner(d, p);
        var r := Climb(d, parFor, y, i, d[p].parent);
        RegionsTrans(x.nodes, y.nodes, r.nodes);
        r
    else
      Waits(d, parFor, x.nodes, x.order, i, p);
      RegionsTrans(x.nodes, x.nodes, x.nodes);
      x
  }

  lemma {:induction false} ParentInner(d: Tree, p: nat)
    requires Valid(d) && 1 <= p < |d| && d[p].parent != 0
    ensures 1 <= d[p].parent < p && d[d[p].parent].kind != STEP
  {
  }

  ghost function Visit(d: Tree, parFor: map<nat, bool>, x: Snapshot, i: nat): (r: Snapshot)
    requires Valid(d) && FinishOrdered(d) && Mid(d, parFor, x.nodes, x.order, i, 0) && 1 <= i < |d|
    ensures Mid(d, parFor, r.nodes, r.order, i + 1, 0) && SameRegions(x.nodes, r.nodes)
  {
    hide Mid, AllIn, Elems, Valid, FinishOrdered, SameRegions, Completed, Visited, Climb;
    if d[i].kind == STEP then
      VisitStep(d, parFor, x.nodes, x.order, i);
      KeepMid(d, parFor, x.nodes, x.order, i + 1, i);
      StepBelowParent(d, i);
      var y := Snapshot(Completed(x.nodes, i, parFor), x.order + [i]);
      var r := Climb(d, parFor, y, i + 1, d[i].parent);
      RegionsTrans(x.nodes, y.nodes, r.nodes);
      r
    else
      VisitMid(d, parFor, x.nodes, x.order, i);
      Snapshot(Visited(x.nodes, i), x.order)
  }

  /** A node as the loader leaves it: work measured for steps, and no profile yet. */
  ghost predicate Fresh(d: Tree, s: seq<AFTask>) {
    && Loaded(d, s)
    && forall v: nat {:trigger s[v]} :: 1 <= v < |d| && d[v].kind != STEP ==>
         && s[v].work == s[v].localWork == s[v].criticalChild == s[v].localLocalWork == 0
         && s[v].criticalCallSites == None
  }

  lemma {:induction false} StartMid(d: Tree, parFor: map<nat, bool>, s: seq<AFTask>)
    requires Valid(d) && Fresh(d, s)
    ensures Mid(d, parFor, s, [], 1, 0)
  {
    hide Dropped, Late, Lossy, Overtaken, Forked;
    assert Elems([]) == {};
    forall v: nat | 1 <= v < |d|
      ensures CountDone(d, {}, v, |d|) == SerialDone(d, {}, v, |d|) == WorkDone(d, {}, v, |d|) == AsyncDone(d, {}, v, |d|) == 0
    {
      DoneNone(d, v, |d|);
    }
    StartShared(d, parFor, s);
  }

  lemma {:induction false} StartShared(d: Tree, parFor: map<nat, bool>, s: seq<AFTask>)
    requires Valid(d) && Fresh(d, s)
    ensures Shared(d, parFor, s, {})
  {
    hide Lossy, Overtaken, Dropped, Late, Lost, Exceeded, Zeros, Attributed, Bounded, Fresh, Valid, Clean, Story;
    StartSome(d, parFor, s);
    StartStories(d, parFor, s);
    forall n: nat, c: nat, t: nat | Dropped(d, parFor, n, c, t) ensures Lost(d, s, {}, n, c, t) {
      StartLost(d, parFor, s, n, c, t);
    }
    forall n: nat, a: nat, c: nat, ta: nat, tc: nat | Late(d, n, a, c, ta, tc) ensures Exceeded(d, s, {}, n, a, c, ta, tc) {
      StartExceeded(d, s, n, a, c, ta, tc);
    }
  }

  lemma {:induction false} StartZero(d: Tree, s: seq<AFTask>, v: nat)
    requires Fresh(d, s) && 1 <= v < |d| && d[v].kind != STEP
    ensures v < |s| && Zero(s[v]) && CallSites(s[v]) == map[] && s[v].localWork == s[v].criticalChild == 0
  {
    assert s[v].criticalCallSites == None;
    assert Sum(map[]) == 0;
  }

  lemma {:induction false} StartStories(d: Tree, parFor: map<nat, bool>, s: seq<AFTask>)
    requires Fresh(d, s)
    ensures Story(d, parFor, s, {})
  {
    hide Fresh, Told;
    FreshSize(d, s);
    forall v: nat | 1 <= v < |d| && d[v].kind != STEP ensures Told(d, parFor, s[v], v, {}) {
      StartZero(d, s, v);
      StartStory(d, parFor, s[v], v);
    }
  }

  lemma {:induction false} StartSome(d: Tree, parFor: map<nat, bool>, s: seq<AFTask>)
    requires Fresh(d, s)
    ensures Zeros(d, s, {}) && Attributed(d, parFor, s, {}) && Bounded(d, s, {}) && Outlasting(d, {})
  {
    hide Workless, Exposed, Fresh, Linked;
    FreshSize(d, s);
    forall v: nat | 1 <= v < |d| && d[v].kind != STEP
      ensures Zero(s[v]) && CallSites(s[v]) == map[] && s[v].localWork == s[v].criticalChild == 0
    {
      StartZero(d, s, v);
    }
  }

  lemma {:induction false} FreshSize(d: Tree, s: seq<AFTask>)
    requires Fresh(d, s)
    ensures |d| <= |s|
  {
  }

  lemma {:induction false} StartLost(d: Tree, parFor: map<nat, bool>, s: seq<AFTask>, n: nat, c: nat, t: nat)
    requires Valid(d) && Fresh(d, s) && Dropped(d, parFor, n, c, t)
    ensures Lost(d, s, {}, n, c, t)
  {
    hide Fresh, Below, Lone, Emits, Exposed;
    FreshSize(d, s);
    StartCarried(d, s, c, t);
    forall v: nat | 1 <= v < |d| && Below(d, v, n) ensures Zero(s[v]) {
      SpineExposed(d, parFor, n, v);
      StartZero(d, s, v);
    }
  }

  lemma {:induction false} StartExceeded(d: Tree, s: seq<AFTask>, n: nat, a: nat, c: nat, ta: nat, tc: nat)
    requires Valid(d) && Fresh(d, s) && Late(d, n, a, c, ta, tc)
    ensures Exceeded(d, s, {}, n, a, c, ta, tc)
  {
    hide Fresh, Lone, Workless, Overtakes;
    FreshSize(d, s);
    LateKinds(d, n, a, c);
    StartCarried(d, s, c, tc);
    StartZero(d, s, a);
    StartZero(d, s, n);
  }

  lemma {:induction false} StartCarried(d: Tree, s: seq<AFTask>, c: nat, t: nat)
    requires Fresh(d, s) && Source(d, c, t)
    ensures Carried(d, s, {}, c, t)
  {
    hide Fresh;
    FreshSize(d, s);
    StartZero(d, s, d[t].parent);
    StartZero(d, s, c);
  }

  /** The graph after the nodes below `k` have been visited. */
  ghost function PassTo(d: Tree, parFor: map<nat, bool>, s: seq<AFTask>, k: nat): (r: Snapshot)
    requires Valid(d) && FinishOrdered(d) && Fresh(d, s) && 1 <= k <= |d|
    ensures Mid(d, parFor, r.nodes, r.order, k, 0) && SameRegions(s, r.nodes)
  {
    hide Mid, Valid, FinishOrdered, Fresh, SameRegions, Visit;
    if k == 1 then
      StartMid(d, parFor, s);
      RegionsTrans(s, s, s);
      Snapshot(s, [])
    else
      var x := PassTo(d, parFor, s, k - 1);
      var r := Visit(d, parFor, x, k - 1);
      RegionsTrans(s, x.nodes, r.nodes);
      r
  }

  /** The profile of the whole tree: every inner node holds the work and span of its subtree. */
  ghost predicate Profiled(d: Tree, s: seq<AFTask>) {
    && |d| <= |s|
    && forall v: nat {:trigger s[v]} :: 1 <= v < |d| && d[v].kind != STEP ==>
         s[v].work == Work(d, v) && s[v].criticalChild == Span(d, v)
  }

  lemma {:induction false} FinalSpans(d: Tree, s: seq<AFTask>, done: set<nat>)
    requires Spans(d, s, done) && Works(d, s, done) && forall v :: 1 <= v < |d| ==> v in done
    ensures Profiled(d, s)
  {
    forall v: nat | 1 <= v < |d| && d[v].kind != STEP
      ensures s[v].work == Work(d, v) && s[v].criticalChild == Span(d, v)
    {
      DoneAll(d, done, v, |d|);
      assert s[v].work == WorkDone(d, done, v, |d|);
    }
  }

  /** What every pass ends with. */
  lemma {:induction false} FinalProfile(d: Tree, parFor: map<nat, bool>, s: seq<AFTask>, order: seq<nat>)
    requires Valid(d) && Mid(d, parFor, s, order, |d|, 0)
    ensures Loaded(d, s) && Profiled(d, s) && Topological(d, order)
    ensures forall v :: v in order <==> 1 <= v < |d|
    ensures Forked(d) && !Lossy(d, parFor) ==> s[1].localLocalWork + Sum(CallSites(s[1])) == s[1].criticalChild
    ensures Clean(d) ==> exists c :: Accounts(d, parFor, c, s[1])
    ensures Forked(d) && !Overtaken(d) ==> s[1].localLocalWork >= 0 && NonNegative(CallSites(s[1]))
    ensures Forked(d) && !Overtaken(d) ==> forall v: nat {:trigger s[v]} :: 1 <= v < |d| ==> !Borrows(s[v])
  {
    hide Lossy, Overtaken, Forked, Zeros, Outlasting, Bounded, Attributed, Dropped, Late, Borrows, Spans, Works, Loaded, Profiled, Clean, Story, Accounts;
    var done := Elems(order);
    forall v: nat | 1 <= v < |d| ensures v in done {
      EverythingDone(d, done, v);
    }
    FinalSpans(d, s, done);
    if Forked(d) && !Lossy(d, parFor) {
      FinalAttributed(d, parFor, s, done);
    }
    if Forked(d) && !Overtaken(d) {
      FinalBounded(d, s, done);
    }
    if Clean(d) {
      ForkedOf(d);
      FinalStory(d, parFor, s, done);
    }
    forall v ensures v in order <==> 1 <= v < |d| {
      assert v in order <==> v in done;
    }
  }
}
