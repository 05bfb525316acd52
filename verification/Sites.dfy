/** Which call site a step on the critical path belongs to, and why the pass of the analysis phase gives
    every call site exactly the work of its own steps. */
module Sites {
  import opened Dpst
  import opened Chains
  import opened CountMaps
  import opened Completion
  import opened Progress
  import opened Attribution
  import opened Shares

  /** A call site, or the node that is being looked at: in the end, the root. */
  datatype Owner = Mine | Site(id: nat)

  // ---- the owner of a step ----

  predicate Naming(d: Tree, v: nat)
    requires v < |d|
  {
    d[v].kind == ASYNC || (d[v].kind == FINISH && d[v].callSite != 0)
  }

  /** Node `v`, or a node above it, gives its whole span to its own call site. */
  predicate Collapsed(d: Tree, parFor: map<nat, bool>, v: nat)
    decreases v
  {
    1 < v < |d| && (Collapses(d, parFor, v) || (d[v].parent < v && Collapsed(d, parFor, d[v].parent)))
  }

  /** The owner of node `v`: the nearest node above it that has a call site, or the outermost one that
      collapses. */
  function OwnerOf(d: Tree, parFor: map<nat, bool>, v: nat): Owner
    decreases v
  {
    if v <= 1 || v >= |d| || d[v].parent >= v then Mine
    else if Naming(d, v) && !Collapsed(d, parFor, d[v].parent) then Site(d[v].callSite)
    else OwnerOf(d, parFor, d[v].parent)
  }

  /** The steps of `c` that belong to `o`. */
  ghost function OwnedBy(d: Tree, parFor: map<nat, bool>, c: set<nat>, o: Owner): set<nat> {
    set a | a in c && OwnerOf(d, parFor, a) == o
  }

  /** The critical path is a chain of steps whose works make up the span, the share of every call site is the
      work of the steps of the chain that it owns, and the rest is the own share of the root. */
  ghost predicate Accounts(d: Tree, parFor: map<nat, bool>, c: set<nat>, root: AFTask) {
    && Chain(d, c) && Weight(d, c, |d|) == root.criticalChild
    && Weight(d, OwnedBy(d, parFor, c, Mine), |d|) == root.localLocalWork
    && forall k: nat {:trigger Site(k)} :: Weight(d, OwnedBy(d, parFor, c, Site(k)), |d|) == Get(CallSites(root), k)
  }

  /** No FINISH without a call site holds a FINISH that may pass call sites on. */
  ghost predicate Clean(d: Tree) {
    && Forked(d)
    && forall c {:trigger d[c].kind} :: 2 <= c < |d| && d[c].kind == FINISH && d[c].parent < |d| && Sync(d, d[c].parent) ==> !Emits(d, c)
  }

  lemma {:induction false} AlternatingIsClean(d: Tree)
    requires Valid(d) && Alternating(d)
    ensures Clean(d)
  {
    forall c | 2 <= c < |d| && d[c].kind == ASYNC ensures d[c].parent < |d| && Sync(d, d[c].parent) {
      assert d[c].parent < c;
    }
  }

  lemma {:induction false} CleanIsFine(d: Tree, parFor: map<nat, bool>)
    requires Valid(d) && Clean(d)
    ensures !Lossy(d, parFor) && !Overtaken(d)
  {
    hide Emits, Exposed, Outlasts, Valid;
    forall n: nat, c: nat ensures !Drops(d, parFor, n, c) {
    }
    forall n: nat, a: nat, c: nat ensures !Overtakes(d, n, a, c) {
    }
  }

  // ---- the same from below ----

  /** What owns the work that belongs to `o` below `c`, as seen from the parent of `c`. */
  function Passing(d: Tree, parFor: map<nat, bool>, c: nat, o: Owner): Owner
    requires c < |d|
  {
    if Naming(d, c) && (o.Mine? || Collapses(d, parFor, c)) then Site(d[c].callSite) else o
  }

  function Up(d: Tree, parFor: map<nat, bool>, v: nat, t: nat, o: Owner): Owner
    decreases t
  {
    if t <= v || t >= |d| || d[t].parent >= t then o else Up(d, parFor, v, d[t].parent, Passing(d, parFor, t, o))
  }

  lemma {:induction false} UpChild(d: Tree, parFor: map<nat, bool>, q: nat, v: nat, t: nat, o: Owner)
    requires q < v < |d| && d[v].parent == q && Below(d, v, t) && t < |d|
    ensures Up(d, parFor, q, t, o) == Passing(d, parFor, v, Up(d, parFor, v, t, o))
    decreases t
  {
    if t != v {
      UpChild(d, parFor, q, v, d[t].parent, Passing(d, parFor, t, o));
    } else {
      assert Up(d, parFor, q, q, Passing(d, parFor, v, o)) == Passing(d, parFor, v, o);
    }
  }

  /** The owner, in the whole tree, of what belongs to `o` as seen from `v`. */
  function Resolve(d: Tree, parFor: map<nat, bool>, v: nat, o: Owner): Owner {
    if Collapsed(d, parFor, v) || o.Mine? then OwnerOf(d, parFor, v) else o
  }

  lemma {:induction false} UpResolves(d: Tree, parFor: map<nat, bool>, t: nat, o: Owner)
    requires Valid(d) && 1 <= t < |d|
    ensures Up(d, parFor, 1, t, o) == Resolve(d, parFor, t, o)
    decreases t
  {
    if t > 1 {
      ParentIsNoStep(d, t);
      UpResolves(d, parFor, d[t].parent, Passing(d, parFor, t, o));
    }
  }

  ghost function Part(d: Tree, parFor: map<nat, bool>, v: nat, c: set<nat>, o: Owner): set<nat> {
    set a | a in c && Up(d, parFor, v, a, Mine) == o
  }

  lemma {:induction false} PartIsOwned(d: Tree, parFor: map<nat, bool>, c: set<nat>, o: Owner)
    requires Valid(d) && Chain(d, c)
    ensures Part(d, parFor, 1, c, o) == OwnedBy(d, parFor, c, o)
  {
    forall a | a in c ensures Up(d, parFor, 1, a, Mine) == OwnerOf(d, parFor, a) {
      UpResolves(d, parFor, a, Mine);
    }
  }

  // ---- chains whose shares are known ----

  /** `c` is a chain of steps below `v` that weighs `total`, `mine` of which belongs to `v` itself and the
      rest to call sites. */
  ghost predicate Explains(d: Tree, parFor: map<nat, bool>, v: nat, c: set<nat>, total: int, mine: int, sites: map<nat, int>) {
    && Chain(d, c) && (forall a :: a in c ==> Below(d, v, a))
    && Weight(d, c, |d|) == total && Weight(d, Part(d, parFor, v, c, Mine), |d|) == mine
    && forall k: nat {:trigger Site(k)} :: Weight(d, Part(d, parFor, v, c, Site(k)), |d|) == Get(sites, k)
  }

  lemma {:induction false} ExplainsNothing(d: Tree, parFor: map<nat, bool>, v: nat)
    ensures Explains(d, parFor, v, {}, 0, 0, map[])
  {
    WeightEmpty(d, |d|);
    forall o ensures Part(d, parFor, v, {}, o) == {} {
    }
  }

  /** A chain below child `v`, as seen from its parent. */
  lemma {:induction false} SeenFromParent(d: Tree, parFor: map<nat, bool>, v: nat, c: set<nat>, o: Owner)
    requires Valid(d) && 2 <= v < |d| && Chain(d, c) && forall a :: a in c ==> Below(d, v, a)
    ensures Part(d, parFor, d[v].parent, c, o) ==
            if !Naming(d, v) then Part(d, parFor, v, c, o)
            else if Collapses(d, parFor, v) then (if o == Site(d[v].callSite) then c else {})
            else if o == Mine then {}
            else if o == Site(d[v].callSite) then Part(d, parFor, v, c, o) + Part(d, parFor, v, c, Mine)
            else Part(d, parFor, v, c, o)
  {
    ParentIsNoStep(d, v);
    forall a | a in c ensures Up(d, parFor, d[v].parent, a, Mine) == Passing(d, parFor, v, Up(d, parFor, v, a, Mine)) {
      UpChild(d, parFor, d[v].parent, v, a, Mine);
    }
  }

  lemma {:induction false} BelowParent(d: Tree, v: nat, c: set<nat>)
    requires Valid(d) && 2 <= v < |d| && forall a :: a in c ==> Below(d, v, a)
    ensures forall a :: a in c ==> Below(d, d[v].parent, a)
  {
    ParentIsNoStep(d, v);
    forall a | a in c ensures Below(d, d[v].parent, a) {
      assert Below(d, d[v].parent, v);
      Transitive(d, d[v].parent, v, a);
    }
  }

  /** The sites that the parent receives from a chain below a node with a call site. */
  lemma {:induction false} NamedExplains(d: Tree, parFor: map<nat, bool>, v: nat, c: set<nat>, total: int, mine: int, sites: map<nat, int>)
    requires Valid(d) && 2 <= v < |d| && Explains(d, parFor, v, c, total, mine, sites) && Naming(d, v)
    ensures Explains(d, parFor, d[v].parent, c, total, 0,
                     if Collapses(d, parFor, v) then map[d[v].callSite := total] else Add(sites, d[v].callSite, mine))
  {
    hide Chain, Valid, Collapses, Below;
    BelowParent(d, v, c);
    WeightEmpty(d, |d|);
    var q, site := d[v].parent, d[v].callSite;
    SeenFromParent(d, parFor, v, c, Mine);
    forall k: nat ensures Weight(d, Part(d, parFor, q, c, Site(k)), |d|) ==
                          Get(if Collapses(d, parFor, v) then map[site := total] else Add(sites, site, mine), k)
    {
      SeenFromParent(d, parFor, v, c, Site(k));
      if k == site {
        WeightUnion(d, Part(d, parFor, v, c, Site(k)), Part(d, parFor, v, c, Mine), |d|);
      }
    }
  }

  lemma {:induction false} UnnamedExplains(d: Tree, parFor: map<nat, bool>, v: nat, c: set<nat>, total: int, mine: int, sites: map<nat, int>)
    requires Valid(d) && 2 <= v < |d| && Explains(d, parFor, v, c, total, mine, sites) && !Naming(d, v)
    ensures Explains(d, parFor, d[v].parent, c, total, mine, sites)
  {
    hide Chain, Valid, Naming, Below;
    BelowParent(d, v, c);
    forall o: Owner ensures Part(d, parFor, d[v].parent, c, o) == Part(d, parFor, v, c, o) {
      SeenFromParent(d, parFor, v, c, o);
    }
  }

  /** Two chains that fit together. */
  lemma {:induction false} Together(d: Tree, parFor: map<nat, bool>, v: nat, c: set<nat>, e: set<nat>, total: int, mine: int, sites: map<nat, int>,
                                    total': int, mine': int, sites': map<nat, int>)
    requires Explains(d, parFor, v, c, total, mine, sites) && Explains(d, parFor, v, e, total', mine', sites')
    requires c !! e && Chain(d, c + e)
    ensures Explains(d, parFor, v, c + e, total + total', mine + mine', Merge(sites', sites))
  {
    hide Chain, Below, Up;
    WeightUnion(d, c, e, |d|);
    forall o: Owner ensures Weight(d, Part(d, parFor, v, c + e, o), |d|) ==
                            Weight(d, Part(d, parFor, v, c, o), |d|) + Weight(d, Part(d, parFor, v, e, o), |d|)
    {
      assert Part(d, parFor, v, c + e, o) == Part(d, parFor, v, c, o) + Part(d, parFor, v, e, o);
      WeightUnion(d, Part(d, parFor, v, c, o), Part(d, parFor, v, e, o), |d|);
    }
  }

  lemma {:induction false} SameSites(d: Tree, parFor: map<nat, bool>, v: nat, c: set<nat>, total: int, mine: int, sites: map<nat, int>, sites': map<nat, int>)
    requires Explains(d, parFor, v, c, total, mine, sites) && forall k: nat {:trigger Get(sites', k)} :: Get(sites', k) == Get(sites, k)
    ensures Explains(d, parFor, v, c, total, mine, sites')
  {
    hide Chain, Below, Up;
  }

  // ---- work that belongs to a FINISH without a call site ----

  /** Below a FINISH that passes no call sites on, nothing has one. */
  lemma {:induction false} QuietBelow(d: Tree, e: nat, t: nat)
    requires Valid(d) && Clean(d) && 2 <= e < |d| && Sync(d, e) && !Emits(d, e) && Below(d, e, t) && t < |d|
    ensures !Naming(d, t) && (d[t].kind == FINISH ==> Sync(d, t) && !Emits(d, t)) && d[t].kind != ASYNC
    decreases t
  {
    if t != e {
      var p := d[t].parent;
      QuietBelow(d, e, p);
      Later(d, e, p);
      ParentIsNoStep(d, t);
      InnerKinds(d, p);
      assert d[t].kind != ASYNC;
      KindsOf(d, t);
    }
  }

  lemma {:induction false} InnerKinds(d: Tree, v: nat)
    requires Valid(d) && 1 <= v < |d| && d[v].kind != STEP
    ensures d[v].kind == ASYNC || d[v].kind == FINISH
  {
  }

  lemma {:induction false} KindsOf(d: Tree, v: nat)
    requires Valid(d) && 1 <= v < |d|
    ensures d[v].kind in {ASYNC, FINISH, STEP}
  {
  }

  lemma {:induction false} QuietUp(d: Tree, parFor: map<nat, bool>, e: nat, t: nat)
    requires Valid(d) && Clean(d) && 2 <= e < |d| && Sync(d, e) && !Emits(d, e) && Below(d, e, t) && t < |d|
    ensures Up(d, parFor, e, t, Mine) == Mine
    decreases t
  {
    hide Valid, Clean, Emits;
    if t != e {
      QuietBelow(d, e, t);
      QuietUp(d, parFor, e, d[t].parent);
    }
  }

  /** The serial work of an implicit FINISH before child `k`, as a chain that belongs to it alone. */
  lemma {:induction false} MineChain(d: Tree, parFor: map<nat, bool>, v: nat, k: nat) returns (c: set<nat>)
    requires Valid(d) && Clean(d) && 2 <= v < |d| && Sync(d, v) && k <= |d|
    ensures Explains(d, parFor, v, c, Serial(d, v, k), Serial(d, v, k), map[]) && SerialSteps(d, c, v, k)
  {
    hide Chain, Clean, Emits, Serial, Valid, Below;
    c := SerialChain(d, v, k);
    forall a | a in c ensures Up(d, parFor, v, a, Mine) == Mine && Below(d, v, a) {
      var e :| v < e < k && d[e].parent == v && d[e].kind != ASYNC && Below(d, e, a);
      ChildIsMine(d, parFor, v, e, a);
    }
    assert Part(d, parFor, v, c, Mine) == c;
    forall o: Owner | o != Mine ensures Weight(d, Part(d, parFor, v, c, o), |d|) == 0 {
      assert Part(d, parFor, v, c, o) == {};
      WeightEmpty(d, |d|);
    }
  }

  lemma {:induction false} ChildIsMine(d: Tree, parFor: map<nat, bool>, v: nat, e: nat, a: nat)
    requires Valid(d) && Clean(d) && 2 <= v < e < |d| && Sync(d, v) && d[e].parent == v && d[e].kind != ASYNC && Below(d, e, a)
    ensures Up(d, parFor, v, a, Mine) == Mine && Below(d, v, a)
  {
    hide Valid, Emits;
    BelowSize(d, e, a);
    KindsOf(d, e);
    assert Below(d, v, e) by {
      assert Below(d, v, v);
    }
    Transitive(d, v, e, a);
    UpChild(d, parFor, v, e, a, Mine);
    if d[e].kind == FINISH {
      QuietIsSync(d, e);
      QuietUp(d, parFor, e, a);
    } else {
      StepsAreLeaves(d, e, a);
    }
  }

  lemma {:induction false} BelowSize(d: Tree, e: nat, a: nat)
    requires e < |d| && Below(d, e, a)
    ensures a < |d|
  {
  }

  // ---- the invariant of the pass ----

  /** The chain of a node whose tasks are spawned elsewhere lies below children that are done. */
  ghost predicate Gathered(d: Tree, done: set<nat>, v: nat, c: set<nat>) {
    forall a {:trigger a in c} :: a in c ==> exists e :: v < e < |d| && e in done && d[e].parent == v && Below(d, e, a)
  }

  ghost predicate PlainStory(d: Tree, parFor: map<nat, bool>, t: AFTask, v: nat, done: set<nat>) {
    && t.localLocalWork + Sum(CallSites(t)) == t.localWork
    && exists c :: Explains(d, parFor, v, c, t.localWork, t.localLocalWork, CallSites(t)) && Gathered(d, done, v, c)
  }

  /** The chain of an implicit FINISH goes through the task that determines its span so far. */
  ghost predicate SyncStory(d: Tree, parFor: map<nat, bool>, t: AFTask, v: nat) {
    && t.localLocalWork == t.localWork
    && exists c :: SyncExplains(d, parFor, t, v, c)
  }

  ghost predicate SyncExplains(d: Tree, parFor: map<nat, bool>, t: AFTask, v: nat, c: set<nat>) {
    Explains(d, parFor, v, c, t.criticalChild, t.criticalChild - Sum(CallSites(t)), CallSites(t))
  }

  ghost predicate Told(d: Tree, parFor: map<nat, bool>, t: AFTask, v: nat, done: set<nat>)
    requires v < |d|
  {
    if Sync(d, v) then SyncStory(d, parFor, t, v) else PlainStory(d, parFor, t, v, done)
  }

  ghost predicate Story(d: Tree, parFor: map<nat, bool>, s: seq<AFTask>, done: set<nat>) {
    && |d| <= |s|
    && forall v: nat {:trigger s[v]} :: 1 <= v < |d| && d[v].kind != STEP && (v == 1 || v !in done) ==> Told(d, parFor, s[v], v, done)
  }

  lemma {:induction false} StartStory(d: Tree, parFor: map<nat, bool>, t: AFTask, v: nat)
    requires v < |d| && t.localLocalWork == t.localWork == t.criticalChild == 0 && CallSites(t) == map[]
    ensures Told(d, parFor, t, v, {})
  {
    ExplainsNothing(d, parFor, v);
    assert Sum(map[]) == 0;
    assert SyncExplains(d, parFor, t, v, {}) && Gathered(d, {}, v, {});
  }

  lemma {:induction false} StillTold(d: Tree, parFor: map<nat, bool>, t: AFTask, v: nat, done: set<nat>, done': set<nat>)
    requires v < |d| && Told(d, parFor, t, v, done) && done <= done'
    ensures Told(d, parFor, t, v, done')
  {
    hide Explains, Sync;
    if !Sync(d, v) {
      var c :| Explains(d, parFor, v, c, t.localWork, t.localLocalWork, CallSites(t)) && Gathered(d, done, v, c);
      assert Gathered(d, done', v, c);
    }
  }

  /** The chain of a node and a chain of a child that is done now. */
  lemma {:induction false} Gathers(d: Tree, done: set<nat>, v: nat, c: set<nat>, e: set<nat>)
    requires Valid(d) && Forked(d) && 2 <= v < |d| && v !in done && !Sync(d, d[v].parent) && d[v].parent < |d|
    requires Chain(d, c) && Chain(d, e) && Gathered(d, done, d[v].parent, c) && forall a :: a in e ==> Below(d, v, a)
    ensures c !! e && Chain(d, c + e) && Gathered(d, done + {v}, d[v].parent, c + e)
  {
    hide Valid, Below;
    var q := d[v].parent;
    ParentIsNoStep(d, v);
    NoTaskHere(d, v);
    forall a, b | a in c && b in e ensures a != b && (Series(d, a, b) || Series(d, b, a)) {
      var x :| q < x < |d| && x in done && d[x].parent == q && Below(d, x, a);
      NoTaskHere(d, x);
      SiblingsDisjoint(d, x, v, a);
      if x < v {
        assert Via(d, x, v, a, b);
      } else {
        assert Via(d, v, x, b, a);
      }
    }
    forall a | a in c + e ensures exists x :: q < x < |d| && x in done + {v} && d[x].parent == q && Below(d, x, a) {
      if a in c {
        var x :| q < x < |d| && x in done && d[x].parent == q && Below(d, x, a);
        assert x in done + {v};
      } else {
        assert v in done + {v} && Below(d, v, a);
      }
    }
  }

  lemma {:induction false} NoTaskHere(d: Tree, v: nat)
    requires Forked(d) && 2 <= v < |d| && d[v].parent < |d| && !Sync(d, d[v].parent)
    ensures d[v].kind != ASYNC
  {
  }

  // ---- one completion keeps it ----

  lemma {:induction false} KeepStory(d: Tree, parFor: map<nat, bool>, s: seq<AFTask>, done: set<nat>, i: nat, v: nat)
    requires Completing(d, s, done, i, v) && Clean(d) && Story(d, parFor, s, done)
    requires s[v].parent == d[v].parent < v && s[d[v].parent].kind != STEP
    ensures Story(d, parFor, Completed(s, v, parFor), done + {v})
  {
    hide Spans, Loaded, ParentWorks, MapsReady, Closed, AllIn, FinishOrdered, Valid, Clean, Told;
    AtCompletion(d, s, done, i, v);
    SharesAfter(s, v, parFor);
    var t, q := Completed(s, v, parFor), d[v].parent;
    if v == 1 {
      RootShares(d, s, parFor);
      SameTold(d, parFor, s[1], t[1], 1, done);
    } else {
      ParentTold(d, parFor, s, done, i, v);
    }
    forall u: nat | 1 <= u < |d| && d[u].kind != STEP && (u == 1 || u !in done + {v}) ensures Told(d, parFor, t[u], u, done + {v}) {
      if u != q || v == 1 {
        StillTold(d, parFor, t[u], u, done, done + {v});
      }
    }
  }

  lemma {:induction false} SameTold(d: Tree, parFor: map<nat, bool>, t: AFTask, r: AFTask, v: nat, done: set<nat>)
    requires 1 == v < |d| && Told(d, parFor, t, v, done)
    requires r.localLocalWork == t.localLocalWork && r.localWork == t.localWork && r.criticalCallSites == t.criticalCallSites
    ensures Told(d, parFor, r, v, done)
  {
    hide Explains, Gathered;
    assert !Sync(d, v);
    var c :| Explains(d, parFor, v, c, t.localWork, t.localLocalWork, CallSites(t)) && Gathered(d, done, v, c);
    assert CallSites(r) == CallSites(t);
    assert Explains(d, parFor, v, c, r.localWork, r.localLocalWork, CallSites(r)) && Gathered(d, done, v, c);
  }

  lemma {:induction false} ParentTold(d: Tree, parFor: map<nat, bool>, s: seq<AFTask>, done: set<nat>, i: nat, v: nat)
    requires Completing(d, s, done, i, v) && Clean(d) && Story(d, parFor, s, done) && v > 1
    requires s[v].parent == d[v].parent < v && s[d[v].parent].kind != STEP
    ensures Told(d, parFor, Parent(s[v], s[d[v].parent], parFor), d[v].parent, done + {v})
  {
    hide Spans, Loaded, ParentWorks, MapsReady, Closed, AllIn, FinishOrdered, Valid, Told, Emits;
    AtCompletion(d, s, done, i, v);
    var q := d[v].parent;
    assert Told(d, parFor, s[q], q, done);
    if d[v].kind != STEP {
      assert Told(d, parFor, s[v], v, done);
    }
    if Sync(d, q) {
      SyncTold(d, parFor, s, done, i, v);
    } else {
      NoTaskHere(d, v);
      PlainTold(d, parFor, s, done, i, v);
    }
  }

  /** What child `v` adds to the story of a node that is no implicit FINISH. */
  lemma {:induction false} PlainTold(d: Tree, parFor: map<nat, bool>, s: seq<AFTask>, done: set<nat>, i: nat, v: nat)
    requires Completing(d, s, done, i, v) && Clean(d) && v > 1 && !Sync(d, d[v].parent) && d[v].kind != ASYNC
    requires s[v].parent == d[v].parent < v && s[d[v].parent].kind != STEP
    requires Told(d, parFor, s[d[v].parent], d[v].parent, done) && (d[v].kind != STEP ==> Told(d, parFor, s[v], v, done))
    ensures Told(d, parFor, Parent(s[v], s[d[v].parent], parFor), d[v].parent, done + {v})
  {
    hide Spans, Loaded, ParentWorks, MapsReady, Closed, AllIn, FinishOrdered, Valid, Clean, Explains, Gathered, Chain, Below;
    AtCompletion(d, s, done, i, v);
    var q := d[v].parent;
    var n, p := s[v], s[q];
    var c :| Explains(d, parFor, q, c, p.localWork, p.localLocalWork, CallSites(p)) && Gathered(d, done, q, c);
    var r := Parent(n, p, parFor);
    var e, sites := Gain(d, parFor, s, done, i, v);
    ChainOf(d, parFor, q, c, p.localWork, p.localLocalWork, CallSites(p));
    ChainOf(d, parFor, q, e, r.localWork - p.localWork, r.localLocalWork - p.localLocalWork, sites);
    ForkedOf(d);
    Gathers(d, done, v, c, e);
    Together(d, parFor, q, c, e, p.localWork, p.localLocalWork, CallSites(p), r.localWork - p.localWork, r.localLocalWork - p.localLocalWork, sites);
    SameSites(d, parFor, q, c + e, r.localWork, r.localLocalWork, Merge(sites, CallSites(p)), CallSites(r));
  }

  lemma {:induction false} ChainOf(d: Tree, parFor: map<nat, bool>, v: nat, c: set<nat>, total: int, mine: int, sites: map<nat, int>)
    requires Explains(d, parFor, v, c, total, mine, sites)
    ensures Chain(d, c) && Weight(d, c, |d|) == total
  {
  }

  lemma {:induction false} ForkedOf(d: Tree)
    requires Clean(d)
    ensures Forked(d)
  {
  }

  /** The chain below `v` that explains what its parent gains. */
  lemma {:induction false} Gain(d: Tree, parFor: map<nat, bool>, s: seq<AFTask>, done: set<nat>, i: nat, v: nat)
    returns (e: set<nat>, sites: map<nat, int>)
    requires Completing(d, s, done, i, v) && Clean(d) && v > 1 && !Sync(d, d[v].parent) && d[v].kind != ASYNC
    requires s[v].parent == d[v].parent < v && s[d[v].parent].kind != STEP
    requires d[v].kind != STEP ==> Told(d, parFor, s[v], v, done)
    requires s[d[v].parent].localLocalWork + Sum(CallSites(s[d[v].parent])) == s[d[v].parent].localWork
    ensures var p, r := s[d[v].parent], Parent(s[v], s[d[v].parent], parFor);
            && Explains(d, parFor, d[v].parent, e, r.localWork - p.localWork, r.localLocalWork - p.localLocalWork, sites)
            && (forall k: nat {:trigger Get(CallSites(r), k)} :: Get(CallSites(r), k) == Get(Merge(sites, CallSites(p)), k))
            && (forall a :: a in e ==> Below(d, v, a))
            && r.localLocalWork + Sum(CallSites(r)) == r.localWork
  {
    hide Spans, Loaded, ParentWorks, MapsReady, Closed, AllIn, FinishOrdered, Valid, Clean, Explains, Gathered, Chain, Below, Part;
    AtCompletion(d, s, done, i, v);
    var q := d[v].parent;
    var n, p := s[v], s[q];
    ForkedOf(d);
    if d[v].kind == STEP {
      StepInto(n, p, parFor);
      e, sites := {v}, map[];
      StepExplains(d, parFor, v);
    } else {
      FinishInto(n, p, parFor);
      if Naming(d, v) {
        PlainIsSerial(d, v);
        var c :| Explains(d, parFor, v, c, n.localWork, n.localLocalWork, CallSites(n)) && Gathered(d, done, v, c);
        NamedExplains(d, parFor, v, c, n.localWork, n.localLocalWork, CallSites(n));
        e := c;
        sites := if Collapses(d, parFor, v) then map[d[v].callSite := n.localWork] else Add(CallSites(n), d[v].callSite, n.localLocalWork);
        AreBelow(d, parFor, v, c, n.localWork, n.localLocalWork, CallSites(n));
      } else if n.localWork < n.criticalChild {
        var c :| SyncExplains(d, parFor, n, v, c);
        UnnamedExplains(d, parFor, v, c, n.criticalChild, n.criticalChild - Sum(CallSites(n)), CallSites(n));
        e, sites := c, CallSites(n);
        AreBelow(d, parFor, v, c, n.criticalChild, n.criticalChild - Sum(CallSites(n)), CallSites(n));
      } else {
        e := MineChain(d, parFor, v, |d|);
        sites := map[];
        UnnamedExplains(d, parFor, v, e, n.localWork, n.localWork, map[]);
        AreBelow(d, parFor, v, e, n.localWork, n.localWork, map[]);
      }
    }
  }

  lemma {:induction false} AreBelow(d: Tree, parFor: map<nat, bool>, v: nat, c: set<nat>, total: int, mine: int, sites: map<nat, int>)
    requires Explains(d, parFor, v, c, total, mine, sites)
    ensures forall a :: a in c ==> Below(d, v, a)
  {
  }

  lemma {:induction false} StepExplains(d: Tree, parFor: map<nat, bool>, v: nat)
    requires Valid(d) && 2 <= v < |d| && d[v].kind == STEP
    ensures Explains(d, parFor, d[v].parent, {v}, d[v].work, d[v].work, map[]) && forall a :: a in {v} ==> Below(d, v, a)
  {
    ParentIsNoStep(d, v);
    BelowItself(d, v);
    BelowItself(d, d[v].parent);
    var q := d[v].parent;
    WeightSingle(d, v, |d|);
    WeightEmpty(d, |d|);
    assert Up(d, parFor, q, q, Mine) == Mine && Up(d, parFor, q, v, Mine) == Mine;
    assert Part(d, parFor, q, {v}, Mine) == {v};
    forall k: nat ensures Part(d, parFor, q, {v}, Site(k)) == {} {
    }
  }

  /** What child `v` adds to the story of an implicit FINISH. */
  lemma {:induction false} SyncTold(d: Tree, parFor: map<nat, bool>, s: seq<AFTask>, done: set<nat>, i: nat, v: nat)
    requires Completing(d, s, done, i, v) && Clean(d) && v > 1 && Sync(d, d[v].parent)
    requires s[v].parent == d[v].parent < v && s[d[v].parent].kind != STEP
    requires Told(d, parFor, s[d[v].parent], d[v].parent, done) && (d[v].kind != STEP ==> Told(d, parFor, s[v], v, done))
    ensures Told(d, parFor, Parent(s[v], s[d[v].parent], parFor), d[v].parent, done + {v})
  {
    hide Spans, Loaded, ParentWorks, MapsReady, Closed, AllIn, FinishOrdered, Valid, Explains, Gathered, Chain, Below, Part, Emits;
    AtCompletion(d, s, done, i, v);
    var q := d[v].parent;
    var n, p := s[v], s[q];
    var r := Parent(n, p, parFor);
    if d[v].kind == STEP {
      StepInto(n, p, parFor);
      SameSync(d, parFor, p, r, q);
    } else if d[v].kind == FINISH {
      QuietIsSync(d, v);
      QuietIsSerial(d, v);
      QuietFinish(n, p, parFor);
      SameSync(d, parFor, p, r, q);
    } else if Takes(n, p) {
      TaskTold(d, parFor, s, done, i, v);
    } else {
      SameSync(d, parFor, p, r, q);
    }
  }

  lemma {:induction false} QuietFinish(n: AFTask, p: AFTask, parFor: map<nat, bool>)
    requires n.kind == FINISH && p.kind != STEP && !n.spRootNWt && n.localWork >= n.criticalChild && n.parent != 0
    requires p.criticalCallSites.Some?
    ensures var r := Parent(n, p, parFor);
            && r.localLocalWork == p.localLocalWork + n.localLocalWork && r.localWork == p.localWork + n.localWork
            && r.criticalCallSites == p.criticalCallSites && r.criticalChild == p.criticalChild
  {
  }

  lemma {:induction false} SameSync(d: Tree, parFor: map<nat, bool>, p: AFTask, r: AFTask, q: nat)
    requires q < |d| && Sync(d, q) && SyncStory(d, parFor, p, q) && r.localLocalWork - p.localLocalWork == r.localWork - p.localWork
    requires r.criticalChild == p.criticalChild && CallSites(r) == CallSites(p)
    ensures SyncStory(d, parFor, r, q)
  {
    hide Explains;
    var c :| SyncExplains(d, parFor, p, q, c);
    assert SyncExplains(d, parFor, r, q, c);
  }

  /** A task takes over: the chain is the serial work before it was spawned, and its own. */
  lemma {:induction false} TaskTold(d: Tree, parFor: map<nat, bool>, s: seq<AFTask>, done: set<nat>, i: nat, v: nat)
    requires Completing(d, s, done, i, v) && Clean(d) && v > 1 && Sync(d, d[v].parent) && d[v].kind == ASYNC
    requires s[v].parent == d[v].parent < v && s[d[v].parent].kind != STEP && Takes(s[v], s[d[v].parent])
    requires SyncStory(d, parFor, s[d[v].parent], d[v].parent) && PlainStory(d, parFor, s[v], v, done)
    ensures SyncStory(d, parFor, Parent(s[v], s[d[v].parent], parFor), d[v].parent)
  {
    hide Spans, Loaded, ParentWorks, MapsReady, Closed, AllIn, FinishOrdered, Valid, Explains, Gathered, Chain, Below, Part, Clean;
    AtCompletion(d, s, done, i, v);
    var q := d[v].parent;
    var n, p := s[v], s[q];
    var r := Parent(n, p, parFor);
    ForkedOf(d);
    PlainIsSerial(d, v);
    AsyncInto(n, p, parFor);
    ParentIsNoStep(d, v);
    var c :| Explains(d, parFor, v, c, n.localWork, n.localLocalWork, CallSites(n)) && Gathered(d, done, v, c);
    AreBelow(d, parFor, v, c, n.localWork, n.localLocalWork, CallSites(n));
    ChainOf(d, parFor, v, c, n.localWork, n.localLocalWork, CallSites(n));
    NamedExplains(d, parFor, v, c, n.localWork, n.localLocalWork, CallSites(n));
    var e := MineChain(d, parFor, q, v);
    var pw := Serial(d, q, v);
    ChainOf(d, parFor, q, e, pw, pw, map[]);
    Extend(d, q, v, e, c);
    Together(d, parFor, q, e, c, pw, pw, map[], n.localWork, 0, Add(CallSites(n), d[v].callSite, n.localLocalWork));
    SameSites(d, parFor, q, e + c, r.criticalChild, pw, Merge(Add(CallSites(n), d[v].callSite, n.localLocalWork), map[]), CallSites(r));
    assert SyncExplains(d, parFor, r, q, e + c);
  }

  // ---- at the end of the pass ----

  lemma {:induction false} FinalStory(d: Tree, parFor: map<nat, bool>, s: seq<AFTask>, done: set<nat>)
    requires Valid(d) && Clean(d) && Story(d, parFor, s, done) && Spans(d, s, done) && AllIn(d, done, 1) && 1 in done
    ensures exists c :: Accounts(d, parFor, c, s[1])
  {
    hide Explains, Gathered, Clean, Chain, OwnedBy, Part;
    ForkedOf(d);
    PlainIsSerial(d, 1);
    DoneAll(d, done, 1, |d|);
    RootIsFinish(d);
    var t := s[1];
    assert Told(d, parFor, t, 1, done);
    var c :| Explains(d, parFor, 1, c, t.localWork, t.localLocalWork, CallSites(t)) && Gathered(d, done, 1, c);
    RootAccounts(d, parFor, c, t);
  }

  lemma {:induction false} RootAccounts(d: Tree, parFor: map<nat, bool>, c: set<nat>, t: AFTask)
    requires Valid(d) && Explains(d, parFor, 1, c, t.localWork, t.localLocalWork, CallSites(t)) && t.localWork == t.criticalChild
    ensures Accounts(d, parFor, c, t)
  {
    hide Chain, OwnedBy, Part, Valid;
    PartIsOwned(d, parFor, c, Mine);
    forall k: nat ensures Weight(d, OwnedBy(d, parFor, c, Site(k)), |d|) == Get(CallSites(t), k) {
      PartIsOwned(d, parFor, c, Site(k));
    }
  }
}
