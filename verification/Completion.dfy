/** One completion of a node, and what the analysis pass has computed once a given set of
    nodes is done. */
module Completion {
  import opened Dpst
  import opened CountMaps

  datatype Option<+T> = None | Some(value: T)

  /** A node of the in-memory graph, profile data included. The shares of the critical path are only
      added and subtracted; they are integers here, of which a size_t holds the value modulo 2^64. */
  datatype AFTask = AFTask(
    spRootNWt: bool,
    parent: nat,
    kind: NodeType,
    numChildren: nat,
    callSite: nat,
    work: nat,
    localWork: nat,
    criticalChild: nat,
    parentWork: nat,
    localLocalWork: int,
    criticalCallSites: Option<map<nat, int>>,
    regionWork: Option<map<nat, nat>>)

  // ---- one completion, as a function of the node and its parent ----

  function CallSites(t: AFTask): map<nat, int> {
    match t.criticalCallSites
    case None => map[]
    case Some(m) => m
  }

  /** Subtraction of unsigned 64-bit words. */
  function SizeSub(a: nat, b: nat): nat {
    if a >= b then a - b else (a - b) % 0x1_0000_0000_0000_0000
  }

  function OwnSpan(n: AFTask): nat {
    Max(n.localWork, n.criticalChild)
  }

  predicate IsParFor(parFor: map<nat, bool>, callSite: nat) {
    callSite in parFor && parFor[callSite]
  }

  /** The call sites a finished node leaves behind; None stands for the null pointer. */
  function OwnCallSites(n: AFTask, parFor: map<nat, bool>): Option<map<nat, int>> {
    if n.kind == ASYNC then Some(Add(CallSites(n), n.callSite, n.localLocalWork))
    else if n.kind != FINISH || n.localWork < n.criticalChild then n.criticalCallSites
    else if n.spRootNWt then
      Some(if IsParFor(parFor, n.callSite) then map[n.callSite := n.localWork]
           else Add(CallSites(n), n.callSite, n.localLocalWork))
    else if n.parent != 0 then None
    else n.criticalCallSites
  }

  /** `n` realises the greatest span of its parent `p` so far. */
  predicate Takes(n: AFTask, p: AFTask) {
    OwnSpan(n) + n.parentWork > p.criticalChild
  }

  /** The fields the pass never writes. */
  predicate SameNode(a: AFTask, b: AFTask) {
    && a.parent == b.parent && a.kind == b.kind && a.callSite == b.callSite && a.spRootNWt == b.spRootNWt
    && a.numChildren == b.numChildren && a.parentWork == b.parentWork && a.regionWork == b.regionWork
    && (a.kind == STEP ==> a.work == b.work)
  }

  function Own(n: AFTask, p: AFTask, parFor: map<nat, bool>): (r: AFTask)
    ensures SameNode(r, n)
  {
    if n.kind == STEP || n.kind == NO_TYPE then n
    else
      n.(criticalChild := OwnSpan(n),
         criticalCallSites := if n.kind == ASYNC && Takes(n, p) then None else OwnCallSites(n, parFor))
  }

  /** What a finished FINISH adds to its parent's own share of the critical path. */
  ghost function LocalShare(n: AFTask): int {
    if n.localWork < n.criticalChild then n.criticalChild - Sum(CallSites(n))
    else if n.spRootNWt || n.parent == 0 then 0
    else n.localLocalWork
  }

  function MergeInto(a: Option<map<nat, int>>, b: Option<map<nat, int>>): Option<map<nat, int>> {
    match (a, b)
    case (Some(x), Some(y)) => Some(Merge(x, y))
    case _ => b
  }

  ghost function Parent(n: AFTask, p: AFTask, parFor: map<nat, bool>): (r: AFTask)
    requires p.kind != STEP
    ensures SameNode(r, p)
  {
    match n.kind
    case STEP =>
      p.(work := p.work + n.work,
         localWork := p.localWork + n.work,
         localLocalWork := p.localLocalWork + n.work)
    case ASYNC =>
      var q := p.(work := p.work + n.work);
      if Takes(n, p) then q.(criticalChild := OwnSpan(n) + n.parentWork, criticalCallSites := OwnCallSites(n, parFor))
      else q
    case FINISH =>
      p.(work := p.work + n.work,
         localWork := p.localWork + OwnSpan(n),
         localLocalWork := p.localLocalWork + LocalShare(n),
         criticalCallSites := if n.parent == 0 then p.criticalCallSites
                              else MergeInto(OwnCallSites(n, parFor), p.criticalCallSites))
    case NO_TYPE => p
  }

  ghost function Completed(s: seq<AFTask>, v: nat, parFor: map<nat, bool>): seq<AFTask>
    requires v < |s| && s[v].parent < |s| && s[s[v].parent].kind != STEP
  {
    var n, p := s[v], s[s[v].parent];
    s[v := Own(n, p, parFor)][n.parent := Parent(n, p, parFor)]
  }

  /** The same for a what-if pass, where only the span is computed and a step weighs `w`. */
  ghost function CompletedRegion(s: seq<AFTask>, v: nat, w: nat): seq<AFTask>
    requires v < |s| && s[v].parent < |s|
  {
    var n, p := s[v], s[s[v].parent];
    match n.kind
    case STEP => s[n.parent := p.(localWork := p.localWork + w)]
    case ASYNC =>
      s[v := n.(criticalChild := OwnSpan(n))]
       [n.parent := if Takes(n, p) then p.(criticalChild := OwnSpan(n) + n.parentWork) else p]
    case FINISH =>
      s[v := n.(criticalChild := OwnSpan(n))][n.parent := p.(localWork := p.localWork + OwnSpan(n))]
    case NO_TYPE => s
  }

  // ---- sums over the children that are done ----

  function Count(d: Tree, v: nat, k: nat): nat
    requires k <= |d|
  {
    if k <= v + 1 then 0 else Count(d, v, k - 1) + if d[k - 1].parent == v then 1 else 0
  }

  ghost function CountDone(d: Tree, done: set<nat>, v: nat, k: nat): nat
    requires k <= |d|
  {
    if k <= v + 1 then 0
    else CountDone(d, done, v, k - 1) + if d[k - 1].parent == v && k - 1 in done then 1 else 0
  }

  ghost function SerialDone(d: Tree, done: set<nat>, v: nat, k: nat): nat
    requires k <= |d|
  {
    if k <= v + 1 then 0
    else SerialDone(d, done, v, k - 1) + if d[k - 1].parent == v && k - 1 in done then Contribution(d, k - 1) else 0
  }

  ghost function WorkDone(d: Tree, done: set<nat>, v: nat, k: nat): nat
    requires k <= |d|
  {
    if k <= v + 1 then 0
    else WorkDone(d, done, v, k - 1) + if d[k - 1].parent == v && k - 1 in done then Work(d, k - 1) else 0
  }

  ghost function AsyncDone(d: Tree, done: set<nat>, v: nat, k: nat): nat
    requires k <= |d|
  {
    if k <= v + 1 then 0
    else Max(AsyncDone(d, done, v, k - 1),
             if d[k - 1].parent == v && d[k - 1].kind == ASYNC && k - 1 in done
             then Serial(d, v, k - 1) + Span(d, k - 1) else 0)
  }

  /** Completing `c` changes the sums of its parent, and of nobody else. */
  lemma {:induction false} DoneAdds(d: Tree, done: set<nat>, c: nat, v: nat, k: nat)
    requires v < |d| && c < |d| && k <= |d| && d[c].parent < c && c !in done
    ensures var mine := d[c].parent == v && c < k;
            && CountDone(d, done + {c}, v, k) == CountDone(d, done, v, k) + (if mine then 1 else 0)
            && SerialDone(d, done + {c}, v, k) == SerialDone(d, done, v, k) + (if mine then Contribution(d, c) else 0)
            && WorkDone(d, done + {c}, v, k) == WorkDone(d, done, v, k) + (if mine then Work(d, c) else 0)
            && AsyncDone(d, done + {c}, v, k)
               == Max(AsyncDone(d, done, v, k),
                      if mine && d[c].kind == ASYNC then Serial(d, v, c) + Span(d, c) else 0)
    decreases k
  {
    if k > v + 1 {
      DoneAdds(d, done, c, v, k - 1);
    }
  }

  lemma {:induction false} DoneNone(d: Tree, v: nat, k: nat)
    requires k <= |d|
    ensures CountDone(d, {}, v, k) == SerialDone(d, {}, v, k) == WorkDone(d, {}, v, k) == AsyncDone(d, {}, v, k) == 0
    decreases k
  {
    if k > v + 1 {
      DoneNone(d, v, k - 1);
    }
  }

  /** Once every child is done the sums are those of the reference definition. */
  lemma {:induction false} DoneAll(d: Tree, done: set<nat>, v: nat, k: nat)
    requires k <= |d|
    requires forall c {:trigger d[c].parent} :: v < c < k && d[c].parent == v ==> c in done
    ensures CountDone(d, done, v, k) == Count(d, v, k)
    ensures SerialDone(d, done, v, k) == Serial(d, v, k)
    ensures WorkDone(d, done, v, k) == ChildWork(d, v, k)
    ensures AsyncDone(d, done, v, k) == AsyncMax(d, v, k)
    decreases k
  {
    if k > v + 1 {
      DoneAll(d, done, v, k - 1);
    }
  }

  /** The children counter detects exactly that every child is done. */
  lemma {:induction false} CountTells(d: Tree, done: set<nat>, v: nat, k: nat)
    requires k <= |d|
    ensures CountDone(d, done, v, k) <= Count(d, v, k)
    ensures CountDone(d, done, v, k) == Count(d, v, k)
            ==> forall c {:trigger d[c].parent} :: v < c < k && d[c].parent == v ==> c in done
    decreases k
  {
    if k > v + 1 {
      CountTells(d, done, v, k - 1);
    }
  }

  /** The serial sum up to child `i` when exactly the serial children before `i` are done. */
  lemma {:induction false} SerialBefore(d: Tree, done: set<nat>, v: nat, i: nat, k: nat)
    requires v < i <= |d| && k <= |d|
    requires forall c {:trigger d[c].parent} :: v < c < |d| && d[c].parent == v && d[c].kind in {STEP, FINISH}
                                              ==> (c in done <==> c < i)
    ensures SerialDone(d, done, v, k) == Serial(d, v, if i < k then i else k)
    decreases k
  {
    if k > v + 1 {
      SerialBefore(d, done, v, i, k - 1);
      assert d[k - 1].kind == NO_TYPE ==> Contribution(d, k - 1) == 0;
    }
  }
}
