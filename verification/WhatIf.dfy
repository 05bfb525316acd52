/** The what-if passes: the span of the same tree after some code regions have been made `p`
    times faster. */
module WhatIf {
  import opened Dpst
  import opened CountMaps
  import opened Completion
  import opened Progress

  // ---- the weight of a step ----

  lemma {:induction false} MulMonotone(a: nat, b: nat, c: nat)
    requires a <= b
    ensures c * a <= c * b
  {
  }

  lemma {:induction false} MulCancel(p: nat, a: nat, c: nat)
    requires p * a < p * c
    ensures a < c
  {
    if a >= c {
      MulMonotone(c, a, p);
    }
  }

  lemma {:induction false} DivMonotone(x: nat, p: nat, q: nat)
    requires 0 < p <= q
    ensures x / q <= x / p <= x
  {
    var a, b := x / q, x / p;
    assert p * a <= q * a by {
      MulMonotone(p, q, a);
    }
    assert p * b <= x < p * (b + 1) && q * a <= x;
    MulCancel(p, a, b + 1);
    assert b <= p * b by {
      MulMonotone(1, p, b);
    }
  }

  /** The work saved when `x` units are sped up by a factor of `p`. */
  function Saving(x: nat, p: nat): nat
    requires p > 0
  {
    DivMonotone(x, p, p);
    x - x / p
  }

  function Savings(m: map<nat, nat>, p: nat): map<nat, nat>
    requires p > 0
  {
    map k | k in m :: Saving(m[k], p)
  }

  /** What a step saves when `region` is optimised; region 0 stands for all of them. */
  ghost function Saved(m: Option<map<nat, nat>>, region: nat, p: nat): nat
    requires p > 0
  {
    match m
    case None => 0
    case Some(rw) =>
      if region == 0 then Sum(Savings(rw, p))
      else Get(Savings(rw, p), region)
  }

  /** The regions of a step account for part of its work at most. */
  ghost predicate RegionsFit(t: AFTask) {
    t.regionWork.Some? ==> Sum(t.regionWork.value) <= t.work
  }

  lemma {:induction false} SumMonotone(a: map<nat, nat>, b: map<nat, nat>)
    requires forall k {:trigger k in a} :: k in a ==> k in b && a[k] <= b[k]
    ensures Sum(a) <= Sum(b)
    decreases |a|
  {
    if a != map[] {
      var k :| k in a;
      SizeRemove(a, k);
      SumRemove(a, k);
      SumRemove(b, k);
      SumMonotone(a - {k}, b - {k});
    }
  }

  /** No subtraction underflows; a faster region saves at least as much; all regions together
      save at least as much as one. */
  lemma {:induction false} SavedBounds(t: AFTask, region: nat, p: nat, q: nat)
    requires RegionsFit(t) && 0 < p <= q
    ensures Saved(t.regionWork, region, p) <= Saved(t.regionWork, region, q) <= t.work
    ensures Saved(t.regionWork, region, q) <= Saved(t.regionWork, 0, q)
  {
    if t.regionWork.Some? {
      var rw := t.regionWork.value;
      forall k | k in rw ensures rw[k] / q <= rw[k] / p <= rw[k] {
        DivMonotone(rw[k], p, q);
      }
      SumMonotone(Savings(rw, p), Savings(rw, q));
      SumMonotone(Savings(rw, q), rw);
      if region in rw {
        SumRemove(Savings(rw, p), region);
        SumRemove(Savings(rw, q), region);
      }
    }
  }

  /** `q` is the work that `x` units of work take when they are done `p` times faster. */
  predicate Faster(x: int, p: nat, q: nat) {
    p * q <= x < p * (q + 1)
  }

  /** The weight `e` of a step with work `w`: in place of `x` units of work, `q` are counted. */
  ghost predicate SpedUp(w: nat, x: int, p: nat, e: nat) {
    exists q: nat :: Faster(x, p, q) && e + x == w + q
  }

  /** The same for all regions of a step. */
  ghost predicate AllSpedUp(w: nat, rw: map<nat, nat>, p: nat, e: nat) {
    exists qs: map<nat, nat> :: Quotients(rw, p, qs) && e + Sum(rw) == w + Sum(qs)
  }

  ghost predicate Quotients(rw: map<nat, nat>, p: nat, qs: map<nat, nat>) {
    qs.Keys == rw.Keys && forall k {:trigger qs[k]} :: k in qs ==> Faster(rw[k], p, qs[k])
  }

  lemma {:induction false} SavingIs(x: nat, p: nat) returns (q: nat)
    requires p > 0
    ensures Faster(x, p, q) && Saving(x, p) + q == x
  {
    q := x / p;
  }

  lemma {:induction false} SavingsAre(rw: map<nat, nat>, p: nat) returns (qs: map<nat, nat>)
    requires p > 0
    ensures Quotients(rw, p, qs) && Sum(Savings(rw, p)) + Sum(qs) == Sum(rw)
    decreases |rw|
  {
    hide Saving, Faster;
    if rw == map[] {
      qs := map[];
      assert Savings(rw, p) == map[];
    } else {
      var k :| k in rw;
      SizeRemove(rw, k);
      var q := SavingIs(rw[k], p);
      var rest := SavingsAre(rw - {k}, p);
      qs := rest[k := q];
      assert qs - {k} == rest && Savings(rw, p) - {k} == Savings(rw - {k}, p);
      SumRemove(rw, k);
      SumRemove(qs, k);
      SumRemove(Savings(rw, p), k);
    }
  }

  // ---- the tree with the reduced weights ----

  ghost function StepWeight(t: AFTask, region: nat, p: nat): nat
    requires p > 0
  {
    SizeSub(t.work, Saved(t.regionWork, region, p))
  }

  function RegionMap(rw: Option<map<nat, nat>>): map<nat, nat> {
    if rw.Some? then rw.value else map[]
  }

  /** The weight that a what-if pass gives to a step whose regions account for part of its work. */
  lemma {:induction false} WeightLaw(t: AFTask, region: nat, p: nat)
    requires RegionsFit(t) && p > 0
    ensures region != 0 ==> SpedUp(t.work, Get(RegionMap(t.regionWork), region), p, StepWeight(t, region, p))
    ensures region == 0 ==> AllSpedUp(t.work, RegionMap(t.regionWork), p, StepWeight(t, region, p))
    ensures p == 1 ==> StepWeight(t, region, p) == t.work
  {
    hide Saving, Faster;
    NoUnderflow(t, region, p);
    var rw, e := RegionMap(t.regionWork), StepWeight(t, region, p);
    if region != 0 {
      var q := SavingIs(Get(rw, region), p);
      NothingSaved(p);
      assert e + Get(rw, region) == t.work + q;
      if p == 1 {
        FactorOne(Get(rw, region), q);
      }
    } else {
      var qs := SavingsAre(rw, p);
      NoSavings(p);
      assert e + Sum(rw) == t.work + Sum(qs);
      if p == 1 {
        forall k | k in qs ensures qs[k] == rw[k] {
          FactorOne(rw[k], qs[k]);
        }
        assert qs == rw;
      }
    }
  }

  lemma {:induction false} FactorOne(x: int, q: nat)
    requires Faster(x, 1, q)
    ensures q == x
  {
  }

  lemma {:induction false} NothingSaved(p: nat)
    requires p > 0
    ensures Saving(0, p) == 0
  {
  }

  lemma {:induction false} NoSavings(p: nat)
    requires p > 0
    ensures Sum(Savings(map[], p)) == 0
  {
    assert Savings(map[], p) == map[];
  }

  /** The tree `d`, with the work of its steps reduced. */
  ghost function Optimised(d: Tree, s: seq<AFTask>, region: nat, p: nat): (e: Tree)
    requires p > 0 && |d| <= |s|
    ensures |e| == |d|
  {
    seq(|d|, i requires 0 <= i < |d| => if d[i].kind == STEP then d[i].(work := StepWeight(s[i], region, p)) else d[i])
  }

  lemma {:induction false} SameCount(d: Tree, e: Tree, v: nat, k: nat)
    requires SameShape(d, e) && k <= |d|
    ensures Count(d, v, k) == Count(e, v, k)
    decreases k
  {
    if k > v + 1 {
      SameCount(d, e, v, k - 1);
    }
  }

  // ---- the span is monotone in the weights ----

  ghost predicate Lighter(e: Tree, d: Tree) {
    SameShape(d, e) && forall i {:trigger d[i]} {:trigger e[i]} :: 0 <= i < |d| ==> e[i].work <= d[i].work
  }

  lemma {:induction false} SpanMonotone(d: Tree, e: Tree, v: nat)
    requires Lighter(e, d) && v < |d|
    ensures Span(e, v) <= Span(d, v)
    decreases |d| - v, |d| + 1
  {
    assert e[v].kind == d[v].kind;
    if d[v].kind != STEP {
      SumsMonotone(d, e, v, |d|);
    }
  }

  lemma {:induction false} SumsMonotone(d: Tree, e: Tree, v: nat, k: nat)
    requires Lighter(e, d) && k <= |d|
    ensures Serial(e, v, k) <= Serial(d, v, k) && AsyncMax(e, v, k) <= AsyncMax(d, v, k)
    decreases |d| - v, k
  {
    if k > v + 1 {
      SumsMonotone(d, e, v, k - 1);
      SpanMonotone(d, e, k - 1);
      assert e[k - 1] == d[k - 1].(work := e[k - 1].work);
    }
  }

  ghost predicate AllFit(d: Tree, s: seq<AFTask>) {
    && |d| <= |s|
    && forall i {:trigger s[i]} :: 0 <= i < |d| && d[i].kind == STEP ==> RegionsFit(s[i]) && s[i].work == d[i].work
  }

  /** What optimising `region` by `p` predicts never exceeds the measured span, does not get
      worse as `p` grows to `q`, and is never better than optimising all regions. */
  lemma {:induction false} Prediction(d: Tree, s: seq<AFTask>, region: nat, p: nat, q: nat)
    requires AllFit(d, s) && 0 < p <= q && |d| > 1
    ensures Span(Optimised(d, s, 0, q), 1) <= Span(Optimised(d, s, region, q), 1)
         <= Span(Optimised(d, s, region, p), 1) <= Span(d, 1)
  {
    var all, e, f := Optimised(d, s, 0, q), Optimised(d, s, region, q), Optimised(d, s, region, p);
    forall i | 0 <= i < |d| && d[i].kind == STEP ensures all[i].work <= e[i].work <= f[i].work <= d[i].work {
      SavedBounds(s[i], region, p, q);
      SavedBounds(s[i], 0, q, q);
      SavedBounds(s[i], region, p, p);
    }
    SpanMonotone(e, all, 1);
    SpanMonotone(f, e, 1);
    SpanMonotone(d, f, 1);
  }

  /** Regions logged inside a step never make its weight wrap around. */
  lemma {:induction false} NoUnderflow(t: AFTask, region: nat, p: nat)
    requires RegionsFit(t) && p > 0
    ensures StepWeight(t, region, p) + Saved(t.regionWork, region, p) == t.work
  {
    SavedBounds(t, region, p, p);
  }

  // ---- the invariant of a what-if pass ----

  /** As for the first pass, but for the span alone; `e` is the tree with the reduced weights. */
  ghost predicate RegionInv(e: Tree, s: seq<AFTask>, processed: seq<nat>, done: set<nat>, i: nat, x: nat, c: nat) {
    && Linked(e, s)
    && Spans(e, s, done)
    && ParentWorks(e, s, i)
    && Closed(e, done, i, x)
    && Counted(e, processed, done, c)
  }

  ghost predicate Weighs(e: Tree, s: seq<AFTask>, region: nat, p: nat)
    requires p > 0
  {
    && |e| <= |s|
    && forall v {:trigger s[v]} :: 1 <= v < |e| && e[v].kind == STEP
         ==> RegionsFit(s[v]) && e[v].work == StepWeight(s[v], region, p)
  }

  /** Only the three span fields may differ. */
  ghost predicate SpanFieldsOnly(s: seq<AFTask>, t: seq<AFTask>) {
    && |t| == |s|
    && forall u {:trigger t[u]} :: 0 <= u < |s| ==>
         t[u] == s[u].(localWork := t[u].localWork, criticalChild := t[u].criticalChild, parentWork := t[u].parentWork)
  }

  lemma {:induction false} ParentBelow(e: Tree, v: nat)
    requires Valid(e) && 1 <= v < |e|
    ensures e[v].parent < v
  {
  }

  lemma {:induction false} OnlyStepsWeigh(s: seq<AFTask>, v: nat, w: nat, x: nat)
    requires v < |s| && s[v].parent < |s| && s[v].kind != STEP
    ensures CompletedRegion(s, v, w) == CompletedRegion(s, v, x)
  {
  }

  lemma {:induction false} KeepRegionInv(e: Tree, s: seq<AFTask>, processed: seq<nat>, done: set<nat>, i: nat, v: nat)
    requires Valid(e) && RegionInv(e, s, processed, done, i, v, 0) && 1 <= v < i && v < |e|
    requires v !in done && AllIn(e, done, v)
    ensures s[v].parent == e[v].parent
    ensures RegionInv(e, CompletedRegion(s, v, e[v].work), processed, done + {v}, i, e[v].parent, e[v].parent)
    ensures e[v].parent !in done + {v} && (e[v].parent >= 1 ==> e[e[v].parent].kind != STEP)
    ensures SpanFieldsOnly(s, CompletedRegion(s, v, e[v].work)) && s[v].kind == e[v].kind
  {
    var t := CompletedRegion(s, v, e[v].work);
    ParentIsInner(e, s, v);
    NotBeforeChild(e, done, i, v);
    RegionSpanStep(e, s, v);
    KeepSpans(e, s, t, done, v);
    KeepClosed(e, done, i, v);
    KeepCounted(e, processed, done, v);
  }

  lemma {:induction false} RegionSpanStep(e: Tree, s: seq<AFTask>, v: nat)
    requires Linked(e, s) && 1 <= v < |e| && s[v].parent == e[v].parent < v && e[v].kind != NO_TYPE
    ensures SpanStep(e, s, CompletedRegion(s, v, e[v].work), v)
    ensures Linked(e, CompletedRegion(s, v, e[v].work))
    ensures SpanFieldsOnly(s, CompletedRegion(s, v, e[v].work))
    ensures forall u {:trigger CompletedRegion(s, v, e[v].work)[u]} :: 0 <= u < |s|
              ==> CompletedRegion(s, v, e[v].work)[u].parentWork == s[u].parentWork
  {
    assert s[v].kind == e[v].kind;
  }

  lemma {:induction false} RegionBump(e: Tree, s: seq<AFTask>, processed: seq<nat>, done: set<nat>, i: nat, p: nat)
    requires RegionInv(e, s, processed, done, i, p, p) && 1 <= p < |e| && p !in done
    ensures var bumped := processed[p := processed[p] + 1];
            && RegionInv(e, s, bumped, done, i, p, 0)
            && (bumped[p] == s[p].numChildren ==> AllIn(e, done, p))
            && (bumped[p] != s[p].numChildren ==> RegionInv(e, s, bumped, done, i, 0, 0))
  {
    CountTells(e, done, p, |e|);
    assert s[p].numChildren == Count(e, p, |e|);
    if AllIn(e, done, p) {
      DoneAll(e, done, p, |e|);
    }
  }

  lemma {:induction false} RegionLeafTest(e: Tree, s: seq<AFTask>, processed: seq<nat>, done: set<nat>, i: nat)
    requires Valid(e) && RegionInv(e, s, processed, done, i, 0, 0) && 1 <= i < |e|
    ensures i !in done && s[i].kind == e[i].kind && s[i].parent == e[i].parent < i
    ensures s[i].numChildren == processed[i] <==> e[i].kind == STEP
    ensures if e[i].kind == STEP then AllIn(e, done, i) && RegionInv(e, s, processed, done, i + 1, i, 0)
            else !AllIn(e, done, i)
  {
    assert s[i].kind == e[i].kind;
    ParentIsInner(e, s, i);
    if e[i].kind == STEP {
      assert AllIn(e, done, i);
      DoneAll(e, done, i, |e|);
    } else {
      var c :| i < c < |e| && e[c].parent == i;
      assert c !in done;
      CountTells(e, done, i, |e|);
    }
  }

  function RegionVisited(s: seq<AFTask>, i: nat): seq<AFTask>
    requires i < |s| && s[i].parent < |s|
  {
    if s[i].kind == ASYNC then s[i := s[i].(parentWork := s[s[i].parent].localWork)] else s
  }

  lemma {:induction false} RegionVisit(e: Tree, s: seq<AFTask>, processed: seq<nat>, done: set<nat>, i: nat)
    requires Valid(e) && FinishOrdered(e) && RegionInv(e, s, processed, done, i, 0, 0)
    requires 1 <= i < |e| && e[i].kind != STEP && !AllIn(e, done, i) && s[i].parent == e[i].parent < i
    ensures RegionInv(e, RegionVisited(s, i), processed, done, i + 1, 0, 0)
    ensures SpanFieldsOnly(s, RegionVisited(s, i))
  {
    assert s[i].kind == e[i].kind;
    assert i !in done;
    hide Spans, Linked, ParentWorks, Counted, FinishOrdered, Valid;
    RegionParentWorks(e, s, done, i);
    RegionVisitFrame(e, s, done, i);
  }

  lemma {:induction false} RegionVisitFrame(e: Tree, s: seq<AFTask>, done: set<nat>, i: nat)
    requires 1 <= i < |e| <= |s| && s[i].parent < i
    ensures Linked(e, s) ==> Linked(e, RegionVisited(s, i))
    ensures Spans(e, s, done) ==> Spans(e, RegionVisited(s, i), done)
    ensures SpanFieldsOnly(s, RegionVisited(s, i))
  {
  }

  lemma {:induction false} RegionParentWorks(e: Tree, s: seq<AFTask>, done: set<nat>, i: nat)
    requires Valid(e) && FinishOrdered(e) && Closed(e, done, i, 0) && Spans(e, s, done) && ParentWorks(e, s, i)
    requires 1 <= i < |e| && s[i].parent == e[i].parent < i && s[i].kind == e[i].kind
    ensures ParentWorks(e, RegionVisited(s, i), i + 1)
  {
    if e[i].kind == ASYNC {
      SpawnTimeWork(e, s, done, i);
    }
  }

  /** The span fields of the inner nodes numbered below `k` are zero. */
  ghost predicate Cleared(s: seq<AFTask>, k: nat) {
    forall v {:trigger s[v]} :: 1 <= v < k && v < |s| && s[v].kind != STEP ==>
      s[v].localWork == s[v].criticalChild == s[v].parentWork == 0
  }

  lemma {:induction false} RegionStart(e: Tree, s: seq<AFTask>, processed: seq<nat>)
    requires Valid(e) && Linked(e, s) && |processed| == |e| && forall v :: 0 <= v < |e| ==> processed[v] == 0
    requires Cleared(s, |e|)
    ensures RegionInv(e, s, processed, {}, 1, 0, 0)
  {
    forall v: nat | 1 <= v < |e|
      ensures CountDone(e, {}, v, |e|) == SerialDone(e, {}, v, |e|) == AsyncDone(e, {}, v, |e|) == 0
    {
      DoneNone(e, v, |e|);
    }
  }

  lemma {:induction false} RegionFinal(e: Tree, s: seq<AFTask>, processed: seq<nat>, done: set<nat>)
    requires Valid(e) && RegionInv(e, s, processed, done, |e|, 0, 0)
    ensures s[1].criticalChild == Span(e, 1)
  {
    EverythingDone(e, done, 1);
  }

  lemma {:induction false} SpanFieldsRefl(s: seq<AFTask>)
    ensures SpanFieldsOnly(s, s)
  {
  }

  lemma {:induction false} SpanFieldsTrans(s: seq<AFTask>, t: seq<AFTask>, u: seq<AFTask>)
    requires SpanFieldsOnly(s, t) && SpanFieldsOnly(t, u)
    ensures SpanFieldsOnly(s, u)
  {
  }

  lemma {:induction false} KeepWeighs(e: Tree, s: seq<AFTask>, t: seq<AFTask>, region: nat, p: nat)
    requires p > 0 && SpanFieldsOnly(s, t) && Weighs(e, s, region, p)
    ensures Weighs(e, t, region, p)
  {
  }

  lemma {:induction false} OptimisedLinked(d: Tree, s: seq<AFTask>, t: seq<AFTask>, region: nat, p: nat)
    requires p > 0 && SpanFieldsOnly(s, t) && Linked(d, s) && AllFit(d, s)
    ensures Linked(Optimised(d, s, region, p), t) && Weighs(Optimised(d, s, region, p), t, region, p)
  {
    var e := Optimised(d, s, region, p);
    forall i: nat | 1 <= i < |e| ensures Count(e, i, |e|) == Count(d, i, |d|) {
      SameCount(d, e, i, |d|);
    }
  }

  /** The reduced tree is as well formed as the original, and the cleared graph fits it. */
  lemma {:induction false} RegionPrepare(d: Tree, s: seq<AFTask>, t: seq<AFTask>, processed: seq<nat>, region: nat, p: nat)
    requires p > 0 && Valid(d) && FinishOrdered(d) && Linked(d, s) && AllFit(d, s)
    requires SpanFieldsOnly(s, t) && Cleared(t, |d|)
    requires |processed| == |d| && forall v :: 0 <= v < |d| ==> processed[v] == 0
    ensures var e := Optimised(d, s, region, p);
            Valid(e) && FinishOrdered(e) && RegionInv(e, t, processed, {}, 1, 0, 0) && Weighs(e, t, region, p)
  {
    var e := Optimised(d, s, region, p);
    SameValid(d, e);
    SameOrdered(d, e);
    OptimisedLinked(d, s, t, region, p);
    RegionStart(e, t, processed);
  }
}
