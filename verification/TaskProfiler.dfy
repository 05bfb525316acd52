/** The analysis phase: one pass over the nodes in id order that computes work, span and the
    share of every call site in the critical path, by updating parents in place. */
module TaskProfiler {
  import opened Dpst
  import opened CountMaps
  import opened Completion
  import opened Progress
  import opened Attribution
  import opened Pass
  import opened Sites
  import opened WhatIf

  /** Every call site of an explicit FINISH is in the call-site file. */
  ghost predicate Known(d: Tree, parFor: map<nat, bool>) {
    forall v {:trigger d[v].callSite} :: 1 <= v < |d| && d[v].kind == FINISH && d[v].callSite != 0 ==> d[v].callSite in parFor
  }

  /** What CalculateWorkSpan may rely on when the last child of `v` is done. */
  ghost predicate Ready(s: seq<AFTask>, v: nat, parFor: map<nat, bool>) {
    && 1 <= v < |s| && s[v].parent < v && s[s[v].parent].kind != STEP
    && (s[v].kind in {ASYNC, FINISH} ==> s[v].criticalCallSites.Some?)
    && (s[v].parent != 0 ==> s[s[v].parent].criticalCallSites.Some?)
    && (s[v].spRootNWt ==> s[v].callSite in parFor)
    && (s[v].kind == ASYNC ==> s[v].parent != 0)
  }

  lemma {:induction false} MidReady(d: Tree, s: seq<AFTask>, order: seq<nat>, i: nat, v: nat, parFor: map<nat, bool>)
    requires Valid(d) && Known(d, parFor) && Mid(d, parFor, s, order, i, v) && 1 <= v < i && v < |d|
    requires v !in order
    ensures Ready(s, v, parFor) && s[v].parent == d[v].parent
  {
    hide Shared, Forked, Spans, Works, ParentWorks, Topological;
    ParentIsInner(d, s, v);
    NotBeforeChild(d, Elems(order), i, v);
    assert s[v].kind == d[v].kind;
    assert d[v].callSite == s[v].callSite;
  }

  /** The counter of `p` is bumped: it tells whether `p` itself is now complete. */
  lemma {:induction false} Bump(d: Tree, s: seq<AFTask>, processed: seq<nat>, done: set<nat>, p: nat)
    requires Linked(d, s) && Counted(d, processed, done, p) && 1 <= p < |d|
    ensures var bumped := processed[p := processed[p] + 1];
            Counted(d, bumped, done, 0) && (bumped[p] == s[p].numChildren <==> AllIn(d, done, p))
  {
    CountTells(d, done, p, |d|);
    assert s[p].numChildren == Count(d, p, |d|);
    if AllIn(d, done, p) {
      DoneAll(d, done, p, |d|);
    }
  }

  /** At the time node `i` is visited, its counter tells whether it is a step. */
  lemma {:induction false} LeafTest(d: Tree, parFor: map<nat, bool>, s: seq<AFTask>, processed: seq<nat>, order: seq<nat>, i: nat)
    requires Valid(d) && Mid(d, parFor, s, order, i, 0) && Counted(d, processed, Elems(order), 0) && 1 <= i < |d|
    ensures s[i].kind == d[i].kind && s[i].parent == d[i].parent < i
    ensures s[i].numChildren == processed[i] <==> d[i].kind == STEP
  {
    hide Shared, Forked, Spans, Works, ParentWorks, Topological, MapsReady, Valid;
    var done := Elems(order);
    ParentIsInner(d, s, i);
    assert s[i].kind == d[i].kind && s[i].numChildren == Count(d, i, |d|);
    CountTells(d, done, i, |d|);
    if d[i].kind == STEP {
      VisitStep(d, parFor, s, order, i);
      DoneAll(d, done, i, |d|);
    } else {
      ChildNotDone(d, done, i);
    }
  }

  lemma {:induction false} NoneCounted(d: Tree, processed: seq<nat>)
    requires |processed| == |d| && forall v :: 0 <= v < |d| ==> processed[v] == 0
    ensures Counted(d, processed, Elems([]), 0)
  {
    assert Elems([]) == {};
    forall v: nat | 1 <= v < |d| ensures CountDone(d, {}, v, |d|) == 0 {
      DoneNone(d, v, |d|);
    }
  }

  lemma {:induction false} MidLinked(d: Tree, parFor: map<nat, bool>, s: seq<AFTask>, order: seq<nat>, i: nat, e: nat)
    requires Mid(d, parFor, s, order, i, e)
    ensures Linked(d, s) && forall v {:trigger s[v]} :: 1 <= v < |d| ==> s[v].parent == d[v].parent
  {
    hide Shared, Forked, Spans, Works, ParentWorks, Topological, MapsReady, Closed;
  }

  lemma {:induction false} ReadySize(s: seq<AFTask>, v: nat, parFor: map<nat, bool>)
    requires Ready(s, v, parFor)
    ensures v < |s| && s[v].parent < |s| && s[s[v].parent].kind != STEP
  {
  }

  lemma {:induction false} RootProfile(d: Tree, s: seq<AFTask>)
    requires Valid(d) && Profiled(d, s)
    ensures |s| > 1 && s[1].work == Work(d, 1) && s[1].criticalChild == Span(d, 1)
  {
    assert d[1].kind == FINISH;
  }

  class TaskProfiler {
    const parFor: map<nat, bool>
    const nodes: array<AFTask>
    const lastAllocatedNode: nat
    ghost var order: seq<nat>

    constructor (nodes: array<AFTask>, lastAllocatedNode: nat, parFor: map<nat, bool>)
      ensures this.nodes == nodes && this.lastAllocatedNode == lastAllocatedNode && this.parFor == parFor && order == []
    {
      this.nodes, this.lastAllocatedNode, this.parFor := nodes, lastAllocatedNode, parFor;
      order := [];
    }

    method SumOf(m: map<nat, int>) returns (sum: int)
      ensures sum == Sum(m)
    {
      sum := 0;
      var rest := m;
      while rest != map[]
        invariant sum + Sum(rest) == Sum(m)
        decreases |rest|
      {
        var k :| k in rest;
        SumRemove(rest, k);
        SizeRemove(rest, k);
        sum := sum + rest[k];
        rest := rest - {k};
      }
    }

    method InsertCsData(m: map<nat, int>, callSite: nat, localLocalWork: int) returns (r: map<nat, int>)
      ensures r == Add(m, callSite, localLocalWork)
    {
      if callSite in m {
        r := m[callSite := m[callSite] + localLocalWork];
      } else {
        r := m[callSite := localLocalWork];
      }
    }

    method MergeCriticalCallSites(source: map<nat, int>, dest: map<nat, int>) returns (r: map<nat, int>)
      ensures r == Merge(source, dest)
    {
      r := dest;
      var keys := source.Keys;
      while keys != {}
        invariant keys <= source.Keys
        invariant r.Keys == dest.Keys + (source.Keys - keys)
        invariant forall k {:trigger r[k]} :: k in r ==> r[k] == if k in keys then dest[k] else Get(source, k) + Get(dest, k)
      {
        var k :| k in keys;
        if k in r {
          r := r[k := r[k] + source[k]];
        } else {
          r := r[k := source[k]];
        }
        keys := keys - {k};
      }
    }

    method CalculateWorkSpan(v: nat)
      requires Ready(nodes[..], v, parFor)
      modifies nodes
      ensures nodes[..] == Completed(old(nodes[..]), v, parFor)
    {
      hide Merge, Add, Sum, SizeSub;
      var p := nodes[v].parent;
      if nodes[v].kind == STEP {
        nodes[p] := nodes[p].(work := nodes[p].work + nodes[v].work,
                              localWork := nodes[p].localWork + nodes[v].work,
                              localLocalWork := nodes[p].localLocalWork + nodes[v].work);
      } else if nodes[v].kind == ASYNC {
        nodes[p] := nodes[p].(work := nodes[p].work + nodes[v].work);
        CloseAsync(v);
      } else if nodes[v].kind == FINISH {
        nodes[p] := nodes[p].(work := nodes[p].work + nodes[v].work);
        CloseFinish(v);
        nodes[p] := nodes[p].(localWork := nodes[p].localWork + nodes[v].criticalChild);
        if nodes[v].parent != 0 && nodes[v].criticalCallSites.Some? {
          var m := MergeCriticalCallSites(nodes[v].criticalCallSites.value, nodes[p].criticalCallSites.value);
          nodes[p] := nodes[p].(criticalCallSites := Some(m));
        }
      }
    }

    /** The ASYNC part of CalculateWorkSpan: the span of the subtree, and the hand-over of its call
        sites if it realises the greatest span of its parent so far. */
    method CloseAsync(v: nat)
      requires 1 <= v < nodes.Length && nodes[v].parent < v
      requires nodes[v].kind == ASYNC && nodes[v].criticalCallSites.Some?
      modifies nodes
      ensures var n, p := old(nodes[v]), old(nodes[nodes[v].parent]);
              && nodes[v] == Own(n, p, parFor)
              && nodes[n.parent] == if Takes(n, p) then p.(criticalChild := OwnSpan(n) + n.parentWork,
                                                           criticalCallSites := OwnCallSites(n, parFor)) else p
      ensures forall u :: 0 <= u < nodes.Length && u != v && u != old(nodes[v]).parent ==> nodes[u] == old(nodes[u])
    {
      hide Add;
      var p := nodes[v].parent;
      if nodes[v].localWork >= nodes[v].criticalChild {
        nodes[v] := nodes[v].(criticalChild := nodes[v].localWork);
      }
      var m := InsertCsData(nodes[v].criticalCallSites.value, nodes[v].callSite, nodes[v].localLocalWork);
      nodes[v] := nodes[v].(criticalCallSites := Some(m));
      if nodes[v].criticalChild + nodes[v].parentWork > nodes[p].criticalChild {
        nodes[p] := nodes[p].(criticalChild := nodes[v].criticalChild + nodes[v].parentWork,
                              criticalCallSites := nodes[v].criticalCallSites);
        nodes[v] := nodes[v].(criticalCallSites := None);
      }
    }

    /** The FINISH part of CalculateWorkSpan: the span of the subtree, and the share of the
        critical path that goes to the parent rather than to a call site. */
    method CloseFinish(v: nat)
      requires 1 <= v < nodes.Length && nodes[v].parent < v
      requires nodes[v].kind == FINISH && nodes[v].criticalCallSites.Some?
      requires nodes[v].spRootNWt ==> nodes[v].callSite in parFor
      modifies nodes
      ensures nodes[v] == old(nodes[v]).(criticalChild := OwnSpan(old(nodes[v])),
                                         criticalCallSites := OwnCallSites(old(nodes[v]), parFor))
      ensures nodes[nodes[v].parent] == old(nodes[nodes[v].parent]).(
                localLocalWork := old(nodes[nodes[v].parent]).localLocalWork + LocalShare(old(nodes[v])))
      ensures forall u :: 0 <= u < nodes.Length && u != v && u != nodes[v].parent ==> nodes[u] == old(nodes[u])
    {
      var p := nodes[v].parent;
      if nodes[v].localWork >= nodes[v].criticalChild {
        nodes[v] := nodes[v].(criticalChild := nodes[v].localWork);
        if nodes[v].spRootNWt {
          if parFor[nodes[v].callSite] {
            nodes[v] := nodes[v].(criticalCallSites := Some(map[]));
            var m := InsertCsData(map[], nodes[v].callSite, nodes[v].criticalChild);
            nodes[v] := nodes[v].(criticalCallSites := Some(m));
          } else {
            var m := InsertCsData(nodes[v].criticalCallSites.value, nodes[v].callSite, nodes[v].localLocalWork);
            nodes[v] := nodes[v].(criticalCallSites := Some(m));
          }
        } else if nodes[v].parent != 0 {
          nodes[v] := nodes[v].(criticalCallSites := None);
          nodes[p] := nodes[p].(localLocalWork := nodes[p].localLocalWork + nodes[v].localLocalWork);
        }
      } else {
        var sum := SumOf(nodes[v].criticalCallSites.value);
        nodes[p] := nodes[p].(localLocalWork := nodes[p].localLocalWork + (nodes[v].criticalChild - sum));
      }
    }

    method CheckUpdateParentWorkSpan(p: nat, numProcessed: array<nat>, ghost d: Tree, ghost i: nat)
      requires Valid(d) && Known(d, parFor) && 1 <= p < i <= |d| && d[p].kind != STEP
      requires |d| <= nodes.Length && |d| <= numProcessed.Length
      requires Mid(d, parFor, nodes[..], order, i, p) && p !in order && Counted(d, numProcessed[..], Elems(order), p)
      modifies nodes, numProcessed, `order
      ensures Snapshot(nodes[..], order) == Climb(d, parFor, Snapshot(old(nodes[..]), old(order)), i, p)
      ensures Counted(d, numProcessed[..], Elems(order), 0)
      decreases p
    {
      hide Mid, Counted, AllIn, Valid, Known, Completed, Ready;
      MidLinked(d, parFor, nodes[..], order, i, p);
      Bump(d, nodes[..], numProcessed[..], Elems(order), p);
      numProcessed[p] := numProcessed[p] + 1;
      if nodes[p].numChildren == numProcessed[p] {
        MidReady(d, nodes[..], order, i, p, parFor);
        KeepMid(d, parFor, nodes[..], order, i, p);
        KeepCounted(d, numProcessed[..], Elems(order), p);
        ReadySize(nodes[..], p, parFor);
        CalculateWorkSpan(p);
        order := order + [p];
        MidLinked(d, parFor, nodes[..], order, i, d[p].parent);
        if nodes[p].parent != 0 {
          ParentInner(d, p);
          CheckUpdateParentWorkSpan(nodes[p].parent, numProcessed, d, i);
        }
      }
    }

    /** The body of the loop of CalculateRecurse. */
    method VisitNode(i: nat, numProcessed: array<nat>, ghost d: Tree)
      requires Valid(d) && FinishOrdered(d) && Known(d, parFor) && 1 <= i < |d| <= nodes.Length
      requires |d| <= numProcessed.Length
      requires Mid(d, parFor, nodes[..], order, i, 0) && Counted(d, numProcessed[..], Elems(order), 0)
      modifies nodes, numProcessed, `order
      ensures Snapshot(nodes[..], order) == Visit(d, parFor, Snapshot(old(nodes[..]), old(order)), i)
      ensures Counted(d, numProcessed[..], Elems(order), 0)
    {
      hide Mid, Counted, AllIn, Valid, Known, Completed, Ready, FinishOrdered;
      LeafTest(d, parFor, nodes[..], numProcessed[..], order, i);
      ghost var s := nodes[..];
      if nodes[i].numChildren == numProcessed[i] {
        VisitStep(d, parFor, nodes[..], order, i);
        MidReady(d, nodes[..], order, i + 1, i, parFor);
        KeepMid(d, parFor, nodes[..], order, i + 1, i);
        KeepCounted(d, numProcessed[..], Elems(order), i);
        ReadySize(nodes[..], i, parFor);
        CalculateWorkSpan(i);
        order := order + [i];
        MidLinked(d, parFor, nodes[..], order, i + 1, d[i].parent);
        CheckUpdateParentWorkSpan(nodes[i].parent, numProcessed, d, i + 1);
      } else {
        VisitMid(d, parFor, nodes[..], order, i);
        nodes[i] := nodes[i].(criticalCallSites := Some(map[]));
        if nodes[i].kind == ASYNC {
          nodes[i] := nodes[i].(parentWork := nodes[nodes[i].parent].localWork);
        }
        assert nodes[..] == Visited(s, i);
      }
    }

    /** The pass of GenerateProfile: it computes what the function does, so that the work of the root is
        the work of all steps, its span is the span of the tree, and its own share and the call sites
        make up exactly that span unless a FINISH drops some of it. If no FINISH drops anything, there is
        a critical path whose steps account for every single share. */
    method CalculateRecurse(ghost d: Tree)
      requires Valid(d) && FinishOrdered(d) && Known(d, parFor)
      requires |d| == lastAllocatedNode + 1 <= nodes.Length && Fresh(d, nodes[..])
      modifies nodes, `order
      ensures Snapshot(nodes[..], order) == PassTo(d, parFor, old(nodes[..]), |d|)
      ensures Loaded(d, nodes[..]) && Profiled(d, nodes[..]) && SameRegions(old(nodes[..]), nodes[..])
      ensures nodes[1].work == StepWork(d, 1) && nodes[1].criticalChild == Span(d, 1)
      ensures Topological(d, order) && forall v :: v in order <==> 1 <= v < |d|
      ensures Forked(d) && !Lossy(d, parFor) ==> nodes[1].localLocalWork + Sum(CallSites(nodes[1])) == nodes[1].criticalChild
      ensures Forked(d) && !Overtaken(d) ==> nodes[1].localLocalWork >= 0 && NonNegative(CallSites(nodes[1]))
      ensures Clean(d) ==> exists c :: Accounts(d, parFor, c, nodes[1])
    {
      hide Mid, Clean, Accounts, Counted, Valid, Known, FinishOrdered, Fresh, Loaded, Profiled, Topological, Lossy, Overtaken, Forked, Visit;
      var numProcessed := new nat[lastAllocatedNode + 1](_ => 0);
      order := [];
      StartMid(d, parFor, nodes[..]);
      NoneCounted(d, numProcessed[..]);
      ValidSize(d);
      var i := 1;
      while i <= lastAllocatedNode
        invariant 1 <= i <= lastAllocatedNode + 1
        invariant Snapshot(nodes[..], order) == PassTo(d, parFor, old(nodes[..]), i)
        invariant Counted(d, numProcessed[..], Elems(order), 0)
      {
        VisitNode(i, numProcessed, d);
        i := i + 1;
      }
      FinalProfile(d, parFor, nodes[..], order);
      RootProfile(d, nodes[..]);
      RootWork(d);
    }

    // ---- the what-if passes ----

    method ResetWorkSpan()
      requires lastAllocatedNode < nodes.Length
      modifies nodes
      ensures SpanFieldsOnly(old(nodes[..]), nodes[..])
      ensures Cleared(nodes[..], lastAllocatedNode + 1)
    {
      var i := 1;
      while i <= lastAllocatedNode
        invariant 1 <= i <= lastAllocatedNode + 1
        invariant SpanFieldsOnly(old(nodes[..]), nodes[..])
        invariant Cleared(nodes[..], i)
      {
        if nodes[i].kind != STEP {
          nodes[i] := nodes[i].(criticalChild := 0, localWork := 0, parentWork := 0);
        }
        i := i + 1;
      }
    }

    method StepWeightOf(t: AFTask, region: nat, p: nat) returns (w: nat)
      requires p > 0 && RegionsFit(t)
      ensures w == StepWeight(t, region, p)
    {
      w := t.work;
      NoUnderflow(t, region, p);
      if t.regionWork.Some? {
        var rw := t.regionWork.value;
        if region == 0 {
          var rest: map<nat, nat> := rw;
          assert Savings(rest, p) == Savings(rw, p);
          while rest != map[]
            invariant w == t.work - Sum(Savings(rw, p)) + Sum(Savings(rest, p))
            decreases |rest|
          {
            var k :| k in rest;
            SizeRemove(rest, k);
            SumRemove(Savings(rest, p), k);
            assert Savings(rest, p) - {k} == Savings(rest - {k}, p);
            w := w - Saving(rest[k], p);
            rest := rest - {k};
          }
        } else if region in rw {
          w := w - Saving(rw[region], p);
        }
      }
    }

    method CalculateWorkSpanRegion(v: nat, region: nat, p: nat)
      requires p > 0 && 1 <= v < nodes.Length && nodes[v].parent < v
      requires nodes[v].kind == STEP ==> RegionsFit(nodes[v])
      modifies nodes
      ensures nodes[..] == CompletedRegion(old(nodes[..]), v, StepWeight(old(nodes[v]), region, p))
    {
      var q := nodes[v].parent;
      if nodes[v].kind == STEP {
        var w := StepWeightOf(nodes[v], region, p);
        nodes[q] := nodes[q].(localWork := nodes[q].localWork + w);
      } else if nodes[v].kind == ASYNC {
        if nodes[v].localWork >= nodes[v].criticalChild {
          nodes[v] := nodes[v].(criticalChild := nodes[v].localWork);
        }
        if nodes[v].criticalChild + nodes[v].parentWork > nodes[q].criticalChild {
          nodes[q] := nodes[q].(criticalChild := nodes[v].criticalChild + nodes[v].parentWork);
        }
      } else if nodes[v].kind == FINISH {
        if nodes[v].localWork >= nodes[v].criticalChild {
          nodes[v] := nodes[v].(criticalChild := nodes[v].localWork);
        }
        nodes[q] := nodes[q].(localWork := nodes[q].localWork + nodes[v].criticalChild);
      }
    }

    method CheckUpdateParentWorkSpanRegion(p: nat, numProcessed: array<nat>, region: nat, parIncrease: nat,
                                           ghost e: Tree, ghost done0: set<nat>, ghost i: nat)
      returns (ghost done: set<nat>)
      requires parIncrease > 0 && Valid(e) && 1 <= p < i <= |e| <= nodes.Length && e[p].kind != STEP && p !in done0
      requires |e| <= numProcessed.Length
      requires Weighs(e, nodes[..], region, parIncrease)
      requires RegionInv(e, nodes[..], numProcessed[..], done0, i, p, p)
      modifies nodes, numProcessed
      ensures RegionInv(e, nodes[..], numProcessed[..], done, i, 0, 0)
      ensures SpanFieldsOnly(old(nodes[..]), nodes[..])
      decreases p
    {
      hide RegionInv, SpanFieldsOnly, Weighs, Valid, CompletedRegion, StepWeight, RegionsFit;
      done := done0;
      ParentBelow(e, p);
      RegionBump(e, nodes[..], numProcessed[..], done, i, p);
      numProcessed[p] := numProcessed[p] + 1;
      SpanFieldsRefl(nodes[..]);
      if nodes[p].numChildren == numProcessed[p] {
        KeepRegionInv(e, nodes[..], numProcessed[..], done, i, p);
        ghost var s := nodes[..];
        OnlyStepsWeigh(s, p, e[p].work, StepWeight(s[p], region, parIncrease));
        CalculateWorkSpanRegion(p, region, parIncrease);
        done := done + {p};
        KeepWeighs(e, s, nodes[..], region, parIncrease);
        ghost var t := nodes[..];
        if nodes[p].parent != 0 {
          done := CheckUpdateParentWorkSpanRegion(nodes[p].parent, numProcessed, region, parIncrease, e, done, i);
          SpanFieldsTrans(s, t, nodes[..]);
        }
      }
    }

    method VisitNodeRegion(i: nat, numProcessed: array<nat>, region: nat, parIncrease: nat,
                           ghost e: Tree, ghost done0: set<nat>)
      returns (ghost done: set<nat>)
      requires parIncrease > 0 && Valid(e) && FinishOrdered(e) && 1 <= i < |e| <= nodes.Length
      requires |e| <= numProcessed.Length && Weighs(e, nodes[..], region, parIncrease)
      requires RegionInv(e, nodes[..], numProcessed[..], done0, i, 0, 0)
      modifies nodes, numProcessed
      ensures RegionInv(e, nodes[..], numProcessed[..], done, i + 1, 0, 0)
      ensures SpanFieldsOnly(old(nodes[..]), nodes[..]) && Weighs(e, nodes[..], region, parIncrease)
    {
      hide RegionInv, SpanFieldsOnly;
      done := done0;
      ghost var s := nodes[..];
      RegionLeafTest(e, s, numProcessed[..], done, i);
      SpanFieldsRefl(s);
      if nodes[i].numChildren == numProcessed[i] {
        KeepRegionInv(e, s, numProcessed[..], done, i + 1, i);
        CalculateWorkSpanRegion(i, region, parIncrease);
        done := done + {i};
        ghost var t := nodes[..];
        KeepWeighs(e, s, t, region, parIncrease);
        done := CheckUpdateParentWorkSpanRegion(nodes[i].parent, numProcessed, region, parIncrease, e, done, i + 1);
        SpanFieldsTrans(s, t, nodes[..]);
      } else {
        RegionVisit(e, s, numProcessed[..], done, i);
        if nodes[i].kind == ASYNC {
          nodes[i] := nodes[i].(parentWork := nodes[nodes[i].parent].localWork);
        }
        assert nodes[..] == RegionVisited(s, i);
      }
      KeepWeighs(e, s, nodes[..], region, parIncrease);
    }

    /** One what-if experiment: the root receives the span of the tree with the reduced step
        weights, and nothing of the first profile other than the spans is lost. */
    method CalculateRecurseRegion(region: nat, parIncrease: nat, ghost d: Tree)
      requires parIncrease > 0 && Valid(d) && FinishOrdered(d)
      requires |d| == lastAllocatedNode + 1 <= nodes.Length && Linked(d, nodes[..]) && AllFit(d, nodes[..])
      modifies nodes
      ensures nodes[1].criticalChild == Span(Optimised(d, old(nodes[..]), region, parIncrease), 1)
      ensures SpanFieldsOnly(old(nodes[..]), nodes[..])
    {
      hide RegionInv, SpanFieldsOnly, Weighs, Cleared, Linked, Valid, FinishOrdered, AllFit, Optimised;
      ghost var e := Optimised(d, nodes[..], region, parIncrease);
      ResetWorkSpan();
      ghost var s := nodes[..];
      var numProcessed := new nat[lastAllocatedNode + 1](_ => 0);
      RegionPrepare(d, old(nodes[..]), s, numProcessed[..], region, parIncrease);
      SpanFieldsRefl(s);
      ghost var done: set<nat> := {};
      var i := 1;
      while i <= lastAllocatedNode
        invariant 1 <= i <= lastAllocatedNode + 1
        invariant RegionInv(e, nodes[..], numProcessed[..], done, i, 0, 0)
        invariant SpanFieldsOnly(s, nodes[..]) && Weighs(e, nodes[..], region, parIncrease)
      {
        ghost var t := nodes[..];
        done := VisitNodeRegion(i, numProcessed, region, parIncrease, e, done);
        SpanFieldsTrans(s, t, nodes[..]);
        i := i + 1;
      }
      RegionFinal(e, nodes[..], numProcessed[..], done);
      SpanFieldsTrans(old(nodes[..]), s, nodes[..]);
    }
  }
}
