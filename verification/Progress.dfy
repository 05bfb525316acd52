/** The invariant of the analysis pass: how the graph relates to the set of nodes done so far. */
module Progress {
  import opened Dpst
  import opened Completion

  /** The graph holds the shape of `d`, with every children counter as the loader leaves it. */
  ghost predicate Linked(d: Tree, s: seq<AFTask>) {
    && 0 < |d| <= |s| && s[0].kind == NO_TYPE
    && forall i {:trigger s[i]} :: 1 <= i < |d| ==>
         && s[i].parent == d[i].parent && s[i].kind == d[i].kind && s[i].callSite == d[i].callSite
         && s[i].spRootNWt == (d[i].kind == FINISH && d[i].callSite != 0)
         && s[i].numChildren == Count(d, i, |d|)
  }

  /** The graph also holds the measured work of every step. */
  ghost predicate Loaded(d: Tree, s: seq<AFTask>) {
    && Linked(d, s)
    && forall i {:trigger s[i]} :: 1 <= i < |d| && d[i].kind == STEP ==> s[i].work == d[i].work
  }

  ghost predicate Spans(d: Tree, s: seq<AFTask>, done: set<nat>) {
    && |d| <= |s|
    && forall v: nat {:trigger s[v]} :: 1 <= v < |d| && d[v].kind != STEP ==>
         && s[v].localWork == SerialDone(d, done, v, |d|)
         && s[v].criticalChild == if v in done then Span(d, v) else AsyncDone(d, done, v, |d|)
  }

  ghost predicate Works(d: Tree, s: seq<AFTask>, done: set<nat>) {
    && |d| <= |s|
    && forall v: nat {:trigger s[v]} :: 1 <= v < |d| && d[v].kind != STEP ==> s[v].work == WorkDone(d, done, v, |d|)
  }

  ghost predicate ParentWorks(d: Tree, s: seq<AFTask>, i: nat) {
    && |d| <= |s|
    && forall v: nat {:trigger s[v]} :: 1 <= v < i && v < |d| && d[v].kind == ASYNC
         ==> s[v].parentWork == Serial(d, d[v].parent, v)
  }

  /** No node that still has work to receive has a null map of call sites; a node that has not
      been visited has none yet. */
  ghost predicate MapsReady(d: Tree, s: seq<AFTask>, done: set<nat>, i: nat) {
    && |d| <= |s|
    && forall v: nat {:trigger s[v]} :: 1 <= v < |d| && d[v].kind != STEP && v !in done
         ==> (s[v].criticalCallSites.Some? <==> v < i)
  }

  ghost predicate AllIn(d: Tree, done: set<nat>, v: nat) {
    forall c {:trigger d[c].parent} :: v < c < |d| && d[c].parent == v ==> c in done
  }

  /** A node is done when it has been visited and all its children are done; node `e` is
      exempted, its last child having been done a moment ago. */
  ghost predicate Closed(d: Tree, done: set<nat>, i: nat, e: nat) {
    && (forall v {:trigger v in done} :: v in done ==> 1 <= v < i && v < |d| && AllIn(d, done, v))
    && (forall v: nat {:trigger AllIn(d, done, v)} :: 1 <= v < i && v < |d| && v != e && AllIn(d, done, v) ==> v in done)
  }

  ghost predicate Counted(d: Tree, processed: seq<nat>, done: set<nat>, e: nat) {
    && |d| <= |processed|
    && forall v: nat {:trigger processed[v]} :: 1 <= v < |d|
         ==> processed[v] + (if v == e then 1 else 0) == CountDone(d, done, v, |d|)
  }

  ghost function Elems(order: seq<nat>): set<nat> {
    set v | v in order
  }

  lemma {:induction false} NotBeforeChild(d: Tree, done: set<nat>, i: nat, v: nat)
    requires Valid(d) && Closed(d, done, i, v) && 1 <= v < |d| && v !in done
    ensures d[v].parent !in done
  {
  }

  lemma {:induction false} KeepCounted(d: Tree, processed: seq<nat>, done: set<nat>, v: nat)
    requires Valid(d) && 1 <= v < |d| && v !in done && Counted(d, processed, done, 0)
    ensures Counted(d, processed, done + {v}, d[v].parent)
  {
    forall u: nat | 1 <= u < |d|
      ensures processed[u] + (if u == d[v].parent then 1 else 0) == CountDone(d, done + {v}, u, |d|)
    {
      DoneAdds(d, done, v, u, |d|);
    }
  }

  lemma {:induction false} KeepClosed(d: Tree, done: set<nat>, i: nat, v: nat)
    requires Valid(d) && Closed(d, done, i, v) && 1 <= v < i && v < |d| && AllIn(d, done, v)
    ensures Closed(d, done + {v}, i, d[v].parent)
  {
    var more := done + {v};
    forall u | u in more ensures 1 <= u < i && u < |d| && AllIn(d, more, u) {
      assert AllIn(d, done, u);
    }
    forall u: nat | 1 <= u < i && u < |d| && u != d[v].parent && AllIn(d, more, u) ensures u in more {
      if u != v {
        assert AllIn(d, done, u);
      }
    }
  }

  // ---- one completion keeps everything ----

  /** The change to the span fields that both passes make when they complete `v`. */
  ghost predicate SpanStep(d: Tree, s: seq<AFTask>, t: seq<AFTask>, v: nat)
    requires 1 <= v < |d| && d[v].parent < |d| <= |s|
  {
    var n, p, q := s[v], s[d[v].parent], d[v].parent;
    && |t| == |s|
    && (forall u {:trigger t[u]} :: 0 <= u < |s| && u != v && u != q
          ==> t[u].localWork == s[u].localWork && t[u].criticalChild == s[u].criticalChild)
    && (d[v].kind != STEP ==> t[v].localWork == n.localWork && t[v].criticalChild == OwnSpan(n))
    && t[q].localWork == p.localWork + (match d[v].kind
                                        case STEP => d[v].work
                                        case FINISH => OwnSpan(n)
                                        case _ => 0)
    && t[q].criticalChild == if d[v].kind == ASYNC && Takes(n, p) then OwnSpan(n) + n.parentWork else p.criticalChild
  }

  lemma {:induction false} OwnSpanIsSpan(d: Tree, s: seq<AFTask>, done: set<nat>, v: nat)
    requires 1 <= v < |d| && d[v].kind != STEP
    requires Spans(d, s, done) && v !in done && AllIn(d, done, v)
    ensures OwnSpan(s[v]) == Span(d, v)
    ensures s[v].localWork == Serial(d, v, |d|)
  {
    DoneAll(d, done, v, |d|);
  }

  lemma {:induction false} KeepSpans(d: Tree, s: seq<AFTask>, t: seq<AFTask>, done: set<nat>, v: nat)
    requires 1 <= v < |d| && d[v].parent < v && d[v].kind != NO_TYPE
    requires Spans(d, s, done) && SpanStep(d, s, t, v)
    requires v !in done && AllIn(d, done, v) && d[v].parent !in done
    requires d[v].kind == ASYNC ==> s[v].parentWork == Serial(d, d[v].parent, v)
    ensures Spans(d, t, done + {v})
  {
    if d[v].kind != STEP {
      OwnSpanIsSpan(d, s, done, v);
    }
    forall u: nat | 1 <= u < |d| && d[u].kind != STEP
      ensures t[u].localWork == SerialDone(d, done + {v}, u, |d|)
      ensures t[u].criticalChild == if u in done + {v} then Span(d, u) else AsyncDone(d, done + {v}, u, |d|)
    {
      DoneAdds(d, done, v, u, |d|);
      assert s[u].localWork == SerialDone(d, done, u, |d|);
    }
  }

  lemma {:induction false} ParentIsInner(d: Tree, s: seq<AFTask>, v: nat)
    requires Valid(d) && Linked(d, s) && 1 <= v < |d|
    ensures s[v].parent == d[v].parent < v && s[d[v].parent].kind != STEP
  {
    if v > 1 {
      assert s[d[v].parent].kind == d[d[v].parent].kind;
    }
  }

  lemma {:induction false} KeepLoaded(d: Tree, s: seq<AFTask>, t: seq<AFTask>)
    requires Loaded(d, s) && |t| == |s|
    requires forall u {:trigger t[u]} :: 0 <= u < |s| ==> SameNode(t[u], s[u])
    ensures Loaded(d, t)
  {
  }

  lemma {:induction false} CompletedSpans(d: Tree, s: seq<AFTask>, v: nat, parFor: map<nat, bool>)
    requires Loaded(d, s) && 1 <= v < |d| && s[v].parent == d[v].parent < v && s[d[v].parent].kind != STEP
    requires d[v].kind != NO_TYPE
    ensures forall u {:trigger Completed(s, v, parFor)[u]} :: 0 <= u < |s| ==> SameNode(Completed(s, v, parFor)[u], s[u])
    ensures SpanStep(d, s, Completed(s, v, parFor), v)
  {
    assert s[v].kind == d[v].kind;
  }

  lemma {:induction false} KeepWorks(d: Tree, s: seq<AFTask>, done: set<nat>, v: nat, parFor: map<nat, bool>)
    requires Valid(d) && Loaded(d, s) && 1 <= v < |d|
    requires s[v].parent == d[v].parent < v && s[d[v].parent].kind != STEP
    requires Works(d, s, done) && v !in done && AllIn(d, done, v)
    ensures Works(d, Completed(s, v, parFor), done + {v})
  {
    var t := Completed(s, v, parFor);
    assert s[v].work == Work(d, v) by {
      DoneAll(d, done, v, |d|);
    }
    forall u: nat | 1 <= u < |d| && d[u].kind != STEP ensures t[u].work == WorkDone(d, done + {v}, u, |d|) {
      DoneAdds(d, done, v, u, |d|);
      assert s[u].work == WorkDone(d, done, u, |d|);
    }
  }

  lemma {:induction false} KeepMaps(d: Tree, s: seq<AFTask>, done: set<nat>, v: nat, i: nat, parFor: map<nat, bool>)
    requires Valid(d) && Loaded(d, s) && 1 <= v < |d| && v < i
    requires s[v].parent == d[v].parent < v && s[d[v].parent].kind != STEP
    requires MapsReady(d, s, done, i) && v !in done && d[v].parent !in done
    ensures MapsReady(d, Completed(s, v, parFor), done + {v}, i)
  {
    assert s[v].parent == d[v].parent;
    if v > 1 {
      assert d[d[v].parent].kind != STEP;
      assert s[d[v].parent].criticalCallSites.Some?;
    }
  }

  // ---- why the spawn-time work of a task is right ----

  /** A subtree that has been visited entirely is done, unless it holds the exempted node. */
  lemma {:induction false} SubtreeDone(d: Tree, done: set<nat>, i: nat, e: nat, f: nat)
    requires Valid(d) && Closed(d, done, i, e) && 1 <= f < |d| && !Below(d, f, e)
    requires forall w: nat {:trigger Below(d, f, w)} :: Below(d, f, w) && w < |d| ==> w < i
    ensures f in done
    decreases |d| - f
  {
    assert Below(d, f, f);
    forall c: nat {:trigger d[c].parent} | f < c < |d| && d[c].parent == f ensures c in done {
      forall w: nat {:trigger Below(d, c, w)} | Below(d, c, w) && (w < |d| || w == e) ensures Below(d, f, w) {
        Transitive(d, f, c, w);
      }
      SubtreeDone(d, done, i, e, c);
    }
    assert AllIn(d, done, f);
  }

  /** When task `i` is visited, the serial work its parent has received is exactly the work of
      the serial siblings spawned before it. */
  lemma {:induction false} SpawnTimeWork(d: Tree, s: seq<AFTask>, done: set<nat>, i: nat)
    requires Valid(d) && FinishOrdered(d) && Closed(d, done, i, 0) && Spans(d, s, done)
    requires 2 <= i < |d|
    ensures s[d[i].parent].localWork == Serial(d, d[i].parent, i)
  {
    var p := d[i].parent;
    assert d[p].kind != STEP;
    forall c: nat {:trigger d[c].parent} | p < c < |d| && d[c].parent == p && d[c].kind in {STEP, FINISH} && c < i
      ensures c in done
    {
      if d[c].kind == FINISH {
        forall w: nat {:trigger Below(d, c, w)} | Below(d, c, w) && w < |d| ensures w < i {
          assert d[i].parent == d[c].parent;
        }
        SubtreeDone(d, done, i, 0, c);
      } else {
        assert AllIn(d, done, c);
      }
    }
    SerialBefore(d, done, p, i, |d|);
  }

  /** At the end of the pass every node is done. */
  lemma {:induction false} EverythingDone(d: Tree, done: set<nat>, v: nat)
    requires Valid(d) && Closed(d, done, |d|, 0) && 1 <= v < |d|
    ensures v in done
  {
    SubtreeDone(d, done, |d|, 0, v);
  }
}
