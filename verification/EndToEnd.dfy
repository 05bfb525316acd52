/** Both phases together: from the events of a run to the profile of the whole program. */
module EndToEnd {
  import opened Collections
  import opened Dpst
  import opened Chains
  import opened CountMaps
  import opened Completion
  import opened Attribution
  import opened Progress
  import opened Pass
  import opened Sites
  import opened Exactness
  import opened Collector
  import opened Protocol
  import opened ProtocolRuns
  import opened ProtocolDiscipline
  import opened ProtocolLabels
  import opened Loader
  import opened ProtocolShapes
  import opened WhatIf
  import T = TaskProfiler

  function Records(lines: seq<Line>): (rs: seq<Record>)
    ensures |rs| == |lines| && forall i {:trigger rs[i]} :: 0 <= i < |rs| ==> rs[i] == lines[i].record
  {
    seq(|lines|, i requires 0 <= i < |lines| => lines[i].record)
  }

  /** The files hold the records of the log, in any distribution and order. */
  ghost predicate Distributes(files: seq<seq<Line>>, log: seq<Record>) {
    multiset(Records(Flatten(files))) == multiset(log)
  }

  // ---- a graph node after loading ----

  ghost predicate Distinct(lines: seq<Line>) {
    forall i, j {:trigger lines[i], lines[j]} :: 0 <= i < j < |lines| ==> lines[i].record.id != lines[j].record.id
  }

  function Kids(lines: seq<Line>, v: nat): nat {
    if lines == [] then 0
    else Kids(lines[..|lines| - 1], v) + if lines[|lines| - 1].record.parent == v && v != 0 then 1 else 0
  }

  predicate Unprofiled(t: AFTask) {
    t.localWork == t.criticalChild == t.localLocalWork == 0 && t.criticalCallSites == None && (t.kind != STEP ==> t.work == 0)
  }

  lemma {:induction false} NodeFields(lines: seq<Line>, v: nat)
    requires Distinct(lines)
    ensures var t := NodeAfter(lines, v);
            && t.numChildren == Kids(lines, v) && Unprofiled(t)
            && (forall j {:trigger lines[j]} :: 0 <= j < |lines| && lines[j].record.id == v ==>
                  var r := lines[j].record;
                  && t.parent == r.parent && t.kind == r.kind && t.callSite == r.callSite
                  && t.spRootNWt == (r.kind == FINISH && r.callSite != 0) && (r.kind == STEP ==> t.work == r.work))
            && ((forall j {:trigger lines[j]} :: 0 <= j < |lines| ==> lines[j].record.id != v) ==>
                  t == BLANK.(numChildren := Kids(lines, v)))
    decreases |lines|
  {
    if lines != [] {
      var init, l := lines[..|lines| - 1], lines[|lines| - 1];
      NodeFields(init, v);
      assert forall j {:trigger lines[j]} :: 0 <= j < |init| ==> init[j] == lines[j];
      if l.record.id == v {
        assert NodeAfter(init, v) == BLANK.(numChildren := Kids(init, v));
      }
    }
  }

  ghost function KidIds(lines: seq<Line>, v: nat): set<nat> {
    set j | 0 <= j < |lines| && lines[j].record.parent == v :: lines[j].record.id
  }

  lemma {:induction false} KidIdsAppend(lines: seq<Line>, l: Line, v: nat)
    ensures KidIds(lines + [l], v) == KidIds(lines, v) + if l.record.parent == v then {l.record.id} else {}
  {
    var more := lines + [l];
    assert more[|lines|] == l;
    forall c | c in KidIds(lines, v) ensures c in KidIds(more, v) {
      var j :| 0 <= j < |lines| && lines[j].record.parent == v && lines[j].record.id == c;
      assert more[j] == lines[j];
    }
  }

  lemma {:induction false} KidsSize(lines: seq<Line>, v: nat)
    requires Distinct(lines) && v != 0
    ensures |KidIds(lines, v)| == Kids(lines, v)
    decreases |lines|
  {
    if lines != [] {
      var init, l := lines[..|lines| - 1], lines[|lines| - 1];
      KidsSize(init, v);
      assert forall j {:trigger lines[j]} :: 0 <= j < |init| ==> init[j] == lines[j];
      assert l.record.id !in KidIds(init, v);
      KidIdsAppend(init, l, v);
      assert lines == init + [l];
    }
  }

  ghost function ChildIds(d: Tree, v: nat, k: nat): set<nat>
    requires k <= |d|
  {
    set c | v < c < k && d[c].parent == v
  }

  lemma {:induction false} CountSize(d: Tree, v: nat, k: nat)
    requires k <= |d|
    ensures |ChildIds(d, v, k)| == Count(d, v, k)
    decreases k
  {
    if k > v + 1 {
      CountSize(d, v, k - 1);
      assert ChildIds(d, v, k) == ChildIds(d, v, k - 1) + if d[k - 1].parent == v then {k - 1} else {};
    } else {
      assert ChildIds(d, v, k) == {};
    }
  }

  // ---- the files against the log ----

  lemma {:induction false} TwoOccurrences(s: seq<Record>, i: nat, j: nat)
    requires i < j < |s| && s[i] == s[j]
    ensures multiset(s)[s[i]] >= 2
  {
    assert s == s[..j] + s[j..];
    assert s[i] == s[..j][i] && s[j] == s[j..][0];
  }

  lemma {:induction false} OneOccurrence(s: seq<Record>, r: Record)
    requires forall i, j {:trigger s[i], s[j]} :: 0 <= i < j < |s| ==> s[i].id != s[j].id
    ensures multiset(s)[r] <= 1
    decreases |s|
  {
    if s != [] {
      var init, last := s[..|s| - 1], s[|s| - 1];
      assert forall i {:trigger s[i]} :: 0 <= i < |init| ==> init[i] == s[i];
      OneOccurrence(init, r);
      assert s == init + [last];
      if last == r {
        assert r !in init;
        assert multiset(init)[r] == 0;
      }
    }
  }

  lemma {:induction false} FilesDistinct(lines: seq<Line>, log: seq<Record>, n: nat)
    requires LogsExactly(log, n, {}) && multiset(Records(lines)) == multiset(log)
    ensures Distinct(lines)
  {
    var rs := Records(lines);
    forall i, j | 0 <= i < j < |lines| ensures lines[i].record.id != lines[j].record.id {
      assert rs[i] in multiset(log) && rs[j] in multiset(log);
      var a, b :| 0 <= a < |log| && 0 <= b < |log| && log[a] == rs[i] && log[b] == rs[j];
      if rs[i] == rs[j] {
        TwoOccurrences(rs, i, j);
        OneOccurrence(log, rs[i]);
        assert false;
      }
      assert a != b;
    }
  }

  lemma {:induction false} LineOf(lines: seq<Line>, log: seq<Record>, n: nat, v: nat) returns (j: nat)
    requires LogsExactly(log, n, {}) && multiset(Records(lines)) == multiset(log) && 1 <= v < n
    ensures j < |lines| && lines[j].record.id == v && RecordIs(lines[j].record, NodeOf(log, v))
  {
    var rs := Records(lines);
    assert Logged(log, v);
    var k := IndexOf(log, v).value;
    assert log[k] in multiset(rs);
    j :| j < |rs| && rs[j] == log[k];
  }

  lemma {:induction false} NodeOfLine(lines: seq<Line>, log: seq<Record>, n: nat, j: nat)
    requires LogsExactly(log, n, {}) && multiset(Records(lines)) == multiset(log) && j < |lines|
    ensures 1 <= lines[j].record.id < n && RecordIs(lines[j].record, NodeOf(log, lines[j].record.id))
  {
    var rs := Records(lines);
    assert rs[j] in multiset(log);
    var i :| 0 <= i < |log| && log[i] == rs[j];
    var k := IndexOf(log, log[i].id).value;
    assert log[k].id == log[i].id;
  }

  predicate RecordIs(r: Record, n: Node) {
    r.parent == n.parent && r.kind == n.kind && r.callSite == n.callSite && r.work == n.work
  }

  lemma {:induction false} FileNode(lines: seq<Line>, log: seq<Record>, n: nat, v: nat)
    requires LogsExactly(log, n, {}) && multiset(Records(lines)) == multiset(log)
    requires Valid(LoggedTree(log, n)) && 1 <= v < n
    ensures var t, d := NodeAfter(lines, v), LoggedTree(log, n);
            && t.parent == d[v].parent && t.kind == d[v].kind && t.callSite == d[v].callSite
            && t.spRootNWt == (d[v].kind == FINISH && d[v].callSite != 0) && t.numChildren == Count(d, v, |d|)
            && Unprofiled(t) && (d[v].kind == STEP ==> t.work == d[v].work)
  {
    hide LogsExactly, Valid;
    FilesDistinct(lines, log, n);
    NodeFields(lines, v);
    var j := LineOf(lines, log, n, v);
    KidsSize(lines, v);
    CountSize(LoggedTree(log, n), v, n);
    SameKids(lines, log, n, v);
  }

  /** The loader turns the files of a log into a graph that is ready for the analysis. */
  lemma {:induction false} FilesFresh(lines: seq<Line>, log: seq<Record>, n: nat, s: seq<AFTask>)
    requires LogsExactly(log, n, {}) && multiset(Records(lines)) == multiset(log)
    requires Valid(LoggedTree(log, n)) && n <= |s| && forall v: nat {:trigger s[v]} :: v < n ==> s[v] == NodeAfter(lines, v)
    ensures Fresh(LoggedTree(log, n), s) && |lines| == n - 1
  {
    hide LogsExactly, Records, NodeAfter;
    var d := LoggedTree(log, n);
    assert n >= 2;
    hide Valid;
    LineCount(lines, log, n);
    NoRootLine(lines, log, n);
    forall v: nat | 1 <= v < n
      ensures s[v].parent == d[v].parent && s[v].kind == d[v].kind && s[v].callSite == d[v].callSite
      ensures s[v].spRootNWt == (d[v].kind == FINISH && d[v].callSite != 0)
      ensures s[v].numChildren == Count(d, v, |d|) && Unprofiled(s[v]) && (d[v].kind == STEP ==> s[v].work == d[v].work)
    {
      FileNode(lines, log, n, v);
    }
  }

  lemma {:induction false} NoRootLine(lines: seq<Line>, log: seq<Record>, n: nat)
    requires LogsExactly(log, n, {}) && multiset(Records(lines)) == multiset(log)
    ensures NodeAfter(lines, 0).kind == NO_TYPE
  {
    hide LogsExactly;
    FilesDistinct(lines, log, n);
    NodeFields(lines, 0);
    forall j | 0 <= j < |lines| ensures lines[j].record.id != 0 {
      NodeOfLine(lines, log, n, j);
    }
  }

  lemma {:induction false} SameKids(lines: seq<Line>, log: seq<Record>, n: nat, v: nat)
    requires LogsExactly(log, n, {}) && multiset(Records(lines)) == multiset(log) && Valid(LoggedTree(log, n)) && 1 <= v < n
    ensures KidIds(lines, v) == ChildIds(LoggedTree(log, n), v, n)
  {
    hide LogsExactly;
    var d := LoggedTree(log, n);
    forall c | c in KidIds(lines, v) ensures c in ChildIds(d, v, n) {
      var j :| 0 <= j < |lines| && lines[j].record.parent == v && lines[j].record.id == c;
      NodeOfLine(lines, log, n, j);
      assert d[c] == NodeOf(log, c);
    }
    forall c | c in ChildIds(d, v, n) ensures c in KidIds(lines, v) {
      assert d[c] == NodeOf(log, c);
      var j := LineOf(lines, log, n, c);
    }
  }

  /** Each id has one line. */
  lemma {:induction false} LineCount(lines: seq<Line>, log: seq<Record>, n: nat)
    requires LogsExactly(log, n, {}) && multiset(Records(lines)) == multiset(log) && n >= 1
    ensures |lines| == |log| == n - 1
  {
    assert |multiset(Records(lines))| == |multiset(log)|;
    IdsSize(log);
    RangeSize(n);
    forall v | v in Range(n) - {0} ensures v in IdsOf(log) {
      assert Logged(log, v);
    }
    assert IdsOf(log) == Range(n) - {0};
  }

  ghost function IdsOf(log: seq<Record>): set<nat> {
    set j | 0 <= j < |log| :: log[j].id
  }

  lemma {:induction false} IdsSize(log: seq<Record>)
    requires forall i, j {:trigger log[i], log[j]} :: 0 <= i < j < |log| ==> log[i].id != log[j].id
    ensures |IdsOf(log)| == |log|
    decreases |log|
  {
    if log != [] {
      var init, last := log[..|log| - 1], log[|log| - 1];
      assert forall i {:trigger log[i]} :: 0 <= i < |init| ==> init[i] == log[i];
      IdsSize(init);
      assert last.id !in IdsOf(init);
      assert IdsOf(log) == IdsOf(init) + {last.id};
    }
  }

  // ---- no work is lost between the events and the root ----

  /** The work measured by the events of a run. */
  function EventWork(es: seq<Event>): nat {
    if es == [] then 0
    else EventWork(es[..|es| - 1]) + if es[|es| - 1].EndStep? then es[|es| - 1].work else 0
  }

  /** The work of the steps of a log. */
  function LogWork(log: seq<Record>): nat {
    if log == [] then 0
    else LogWork(log[..|log| - 1]) + if log[|log| - 1].kind == STEP then log[|log| - 1].work else 0
  }

  lemma {:induction false} LogWorkAppend(log: seq<Record>, r: Record)
    ensures LogWork(log + [r]) == LogWork(log) + if r.kind == STEP then r.work else 0
  {
    assert (log + [r])[..|log|] == log;
  }

  lemma {:induction false} StepLogs(s: Sys, e: Event)
    requires Inv(s) && Enabled(s, e)
    ensures LogWork(Next(s, e).c.log) == LogWork(s.c.log) + if e.EndStep? then e.work else 0
  {
    hide Inv, Quiescent, SpawnAt, SpawnPos, SpawnTree, PushPause, PopPause, LogWork;
    NextDefined(s, e);
    var log, n := s.c.log, s.c.last;
    if |s.c.stacks[e.t]| > 0 {
      var cur := Top(s.c.stacks[e.t]);
      match e
      case EndStep(t, work) => LogWorkAppend(log, Record(cur.child, cur.id, work, STEP, 0));
      case SpawnRoot(t, site) => LogWorkAppend(log, Record(n, cur.id, 0, FINISH, CallSiteOf(site)));
      case Spawn(t, site) => SpawnLogs(log, cur, n, CallSiteOf(site));
      case SpawnAll(t, site) => SpawnLogs(log, cur, n, CallSiteOf(site));
      case _ =>
    }
  }

  lemma {:induction false} SpawnLogs(log: seq<Record>, cur: OpenNode, n: nat, site: nat)
    ensures LogWork(log + [Record(n, cur.id, 0, ASYNC, site)]) == LogWork(log)
    ensures LogWork(log + [Record(n, cur.id, 0, FINISH, 0), Record(n + 1, n, 0, ASYNC, site)]) == LogWork(log)
  {
    var a, b := Record(n, cur.id, 0, FINISH, 0), Record(n + 1, n, 0, ASYNC, site);
    LogWorkAppend(log, Record(n, cur.id, 0, ASYNC, site));
    LogWorkAppend(log, a);
    LogWorkAppend(log + [a], b);
    assert log + [a] + [b] == log + [a, b];
  }

  lemma {:induction false} RunLogs(threads: nat, es: seq<Event>)
    requires threads > 0 && Run(threads, es).Some?
    ensures LogWork(Run(threads, es).value.c.log) == EventWork(es)
    decreases |es|
  {
    hide Inv, Next, Enabled, LogWork;
    if es != [] {
      RunLogs(threads, es[..|es| - 1]);
      StepLogs(Run(threads, es[..|es| - 1]).value, es[|es| - 1]);
    } else {
      LogWorkAppend([], Record(1, 0, 0, FINISH, 0));
      EmptyLog();
    }
  }

  lemma {:induction false} EmptyLog()
    ensures LogWork([]) == 0 && LogWork([Record(1, 0, 0, FINISH, 0)]) == 0
  {
    assert [Record(1, 0, 0, FINISH, 0)][..0] == [];
  }

  /** The work of the steps among `ids` numbered from `k` on. */
  ghost function WorkIn(d: Tree, ids: set<nat>, k: nat): nat
    requires k <= |d|
    decreases |d| - k
  {
    if k == |d| then 0 else WorkIn(d, ids, k + 1) + if k in ids && d[k].kind == STEP then d[k].work else 0
  }

  lemma {:induction false} WorkInAdd(d: Tree, ids: set<nat>, v: nat, k: nat)
    requires k <= |d| && v !in ids && v < |d|
    ensures WorkIn(d, ids + {v}, k) == WorkIn(d, ids, k) + if k <= v && d[v].kind == STEP then d[v].work else 0
    decreases |d| - k
  {
    if k < |d| {
      WorkInAdd(d, ids, v, k + 1);
    }
  }

  lemma {:induction false} WorkInNone(d: Tree, k: nat)
    requires k <= |d|
    ensures WorkIn(d, {}, k) == 0
    decreases |d| - k
  {
    if k < |d| {
      WorkInNone(d, k + 1);
    }
  }

  lemma {:induction false} WorkInAll(d: Tree, ids: set<nat>, k: nat)
    requires k <= |d| && forall v: nat :: k <= v < |d| ==> v in ids
    ensures WorkIn(d, ids, k) == StepWork(d, k)
    decreases |d| - k
  {
    if k < |d| {
      WorkInAll(d, ids, k + 1);
    }
  }

  lemma {:induction false} LogWorkIn(log: seq<Record>, n: nat, k: nat)
    requires LogsExactly(log, n, {}) && k <= |log| && n >= 1
    ensures LogWork(log[..k]) == WorkIn(LoggedTree(log, n), IdsOf(log[..k]), 1)
    decreases k
  {
    var d := LoggedTree(log, n);
    if k == 0 {
      WorkInNone(d, 1);
      assert IdsOf(log[..0]) == {};
    } else {
      var init, r := log[..k - 1], log[k - 1];
      LogWorkIn(log, n, k - 1);
      assert log[..k] == init + [r];
      LogWorkAppend(init, r);
      assert forall i {:trigger init[i]} :: 0 <= i < |init| ==> init[i] == log[i];
      assert r.id !in IdsOf(init);
      assert IdsOf(log[..k]) == IdsOf(init) + {r.id};
      WorkInAdd(d, IdsOf(init), r.id, 1);
      assert IndexOf(log, r.id).value == k - 1;
      assert d[r.id] == NodeOf(log, r.id);
    }
  }

  lemma {:induction false} LoggedWork(log: seq<Record>, n: nat)
    requires LogsExactly(log, n, {}) && n >= 1
    ensures LogWork(log) == StepWork(LoggedTree(log, n), 1)
  {
    LogWorkIn(log, n, |log|);
    assert log[..|log|] == log;
    forall v: nat | 1 <= v < n ensures v in IdsOf(log) {
      assert Logged(log, v);
    }
    WorkInAll(LoggedTree(log, n), IdsOf(log), 1);
  }

  // ---- the regions of the steps ----

  function RegionSum(regions: seq<(nat, nat)>): nat {
    if regions == [] then 0 else RegionSum(regions[..|regions| - 1]) + regions[|regions| - 1].1
  }

  /** The work of the entries that name region `r`. */
  function RegionTotal(regions: seq<(nat, nat)>, r: nat): nat {
    if regions == [] then 0
    else RegionTotal(regions[..|regions| - 1], r) + if regions[|regions| - 1].0 == r then regions[|regions| - 1].1 else 0
  }

  /** `m` has an entry for each region that is named, with its total. */
  ghost predicate Totals(regions: seq<(nat, nat)>, m: map<nat, nat>) {
    && (forall k {:trigger m[k]} :: k in m ==> m[k] == RegionTotal(regions, k))
    && (forall j {:trigger regions[j]} :: 0 <= j < |regions| ==> regions[j].0 in m)
    && forall k {:trigger k in m} :: k in m ==> exists j :: 0 <= j < |regions| && regions[j].0 == k
  }

  /** The loader files every entry under the region that it names. */
  lemma {:induction false} RegionsTotal(regions: seq<(nat, nat)>)
    ensures Totals(regions, RegionMap(AddRegions(None, regions)))
    ensures forall r: nat {:trigger RegionTotal(regions, r)} :: Get(RegionMap(AddRegions(None, regions)), r) == RegionTotal(regions, r)
    decreases |regions|
  {
    if regions != [] {
      var init, last := regions[..|regions| - 1], regions[|regions| - 1];
      RegionsTotal(init);
      var m, n := RegionMap(AddRegions(None, init)), RegionMap(AddRegions(None, regions));
      assert n == Add(m, last.0, last.1);
      assert forall j {:trigger regions[j]} :: 0 <= j < |init| ==> init[j] == regions[j];
      forall r: nat ensures Get(n, r) == RegionTotal(regions, r) {
        assert Get(m, r) == RegionTotal(init, r);
      }
      forall k | k in n ensures n[k] == RegionTotal(regions, k) {
        assert n[k] == Get(n, k);
      }
      forall k | k in n ensures exists j :: 0 <= j < |regions| && regions[j].0 == k {
        if k in m {
          var j :| 0 <= j < |init| && init[j].0 == k;
          assert regions[j].0 == k;
        } else {
          assert regions[|regions| - 1].0 == k;
        }
      }
    }
  }

  /** The regions of a step were measured while it was executed. */
  predicate LineFits(l: Line) {
    l.record.kind == STEP ==> RegionSum(l.regions) <= l.record.work
  }

  lemma {:induction false} RegionsAdd(regions: seq<(nat, nat)>)
    ensures var m := AddRegions(None, regions); m.Some? ==> Sum(m.value) == RegionSum(regions)
    ensures AddRegions(None, regions).None? ==> regions == []
    decreases |regions|
  {
    if regions != [] {
      RegionsAdd(regions[..|regions| - 1]);
      var (region, work) := regions[|regions| - 1];
      match AddRegions(None, regions[..|regions| - 1])
      case None => SumSingle(region, work);
      case Some(x) => SumAdd(x, region, work);
    }
  }

  lemma {:induction false} NodeFits(lines: seq<Line>, v: nat)
    requires Distinct(lines) && forall j {:trigger lines[j]} :: 0 <= j < |lines| ==> LineFits(lines[j])
    ensures RegionsFit(NodeAfter(lines, v))
    ensures (forall j {:trigger lines[j]} :: 0 <= j < |lines| ==> lines[j].record.id != v) ==> NodeAfter(lines, v).regionWork == None
    ensures forall j {:trigger lines[j]} :: 0 <= j < |lines| && lines[j].record.id == v && lines[j].record.kind == STEP ==>
              NodeAfter(lines, v).regionWork == AddRegions(None, lines[j].regions)
    decreases |lines|
  {
    if lines != [] {
      var init, l := lines[..|lines| - 1], lines[|lines| - 1];
      assert forall j {:trigger lines[j]} :: 0 <= j < |init| ==> init[j] == lines[j];
      NodeFits(init, v);
      if l.record.id == v {
        RegionsAdd(l.regions);
        assert NodeAfter(init, v).regionWork == None;
        assert LineFits(l);
      }
    }
  }

  // ---- the profile of a run ----

  /** The run never calls spawn_root_and_wait while an implicit FINISH is open, and the source position of
      each such call is known. */
  ghost predicate Orderly(threads: nat, es: seq<Event>)
    requires threads > 0 && Run(threads, es).Some?
  {
    Disciplined(threads, es) && forall k {:trigger es[k]} :: 0 <= k < |es| ==> Named(es[k])
  }

  /** What a finished run gives the analysis to work on. */
  lemma {:induction false} RunReady(threads: nat, es: seq<Event>, files: seq<seq<Line>>)
    requires threads > 0 && Run(threads, es).Some? && Finished(Run(threads, es).value)
    requires Distributes(files, Run(threads, es).value.c.log)
    ensures var c := Run(threads, es).value.c; var d := LoggedTree(c.log, c.last);
            && Valid(d) && FinishOrdered(d) && Grown(d) && T.Known(d, c.callSites) && StepWork(d, 1) == EventWork(es)
            && LogsExactly(c.log, c.last, {}) && |Flatten(files)| == c.last - 1 && c.last >= 2
            && (Orderly(threads, es) ==> Clean(d) && !Lossy(d, c.callSites) && !Overtaken(d))
  {
    hide Run, Inv, Finished, Alternating, T.Known, Disciplined, Named, LogsExactly, FinishOrdered, Grown, Lossy, Overtaken, Forked, Clean;
    FinishedRun(threads, es);
    FinishedLabels(threads, es);
    FinishedGrown(threads, es);
    RunLogs(threads, es);
    var c := Run(threads, es).value.c;
    assert c.last >= 2;
    LoggedWork(c.log, c.last);
    LineCount(Flatten(files), c.log, c.last);
    if Orderly(threads, es) {
      AlternatingIsFine(LoggedTree(c.log, c.last), c.callSites);
      AlternatingIsClean(LoggedTree(c.log, c.last));
    }
  }

  /** For the tree that a finished run has logged, but with any works: when attribution is exact, and when
      no subtraction borrows. */
  lemma {:induction false} RunShapes(threads: nat, es: seq<Event>)
    requires threads > 0 && Run(threads, es).Some? && Finished(Run(threads, es).value)
    ensures var c := Run(threads, es).value.c; var d := LoggedTree(c.log, c.last);
            && (AlwaysExact(d, c.callSites) <==> !Lossy(d, c.callSites))
            && (NeverBorrows(d, c.callSites) <==> !Overtaken(d))
  {
    hide Run, Inv, Finished, Grown, Lossy, Overtaken, AlwaysExact, NeverBorrows, LogsExactly, FinishOrdered;
    FinishedRun(threads, es);
    FinishedGrown(threads, es);
    var c := Run(threads, es).value.c;
    ExactIff(LoggedTree(c.log, c.last), c.callSites);
    BorrowIff(LoggedTree(c.log, c.last), c.callSites);
  }

  /** Every step has the work and the regions of its line. */
  ghost predicate Measured(lines: seq<Line>, s: seq<AFTask>) {
    forall j {:trigger lines[j]} :: 0 <= j < |lines| && lines[j].record.kind == STEP ==>
      && lines[j].record.id < |s| && s[lines[j].record.id].kind == STEP && s[lines[j].record.id].work == lines[j].record.work
      && s[lines[j].record.id].regionWork == AddRegions(None, lines[j].regions)
  }

  ghost predicate Analysed(d: Tree, parFor: map<nat, bool>, work: nat, s: seq<AFTask>) {
    && |s| >= |d| >= 2 && Linked(d, s) && s[1].work == work && s[1].criticalChild == Span(d, 1)
    && (!Lossy(d, parFor) ==> s[1].localLocalWork + Sum(CallSites(s[1])) == s[1].criticalChild)
    && (!Overtaken(d) ==> s[1].localLocalWork >= 0 && NonNegative(CallSites(s[1])))
    && (Clean(d) ==> exists c :: Accounts(d, parFor, c, s[1]))
  }

  /** Loads the files that a run has left behind, and analyses them. */
  method Analyse(files: seq<seq<Line>>, parFor: map<nat, bool>, capacity: nat, ghost threads: nat, ghost es: seq<Event>)
    returns (profiler: T.TaskProfiler)
    requires threads > 0 && Run(threads, es).Some? && Finished(Run(threads, es).value)
    requires Distributes(files, Run(threads, es).value.c.log) && InBounds(files, capacity)
    requires capacity >= Run(threads, es).value.c.last && parFor == Run(threads, es).value.c.callSites
    ensures fresh(profiler) && fresh(profiler.nodes)
    ensures var c := Run(threads, es).value.c; var d := LoggedTree(c.log, c.last);
            && Valid(d) && FinishOrdered(d) && Grown(d) && profiler.lastAllocatedNode + 1 == |d| <= profiler.nodes.Length
            && Analysed(d, parFor, EventWork(es), profiler.nodes[..])
            && (Orderly(threads, es) ==> Clean(d) && !Lossy(d, parFor) && !Overtaken(d))
            && ((forall j {:trigger Flatten(files)[j]} :: 0 <= j < |Flatten(files)| ==> LineFits(Flatten(files)[j]))
                ==> AllFit(d, profiler.nodes[..]) && Measured(Flatten(files), profiler.nodes[..]))
  {
    hide Run, Inv, Finished, T.Known, Orderly, LogsExactly, FinishOrdered, Valid, Grown, Forked, Lossy, Overtaken, LineFits,
         AllFit, Fresh, Loaded, Profiled, Topological, PassTo, NodeAfter, SameRegions, Analysed, Linked, Span, StepWork, Clean, Accounts, Measured;
    ghost var c := Run(threads, es).value.c;
    ghost var d := LoggedTree(c.log, c.last);
    RunReady(threads, es, files);
    var graph := new TaskGraph(capacity);
    graph.CreateDpst(files);
    ghost var s := graph.tgraphNodes[..];
    FilesFresh(Flatten(files), c.log, c.last, s);
    profiler := new T.TaskProfiler(graph.tgraphNodes, graph.lastAllocatedNode, parFor);
    profiler.CalculateRecurse(d);
    AnalysedFrom(d, parFor, EventWork(es), profiler.nodes[..]);
    if forall j {:trigger Flatten(files)[j]} :: 0 <= j < |Flatten(files)| ==> LineFits(Flatten(files)[j]) {
      FilesFit(Flatten(files), c.log, c.last, s, profiler.nodes[..]);
    }
  }

  lemma {:induction false} AnalysedFrom(d: Tree, parFor: map<nat, bool>, work: nat, s: seq<AFTask>)
    requires Valid(d) && Grown(d) && Loaded(d, s) && s[1].work == work && s[1].criticalChild == Span(d, 1)
    requires Forked(d) && !Lossy(d, parFor) ==> s[1].localLocalWork + Sum(CallSites(s[1])) == s[1].criticalChild
    requires Forked(d) && !Overtaken(d) ==> s[1].localLocalWork >= 0 && NonNegative(CallSites(s[1]))
    requires Clean(d) ==> exists c :: Accounts(d, parFor, c, s[1])
    ensures Analysed(d, parFor, work, s)
  {
    hide Lossy, Overtaken, Forked, Valid, Clean, Accounts;
    ValidSize(d);
  }

  lemma {:induction false} FilesFit(lines: seq<Line>, log: seq<Record>, n: nat, s: seq<AFTask>, t: seq<AFTask>)
    requires LogsExactly(log, n, {}) && multiset(Records(lines)) == multiset(log)
    requires n <= |s| && forall v: nat {:trigger s[v]} :: v < n ==> s[v] == NodeAfter(lines, v)
    requires forall j {:trigger lines[j]} :: 0 <= j < |lines| ==> LineFits(lines[j])
    requires Fresh(LoggedTree(log, n), s) && Loaded(LoggedTree(log, n), t) && SameRegions(s, t)
    ensures AllFit(LoggedTree(log, n), t) && Measured(lines, t)
  {
    hide LogsExactly, Records, NodeAfter, LineFits, RegionsFit, NodeOf, Linked, AddRegions;
    var d := LoggedTree(log, n);
    FilesDistinct(lines, log, n);
    LoadedSize(d, t);
    RootNotLogged(log, n);
    forall v | 0 <= v < |d| && d[v].kind == STEP ensures RegionsFit(t[v]) && t[v].work == d[v].work {
      NodeFits(lines, v);
      assert v < n && s[v] == NodeAfter(lines, v) && s[v].work == d[v].work && t[v].work == d[v].work;
      RegionsKept(s, t, v);
      SameFits(s[v], t[v]);
    }
    forall j | 0 <= j < |lines| && lines[j].record.kind == STEP
      ensures lines[j].record.id < |t| && t[lines[j].record.id].kind == STEP
      ensures t[lines[j].record.id].work == lines[j].record.work
      ensures t[lines[j].record.id].regionWork == AddRegions(None, lines[j].regions)
    {
      LineMeasured(lines, log, n, s, t, j);
    }
  }

  lemma {:induction false} LineMeasured(lines: seq<Line>, log: seq<Record>, n: nat, s: seq<AFTask>, t: seq<AFTask>, j: nat)
    requires LogsExactly(log, n, {}) && multiset(Records(lines)) == multiset(log) && j < |lines| && lines[j].record.kind == STEP
    requires n <= |s| && forall v: nat {:trigger s[v]} :: v < n ==> s[v] == NodeAfter(lines, v)
    requires forall j {:trigger lines[j]} :: 0 <= j < |lines| ==> LineFits(lines[j])
    requires Loaded(LoggedTree(log, n), t) && SameRegions(s, t)
    ensures var v := lines[j].record.id;
            && v < |t| && t[v].kind == STEP && t[v].work == lines[j].record.work && t[v].regionWork == AddRegions(None, lines[j].regions)
  {
    hide LogsExactly, Records, NodeAfter, LineFits, RegionsFit, NodeOf, AddRegions;
    var v := lines[j].record.id;
    FilesDistinct(lines, log, n);
    NodeOfLine(lines, log, n, j);
    NodeFits(lines, v);
    RegionsKept(s, t, v);
    assert LoggedTree(log, n)[v] == NodeOf(log, v) && s[v] == NodeAfter(lines, v);
    assert t[v].kind == STEP;
  }

  lemma {:induction false} RegionsKept(s: seq<AFTask>, t: seq<AFTask>, v: nat)
    requires SameRegions(s, t) && v < |s|
    ensures v < |t| && t[v].regionWork == s[v].regionWork
  {
  }

  lemma {:induction false} RootNotLogged(log: seq<Record>, n: nat)
    requires LogsExactly(log, n, {}) && n > 0
    ensures LoggedTree(log, n)[0].kind == NO_TYPE
  {
    assert LoggedTree(log, n)[0] == NodeOf(log, 0);
  }

  lemma {:induction false} SameFits(t: AFTask, u: AFTask)
    requires RegionsFit(t) && u.regionWork == t.regionWork && u.work == t.work
    ensures RegionsFit(u)
  {
  }

  /** Loads the files that a run has left behind and profiles them: the root gets exactly the work
      that the run measured and the span of the tree it logged, which is the weight of the heaviest
      chain of steps; the critical path is fully attributed unless the tree has a FINISH that drops call
      sites, and no share is negative unless a FINISH overtakes a task. For an orderly run, there is a
      critical path such that every call site has the work of the steps that it owns on that path. */
  method Profile(files: seq<seq<Line>>, parFor: map<nat, bool>, capacity: nat, ghost threads: nat, ghost es: seq<Event>)
    returns (root: AFTask)
    requires threads > 0 && Run(threads, es).Some? && Finished(Run(threads, es).value)
    requires Distributes(files, Run(threads, es).value.c.log) && InBounds(files, capacity)
    requires capacity >= Run(threads, es).value.c.last && parFor == Run(threads, es).value.c.callSites
    ensures root.work == EventWork(es)
    ensures var c := Run(threads, es).value.c; root.criticalChild == Span(LoggedTree(c.log, c.last), 1)
    ensures var c := Run(threads, es).value.c; var d := LoggedTree(c.log, c.last);
            && (forall a {:trigger Chain(d, a)} :: Chain(d, a) ==> Weight(d, a, |d|) <= root.criticalChild)
            && (exists a :: Chain(d, a) && Weight(d, a, |d|) == root.criticalChild)
    ensures var c := Run(threads, es).value.c; var d := LoggedTree(c.log, c.last);
            && (!Lossy(d, parFor) ==> root.localLocalWork + Sum(CallSites(root)) == root.criticalChild)
            && (!Overtaken(d) ==> root.localLocalWork >= 0 && NonNegative(CallSites(root)))
            && (Clean(d) ==> exists a :: Accounts(d, parFor, a, root))
            && (Orderly(threads, es) ==> Clean(d) && !Lossy(d, parFor) && !Overtaken(d))
  {
    hide Run, Inv, Finished, Orderly, FinishOrdered, Valid, Chain, Grown, Lossy, Overtaken, LineFits, AllFit, Clean, Accounts;
    ghost var c := Run(threads, es).value.c;
    ghost var d := LoggedTree(c.log, c.last);
    var profiler := Analyse(files, parFor, capacity, threads, es);
    ValidSize(d);
    SpanIsHeaviestChain(d);
    root := profiler.nodes[1];
  }

  // ---- what-if experiments on the same graph ----

  ghost function Predicted(d: Tree, s: seq<AFTask>, trial: (nat, nat)): nat
    requires |d| > 1 && |d| <= |s| && trial.1 > 0
  {
    Span(Optimised(d, s, trial.0, trial.1), 1)
  }

  lemma {:induction false} SameOptimised(d: Tree, s: seq<AFTask>, t: seq<AFTask>, region: nat, p: nat)
    requires SpanFieldsOnly(s, t) && |d| <= |s| && p > 0 && (forall i {:trigger d[i].kind} :: 0 <= i < |d| && d[i].kind == STEP ==> s[i].work == t[i].work)
    ensures Optimised(d, t, region, p) == Optimised(d, s, region, p)
  {
    forall i | 0 <= i < |d| ensures Optimised(d, t, region, p)[i] == Optimised(d, s, region, p)[i] {
      assert t[i].regionWork == s[i].regionWork;
    }
  }

  lemma {:induction false} StillFits(d: Tree, s: seq<AFTask>, t: seq<AFTask>)
    requires SpanFieldsOnly(s, t) && Linked(d, s) && AllFit(d, s)
    ensures Linked(d, t) && AllFit(d, t) && |d| <= |s| == |t|
    ensures forall i {:trigger d[i].kind} :: 0 <= i < |d| && d[i].kind == STEP ==> s[i].work == t[i].work
  {
    hide RegionsFit;
    forall i | 0 <= i < |d| && d[i].kind == STEP ensures RegionsFit(t[i]) && t[i].work == d[i].work && s[i].work == t[i].work {
      assert s[i].work == d[i].work;
      SameFits(s[i], t[i]);
    }
  }

  /** What a what-if experiment makes of the step of a line: its weight becomes `e`. */
  ghost predicate LineSped(l: Line, region: nat, p: nat, e: nat) {
    if region != 0 then SpedUp(l.record.work, RegionTotal(l.regions, region), p, e)
    else exists m: map<nat, nat> :: Totals(l.regions, m) && AllSpedUp(l.record.work, m, p, e)
  }

  /** The tree `e` is the tree `d` with the steps sped up as the lines say. */
  ghost predicate Sped(d: Tree, lines: seq<Line>, region: nat, p: nat, e: Tree) {
    && SameShape(d, e)
    && forall j {:trigger lines[j]} :: 0 <= j < |lines| && lines[j].record.kind == STEP ==>
         lines[j].record.id < |e| && LineSped(lines[j], region, p, e[lines[j].record.id].work)
  }

  ghost predicate Predicts(d: Tree, lines: seq<Line>, trial: (nat, nat), span: nat) {
    exists e: Tree :: Sped(d, lines, trial.0, trial.1, e) && |e| > 1 && span == Span(e, 1)
  }

  lemma {:induction false} OptimisedIsSped(d: Tree, lines: seq<Line>, s: seq<AFTask>, region: nat, p: nat)
    requires |d| <= |s| && p > 0 && AllFit(d, s) && Measured(lines, s) && Linked(d, s)
    requires forall j {:trigger lines[j]} :: 0 <= j < |lines| ==> lines[j].record.id < |d|
    ensures Sped(d, lines, region, p, Optimised(d, s, region, p))
  {
    hide RegionsFit, AddRegions, StepWeight, LineSped;
    var e := Optimised(d, s, region, p);
    forall j | 0 <= j < |lines| && lines[j].record.kind == STEP ensures LineSped(lines[j], region, p, e[lines[j].record.id].work) {
      var v := lines[j].record.id;
      assert s[v].kind == STEP;
      StepOf(d, s, v);
      LineLaw(lines[j], s[v], region, p);
    }
  }

  lemma {:induction false} StepOf(d: Tree, s: seq<AFTask>, v: nat)
    requires |d| <= |s| && v < |d| && Linked(d, s) && s[v].kind == STEP && AllFit(d, s)
    ensures d[v].kind == STEP && RegionsFit(s[v])
  {
    hide RegionsFit;
  }

  lemma {:induction false} LineLaw(l: Line, t: AFTask, region: nat, p: nat)
    requires p > 0 && RegionsFit(t) && t.work == l.record.work && t.regionWork == AddRegions(None, l.regions)
    ensures LineSped(l, region, p, StepWeight(t, region, p))
  {
    hide RegionsFit, AddRegions, StepWeight, SpedUp, AllSpedUp, Totals;
    WeightLaw(t, region, p);
    RegionsTotal(l.regions);
    assert Get(RegionMap(t.regionWork), region) == RegionTotal(l.regions, region);
  }

  lemma {:induction false} FactorOneChangesNothing(d: Tree, s: seq<AFTask>, region: nat)
    requires AllFit(d, s)
    ensures Optimised(d, s, region, 1) == d
  {
    hide RegionsFit, StepWeight;
    forall i | 0 <= i < |d| ensures Optimised(d, s, region, 1)[i] == d[i] {
      if d[i].kind == STEP {
        WeightLaw(s[i], region, 1);
      }
    }
  }

  /** A region (0 stands for all of them) and the factor by which it is made faster. */
  predicate Compares(a: (nat, nat), b: (nat, nat)) {
    (a.0 == b.0 || b.0 == 0) && a.1 <= b.1
  }

  /** The profile of a run, followed by what-if experiments on the same graph, one after the other: each of
      them predicts the span of the tree with the entries of the region sped up by the factor. None of them
      predicts more than the measured span, a greater factor never predicts more than a smaller one, and no
      region alone predicts less than all of them together. */
  method Predict(files: seq<seq<Line>>, parFor: map<nat, bool>, capacity: nat, trials: seq<(nat, nat)>,
                 ghost threads: nat, ghost es: seq<Event>)
    returns (root: AFTask, spans: seq<nat>)
    requires threads > 0 && Run(threads, es).Some? && Finished(Run(threads, es).value)
    requires Distributes(files, Run(threads, es).value.c.log) && InBounds(files, capacity)
    requires capacity >= Run(threads, es).value.c.last && parFor == Run(threads, es).value.c.callSites
    requires forall j {:trigger Flatten(files)[j]} :: 0 <= j < |Flatten(files)| ==> LineFits(Flatten(files)[j])
    requires forall k {:trigger trials[k]} :: 0 <= k < |trials| ==> trials[k].1 > 0
    ensures root.work == EventWork(es)
    ensures var c := Run(threads, es).value.c; root.criticalChild == Span(LoggedTree(c.log, c.last), 1)
    ensures |spans| == |trials| && forall k {:trigger spans[k]} :: 0 <= k < |spans| ==> spans[k] <= root.criticalChild
    ensures forall j, k {:trigger spans[j], spans[k]} :: 0 <= j < |spans| && 0 <= k < |spans| && Compares(trials[j], trials[k]) ==>
              spans[k] <= spans[j]
    ensures var c := Run(threads, es).value.c;
            forall k {:trigger spans[k]} :: 0 <= k < |spans| ==> Predicts(LoggedTree(c.log, c.last), Flatten(files), trials[k], spans[k])
    ensures forall k {:trigger spans[k]} :: 0 <= k < |spans| && trials[k].1 == 1 ==> spans[k] == root.criticalChild
  {
    hide Run, Inv, Finished, Orderly, FinishOrdered, Valid, Grown, Lossy, Overtaken, LineFits, AllFit, Linked, SpanFieldsOnly, Predicted, Clean, Accounts, Measured, Predicts,
         LogsExactly;
    ghost var c := Run(threads, es).value.c;
    ghost var d := LoggedTree(c.log, c.last);
    var profiler := Analyse(files, parFor, capacity, threads, es);
    ValidSize(d);
    root := profiler.nodes[1];
    spans := [];
    ghost var s := profiler.nodes[..];
    SpanFieldsRefl(s);
    var k := 0;
    while k < |trials|
      invariant 0 <= k == |spans| <= |trials| && SpanFieldsOnly(s, profiler.nodes[..])
      invariant forall j {:trigger spans[j]} :: 0 <= j < k ==> spans[j] == Predicted(d, s, trials[j])
    {
      ghost var t := profiler.nodes[..];
      StillFits(d, s, t);
      profiler.CalculateRecurseRegion(trials[k].0, trials[k].1, d);
      SameOptimised(d, s, t, trials[k].0, trials[k].1);
      PredictedIs(d, s, trials[k]);
      SpanFieldsTrans(s, t, profiler.nodes[..]);
      spans := spans + [profiler.nodes[1].criticalChild];
      k := k + 1;
    }
    PredictionsCompare(d, s, trials, spans);
    FinishedRun(threads, es);
    LinesInside(Flatten(files), c.log, c.last);
    forall j | 0 <= j < |spans|
      ensures Predicts(d, Flatten(files), trials[j], spans[j])
      ensures trials[j].1 == 1 ==> spans[j] == root.criticalChild
    {
      PredictionIs(d, Flatten(files), s, trials[j]);
    }
  }

  lemma {:induction false} LinesInside(lines: seq<Line>, log: seq<Record>, n: nat)
    requires LogsExactly(log, n, {}) && multiset(Records(lines)) == multiset(log)
    ensures forall j {:trigger lines[j]} :: 0 <= j < |lines| ==> lines[j].record.id < n
  {
    hide LogsExactly;
    forall j | 0 <= j < |lines| ensures lines[j].record.id < n {
      NodeOfLine(lines, log, n, j);
    }
  }

  lemma {:induction false} PredictionIs(d: Tree, lines: seq<Line>, s: seq<AFTask>, trial: (nat, nat))
    requires 1 < |d| <= |s| && trial.1 > 0 && AllFit(d, s) && Measured(lines, s) && Linked(d, s)
    requires forall j {:trigger lines[j]} :: 0 <= j < |lines| ==> lines[j].record.id < |d|
    ensures Predicts(d, lines, trial, Predicted(d, s, trial))
    ensures trial.1 == 1 ==> Predicted(d, s, trial) == Span(d, 1)
  {
    hide AllFit, Measured, Linked, Span, Sped;
    OptimisedIsSped(d, lines, s, trial.0, trial.1);
    if trial.1 == 1 {
      FactorOneChangesNothing(d, s, trial.0);
    }
  }

  lemma {:induction false} PredictedIs(d: Tree, s: seq<AFTask>, trial: (nat, nat))
    requires |d| > 1 && |d| <= |s| && trial.1 > 0
    ensures Predicted(d, s, trial) == Span(Optimised(d, s, trial.0, trial.1), 1)
  {
  }

  lemma {:induction false} PredictionsCompare(d: Tree, s: seq<AFTask>, trials: seq<(nat, nat)>, spans: seq<nat>)
    requires AllFit(d, s) && |d| > 1 && |spans| == |trials| && forall k {:trigger trials[k]} :: 0 <= k < |trials| ==> trials[k].1 > 0
    requires |d| <= |s| && forall j {:trigger spans[j]} :: 0 <= j < |spans| ==> spans[j] == Predicted(d, s, trials[j])
    ensures forall k {:trigger spans[k]} :: 0 <= k < |spans| ==> spans[k] <= Span(d, 1)
    ensures forall j, k {:trigger spans[j], spans[k]} :: 0 <= j < |spans| && 0 <= k < |spans| && Compares(trials[j], trials[k]) ==>
              spans[k] <= spans[j]
  {
    hide AllFit, Span, Optimised;
    forall k | 0 <= k < |spans| ensures spans[k] <= Span(d, 1) {
      Prediction(d, s, trials[k].0, trials[k].1, trials[k].1);
    }
    forall j, k | 0 <= j < |spans| && 0 <= k < |spans| && Compares(trials[j], trials[k]) ensures spans[k] <= spans[j] {
      Prediction(d, s, trials[j].0, trials[j].1, trials[k].1);
    }
  }
}
