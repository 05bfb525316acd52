/** Which steps the DPST puts in series: exactly those that the spawns and waits of the run order. */
module ProtocolOrder {
  import opened Completion
  import opened Dpst
  import opened Chains
  import opened Growth
  import opened Collector
  import opened Protocol
  import opened ProtocolEvents
  import opened ProtocolRuns
  import opened ProtocolDiscipline
  import ProtocolTime

  // ---- what comes before the next child of a node ----

  /** Node `x` comes, in series, before a new child of node `p`. */
  ghost predicate Ahead(d: Tree, x: nat, p: nat) {
    && 1 <= x < |d| && d[x].kind != ASYNC
    && (d[x].parent == p || exists y: nat :: x < y < |d| && d[y].parent == d[x].parent && Below(d, y, p))
  }

  ghost predicate Earlier(d: Tree, u: nat, p: nat) {
    exists x: nat :: Ahead(d, x, p) && Below(d, x, u)
  }

  /** The steps that have ended and come before the next child of `p`. */
  ghost function Past(d: Tree, at: seq<Place>, p: nat): set<nat> {
    set u: nat | u < |d| && u < |at| && d[u].kind == STEP && !at[u].Running? && Earlier(d, u, p)
  }

  /** The steps below `f` that have ended. */
  ghost function Done(d: Tree, at: seq<Place>, f: nat): set<nat> {
    set u: nat | u < |d| && u < |at| && d[u].kind == STEP && !at[u].Running? && Below(d, f, u)
  }

  /** The FINISH nodes other than the root that `p` lies below. */
  ghost function Scopes(d: Tree, p: nat): set<nat> {
    set f: nat | 2 <= f < |d| && d[f].kind == FINISH && Below(d, f, p)
  }

  lemma {:induction false} AheadPrefix(d: Tree, e: Tree, x: nat, p: nat)
    requires d <= e && x < |d| && p < |d|
    ensures Ahead(e, x, p) <==> Ahead(d, x, p)
  {
    assert e[x] == d[x];
    if Ahead(e, x, p) && e[x].parent != p {
      var y: nat :| x < y < |e| && e[y].parent == e[x].parent && Below(e, y, p);
      Later(e, y, p);
      ProtocolTime.BelowPrefix(d, e, y, p);
      assert e[y] == d[y];
    }
    if Ahead(d, x, p) && d[x].parent != p {
      var y: nat :| x < y < |d| && d[y].parent == d[x].parent && Below(d, y, p);
      ProtocolTime.BelowPrefix(d, e, y, p);
      assert e[y] == d[y];
    }
  }

  /** New nodes change nothing for the old ones. */
  lemma {:induction false} EarlierPrefix(d: Tree, e: Tree, u: nat, p: nat)
    requires d <= e && u < |d| && p < |d|
    ensures Earlier(e, u, p) <==> Earlier(d, u, p)
  {
    hide Ahead;
    if Earlier(e, u, p) {
      var x: nat :| Ahead(e, x, p) && Below(e, x, u);
      Later(e, x, u);
      AheadPrefix(d, e, x, p);
      ProtocolTime.BelowPrefix(d, e, x, u);
    }
    if Earlier(d, u, p) {
      var x: nat :| Ahead(d, x, p) && Below(d, x, u);
      Later(d, x, u);
      AheadPrefix(d, e, x, p);
      ProtocolTime.BelowPrefix(d, e, x, u);
    }
  }

  lemma {:induction false} BelowParent(d: Tree, f: nat, v: nat)
    requires ParentsFirst(d) && 2 <= v < |d|
    ensures Below(d, f, v) <==> f == v || Below(d, f, d[v].parent)
  {
    if Below(d, f, d[v].parent) {
      Later(d, f, d[v].parent);
    }
  }

  /** What comes before a node also comes before its children, and nothing else that is older than it. */
  lemma {:induction false} EarlierChild(d: Tree, u: nat, v: nat)
    requires ParentsFirst(d) && 2 <= v < |d| && u < v
    ensures Earlier(d, u, v) <==> Earlier(d, u, d[v].parent)
  {
    var q := d[v].parent;
    if Earlier(d, u, v) {
      var x: nat :| Ahead(d, x, v) && Below(d, x, u);
      Later(d, x, u);
      assert x < v && d[x].parent != v by {
        assert x >= 2 ==> d[x].parent < x;
      }
      var y: nat :| x < y < |d| && d[y].parent == d[x].parent && Below(d, y, v);
      BelowParent(d, y, v);
      assert Ahead(d, x, q);
    }
    if Earlier(d, u, q) {
      var x: nat :| Ahead(d, x, q) && Below(d, x, u);
      Later(d, x, u);
      if d[x].parent == q {
        assert x < v && Below(d, v, v);
      } else {
        var y: nat :| x < y < |d| && d[y].parent == d[x].parent && Below(d, y, q);
        BelowParent(d, y, v);
      }
      assert Ahead(d, x, v);
    }
  }

  /** Being in series, for a step and an older one. */
  lemma {:induction false} SeriesEarlier(d: Tree, u: nat, v: nat)
    requires ParentsFirst(d) && 2 <= v < |d| && u < v
    ensures Series(d, u, v) <==> Earlier(d, u, v)
  {
    if Series(d, u, v) {
      var x: nat, y: nat :| Via(d, x, y, u, v);
      assert Ahead(d, x, v);
    }
    if Earlier(d, u, v) {
      var x: nat :| Ahead(d, x, v) && Below(d, x, u);
      Later(d, x, u);
      assert d[x].parent != v by {
        assert x >= 2 ==> d[x].parent < x;
      }
      var y: nat :| x < y < |d| && d[y].parent == d[x].parent && Below(d, y, v);
      assert Via(d, x, y, u, v);
    }
  }

  /** Steps have no children, so that nothing else is below them. */
  lemma {:induction false} Leaf(d: Tree, live: set<nat>, open: set<nat>, x: nat, u: nat)
    requires Ordered(d, live, open) && x < |d| && d[x].kind == STEP && Below(d, x, u)
    ensures u == x
    decreases u
  {
    if u != x {
      Leaf(d, live, open, x, d[u].parent);
    }
  }

  /** A step is in series after older steps only. */
  lemma {:induction false} SeriesOlder(d: Tree, live: set<nat>, open: set<nat>, u: nat, v: nat)
    requires Ordered(d, live, open) && Series(d, u, v)
    ensures u < v
  {
    var x: nat, y: nat :| Via(d, x, y, u, v);
    Later(d, y, v);
    if d[x].kind == STEP {
      Leaf(d, live, open, x, u);
    } else {
      assert d[x].kind == FINISH;
      assert d[y].parent == d[x].parent;
    }
  }

  // ---- growing trees ----

  /** New nodes appear at the end, and their steps are being executed; no old step ends or starts. */
  ghost predicate Grows(d: Tree, at: seq<Place>, e: Tree, at': seq<Place>) {
    && d <= e && |at| == |d| && |at'| == |e|
    && (forall u {:trigger at'[u]} :: 0 <= u < |d| ==> (at'[u].Running? <==> at[u].Running?))
    && (forall u {:trigger at'[u]} :: |d| <= u < |e| && e[u].kind == STEP ==> at'[u].Running?)
  }

  lemma {:induction false} PastGrows(d: Tree, at: seq<Place>, e: Tree, at': seq<Place>, p: nat)
    requires Grows(d, at, e, at') && p < |d|
    ensures Past(e, at', p) == Past(d, at, p)
  {
    hide Earlier;
    forall u: nat | u < |d| ensures u in Past(e, at', p) <==> u in Past(d, at, p) {
      EarlierPrefix(d, e, u, p);
      assert e[u] == d[u];
    }
    forall u: nat | |d| <= u < |e| ensures u !in Past(e, at', p) {
      assert e[u].kind == STEP ==> at'[u].Running?;
    }
  }

  lemma {:induction false} DoneGrows(d: Tree, at: seq<Place>, e: Tree, at': seq<Place>, f: nat)
    requires Grows(d, at, e, at')
    ensures Done(e, at', f) == Done(d, at, f)
  {
    forall u: nat | u < |d| ensures u in Done(e, at', f) <==> u in Done(d, at, f) {
      ProtocolTime.BelowPrefix(d, e, f, u);
      assert e[u] == d[u];
    }
    forall u: nat | |d| <= u < |e| ensures u !in Done(e, at', f) {
      assert e[u].kind == STEP ==> at'[u].Running?;
    }
  }

  lemma {:induction false} ScopesPrefix(d: Tree, e: Tree, p: nat)
    requires d <= e && p < |d|
    ensures Scopes(e, p) == Scopes(d, p)
  {
    forall f: nat ensures f in Scopes(e, p) <==> f in Scopes(d, p) {
      if Below(e, f, p) || Below(d, f, p) {
        if Below(e, f, p) {
          Later(e, f, p);
        } else {
          Later(d, f, p);
        }
        assert e[f] == d[f];
      }
      ProtocolTime.BelowPrefix(d, e, f, p);
    }
  }

  lemma {:induction false} ScopesChild(d: Tree, v: nat)
    requires ParentsFirst(d) && 2 <= v < |d|
    ensures Scopes(d, v) == Scopes(d, d[v].parent) + if d[v].kind == FINISH then {v} else {}
    ensures v !in Scopes(d, d[v].parent)
  {
    forall f: nat ensures f in Scopes(d, v) <==> f in Scopes(d, d[v].parent) || (f == v && d[v].kind == FINISH) {
      BelowParent(d, f, v);
    }
    if Below(d, v, d[v].parent) {
      Later(d, v, d[v].parent);
    }
  }

  /** What has ended before a node with no ended step in or after it is what has ended before the next
      child of its parent. */
  lemma {:induction false} PastChild(d: Tree, at: seq<Place>, v: nat)
    requires ParentsFirst(d) && 2 <= v < |d| == |at|
    requires forall u {:trigger at[u]} :: v <= u < |d| && d[u].kind == STEP ==> at[u].Running?
    ensures Past(d, at, v) == Past(d, at, d[v].parent)
  {
    hide Earlier;
    forall u: nat | u < |d| ensures u in Past(d, at, v) <==> u in Past(d, at, d[v].parent) {
      if u < v {
        EarlierChild(d, u, v);
      } else {
        assert d[u].kind == STEP ==> at[u].Running?;
      }
    }
  }

  lemma {:induction false} DoneNew(d: Tree, at: seq<Place>, f: nat)
    requires |d| == |at| && forall u {:trigger at[u]} :: f <= u < |d| && d[u].kind == STEP ==> at[u].Running?
    ensures Done(d, at, f) == {}
  {
    forall u: nat ensures u !in Done(d, at, f) {
      if u < |d| && Below(d, f, u) {
        Later(d, f, u);
        assert d[u].kind == STEP ==> at[u].Running?;
      }
    }
  }

  /** The steps in series before step `v` are those that had ended before the next child of its parent
      when `v` was the next child. */
  lemma {:induction false} SeriesIsPast(d: Tree, at: seq<Place>, live: set<nat>, v: nat)
    requires Ordered(d, live, Open(at)) && |at| == |d| && 2 <= v < |d| && d[v].kind == STEP
    requires forall u {:trigger at[u]} :: v <= u < |d| && d[u].kind == STEP ==> at[u].Running?
    ensures Past(d, at, d[v].parent) == set u: nat | u < |d| && d[u].kind == STEP && Series(d, u, v)
  {
    hide Earlier, Series, Ordered;
    OrderedFirst(d, live, Open(at));
    var p := d[v].parent;
    forall u: nat | u < |d| && d[u].kind == STEP ensures u in Past(d, at, p) <==> Series(d, u, v) {
      if Series(d, u, v) {
        SeriesOlder(d, live, Open(at), u, v);
        ProtocolTime.SeriesEnded(d, live, Open(at), u, v);
      }
      if u < v {
        SeriesEarlier(d, u, v);
        EarlierChild(d, u, v);
      } else {
        assert at[u].Running?;
      }
    }
  }

  lemma {:induction false} OrderedFirst(d: Tree, live: set<nat>, open: set<nat>)
    requires Ordered(d, live, open)
    ensures ParentsFirst(d)
  {
  }

  // ---- the end of a step ----

  lemma {:induction false} PastEnd(d: Tree, at: seq<Place>, a: nat, p: nat)
    requires a < |d| == |at| && d[a].kind == STEP && at[a].Running?
    ensures Past(d, at[a := Gone], p) == Past(d, at, p) + if Earlier(d, a, p) then {a} else {}
  {
    hide Earlier;
  }

  lemma {:induction false} DoneEnd(d: Tree, at: seq<Place>, a: nat, f: nat)
    requires a < |d| == |at| && d[a].kind == STEP && at[a].Running?
    ensures Done(d, at[a := Gone], f) == Done(d, at, f) + if Below(d, f, a) then {a} else {}
  {
  }

  /** A step that is being executed comes before the next child of a live node only if it is a child of
      that node itself, or below a FINISH child of that node. */
  lemma {:induction false} OpenEarlier(d: Tree, live: set<nat>, open: set<nat>, a: nat, p: nat) returns (x: nat)
    requires Ordered(d, live, open) && a in open && Earlier(d, a, p)
    ensures 1 <= x < |d| && d[x].parent == p && Below(d, x, a) && (d[x].kind == FINISH || x == a)
  {
    x :| Ahead(d, x, p) && Below(d, x, a);
    assert d[x].kind != NO_TYPE;
    if d[x].kind == STEP {
      Leaf(d, live, open, x, a);
    }
  }

  // ---- the order of a run ----

  /** An activation of a task: the steps that have ended before whatever it does next, the wait scopes it
      runs in, the scope that its own spawns have opened (0 if none), and the scope it waits for. */
  datatype Frame = Frame(past: set<nat>, scopes: set<nat>, sync: nat, wait: nat)

  /** The activations on every thread, those of the tasks that have not started, the steps that have ended
      inside of every wait scope, and for every step the steps that ended before it started. */
  datatype Clocks = Clocks(frames: seq<seq<Frame>>, waiting: map<nat, Frame>, done: map<nat, set<nat>>, before: map<nat, set<nat>>)

  function FirstClocks(threads: nat): Clocks
    requires threads > 0
  {
    Clocks(seq(threads, i => if i == 0 then [Frame({}, {}, 0, 0)] else []), map[], map[], map[2 := {}])
  }

  predicate CanTick(k: Clocks, s: Sys, e: Event) {
    && e.t < |k.frames| && e.t < |s.c.stacks|
    && (if e.Begin? then e.task in k.waiting else |k.frames[e.t]| > 0)
    && (e.EndStep? ==> Active(s.c, e.t))
    && (e.Resume? ==> Last(k.frames[e.t]).wait in k.done)
  }

  function SetLast(fs: seq<Frame>, f: Frame): seq<Frame>
    requires fs != []
  {
    fs[|fs| - 1 := f]
  }

  /** The state of the collector provides the names of steps and scopes: the next id for a new scope, the
      recorded child for the step that ends, and `v` and `w` for the first step of a new task and for the
      next step of the thread. */
  function Tick(k: Clocks, s: Sys, e: Event, v: nat, w: nat): Clocks
    requires CanTick(k, s, e)
  {
    var fs := k.frames[e.t];
    match e
    case EndStep(t, _) =>
      var a, f := Top(s.c.stacks[t]).child, Last(fs);
      k.(frames := k.frames[t := SetLast(fs, f.(past := f.past + {a}))],
         done := map r | r in k.done :: if r in f.scopes then k.done[r] + {a} else k.done[r])
    case Spawn(t, _) =>
      var f := Opened(Last(fs), s.c.last);
      k.(frames := k.frames[t := SetLast(fs, f)], waiting := k.waiting[s.tasks + 1 := Frame(f.past, f.scopes, 0, 0)],
         done := WithScope(k.done, f.sync), before := k.before[v := f.past][w := f.past])
    case SpawnAll(t, _) =>
      var f := Opened(Last(fs), s.c.last);
      k.(frames := k.frames[t := SetLast(fs, f.(wait := f.sync))],
         waiting := k.waiting[s.tasks + 1 := Frame(f.past, f.scopes, 0, 0)],
         done := WithScope(k.done, f.sync), before := k.before[v := f.past])
    case SpawnRoot(t, _) =>
      var f := Last(fs);
      k.(frames := k.frames[t := SetLast(fs, f.(wait := s.c.last))],
         waiting := k.waiting[s.tasks + 1 := Frame(f.past, f.scopes + {s.c.last}, 0, 0)],
         done := WithScope(k.done, s.c.last), before := k.before[v := f.past])
    case WaitAll(t) =>
      k.(frames := k.frames[t := SetLast(fs, Last(fs).(wait := Last(fs).sync))])
    case EndTask(t) =>
      k.(frames := k.frames[t := fs[..|fs| - 1]])
    case Begin(t, task) =>
      k.(frames := k.frames[t := fs + [k.waiting[task]]])
    case Resume(t) =>
      var f := Joined(Last(fs), k.done);
      k.(frames := k.frames[t := SetLast(fs, f)], before := k.before[w := f.past])
  }

  /** A task that spawns opens a wait scope unless it has one. */
  function Opened(f: Frame, scope: nat): Frame {
    if f.sync == 0 then f.(scopes := f.scopes + {scope}, sync := scope) else f
  }

  /** A wait joins everything that has ended in its scope, and closes the scope of the task's own spawns. */
  function Joined(f: Frame, done: map<nat, set<nat>>): Frame
    requires f.wait in done
  {
    var g := f.(past := f.past + done[f.wait]);
    if f.wait == f.sync then g.(scopes := g.scopes - {f.sync}, sync := 0) else g
  }

  function WithScope(done: map<nat, set<nat>>, scope: nat): map<nat, set<nat>> {
    if scope in done then done else done[scope := {}]
  }

  // ---- the order and the tree ----

  /** Frame `f` describes what comes before the next child of the open node `n`. */
  ghost predicate Placed(d: Tree, at: seq<Place>, f: Frame, n: OpenNode, why: Why) {
    && n.id < |d| && f.scopes == Scopes(d, n.id) && f.sync == (if n.sync then n.id else 0)
    && match why
       case Idle => f.past == Past(d, at, n.id)
       case ForTasks => n.sync && f.wait == n.id && f.past == Past(d, at, n.id)
       case ForRoot(r) =>
         && 2 <= r < |d| && d[r].kind == FINISH && d[r].parent == n.id && f.wait == r
         && f.past + Done(d, at, r) == Past(d, at, n.id)
  }

  /** The top node and the wait of the `i`-th activation on a thread. */
  function NodeOfFrame(st: Stack, ps: seq<Pause>, i: nat): Option<(OpenNode, Why)> {
    if i + 1 < |ps| then (if ps[i + 1].stack == [] then None else Some((Top(ps[i + 1].stack), ps[i + 1].why)))
    else if st == [] then None
    else Some((Top(st), Idle))
  }

  ghost predicate FrameOk(d: Tree, at: seq<Place>, st: Stack, ps: seq<Pause>, fs: seq<Frame>, i: nat)
    requires i < |fs|
  {
    var n := NodeOfFrame(st, ps, i);
    n.Some? && Placed(d, at, fs[i], n.value.0, n.value.1)
  }

  /** The activations of one thread. */
  ghost predicate ThreadOk(d: Tree, at: seq<Place>, st: Stack, ps: seq<Pause>, fs: seq<Frame>) {
    forall i {:trigger fs[i]} :: 0 <= i < |fs| ==> FrameOk(d, at, st, ps, fs, i)
  }

  ghost predicate FramesOk(s: Sys, frames: seq<seq<Frame>>)
    requires Protocol.Sized(s)
  {
    && |frames| == |s.mode|
    && (forall t {:trigger frames[t]} :: 0 <= t < |frames| ==> |frames[t]| == Frames(s, t))
    && (forall t {:trigger frames[t]} :: 0 <= t < |frames| ==>
          ThreadOk(s.tree, s.at, s.c.stacks[t], s.pauses[t], frames[t]))
  }

  ghost predicate WaitingOk(d: Tree, at: seq<Place>, pending: map<nat, OpenNode>, waiting: map<nat, Frame>) {
    forall j {:trigger pending[j]} :: j in pending ==> j in waiting && Placed(d, at, waiting[j], pending[j], Idle)
  }

  ghost predicate DoneOk(d: Tree, at: seq<Place>, done: map<nat, set<nat>>) {
    && (forall f {:trigger d[f].kind} :: 2 <= f < |d| && d[f].kind == FINISH ==> f in done)
    && (forall f {:trigger done[f]} :: f in done ==> 2 <= f < |d| && d[f].kind == FINISH && done[f] == Done(d, at, f))
  }

  ghost function SeriesBefore(d: Tree, v: nat): set<nat> {
    set u: nat | u < |d| && d[u].kind == STEP && Series(d, u, v)
  }

  /** The steps that ended before a step started are those that the tree puts in series before it. */
  ghost predicate BeforeOk(d: Tree, before: map<nat, set<nat>>) {
    forall v: nat {:trigger v in before} :: v < |d| && d[v].kind == STEP ==>
      v in before && before[v] == SeriesBefore(d, v)
  }

  ghost predicate Linked(s: Sys, k: Clocks) {
    && Protocol.Sized(s) && FramesOk(s, k.frames) && WaitingOk(s.tree, s.at, s.c.pending, k.waiting)
    && DoneOk(s.tree, s.at, k.done) && BeforeOk(s.tree, k.before)
  }

  // ---- events other than the end of a step ----

  lemma {:induction false} PlacedGrows(d: Tree, at: seq<Place>, e: Tree, at': seq<Place>, f: Frame, n: OpenNode, why: Why)
    requires Grows(d, at, e, at') && Placed(d, at, f, n, why)
    ensures Placed(e, at', f, n, why)
  {
    hide Grows, Past, Done, Scopes;
    GrowsLonger(d, at, e, at');
    PastGrows(d, at, e, at', n.id);
    ScopesPrefix(d, e, n.id);
    if why.ForRoot? {
      DoneGrows(d, at, e, at', why.finish);
    }
  }

  lemma {:induction false} GrowsLonger(d: Tree, at: seq<Place>, e: Tree, at': seq<Place>)
    requires Grows(d, at, e, at')
    ensures d <= e && |at| == |d| && |at'| == |e|
    ensures forall i {:trigger e[i]} :: 0 <= i < |d| ==> e[i] == d[i]
  {
  }

  lemma {:induction false} FrameGrows(d: Tree, at: seq<Place>, e: Tree, at': seq<Place>, st: Stack, ps: seq<Pause>, fs: seq<Frame>, i: nat)
    requires Grows(d, at, e, at') && i < |fs| && FrameOk(d, at, st, ps, fs, i)
    ensures FrameOk(e, at', st, ps, fs, i)
  {
    hide Grows, Placed;
    var n := NodeOfFrame(st, ps, i).value;
    PlacedGrows(d, at, e, at', fs[i], n.0, n.1);
  }

  lemma {:induction false} ThreadGrows(d: Tree, at: seq<Place>, e: Tree, at': seq<Place>, st: Stack, ps: seq<Pause>, fs: seq<Frame>)
    requires Grows(d, at, e, at') && ThreadOk(d, at, st, ps, fs)
    ensures ThreadOk(e, at', st, ps, fs)
  {
    hide Grows, Placed;
    forall i | 0 <= i < |fs| ensures FrameOk(e, at', st, ps, fs, i) {
      var f := fs[i];
      FrameGrows(d, at, e, at', st, ps, fs, i);
    }
  }

  /** The last activation of a thread gets a new stack and new calls; those below it are not touched. */
  lemma {:induction false} LastFrame(d: Tree, at: seq<Place>, st: Stack, ps: seq<Pause>, fs: seq<Frame>, st': Stack, ps': seq<Pause>,
                                     fs': seq<Frame>)
    requires fs' != [] && |fs'| <= |ps| && |fs'| <= |ps'| && ps'[..|fs'|] == ps[..|fs'|]
    requires |fs'| <= |fs| + 1 && fs'[..|fs'| - 1] == fs[..|fs'| - 1] && ThreadOk(d, at, st, ps, fs)
    requires FrameOk(d, at, st', ps', fs', |fs'| - 1)
    ensures ThreadOk(d, at, st', ps', fs')
  {
    hide Placed;
    forall i | 0 <= i < |fs'| ensures FrameOk(d, at, st', ps', fs', i) {
      if i < |fs'| - 1 {
        assert fs'[i] == fs'[..|fs'| - 1][i] == fs[i];
        assert ps'[i + 1] == ps'[..|fs'|][i + 1] == ps[i + 1];
        assert FrameOk(d, at, st, ps, fs, i);
      }
    }
  }

  lemma {:induction false} WaitingGrows(d: Tree, at: seq<Place>, e: Tree, at': seq<Place>, pending: map<nat, OpenNode>,
                                        waiting: map<nat, Frame>)
    requires Grows(d, at, e, at') && WaitingOk(d, at, pending, waiting)
    ensures WaitingOk(e, at', pending, waiting)
  {
    hide Grows, Placed;
    forall j | j in pending ensures j in waiting && Placed(e, at', waiting[j], pending[j], Idle) {
      PlacedGrows(d, at, e, at', waiting[j], pending[j], Idle);
    }
  }

  /** One new scope at most. */
  lemma {:induction false} ScopesGrow(d: Tree, at: seq<Place>, e: Tree, at': seq<Place>, done: map<nat, set<nat>>, scope: nat)
    requires Grows(d, at, e, at') && DoneOk(d, at, done) && 2 <= scope < |e| && e[scope].kind == FINISH
    requires forall f {:trigger e[f].kind} :: |d| <= f < |e| && e[f].kind == FINISH ==> f == scope
    ensures DoneOk(e, at', WithScope(done, scope))
  {
    hide Done;
    var done' := WithScope(done, scope);
    GrowsLonger(d, at, e, at');
    forall f | f in done' ensures 2 <= f < |e| && e[f].kind == FINISH && done'[f] == Done(e, at', f) {
      if f in done {
        assert e[f] == d[f];
        DoneGrows(d, at, e, at', f);
      } else {
        assert scope >= |d|;
        DoneNew(e, at', f);
      }
    }
  }

  lemma {:induction false} NoScopes(d: Tree, at: seq<Place>, e: Tree, at': seq<Place>, done: map<nat, set<nat>>)
    requires Grows(d, at, e, at') && DoneOk(d, at, done)
    requires forall f {:trigger e[f].kind} :: |d| <= f < |e| ==> e[f].kind != FINISH
    ensures DoneOk(e, at', done)
  {
    hide Done;
    GrowsLonger(d, at, e, at');
    forall f | f in done ensures 2 <= f < |e| && e[f].kind == FINISH && done[f] == Done(e, at', f) {
      DoneGrows(d, at, e, at', f);
    }
  }

  lemma {:induction false} SeriesPrefixIff(d: Tree, e: Tree, a: nat, b: nat)
    requires d <= e && a < |d| && b < |d|
    ensures Series(e, a, b) <==> Series(d, a, b)
  {
    if Series(e, a, b) {
      ProtocolTime.SeriesPrefix(d, e, a, b);
    }
    if Series(d, a, b) {
      var x: nat, y: nat :| Via(d, x, y, a, b);
      ProtocolTime.BelowPrefix(d, e, x, a);
      ProtocolTime.BelowPrefix(d, e, y, b);
      assert e[x] == d[x] && e[y] == d[y];
      assert Via(e, x, y, a, b);
    }
  }

  /** Old steps keep what is in series before them; for the new ones it is told. */
  lemma {:induction false} BeforeGrows(d: Tree, e: Tree, live: set<nat>, open: set<nat>, before: map<nat, set<nat>>, before': map<nat, set<nat>>)
    requires d <= e && Ordered(e, live, open) && BeforeOk(d, before)
    requires forall v: nat {:trigger v in before'} :: v < |d| && v in before ==> v in before' && before'[v] == before[v]
    requires forall v: nat {:trigger v in before'} :: |d| <= v < |e| && e[v].kind == STEP ==> v in before' && before'[v] == SeriesBefore(e, v)
    ensures BeforeOk(e, before')
  {
    hide Ordered, Series;
    forall v: nat | v < |e| && e[v].kind == STEP ensures v in before' && before'[v] == SeriesBefore(e, v) {
      if v < |d| {
        assert e[v] == d[v] && v in before;
        assert before[v] == SeriesBefore(d, v);
        forall u: nat | u < |e| && e[u].kind == STEP ensures u in SeriesBefore(e, v) <==> u in SeriesBefore(d, v) {
          if u < |d| {
            SeriesPrefixIff(d, e, u, v);
            assert e[u] == d[u];
          } else if Series(e, u, v) {
            SeriesOlder(e, live, open, u, v);
          }
        }
      }
    }
  }

  /** A new node, when all steps from it on are being executed. */
  lemma {:induction false} NewChild(d: Tree, at: seq<Place>, e: Tree, at': seq<Place>, v: nat)
    requires Grows(d, at, e, at') && ParentsFirst(e) && 2 <= |d| <= v < |e|
    ensures Past(e, at', v) == Past(e, at', e[v].parent)
    ensures Scopes(e, v) == Scopes(e, e[v].parent) + if e[v].kind == FINISH then {v} else {}
    ensures Done(e, at', v) == {}
  {
    hide Past, Scopes, Done;
    PastChild(e, at', v);
    ScopesChild(e, v);
    DoneNew(e, at', v);
  }

  /** A new step: what is in series before it has ended before the next child of its parent. */
  lemma {:induction false} NewStep(d: Tree, at: seq<Place>, e: Tree, at': seq<Place>, live: set<nat>, v: nat)
    requires Grows(d, at, e, at') && Ordered(e, live, Open(at')) && 2 <= |d| <= v < |e| && e[v].kind == STEP
    ensures SeriesBefore(e, v) == Past(e, at', e[v].parent)
  {
    hide Past, Ordered;
    SeriesIsPast(e, at', live, v);
  }

  // ---- the end of a step: whose past it joins ----

  /** The depth of the top node of an activation. */
  function DepthOfFrame(st: Stack, ps: seq<Pause>, i: nat): int {
    if i + 1 < |ps| then |ps[i + 1].stack| - 1 else |st| - 1
  }

  /** Where the top node of an activation is; nothing implicit is right above it, and if a root is waited
      for on it then by that activation. */
  lemma {:induction false} FrameNode(d: Tree, st: Stack, ps: seq<Pause>, scheduling: bool, i: nat)
    requires Nested(d, st, ps, scheduling) && i < |ps| - if scheduling then 1 else 0
    ensures NodeOfFrame(st, ps, i).Some?
    ensures var k := DepthOfFrame(st, ps, i); var n := NodeOfFrame(st, ps, i).value;
            && 0 <= k < |st| && st[k] == n.0 && (k + 1 < |st| ==> !st[k + 1].sync)
            && (i + 1 < |ps| ==> n.1 == ps[i + 1].why && n.1 != Idle && Purposeful(d, ps[i + 1]))
            && (forall j {:trigger ps[j]} :: 0 <= j < |ps| && |ps[j].stack| == k + 1 ==> ps[j].why == n.1)
  {
    if i + 1 < |ps| {
      var p := ps[i + 1];
      assert Purposeful(d, p) by {
        assert ps[i + 1].why == p.why;
      }
      assert p.stack == st[..|p.stack|];
      assert |p.stack| < |st| ==> !st[|p.stack|].sync;
      assert forall j {:trigger ps[j]} :: 0 <= j < |ps| && |ps[j].stack| == |p.stack| ==> j == i + 1;
    } else {
      forall j | 0 <= j < |ps| ensures |ps[j].stack| < |st| {
        assert j < |ps| - 1 ==> |ps[j].stack| < |ps[|ps| - 1].stack|;
      }
    }
  }

  /** A running step comes before the next child of the top node of an activation only if it is that
      activation that executes it, or if it is executed inside of the root the activation waits for. */
  lemma {:induction false} WhoseStep(s: Sys, t: nat, t2: nat, i: nat)
    requires Inv(s) && t < |s.mode| && s.mode[t] == Computing && t2 < |s.mode| && 0 <= i < Frames(s, t2)
    requires t2 != t || i + 1 < |s.pauses[t]|
    ensures Active(s.c, t) && NodeOfFrame(s.c.stacks[t2], s.pauses[t2], i).Some?
    ensures var n := NodeOfFrame(s.c.stacks[t2], s.pauses[t2], i).value; var a := Top(s.c.stacks[t]).child;
            Earlier(s.tree, a, n.0.id) ==> n.1.ForRoot? && Below(s.tree, n.1.finish, a)
  {
    hide StacksOk, PendingOk, StepsOk, LogOk, Blocked, PausesOk, TreeOk, Ordered, Earlier, Nested;
    NestedOf(s, t2);
    FrameNode(s.tree, s.c.stacks[t2], s.pauses[t2], s.mode[t2] == Scheduling, i);
    ProtocolTime.RunningChild(s, t);
    var n := NodeOfFrame(s.c.stacks[t2], s.pauses[t2], i).value;
    var a := Top(s.c.stacks[t]).child;
    if Earlier(s.tree, a, n.0.id) {
      var x := OpenEarlier(s.tree, Live(s.at), Open(s.at), a, n.0.id);
      OwnNode(s, t, t2, DepthOfFrame(s.c.stacks[t2], s.pauses[t2], i));
      if x == a {
        NestedOf(s, t);
        BelowTop(s, t, i);
        assert false;
      }
      ExplainedWait(s, t, t2, i, x);
    }
  }

  /** The nodes on the stacks are where the stacks say, and the current step is a child of the top node. */
  lemma {:induction false} OwnNode(s: Sys, t: nat, t2: nat, k: nat)
    requires Inv(s) && t < |s.mode| && s.mode[t] == Computing && t2 < |s.c.stacks| && k < |s.c.stacks[t2]|
    ensures Active(s.c, t) && Top(s.c.stacks[t]).child < |s.tree|
    ensures var q := s.tree[Top(s.c.stacks[t]).child].parent;
            && q == Top(s.c.stacks[t]).id && q < |s.at| && s.at[q] == OnStack(t, |s.c.stacks[t]| - 1)
            && q in Live(s.at) && s.tree[q].kind != STEP && 2 <= Top(s.c.stacks[t]).child
    ensures var p := s.c.stacks[t2][k].id; 1 <= p < |s.at| && s.at[p] == OnStack(t2, k)
  {
    hide PendingOk, LogOk, Blocked, PausesOk, TreeOk, Quiet, Youngest, FinishOrdered;
    assert StackOk(s.tree, s.at, s.c.stacks[t], t);
    assert StackOk(s.tree, s.at, s.c.stacks[t2], t2);
    var st := s.c.stacks[t];
    assert st[|st| - 1].id == Top(st).id;
    assert s.mode[t] == Computing;
    assert s.tree[Top(st).child].kind == STEP;
    assert s.tree[Top(st).id].kind != STEP;
  }

  /** An activation that waits is not at the top of the stack of a computing thread. */
  lemma {:induction false} BelowTop(s: Sys, t: nat, i: nat)
    requires Inv(s) && t < |s.mode| && s.mode[t] == Computing && i + 1 < |s.pauses[t]|
    ensures DepthOfFrame(s.c.stacks[t], s.pauses[t], i) < |s.c.stacks[t]| - 1
  {
    hide StacksOk, PendingOk, StepsOk, LogOk, Blocked, TreeOk, Ordered, PausesOk;
    NestedOf(s, t);
    var ps := s.pauses[t];
    assert i + 1 < |ps| - 1 ==> |ps[i + 1].stack| < |ps[|ps| - 1].stack|;
  }

  lemma {:induction false} ExplainedWait(s: Sys, t: nat, t2: nat, i: nat, x: nat)
    requires Inv(s) && t < |s.mode| && s.mode[t] == Computing && t2 < |s.mode| && 0 <= i < Frames(s, t2)
    requires Active(s.c, t) && NodeOfFrame(s.c.stacks[t2], s.pauses[t2], i).Some?
    requires var n := NodeOfFrame(s.c.stacks[t2], s.pauses[t2], i).value; var a := Top(s.c.stacks[t]).child;
             1 <= x < |s.tree| && s.tree[x].parent == n.0.id && s.tree[x].kind == FINISH && Below(s.tree, x, a)
    ensures var n := NodeOfFrame(s.c.stacks[t2], s.pauses[t2], i).value;
            n.1.ForRoot? && n.1.finish == x
  {
    hide StacksOk, PendingOk, StepsOk, LogOk, PausesOk, TreeOk, Ordered, Nested, Below;
    NestedOf(s, t2);
    FrameNode(s.tree, s.c.stacks[t2], s.pauses[t2], s.mode[t2] == Scheduling, i);
    var k := DepthOfFrame(s.c.stacks[t2], s.pauses[t2], i);
    OwnNode(s, t, t2, k);
    OrderedFirst(s.tree, Live(s.at), Open(s.at));
    var a := Top(s.c.stacks[t]).child;
    var q := s.tree[a].parent;
    LengthsOf(s);
    BelowParent(s.tree, x, a);
    assert x != a by {
      assert s.tree[a].kind == STEP by {
        StepKind(s, t);
      }
    }
    assert Below(s.tree, x, q);
    assert Explained(s.c.stacks, s.pauses, x, t2, k);
  }

  lemma {:induction false} LengthsOf(s: Sys)
    requires Inv(s)
    ensures |s.tree| == |s.at| == |s.pos| == s.c.last >= 3
  {
  }

  lemma {:induction false} StepKind(s: Sys, t: nat)
    requires Inv(s) && t < |s.mode| && s.mode[t] == Computing
    ensures Active(s.c, t) && Top(s.c.stacks[t]).child < |s.tree| && s.tree[Top(s.c.stacks[t]).child].kind == STEP
  {
    hide StacksOk, PendingOk, LogOk, Blocked, PausesOk, Ordered;
    ProtocolTime.RunningChild(s, t);
  }

  /** No running step of a thread comes before the next child of a task that has not started. */
  lemma {:induction false} NotInWaiting(s: Sys, t: nat, j: nat)
    requires Inv(s) && t < |s.mode| && s.mode[t] == Computing && j in s.c.pending
    ensures Active(s.c, t) && !Earlier(s.tree, Top(s.c.stacks[t]).child, s.c.pending[j].id)
  {
    hide StacksOk, StepsOk, LogOk, Blocked, PausesOk, TreeOk, Ordered, Earlier;
    ProtocolTime.RunningChild(s, t);
    var a, n := Top(s.c.stacks[t]).child, s.c.pending[j];
    assert Unstarted(s.tree, s.at, j, n);
    if Earlier(s.tree, a, n.id) {
      var x := OpenEarlier(s.tree, Live(s.at), Open(s.at), a, n.id);
      OwnNode(s, t, t, |s.c.stacks[t]| - 1);
      assert x == n.child;
      FirstIsStep(s, n.child);
      assert false;
    }
  }

  lemma {:induction false} FirstIsStep(s: Sys, c: nat)
    requires Inv(s) && c < |s.at| && s.at[c].Running?
    ensures c < |s.tree| && s.tree[c].kind == STEP
  {
    hide StacksOk, StepsOk, LogOk, Blocked, PausesOk, PendingOk, Ordered;
  }

  lemma {:induction false} PlacedEnd(d: Tree, at: seq<Place>, f: Frame, n: OpenNode, why: Why, a: nat)
    requires Placed(d, at, f, n, why) && a < |d| == |at| && d[a].kind == STEP && at[a].Running?
    requires Earlier(d, a, n.id) ==> why.ForRoot? && Below(d, why.finish, a)
    ensures Placed(d, at[a := Gone], f, n, why)
  {
    hide Past, Done, Scopes, Earlier;
    PastEnd(d, at, a, n.id);
    if why.ForRoot? {
      DoneEnd(d, at, a, why.finish);
      if Below(d, why.finish, a) {
        EarlierBelow(d, a, n.id, why.finish);
      }
    }
  }

  lemma {:induction false} EarlierBelow(d: Tree, a: nat, p: nat, x: nat)
    requires 1 <= x < |d| && d[x].parent == p && d[x].kind != ASYNC && Below(d, x, a)
    ensures Earlier(d, a, p)
  {
    assert Ahead(d, x, p);
  }

  lemma {:induction false} PlacedOwn(d: Tree, at: seq<Place>, f: Frame, n: OpenNode, a: nat)
    requires Placed(d, at, f, n, Idle) && 1 <= a < |d| == |at| && d[a].kind == STEP && at[a].Running? && d[a].parent == n.id
    ensures Placed(d, at[a := Gone], f.(past := f.past + {a}), n, Idle)
  {
    hide Past, Done, Scopes, Earlier;
    PastEnd(d, at, a, n.id);
    EarlierBelow(d, a, n.id, a);
  }

  lemma {:induction false} DoneEnds(s: Sys, t: nat, f: Frame, done: map<nat, set<nat>>)
    requires Inv(s) && t < |s.mode| && s.mode[t] == Computing && DoneOk(s.tree, s.at, done)
    requires Active(s.c, t) && Top(s.c.stacks[t]).id < |s.tree| && f.scopes == Scopes(s.tree, Top(s.c.stacks[t]).id)
    ensures var a := Top(s.c.stacks[t]).child;
            a < |s.at| && DoneOk(s.tree, s.at[a := Gone], map r | r in done :: if r in f.scopes then done[r] + {a} else done[r])
  {
    hide StacksOk, PendingOk, StepsOk, LogOk, Blocked, PausesOk, TreeOk, Ordered, Done;
    OwnNode(s, t, t, |s.c.stacks[t]| - 1);
    StepKind(s, t);
    LengthsOf(s);
    OrderedFirst(s.tree, Live(s.at), Open(s.at));
    ProtocolTime.RunningChild(s, t);
    var d, a, n := s.tree, Top(s.c.stacks[t]).child, Top(s.c.stacks[t]).id;
    var done' := map r | r in done :: if r in f.scopes then done[r] + {a} else done[r];
    forall r | r in done' ensures 2 <= r < |d| && d[r].kind == FINISH && done'[r] == Done(d, s.at[a := Gone], r) {
      DoneEnd(d, s.at, a, r);
      BelowParent(d, r, a);
      assert r in f.scopes <==> Below(d, r, n);
    }
  }

  lemma {:induction false} LastOfThread(s: Sys, k: Clocks, e: Event)
    requires Inv(s) && Enabled(s, e) && Linked(s, k)
    ensures CanTick(k, s, e) && Indexed(s, e.t) && |k.frames[e.t]| == Frames(s, e.t)
    ensures !e.Begin? ==> var fs, st, ps := k.frames[e.t], s.c.stacks[e.t], s.pauses[e.t];
              var n := NodeOfFrame(st, ps, |fs| - 1);
              && st != [] && n.Some? && n.value.0 == Top(st) && n.value.1 == (if e.Resume? then Last(ps).why else Idle)
              && FrameOk(s.tree, s.at, st, ps, fs, |fs| - 1)
              && Top(st).id < |s.tree| && (Top(st).sync ==> 2 <= Top(st).id && s.tree[Top(st).id].kind == FINISH)
  {
    hide StacksOk, PendingOk, StepsOk, LogOk, Blocked, PausesOk, TreeOk, Ordered, Placed, Quiescent, BeforeOk, DoneOk, WaitingOk, Nested;
    NextDefined(s, e);
    var t := e.t;
    NestedOf(s, t);
    var fs, st, ps := k.frames[t], s.c.stacks[t], s.pauses[t];
    if !e.Begin? {
      CallsMade(s, e);
      var i := |fs| - 1;
      assert fs[i] == Last(fs);
      FrameNode(s.tree, st, ps, s.mode[t] == Scheduling, i);
      assert FrameOk(s.tree, s.at, st, ps, fs, i);
      TopIs(s, t);
      if e.Resume? {
        WaitKnown(s, fs[i], Top(st), Last(ps).why, k.done);
      }
    } else {
      WaitingHas(s, k, e.task);
    }
  }

  lemma {:induction false} CallsMade(s: Sys, e: Event)
    requires Inv(s) && Enabled(s, e) && !e.Begin?
    ensures var st, ps := s.c.stacks[e.t], s.pauses[e.t];
            && Frames(s, e.t) > 0 && st != []
            && (e.Resume? ==> s.mode[e.t] == Scheduling && |ps| > 1 && Last(ps).stack == st && Last(ps).why != Idle)
            && (!e.Resume? ==> s.mode[e.t] != Scheduling)
  {
    hide StacksOk, PendingOk, StepsOk, LogOk, Blocked, PausesOk, TreeOk, Ordered, Quiescent, Layered;
    NextDefined(s, e);
    NestedOf(s, e.t);
  }

  lemma {:induction false} TopIs(s: Sys, t: nat)
    requires Inv(s) && t < |s.c.stacks| && s.c.stacks[t] != []
    ensures var n := Top(s.c.stacks[t]);
            && 1 <= n.id < |s.tree| && n.id in Live(s.at) && (n.sync ==> 2 <= n.id && s.tree[n.id].kind == FINISH)
            && (n.sync ==> |s.c.stacks[t]| > 1 && s.tree[n.id].parent == Top(Pop(s.c.stacks[t])).id)
  {
    hide PendingOk, LogOk, Blocked, PausesOk, TreeOk, StepsOk, Quiet, Youngest, FinishOrdered;
    var st := s.c.stacks[t];
    assert StackOk(s.tree, s.at, st, t);
    assert st[|st| - 1].id == Top(st).id;
    assert st[|st| - 1].sync == Top(st).sync;
    assert |st| > 1 ==> st[|st| - 2] == Top(Pop(st)) && 1 <= st[|st| - 2].id;
  }

  lemma {:induction false} WaitKnown(s: Sys, f: Frame, n: OpenNode, why: Why, done: map<nat, set<nat>>)
    requires Placed(s.tree, s.at, f, n, why) && why != Idle && DoneOk(s.tree, s.at, done)
    requires n.sync ==> 2 <= n.id && s.tree[n.id].kind == FINISH
    ensures f.wait in done
  {
    hide Past, Done, Scopes;
    assert s.tree[f.wait].kind == FINISH;
  }

  lemma {:induction false} WaitingHas(s: Sys, k: Clocks, j: nat)
    requires WaitingOk(s.tree, s.at, s.c.pending, k.waiting) && j in s.c.pending
    ensures j in k.waiting && Placed(s.tree, s.at, k.waiting[j], s.c.pending[j], Idle)
  {
    hide Placed;
    var n := s.c.pending[j];
  }

  // ---- every event keeps the order and the tree together ----

  /** The first step of a task that has just been spawned, and the current step of a thread. */
  function FirstStep(s: Sys, task: nat): nat {
    if task in s.c.pending then s.c.pending[task].child else 0
  }

  function CurrentStep(s: Sys, t: nat): nat {
    if Active(s.c, t) then Top(s.c.stacks[t]).child else 0
  }

  ghost function Ticked(k: Clocks, s: Sys, e: Event): Clocks
    requires Inv(s) && Enabled(s, e) && CanTick(k, s, e)
  {
    Tick(k, s, e, FirstStep(Next(s, e), s.tasks + 1), CurrentStep(Next(s, e), e.t))
  }

  /** An event touches the stack and the scheduler calls of its own thread only. */
  lemma {:induction false} OwnThread(s: Sys, e: Event)
    requires Inv(s) && Enabled(s, e)
    ensures var n := Next(s, e);
            && e.t < |s.mode| && Protocol.Sized(s) && Protocol.Sized(n) && |n.mode| == |s.mode|
            && (forall u {:trigger n.c.stacks[u]} :: 0 <= u < |s.mode| && u != e.t ==> n.c.stacks[u] == s.c.stacks[u])
            && (forall u {:trigger n.pauses[u]} :: 0 <= u < |s.mode| && u != e.t ==> n.pauses[u] == s.pauses[u])
            && (forall u {:trigger n.mode[u]} :: 0 <= u < |s.mode| && u != e.t ==> n.mode[u] == s.mode[u])
  {
    hide Inv, Quiescent, SpawnAt, SpawnPos, SpawnTree;
    NextDefined(s, e);
  }

  lemma {:induction false} FramesSet(s: Sys, e: Event, frames: seq<seq<Frame>>, fs: seq<Frame>)
    requires Inv(s) && Enabled(s, e) && Protocol.Sized(s) && FramesOk(s, frames) && !e.EndStep?
    requires var n := Next(s, e);
             && Grows(s.tree, s.at, n.tree, n.at) && Protocol.Sized(n) && e.t < |n.mode| && |fs| == Frames(n, e.t)
             && ThreadOk(n.tree, n.at, n.c.stacks[e.t], n.pauses[e.t], fs)
    ensures e.t < |frames| && FramesOk(Next(s, e), frames[e.t := fs])
  {
    hide Inv, Enabled, Next, Grows, ThreadOk;
    OwnThread(s, e);
    var n := Next(s, e);
    forall u | 0 <= u < |frames| && u != e.t
      ensures |frames[u]| == Frames(n, u) && ThreadOk(n.tree, n.at, n.c.stacks[u], n.pauses[u], frames[u])
    {
      ThreadGrows(s.tree, s.at, n.tree, n.at, s.c.stacks[u], s.pauses[u], frames[u]);
    }
  }

  lemma {:induction false} NextGrows(s: Sys, e: Event)
    requires Inv(s) && Enabled(s, e) && !e.EndStep?
    ensures var n := Next(s, e); Grows(s.tree, s.at, n.tree, n.at) && ParentsFirst(n.tree) && |s.tree| == s.c.last >= 3
    ensures var n := Next(s, e); Inv(n) && Ordered(n.tree, Live(n.at), Open(n.at))
  {
    hide Inv, Enabled, Next, Ordered;
    NextInv(s, e);
    LengthsOf(s);
    LengthsOf(Next(s, e));
    OrderedInv(Next(s, e));
    OrderedFirst(Next(s, e).tree, Live(Next(s, e).at), Open(Next(s, e).at));
    ProtocolTime.OnlyGrows(s, e);
    NoneStarts(s, e);
  }

  lemma {:induction false} OrderedInv(s: Sys)
    requires Inv(s)
    ensures Ordered(s.tree, Live(s.at), Open(s.at))
  {
    hide Ordered;
  }

  lemma {:induction false} NoneStarts(s: Sys, e: Event)
    requires Inv(s) && Enabled(s, e)
    ensures |s.at| <= |Next(s, e).at|
    ensures forall i {:trigger Next(s, e).at[i]} :: 0 <= i < |s.at| && !s.at[i].Running? ==> !Next(s, e).at[i].Running?
  {
    hide Inv, Quiescent, SpawnOnly, SpawnAndWait, SpawnAndWaitForAll, Wait, WaitOnly, Execute;
    NextDefined(s, e);
  }

  lemma {:induction false} EndStepLinked(s: Sys, k: Clocks, e: Event)
    requires Inv(s) && Enabled(s, e) && Linked(s, k) && e.EndStep? && CanTick(k, s, e)
    ensures Linked(Next(s, e), Ticked(k, s, e))
  {
    hide Inv, Placed, Below, Earlier, BeforeOk, DoneOk;
    LastOfThread(s, k, e);
    NextDefined(s, e);
    var t, n := e.t, Next(s, e);
    var a := Top(s.c.stacks[t]).child;
    StepKind(s, t);
    LengthsOf(s);
    OwnNode(s, t, t, |s.c.stacks[t]| - 1);
    ProtocolTime.RunningChild(s, t);
    var frames := Ticked(k, s, e).frames;
    forall u | 0 <= u < |frames| ensures |frames[u]| == Frames(n, u) {
      assert frames[u] == k.frames[u] || u == t;
    }
    forall u, i | 0 <= u < |frames| && 0 <= i < |frames[u]|
      ensures FrameOk(n.tree, n.at, n.c.stacks[u], n.pauses[u], frames[u], i)
    {
      EndStepFrame(s, k, e, u, i);
    }
    forall u | 0 <= u < |frames| ensures ThreadOk(n.tree, n.at, n.c.stacks[u], n.pauses[u], frames[u]) {
    }
    EndStepWaiting(s, k, t);
    EndStepDone(s, k, t);
  }

  lemma {:induction false} EndStepDone(s: Sys, k: Clocks, t: nat)
    requires Inv(s) && t < |s.mode| && s.mode[t] == Computing && Linked(s, k) && t < |k.frames| && k.frames[t] != []
    requires Active(s.c, t) && Enabled(s, EndStep(t, 0))
    ensures var a := Top(s.c.stacks[t]).child; var f := Last(k.frames[t]);
            a < |s.at| && DoneOk(s.tree, s.at[a := Gone], map r | r in k.done :: if r in f.scopes then k.done[r] + {a} else k.done[r])
  {
    hide Inv, BeforeOk, DoneOk, WaitingOk, Past, Done, Scopes, Nested;
    LastOfThread(s, k, EndStep(t, 0));
    var fs := k.frames[t];
    assert fs[|fs| - 1] == Last(fs);
    DoneEnds(s, t, Last(fs), k.done);
  }

  lemma {:induction false} EndStepWaiting(s: Sys, k: Clocks, t: nat)
    requires Inv(s) && t < |s.mode| && s.mode[t] == Computing && WaitingOk(s.tree, s.at, s.c.pending, k.waiting)
    ensures Active(s.c, t) && Top(s.c.stacks[t]).child < |s.at|
    ensures WaitingOk(s.tree, s.at[Top(s.c.stacks[t]).child := Gone], s.c.pending, k.waiting)
  {
    hide Inv, Placed, Below, Earlier;
    StepKind(s, t);
    LengthsOf(s);
    ProtocolTime.RunningChild(s, t);
    var a := Top(s.c.stacks[t]).child;
    forall j | j in s.c.pending ensures j in k.waiting && Placed(s.tree, s.at[a := Gone], k.waiting[j], s.c.pending[j], Idle) {
      NotInWaiting(s, t, j);
      PlacedEnd(s.tree, s.at, k.waiting[j], s.c.pending[j], Idle, a);
    }
  }

  lemma {:induction false} EndStepFrame(s: Sys, k: Clocks, e: Event, u: nat, i: nat)
    requires Inv(s) && Enabled(s, e) && Linked(s, k) && e.EndStep? && CanTick(k, s, e)
    requires u < |k.frames| == |s.mode| && i < |k.frames[u]|
    ensures var n := Next(s, e); var frames := Ticked(k, s, e).frames;
            && |frames| == |n.c.stacks| == |n.pauses| == |k.frames| && i < |frames[u]|
            && FrameOk(n.tree, n.at, n.c.stacks[u], n.pauses[u], frames[u], i)
  {
    hide Inv, Placed, Below, Earlier, BeforeOk, DoneOk, WaitingOk;
    LastOfThread(s, k, e);
    NextDefined(s, e);
    var t := e.t;
    var a := Top(s.c.stacks[t]).child;
    StepKind(s, t);
    LengthsOf(s);
    OwnNode(s, t, t, |s.c.stacks[t]| - 1);
    ProtocolTime.RunningChild(s, t);
    var f := k.frames[u][i];
    assert ThreadOk(s.tree, s.at, s.c.stacks[u], s.pauses[u], k.frames[u]);
    var node := NodeOfFrame(s.c.stacks[u], s.pauses[u], i).value;
    assert Placed(s.tree, s.at, f, node.0, node.1);
    if u == t && i + 1 == |s.pauses[t]| {
      PlacedOwn(s.tree, s.at, f, node.0, a);
    } else {
      WhoseStep(s, t, u, i);
      PlacedEnd(s.tree, s.at, f, node.0, node.1, a);
    }
  }

  /** The thread of the event has the activations `fs` afterwards: the last one is new or changed, or the
      last one is gone. */
  lemma {:induction false} SetThread(s: Sys, k: Clocks, e: Event, n: Sys, fs: seq<Frame>)
    requires Inv(s) && Enabled(s, e) && n == Next(s, e) && Protocol.Sized(s) && FramesOk(s, k.frames) && !e.EndStep?
    requires e.t < |k.frames| && fs != [] && |fs| == |k.frames[e.t]| + Balance([e], e.t)
    requires e.t < |n.c.stacks| && e.t < |n.pauses| && e.t < |s.pauses| && Grows(s.tree, s.at, n.tree, n.at)
    requires |fs| <= |s.pauses[e.t]| && |fs| <= |n.pauses[e.t]|
    requires |fs| <= |k.frames[e.t]| + 1 && fs[..|fs| - 1] == k.frames[e.t][..|fs| - 1]
    requires FrameOk(n.tree, n.at, n.c.stacks[e.t], n.pauses[e.t], fs, |fs| - 1)
    ensures Protocol.Sized(n) && FramesOk(n, k.frames[e.t := fs])
  {
    hide Inv, Enabled, Next, Grows, FrameOk, Balance;
    var t := e.t;
    OwnThread(s, e);
    StepFrames(s, e, t);
    ThreadGrows(s.tree, s.at, n.tree, n.at, s.c.stacks[t], s.pauses[t], k.frames[t]);
    SamePauses(s, e, |fs|);
    LastFrame(n.tree, n.at, s.c.stacks[t], s.pauses[t], k.frames[t], n.c.stacks[t], n.pauses[t], fs);
    FramesSet(s, e, k.frames, fs);
  }

  lemma {:induction false} BalanceOne(e: Event)
    ensures Balance([e], e.t) == if e.Begin? then 1 else if e.EndTask? then -1 else 0
  {
    assert [e][..0] == [];
  }

  lemma {:induction false} NotScheduling(s: Sys, e: Event)
    requires Inv(s) && Enabled(s, e)
    ensures Protocol.Sized(s) && e.t < |s.mode| && |s.c.stacks| == |s.mode|
    ensures Frames(s, e.t) == |s.pauses[e.t]| - if e.Begin? || e.Resume? then 1 else 0
  {
    hide Inv, Quiescent;
  }

  lemma {:induction false} SamePauses(s: Sys, e: Event, m: nat)
    requires Inv(s) && Enabled(s, e) && e.t < |s.pauses| && m <= |s.pauses[e.t]|
    requires e.t < |Next(s, e).pauses| && m <= |Next(s, e).pauses[e.t]|
    ensures Next(s, e).pauses[e.t][..m] == s.pauses[e.t][..m]
  {
    hide Inv, Enabled, Next;
    LengthsOf(s);
    OwnThread(s, e);
    StepFrames(s, e, e.t);
  }

  lemma {:induction false} WaitingMore(s: Sys, k: Clocks, n: Sys, task: OpenNode, f: Frame)
    requires Linked(s, k) && Grows(s.tree, s.at, n.tree, n.at) && Placed(n.tree, n.at, f, task, Idle)
    requires n.c.pending == s.c.pending[s.tasks + 1 := task]
    ensures WaitingOk(n.tree, n.at, n.c.pending, k.waiting[s.tasks + 1 := f])
  {
    hide Placed, Grows, DoneOk, BeforeOk, FramesOk;
    WaitingGrows(s.tree, s.at, n.tree, n.at, s.c.pending, k.waiting);
  }

  /** What spawn and the call of spawn_and_wait_for_all build: an implicit FINISH unless one is open, the
      task, its first step, and the next step of the thread. */
  lemma {:induction false} SpawnShape(s: Sys, e: Event)
    requires Inv(s) && Enabled(s, e) && (e.Spawn? || e.SpawnAll?) && Flat(s.c.stacks)
    ensures Active(s.c, e.t)
    ensures var n, st, l := Next(s, e), s.c.stacks[e.t], s.c.last;
            var cur := Top(st);
            var f := if cur.sync then cur.id else l;
            var a := if cur.sync then l else l + 1;
            && |n.tree| == a + 2 + (if e.Spawn? then 1 else 0)
            && (!cur.sync ==> n.tree[l].kind == FINISH && n.tree[l].parent == cur.id)
            && n.tree[a].kind == ASYNC && n.tree[a].parent == f && n.tree[a + 1].kind == STEP && n.tree[a + 1].parent == a
            && (e.Spawn? ==> n.tree[a + 2].kind == STEP && n.tree[a + 2].parent == f)
            && n.c.pending == s.c.pending[s.tasks + 1 := NewNode(a).(child := a + 1)]
            && Active(n.c, e.t) && Top(n.c.stacks[e.t]).id == f && Top(n.c.stacks[e.t]).sync
            && (e.Spawn? ==> Top(n.c.stacks[e.t]).child == a + 2)
            && n.pauses[e.t] == s.pauses[e.t] + if e.Spawn? then [] else [Pause(ForTasks, n.c.stacks[e.t])]
  {
    hide Inv, Quiescent, SpawnAt, SpawnPos, SpawnOnly, SpawnAndWaitForAll, SpawnTree, Register, SiteOf;
    NextDefined(s, e);
    LengthsOf(s);
    FlatTop(s.c.stacks, e.t);
    YoungSync(s, e.t);
    SpawnTreeShape(s, e.t, CallSiteOf(e.site), e.Spawn?);
    SameStacks(s, e.site);
    SpawnStates(Registered(s, e.site), e.t, s.tasks + 1, CallSiteOf(e.site));
    assert s.pauses[e.t] + [] == s.pauses[e.t];
  }

  lemma {:induction false} SameStacks(s: Sys, site: Site)
    ensures var c := Registered(s, site); c.stacks == s.c.stacks && c.pending == s.c.pending && c.last == s.c.last
  {
  }

  lemma {:induction false} SpawnTreeShape(s: Sys, t: nat, callSite: nat, more: bool)
    requires Active(s.c, t) && |s.tree| == s.c.last
    requires var cur := Top(s.c.stacks[t]); cur.young == ASYNC <==> cur.sync
    ensures var d, cur, l := s.tree + SpawnTree(s, t, callSite, more), Top(s.c.stacks[t]), s.c.last;
            var f := if cur.sync then cur.id else l;
            var a := if cur.sync then l else l + 1;
            && |d| == a + 2 + (if more then 1 else 0)
            && (!cur.sync ==> d[l].kind == FINISH && d[l].parent == cur.id)
            && d[a].kind == ASYNC && d[a].parent == f && d[a + 1].kind == STEP && d[a + 1].parent == a
            && (more ==> d[a + 2].kind == STEP && d[a + 2].parent == f)
  {
  }

  lemma {:induction false} SpawnStates(c: State, t: nat, task: nat, callSite: nat)
    requires Active(c, t)
    requires var cur := Top(c.stacks[t]); cur.young == ASYNC <==> cur.sync
    ensures var x, y, cur, l := SpawnOnly(c, t, task, callSite), SpawnAndWaitForAll(c, t, task, callSite), Top(c.stacks[t]), c.last;
            var f := if cur.sync then cur.id else l;
            var a := if cur.sync then l else l + 1;
            && x.pending == y.pending == c.pending[task := NewNode(a).(child := a + 1)]
            && Active(x, t) && Top(x.stacks[t]).id == f && Top(x.stacks[t]).sync && Top(x.stacks[t]).child == a + 2
            && Active(y, t) && Top(y.stacks[t]).id == f && Top(y.stacks[t]).sync
  {
  }

  lemma {:induction false} YoungSync(s: Sys, t: nat)
    requires Inv(s) && Active(s.c, t)
    ensures Top(s.c.stacks[t]).young == ASYNC ==> Top(s.c.stacks[t]).sync
  {
    hide PendingOk, LogOk, Blocked, PausesOk, TreeOk, StepsOk, Ordered;
    var st := s.c.stacks[t];
    assert StackOk(s.tree, s.at, st, t);
    assert st[|st| - 1].young == Top(st).young;
  }

  /** A scope opened by the activation, and a task spawned in it. */
  lemma {:induction false} SpawnPlaced(d: Tree, at: seq<Place>, e: Tree, at': seq<Place>, g: Frame, cur: OpenNode, top: OpenNode,
                                       task: OpenNode)
    requires Grows(d, at, e, at') && ParentsFirst(e) && 3 <= |d| && Placed(d, at, g, cur, Idle)
    requires if cur.sync then top.id == cur.id
             else top.id == |d| < |e| && e[|d|].kind == FINISH && e[|d|].parent == cur.id
    requires |d| <= task.id < |e| && e[task.id].kind == ASYNC && e[task.id].parent == top.id && top.sync && !task.sync
    ensures var f := Opened(g, |d|);
            && Placed(e, at', f, top, Idle) && Placed(e, at', Frame(f.past, f.scopes, 0, 0), task, Idle)
            && f.sync == top.id && f.past == Past(e, at', top.id) == Past(e, at', task.id)
            && Placed(e, at', f.(wait := f.sync), top, ForTasks)
  {
    hide Grows, Past, Scopes, Done, ParentsFirst;
    PlacedGrows(d, at, e, at', g, cur, Idle);
    if !cur.sync {
      NewChild(d, at, e, at', |d|);
    } else {
      TopNotZero(e, cur.id, task.id);
    }
    NewChild(d, at, e, at', task.id);
  }

  lemma {:induction false} TopNotZero(d: Tree, p: nat, v: nat)
    requires ParentsFirst(d) && 2 <= v < |d| && d[v].parent == p
    ensures 1 <= p < v
  {
  }

  lemma {:induction false} SpawnLinked(s: Sys, k: Clocks, e: Event)
    requires Inv(s) && Enabled(s, e) && Linked(s, k) && (e.Spawn? || e.SpawnAll?) && Flat(s.c.stacks) && CanTick(k, s, e)
    ensures Linked(Next(s, e), Ticked(k, s, e))
  {
    hide Inv, Enabled, Next, Placed, Grows, Past, Scopes, Done, Series, Ordered, BeforeOk, DoneOk, ThreadOk;
    LastOfThread(s, k, e);
    NextGrows(s, e);
    SpawnShape(s, e);
    GrowsLonger(s.tree, s.at, Next(s, e).tree, Next(s, e).at);
    var t, n := e.t, Next(s, e);
    var cur, top, task := Top(s.c.stacks[t]), Top(n.c.stacks[t]), n.c.pending[s.tasks + 1];
    var fs := k.frames[t];
    var f := Opened(Last(fs), s.c.last);
    var k2 := Ticked(k, s, e);
    SpawnPlaced(s.tree, s.at, n.tree, n.at, Last(fs), cur, top, task);
    var fs' := SetLast(fs, if e.Spawn? then f else f.(wait := f.sync));
    OwnThread(s, e);
    LengthsOf(s);
    BalanceOne(e);
    NotScheduling(s, e);
    assert FrameOk(n.tree, n.at, n.c.stacks[t], n.pauses[t], fs', |fs'| - 1);
    SetThread(s, k, e, n, fs');
    WaitingMore(s, k, n, task, Frame(f.past, f.scopes, 0, 0));
    assert DoneOk(n.tree, n.at, k2.done) by {
      TopIs(s, t);
      ScopesGrow(s.tree, s.at, n.tree, n.at, k.done, f.sync);
    }
    SpawnBefore(s, k, e, n, f.past);
  }

  lemma {:induction false} SpawnBefore(s: Sys, k: Clocks, e: Event, n: Sys, past: set<nat>)
    requires Inv(s) && Enabled(s, e) && (e.Spawn? || e.SpawnAll?) && Flat(s.c.stacks) && BeforeOk(s.tree, k.before)
    requires n == Next(s, e) && Active(n.c, e.t) && s.tasks + 1 in n.c.pending
    requires past == Past(n.tree, n.at, Top(n.c.stacks[e.t]).id) == Past(n.tree, n.at, n.c.pending[s.tasks + 1].id)
    ensures var v, w := FirstStep(n, s.tasks + 1), CurrentStep(n, e.t);
            BeforeOk(n.tree, if e.Spawn? then k.before[v := past][w := past] else k.before[v := past])
  {
    hide Inv, Enabled, Next, Grows, Past, BeforeOk, Ordered;
    SpawnShape(s, e);
    LengthsOf(s);
    NextGrows(s, e);
    var v := FirstStep(n, s.tasks + 1);
    if e.Spawn? {
      TwoSteps(s.tree, s.at, n.tree, n.at, Live(n.at), k.before, v, past);
    } else {
      OneStep(s.tree, s.at, n.tree, n.at, Live(n.at), k.before, v, past);
    }
  }

  /** Two new steps, after the same past. */
  lemma {:induction false} TwoSteps(d: Tree, at: seq<Place>, e: Tree, at': seq<Place>, live: set<nat>, before: map<nat, set<nat>>,
                                    v: nat, past: set<nat>)
    requires Grows(d, at, e, at') && Ordered(e, live, Open(at')) && BeforeOk(d, before)
    requires 2 <= |d| <= v == |e| - 2 && e[v].kind == e[v + 1].kind == STEP
    requires past == Past(e, at', e[v].parent) == Past(e, at', e[v + 1].parent)
    requires forall u {:trigger e[u]} :: |d| <= u < v ==> e[u].kind != STEP
    ensures BeforeOk(e, before[v := past][v + 1 := past])
  {
    hide Grows, Past, Ordered, BeforeOk, SeriesBefore;
    GrowsLonger(d, at, e, at');
    NewStep(d, at, e, at', live, v);
    NewStep(d, at, e, at', live, v + 1);
    BeforeGrows(d, e, live, Open(at'), before, before[v := past][v + 1 := past]);
  }

  /** What the call of spawn_root_and_wait builds. */
  lemma {:induction false} RootShape(s: Sys, e: Event)
    requires Inv(s) && Enabled(s, e) && e.SpawnRoot?
    ensures Active(s.c, e.t)
    ensures var n, cur, l := Next(s, e), Top(s.c.stacks[e.t]), s.c.last;
            && |n.tree| == l + 2 && n.tree[l].kind == FINISH && n.tree[l].parent == cur.id
            && n.tree[l + 1].kind == STEP && n.tree[l + 1].parent == l
            && n.c.pending == s.c.pending[s.tasks + 1 := NewNode(l).(child := l + 1)]
            && Active(n.c, e.t) && Top(n.c.stacks[e.t]).id == cur.id && Top(n.c.stacks[e.t]).sync == cur.sync
            && n.pauses[e.t] == s.pauses[e.t] + [Pause(ForRoot(l), n.c.stacks[e.t])]
  {
    hide Inv, Quiescent;
    NextDefined(s, e);
    LengthsOf(s);
    TopIs(s, e.t);
  }

  lemma {:induction false} RootPlaced(d: Tree, at: seq<Place>, e: Tree, at': seq<Place>, g: Frame, cur: OpenNode, top: OpenNode,
                                      task: OpenNode)
    requires Grows(d, at, e, at') && ParentsFirst(e) && 3 <= |d| < |e| && Placed(d, at, g, cur, Idle)
    requires top.id == cur.id && top.sync == cur.sync && task.id == |d| && !task.sync
    requires e[|d|].kind == FINISH && e[|d|].parent == cur.id
    ensures Placed(e, at', Frame(g.past, g.scopes + {|d|}, 0, 0), task, Idle) && g.past == Past(e, at', |d|)
    ensures Placed(e, at', g.(wait := |d|), top, ForRoot(|d|))
  {
    hide Grows, Past, Scopes, Done, ParentsFirst;
    PlacedGrows(d, at, e, at', g, cur, Idle);
    NewChild(d, at, e, at', |d|);
  }

  lemma {:induction false} RootLinked(s: Sys, k: Clocks, e: Event)
    requires Inv(s) && Enabled(s, e) && Linked(s, k) && e.SpawnRoot? && CanTick(k, s, e)
    ensures Linked(Next(s, e), Ticked(k, s, e))
  {
    hide Inv, Enabled, Next, Placed, Grows, Past, Scopes, Done, Series, Ordered, BeforeOk, DoneOk, ThreadOk;
    LastOfThread(s, k, e);
    NextGrows(s, e);
    RootShape(s, e);
    OwnThread(s, e);
    LengthsOf(s);
    BalanceOne(e);
    NotScheduling(s, e);
    var t, n, fs := e.t, Next(s, e), k.frames[e.t];
    GrowsLonger(s.tree, s.at, n.tree, n.at);
    var g, l := Last(fs), s.c.last;
    RootPlaced(s.tree, s.at, n.tree, n.at, g, Top(s.c.stacks[t]), Top(n.c.stacks[t]), n.c.pending[s.tasks + 1]);
    var fs' := SetLast(fs, g.(wait := l));
    assert FrameOk(n.tree, n.at, n.c.stacks[t], n.pauses[t], fs', |fs'| - 1);
    SetThread(s, k, e, n, fs');
    WaitingMore(s, k, n, n.c.pending[s.tasks + 1], Frame(g.past, g.scopes + {l}, 0, 0));
    ScopesGrow(s.tree, s.at, n.tree, n.at, k.done, l);
    OneStep(s.tree, s.at, n.tree, n.at, Live(n.at), k.before, l + 1, g.past);
  }

  /** One new step. */
  lemma {:induction false} OneStep(d: Tree, at: seq<Place>, e: Tree, at': seq<Place>, live: set<nat>, before: map<nat, set<nat>>,
                                   v: nat, past: set<nat>)
    requires Grows(d, at, e, at') && Ordered(e, live, Open(at')) && BeforeOk(d, before)
    requires 2 <= |d| <= v == |e| - 1 && e[v].kind == STEP && past == Past(e, at', e[v].parent)
    requires forall u {:trigger e[u]} :: |d| <= u < v ==> e[u].kind != STEP
    ensures BeforeOk(e, before[v := past])
  {
    hide Grows, Past, Ordered, BeforeOk, SeriesBefore;
    GrowsLonger(d, at, e, at');
    NewStep(d, at, e, at', live, v);
    BeforeGrows(d, e, live, Open(at'), before, before[v := past]);
  }

  /** Nothing new in the tree. */
  lemma {:induction false} SameTree(s: Sys, k: Clocks, e: Event)
    requires Inv(s) && Enabled(s, e) && Linked(s, k) && !e.EndStep? && Next(s, e).tree == s.tree
    ensures var n := Next(s, e);
            && DoneOk(n.tree, n.at, k.done) && BeforeOk(n.tree, k.before) && WaitingOk(n.tree, n.at, s.c.pending, k.waiting)
  {
    hide Inv, Enabled, Next, Grows, Placed, FramesOk, BeforeOk;
    NextGrows(s, e);
    var n := Next(s, e);
    NoScopes(s.tree, s.at, n.tree, n.at, k.done);
    WaitingGrows(s.tree, s.at, n.tree, n.at, s.c.pending, k.waiting);
  }

  /** What wait_for_all, the end of a task and the start of a task change. */
  lemma {:induction false} QuietShape(s: Sys, e: Event)
    requires Inv(s) && Enabled(s, e) && (e.WaitAll? || e.EndTask? || e.Begin?)
    ensures var n := Next(s, e);
            && n.tree == s.tree && e.t < |s.pauses| && e.t < |s.c.stacks| && e.t < |n.pauses| && e.t < |n.c.stacks|
            && n.c.pending == (if e.Begin? then s.c.pending - {e.task} else s.c.pending)
            && n.pauses[e.t] == s.pauses[e.t] + (if e.WaitAll? then [Pause(ForTasks, s.c.stacks[e.t])] else [])
            && (e.WaitAll? ==> n.c.stacks[e.t] == s.c.stacks[e.t] && Active(s.c, e.t) && Top(s.c.stacks[e.t]).sync)
            && (e.Begin? ==> e.task in s.c.pending && n.c.stacks[e.t] == s.c.stacks[e.t] + [s.c.pending[e.task]])
  {
    hide Inv, Quiescent;
    NextDefined(s, e);
    assert s.pauses[e.t] + [] == s.pauses[e.t];
  }

  lemma {:induction false} WaitAllLinked(s: Sys, k: Clocks, e: Event)
    requires Inv(s) && Enabled(s, e) && Linked(s, k) && e.WaitAll? && CanTick(k, s, e)
    ensures Linked(Next(s, e), Ticked(k, s, e))
  {
    hide Inv, Enabled, Next, Placed, Grows, Past, Scopes, Done, Series, Ordered, BeforeOk, DoneOk, ThreadOk, WaitingOk;
    LastOfThread(s, k, e);
    NextGrows(s, e);
    QuietShape(s, e);
    OwnThread(s, e);
    LengthsOf(s);
    BalanceOne(e);
    NotScheduling(s, e);
    SameTree(s, k, e);
    var t, n, fs := e.t, Next(s, e), k.frames[e.t];
    var fs' := SetLast(fs, Last(fs).(wait := Last(fs).sync));
    WaitPlaced(s.tree, s.at, n.tree, n.at, Last(fs), Top(s.c.stacks[t]));
    assert FrameOk(n.tree, n.at, n.c.stacks[t], n.pauses[t], fs', |fs'| - 1);
    SetThread(s, k, e, n, fs');
  }

  lemma {:induction false} WaitPlaced(d: Tree, at: seq<Place>, e: Tree, at': seq<Place>, g: Frame, n: OpenNode)
    requires Grows(d, at, e, at') && Placed(d, at, g, n, Idle) && n.sync
    ensures Placed(e, at', g.(wait := g.sync), n, ForTasks)
  {
    hide Grows, Past, Scopes, Done;
    PlacedGrows(d, at, e, at', g, n, Idle);
  }

  lemma {:induction false} EndTaskLinked(s: Sys, k: Clocks, e: Event)
    requires Inv(s) && Enabled(s, e) && Linked(s, k) && e.EndTask? && CanTick(k, s, e)
    ensures Linked(Next(s, e), Ticked(k, s, e))
  {
    hide Inv, Enabled, Next, Placed, Grows, BeforeOk, DoneOk, WaitingOk, Balance;
    LastOfThread(s, k, e);
    NextGrows(s, e);
    QuietShape(s, e);
    OwnThread(s, e);
    BalanceOne(e);
    NotScheduling(s, e);
    SameTree(s, k, e);
    StepFrames(s, e, e.t);
    var t, n, fs := e.t, Next(s, e), k.frames[e.t];
    var fs' := fs[..|fs| - 1];
    forall i | 0 <= i < |fs'| ensures FrameOk(n.tree, n.at, n.c.stacks[t], n.pauses[t], fs', i) {
      var f := fs[i];
      assert FrameOk(s.tree, s.at, s.c.stacks[t], s.pauses[t], fs, i);
      FrameGrows(s.tree, s.at, n.tree, n.at, s.c.stacks[t], s.pauses[t], fs, i);
    }
    FramesSet(s, e, k.frames, fs');
  }

  lemma {:induction false} BeginLinked(s: Sys, k: Clocks, e: Event)
    requires Inv(s) && Enabled(s, e) && Linked(s, k) && e.Begin? && CanTick(k, s, e)
    ensures Linked(Next(s, e), Ticked(k, s, e))
  {
    hide Inv, Enabled, Next, Placed, Grows, Past, Scopes, Done, Series, Ordered, BeforeOk, DoneOk, ThreadOk;
    LastOfThread(s, k, e);
    NextGrows(s, e);
    QuietShape(s, e);
    OwnThread(s, e);
    BalanceOne(e);
    NotScheduling(s, e);
    SameTree(s, k, e);
    var t, n, fs := e.t, Next(s, e), k.frames[e.t];
    var fs' := fs + [k.waiting[e.task]];
    assert Top(n.c.stacks[t]) == s.c.pending[e.task];
    assert Placed(n.tree, n.at, k.waiting[e.task], s.c.pending[e.task], Idle);
    assert FrameOk(n.tree, n.at, n.c.stacks[t], n.pauses[t], fs', |fs'| - 1);
    SetThread(s, k, e, n, fs');
  }

  // A wait returns.

  /** While a FINISH is open it is the youngest child of its parent. */
  lemma {:induction false} OpenIsYoungest(d: Tree, live: set<nat>, open: set<nat>, f: nat, x: nat)
    requires Ordered(d, live, open) && f in live && 1 <= f < |d| && d[f].kind == FINISH && x < |d| && d[x].parent == d[f].parent
    ensures x <= f && ParentsFirst(d)
  {
    hide FinishOrdered, Quiet;
    assert Below(d, f, f);
  }

  lemma {:induction false} AheadOfParent(d: Tree, live: set<nat>, open: set<nat>, f: nat, x: nat)
    requires Ordered(d, live, open) && f in live && 2 <= f < |d| && d[f].kind == FINISH && Ahead(d, x, d[f].parent) && x != f
    ensures Ahead(d, x, f)
  {
    hide Ordered;
    OpenIsYoungest(d, live, open, f, f);
    if d[x].parent == d[f].parent {
      OpenIsYoungest(d, live, open, f, x);
      assert Below(d, f, f);
    } else {
      var y: nat :| x < y < |d| && d[y].parent == d[x].parent && Below(d, y, d[f].parent);
      BelowParent(d, y, f);
    }
  }

  lemma {:induction false} AheadOfChild(d: Tree, f: nat, x: nat)
    requires ParentsFirst(d) && 2 <= f < |d| && Ahead(d, x, f) && d[x].parent != f
    ensures Ahead(d, x, d[f].parent)
  {
    var y: nat :| x < y < |d| && d[y].parent == d[x].parent && Below(d, y, f);
    BelowParent(d, y, f);
  }

  lemma {:induction false} ChildIsBelow(d: Tree, f: nat, x: nat)
    requires ParentsFirst(d) && 1 <= f && 1 <= x < |d| && d[x].parent == f
    ensures Below(d, f, x)
  {
    assert x >= 2;
    BelowParent(d, f, x);
  }

  /** When an implicit FINISH closes, what comes before the next child of its parent is what came before
      its own next child, and whatever is below it. */
  lemma {:induction false} JoinEarlier(d: Tree, live: set<nat>, open: set<nat>, f: nat, u: nat)
    requires Ordered(d, live, open) && f in live && 2 <= f < |d| && d[f].kind == FINISH
    ensures Earlier(d, u, d[f].parent) <==> Earlier(d, u, f) || Below(d, f, u)
  {
    hide Ordered, Ahead, Below;
    OpenIsYoungest(d, live, open, f, f);
    var p := d[f].parent;
    if Earlier(d, u, p) {
      var x: nat :| Ahead(d, x, p) && Below(d, x, u);
      if x != f {
        AheadOfParent(d, live, open, f, x);
      }
    }
    if Below(d, f, u) {
      EarlierBelow(d, u, p, f);
    }
    if Earlier(d, u, f) {
      var x: nat :| Ahead(d, x, f) && Below(d, x, u);
      InRange(d, x, f);
      if d[x].parent == f {
        ChildIsBelow(d, f, x);
        BelowTrans(d, f, x, u);
      } else {
        AheadOfChild(d, f, x);
      }
    }
  }

  lemma {:induction false} InRange(d: Tree, x: nat, p: nat)
    requires Ahead(d, x, p)
    ensures 1 <= x < |d|
  {
  }

  lemma {:induction false} BelowTrans(d: Tree, f: nat, x: nat, u: nat)
    requires Below(d, f, x) && Below(d, x, u)
    ensures Below(d, f, u)
    decreases u
  {
    if u != x {
      BelowTrans(d, f, x, d[u].parent);
      Later(d, f, x);
    }
  }

  lemma {:induction false} JoinPast(d: Tree, at: seq<Place>, live: set<nat>, f: nat)
    requires Ordered(d, live, Open(at)) && f in live && 2 <= f < |d| && d[f].kind == FINISH
    ensures Past(d, at, d[f].parent) == Past(d, at, f) + Done(d, at, f)
  {
    hide Ordered, Earlier, Below;
    forall u: nat ensures u in Past(d, at, d[f].parent) <==> u in Past(d, at, f) || u in Done(d, at, f) {
      JoinEarlier(d, live, Open(at), f, u);
    }
  }

  lemma {:induction false} JoinedPlaced(d: Tree, at: seq<Place>, live: set<nat>, g: Frame, n: OpenNode, why: Why, top: OpenNode,
                                        done: map<nat, set<nat>>)
    requires Ordered(d, live, Open(at)) && Placed(d, at, g, n, why) && why != Idle && g.wait in done && DoneOk(d, at, done)
    requires n.id in live && (n.sync ==> 2 <= n.id && d[n.id].kind == FINISH)
    requires if why == ForTasks then top.id == d[n.id].parent && !top.sync else top.id == n.id && top.sync == n.sync
    ensures Placed(d, at, Joined(g, done), top, Idle)
  {
    hide Ordered, Past, Done, Scopes;
    OrderedFirst(d, live, Open(at));
    if why == ForTasks {
      JoinPast(d, at, live, n.id);
      ScopesChild(d, n.id);
      TopNotZero(d, d[n.id].parent, n.id);
    } else {
      TopNotZero(d, n.id, why.finish);
    }
  }

  lemma {:induction false} ResumeShape(s: Sys, e: Event)
    requires Inv(s) && Enabled(s, e) && e.Resume? && Flat(s.c.stacks)
    ensures Active(s.c, e.t)
    ensures var n, st, ps := Next(s, e), s.c.stacks[e.t], s.pauses[e.t];
            && |ps| > 1 && |n.tree| == s.c.last + 1 && n.c.pending == s.c.pending
            && n.pauses[e.t] == ps[..|ps| - 1]
            && Active(n.c, e.t) && Top(n.c.stacks[e.t]).child == s.c.last
            && n.tree[s.c.last].kind == STEP && n.tree[s.c.last].parent == Top(n.c.stacks[e.t]).id
            && if Last(ps).why == ForTasks then Top(n.c.stacks[e.t]).id == s.tree[Top(st).id].parent && !Top(n.c.stacks[e.t]).sync
               else Top(n.c.stacks[e.t]).id == Top(st).id && Top(n.c.stacks[e.t]).sync == Top(st).sync
  {
    hide Inv, Quiescent;
    NextDefined(s, e);
    LengthsOf(s);
    CallsMade(s, e);
    TopIs(s, e.t);
    FlatTop(s.c.stacks, e.t);
    if Last(s.pauses[e.t]).why == ForTasks {
      WaitsOnSync(s, e);
    }
  }

  lemma {:induction false} WaitsOnSync(s: Sys, e: Event)
    requires Inv(s) && Enabled(s, e) && e.Resume? && Last(s.pauses[e.t]).why == ForTasks
    ensures Top(s.c.stacks[e.t]).sync
  {
    hide StacksOk, PendingOk, LogOk, Blocked, TreeOk, StepsOk, Ordered, PausesOk, Layered, Quiescent;
    NestedOf(s, e.t);
    CallsMade(s, e);
    var ps := s.pauses[e.t];
    assert ps[|ps| - 1].why == ForTasks;
  }

  lemma {:induction false} ResumeLinked(s: Sys, k: Clocks, e: Event)
    requires Inv(s) && Enabled(s, e) && Linked(s, k) && e.Resume? && CanTick(k, s, e) && Flat(s.c.stacks)
    ensures Linked(Next(s, e), Ticked(k, s, e))
  {
    hide Inv, Enabled, Next, Placed, Grows, Past, Scopes, Done, Series, Ordered, BeforeOk, DoneOk, ThreadOk, WaitingOk, Joined;
    LastOfThread(s, k, e);
    NextGrows(s, e);
    ResumeShape(s, e);
    OwnThread(s, e);
    LengthsOf(s);
    BalanceOne(e);
    NotScheduling(s, e);
    TopIs(s, e.t);
    OrderedInv(s);
    var t, n, fs := e.t, Next(s, e), k.frames[e.t];
    var st, top := s.c.stacks[t], Top(n.c.stacks[t]);
    GrowsLonger(s.tree, s.at, n.tree, n.at);
    CallsMade(s, e);
    JoinedPlaced(s.tree, s.at, Live(s.at), Last(fs), Top(st), Last(s.pauses[t]).why, top, k.done);
    var f := Joined(Last(fs), k.done);
    PlacedGrows(s.tree, s.at, n.tree, n.at, f, top, Idle);
    var fs' := SetLast(fs, f);
    assert FrameOk(n.tree, n.at, n.c.stacks[t], n.pauses[t], fs', |fs'| - 1);
    SetThread(s, k, e, n, fs');
    WaitingGrows(s.tree, s.at, n.tree, n.at, s.c.pending, k.waiting);
    NoScopes(s.tree, s.at, n.tree, n.at, k.done);
    PlacedPast(n.tree, n.at, f, top);
    OneStep(s.tree, s.at, n.tree, n.at, Live(n.at), k.before, s.c.last, f.past);
  }

  lemma {:induction false} PlacedPast(d: Tree, at: seq<Place>, f: Frame, n: OpenNode)
    requires Placed(d, at, f, n, Idle)
    ensures f.past == Past(d, at, n.id)
  {
  }

  // ---- runs ----

  lemma {:induction false} NextLinked(s: Sys, k: Clocks, e: Event)
    requires Inv(s) && Enabled(s, e) && Linked(s, k) && Flat(s.c.stacks)
    ensures CanTick(k, s, e) && Linked(Next(s, e), Ticked(k, s, e))
  {
    hide Inv, Enabled, Next, Linked, Ticked, CanTick;
    LastOfThread(s, k, e);
    match e
    case EndStep(_, _) => EndStepLinked(s, k, e);
    case Spawn(_, _) => SpawnLinked(s, k, e);
    case SpawnAll(_, _) => SpawnLinked(s, k, e);
    case SpawnRoot(_, _) => RootLinked(s, k, e);
    case WaitAll(_) => WaitAllLinked(s, k, e);
    case EndTask(_) => EndTaskLinked(s, k, e);
    case Begin(_, _) => BeginLinked(s, k, e);
    case Resume(_) => ResumeLinked(s, k, e);
  }

  lemma {:induction false} FirstLinked(threads: nat)
    requires threads > 0
    ensures Linked(Initial(threads), FirstClocks(threads))
  {
    hide Below, Earlier, Series;
    var s, k := Initial(threads), FirstClocks(threads);
    FirstTree(s.tree, s.at);
    forall t | 0 <= t < threads
      ensures |k.frames[t]| == Frames(s, t) && ThreadOk(s.tree, s.at, s.c.stacks[t], s.pauses[t], k.frames[t])
    {
      assert s.pauses[t] == [Pause(Idle, [])];
      assert s.c.stacks[t] == if t == 0 then [OpenNode(1, 2, NO_TYPE, false)] else [];
      assert k.frames[t] == if t == 0 then [Frame({}, {}, 0, 0)] else [];
    }
  }

  lemma {:induction false} FirstTree(d: Tree, at: seq<Place>)
    requires d == [Node(0, NO_TYPE, 0, 0), Node(0, FINISH, 0, 0), Node(1, STEP, 0, 0)] && at == [Gone, OnStack(0, 0), Running]
    ensures Past(d, at, 1) == {} && Scopes(d, 1) == {} && SeriesBefore(d, 2) == {}
  {
    InitialOrdered(d);
    forall u: nat ensures u !in SeriesBefore(d, 2) {
      if u < 3 && Series(d, u, 2) {
        SeriesOlder(d, {1}, {2}, u, 2);
      }
    }
  }

  lemma {:induction false} LastEvent(threads: nat, es: seq<Event>)
    requires threads > 0 && Run(threads, es).Some? && es != [] && Disciplined(threads, es)
    ensures var init, e := es[..|es| - 1], es[|es| - 1];
            && Run(threads, init).Some? && Disciplined(threads, init)
            && var s := Run(threads, init).value;
            && Inv(s) && Enabled(s, e) && Flat(s.c.stacks) && Run(threads, es).value == Next(s, e)
  {
    hide Inv, Flat, Next, Enabled;
    DisciplinedPrefix(threads, es, |es| - 1);
    DisciplinedRun(threads, es[..|es| - 1]);
  }

  ghost function NextOrder(s: Sys, k: Clocks, e: Event): (r: Clocks)
    requires Inv(s) && Enabled(s, e) && Linked(s, k) && Flat(s.c.stacks)
    ensures Linked(Next(s, e), r)
  {
    hide Inv, Linked, Ticked, Flat, CanTick, Next, Enabled;
    NextLinked(s, k, e);
    Ticked(k, s, e)
  }

  /** The order that the events of a disciplined run give to its steps. */
  ghost function Order(threads: nat, es: seq<Event>): (k: Clocks)
    requires threads > 0 && Run(threads, es).Some? && Disciplined(threads, es)
    ensures Linked(Run(threads, es).value, k)
    decreases |es|
  {
    hide Inv, Linked, Flat, Disciplined, Next, Enabled;
    if es == [] then
      FirstLinked(threads);
      FirstClocks(threads)
    else
      var init := es[..|es| - 1];
      LastEvent(threads, es);
      NextOrder(Run(threads, init).value, Order(threads, init), es[|es| - 1])
  }

  /** In every state of a disciplined run, the tree puts step `u` in series before step `v` exactly if, by
      the spawns and waits of the run, `u` had ended before `v` started. */
  lemma {:induction false} SeriesIsOrder(threads: nat, es: seq<Event>, u: nat, v: nat)
    requires threads > 0 && Run(threads, es).Some? && Disciplined(threads, es)
    requires var s := Run(threads, es).value; u < |s.tree| && v < |s.tree| && s.tree[u].kind == STEP && s.tree[v].kind == STEP
    ensures v in Order(threads, es).before
    ensures Series(Run(threads, es).value.tree, u, v) <==> u in Order(threads, es).before[v]
  {
    hide Run, Order, Series, Inv, FramesOk, WaitingOk, DoneOk, Disciplined;
  }

  /** The same for the tree that the log of a finished run describes. */
  lemma {:induction false} LoggedOrder(threads: nat, es: seq<Event>, i: nat, j: nat)
    requires threads > 0 && Run(threads, es).Some? && Disciplined(threads, es) && Finished(Run(threads, es).value)
    requires var c := Run(threads, es).value.c;
             i < |c.log| && j < |c.log| && c.log[i].kind == STEP && c.log[j].kind == STEP
    ensures var c := Run(threads, es).value.c; var before := Order(threads, es).before;
            && c.log[j].id in before
            && (Series(LoggedTree(c.log, c.last), c.log[i].id, c.log[j].id) <==> c.log[i].id in before[c.log[j].id])
  {
    hide Inv, Run, Series, Finished, SameShape, Order, Linked, Disciplined;
    var s := Run(threads, es).value;
    FinishedState(s);
    ProtocolTime.LogPlaces(s, i);
    ProtocolTime.LogPlaces(s, j);
    var u, v := s.c.log[i].id, s.c.log[j].id;
    SeriesIsOrder(threads, es, u, v);
    var d := LoggedTree(s.c.log, s.c.last);
    ShapeSize(s.tree, d);
    if Series(d, u, v) {
      ProtocolTime.SameSeries(s.tree, d, u, v);
    }
    if Series(s.tree, u, v) {
      ProtocolTime.SameSeries(d, s.tree, u, v);
    }
  }

  predicate LoggedStep(log: seq<Record>, a: nat) {
    exists j :: 0 <= j < |log| && log[j].id == a && log[j].kind == STEP
  }

  /** A set of logged steps any two of which the run has ordered. */
  ghost predicate Sequential(log: seq<Record>, before: map<nat, set<nat>>, c: set<nat>) {
    && (forall a :: a in c ==> LoggedStep(log, a) && a in before)
    && (forall a, b {:trigger before[a], before[b]} :: a in c && b in c && a != b ==> a in before[b] || b in before[a])
  }

  lemma {:induction false} SequentialIff(threads: nat, es: seq<Event>, c: set<nat>)
    requires threads > 0 && Run(threads, es).Some? && Disciplined(threads, es) && Finished(Run(threads, es).value)
    ensures var g := Run(threads, es).value.c;
            Chain(LoggedTree(g.log, g.last), c) <==> Sequential(g.log, Order(threads, es).before, c)
  {
    hide Inv, Run, Series, Finished, SameShape, Order, Linked, Disciplined;
    var g, before := Run(threads, es).value.c, Order(threads, es).before;
    var d := LoggedTree(g.log, g.last);
    if Chain(d, c) {
      forall a | a in c ensures LoggedStep(g.log, a) && a in before {
        StepOfLog(threads, es, a);
        var j :| 0 <= j < |g.log| && g.log[j].id == a && g.log[j].kind == STEP;
        LoggedOrder(threads, es, j, j);
      }
      forall a, b | a in c && b in c && a != b ensures a in before[b] || b in before[a] {
        OrderOfLog(threads, es, a, b);
      }
    }
    if Sequential(g.log, before, c) {
      forall a | a in c ensures 1 <= a < |d| && d[a].kind == STEP {
        StepOfLog(threads, es, a);
      }
      forall a, b | a in c && b in c && a != b ensures Series(d, a, b) || Series(d, b, a) {
        assert a in before[b] || b in before[a];
        OrderOfLog(threads, es, a, b);
      }
    }
  }

  lemma {:induction false} StepOfLog(threads: nat, es: seq<Event>, a: nat)
    requires threads > 0 && Run(threads, es).Some? && Finished(Run(threads, es).value)
    ensures var g := Run(threads, es).value.c; var d := LoggedTree(g.log, g.last);
            LoggedStep(g.log, a) <==> 1 <= a < |d| && d[a].kind == STEP
  {
    hide Inv, Run, Finished;
    var s := Run(threads, es).value;
    FinishedState(s);
    LengthsOf(s);
    var d := LoggedTree(s.c.log, s.c.last);
    ShapeSize(s.tree, d);
    assert forall i {:trigger d[i].kind} :: 0 <= i < |d| ==> d[i].kind == s.tree[i].kind;
    forall j | 0 <= j < |s.c.log| ensures var v := s.c.log[j].id; 1 <= v < |d| && d[v].kind == s.c.log[j].kind {
      ProtocolTime.LogPlaces(s, j);
    }
    if 1 <= a < |d| {
      assert Logged(s.c.log, a);
    }
  }

  lemma {:induction false} OrderOfLog(threads: nat, es: seq<Event>, a: nat, b: nat)
    requires threads > 0 && Run(threads, es).Some? && Disciplined(threads, es) && Finished(Run(threads, es).value)
    requires var g := Run(threads, es).value.c; LoggedStep(g.log, a) && LoggedStep(g.log, b)
    ensures var g := Run(threads, es).value.c; var d := LoggedTree(g.log, g.last); var before := Order(threads, es).before;
            && a in before && b in before
            && (Series(d, a, b) <==> a in before[b]) && (Series(d, b, a) <==> b in before[a])
  {
    hide Inv, Run, Series, Finished, SameShape, Order, Linked, Disciplined;
    var log := Run(threads, es).value.c.log;
    var i :| 0 <= i < |log| && log[i].id == a && log[i].kind == STEP;
    var j :| 0 <= j < |log| && log[j].id == b && log[j].kind == STEP;
    LoggedOrder(threads, es, i, j);
    LoggedOrder(threads, es, j, i);
  }

  /** The span of the tree that a finished, disciplined run has logged is the largest total work of steps
      any two of which the spawns and waits of the run have ordered. */
  lemma {:induction false} CriticalPath(threads: nat, es: seq<Event>)
    requires threads > 0 && Run(threads, es).Some? && Disciplined(threads, es) && Finished(Run(threads, es).value)
    ensures var g := Run(threads, es).value.c; var d := LoggedTree(g.log, g.last); var before := Order(threads, es).before;
            && |d| >= 2
            && (forall c {:trigger Sequential(g.log, before, c)} :: Sequential(g.log, before, c) ==> Weight(d, c, |d|) <= Span(d, 1))
            && exists c :: Sequential(g.log, before, c) && Weight(d, c, |d|) == Span(d, 1)
  {
    hide Inv, Run, Series, Finished, Order, Linked, Disciplined, Sequential, Chain, Weight, Span;
    var g, before := Run(threads, es).value.c, Order(threads, es).before;
    var d := LoggedTree(g.log, g.last);
    FinishedRun(threads, es);
    SpanIsHeaviestChain(d);
    forall c | Sequential(g.log, before, c) ensures Weight(d, c, |d|) <= Span(d, 1) {
      SequentialIff(threads, es, c);
    }
    var c :| Chain(d, c) && Weight(d, c, |d|) == Span(d, 1);
    SequentialIff(threads, es, c);
  }

  lemma {:induction false} ShapeSize(d: Tree, e: Tree)
    requires SameShape(d, e)
    ensures |d| == |e| && SameShape(e, d)
  {
  }
}
