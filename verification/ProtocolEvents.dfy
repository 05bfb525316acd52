/** The events of the collection protocol that allocate nodes. */
module ProtocolEvents {
  import opened Dpst
  import opened Growth
  import opened Collector
  import opened Protocol
  import opened ProtocolSteps
  import opened ProtocolGrowth

  lemma {:induction false} CoreOf(s: Sys)
    requires Inv(s)
    ensures Core(s) && Planted(s.tree)
  {
    hide StacksOk, PendingOk, StepsOk, LogOk, Blocked;
    assert s.tree[|s.tree| - 1].kind == STEP;
    hide Ordered;
  }

  lemma {:induction false} InvOf(s: Sys)
    requires Core(s) && Planted(s.tree) && PausesOk(s.tree, s.c.stacks, s.pauses, s.mode)
    ensures Inv(s)
  {
    hide StacksOk, PendingOk, StepsOk, LogOk, Blocked, Ordered, PausesOk;
  }

  /** The calls of the other threads are not affected. */
  lemma {:induction false} KeepPauses(d: Tree, e: Tree, stacks: seq<Stack>, pauses: seq<seq<Pause>>, mode: seq<Mode>,
                                      t: nat, st: Stack, ps: seq<Pause>, m: Mode)
    requires PausesOk(d, stacks, pauses, mode) && t < |mode| && d <= e
    requires Nested(e, st, ps, m == Scheduling)
    ensures PausesOk(e, stacks[t := st], pauses[t := ps], mode[t := m])
  {
    hide Nested;
    var stacks', pauses', mode' := stacks[t := st], pauses[t := ps], mode[t := m];
    forall u | 0 <= u < |mode'| ensures Nested(e, stacks'[u], pauses'[u], mode'[u] == Scheduling) {
      if u != t {
        assert Nested(d, stacks[u], pauses[u], mode[u] == Scheduling);
        NestTree(d, e, stacks[u], pauses[u], mode[u] == Scheduling);
      }
    }
  }

  lemma {:induction false} NestedOf(s: Sys, t: nat)
    requires PausesOk(s.tree, s.c.stacks, s.pauses, s.mode) && t < |s.mode|
    ensures |s.c.stacks| == |s.pauses| == |s.mode|
    ensures Nested(s.tree, s.c.stacks[t], s.pauses[t], s.mode[t] == Scheduling)
  {
    hide Nested;
    assert s.c.stacks[t] == s.c.stacks[t];
  }

  // ---- the current node of a thread that may act is settled ----

  /** What can block the node at depth `k` of stack `t`. */
  lemma {:induction false} SettledBy(s: Sys, t: nat, k: nat, at: seq<Place>)
    requires Blocked(s.tree, s.at, s.c.stacks, s.pauses) && StacksOk(s.tree, s.at, s.c.stacks)
    requires t < |s.c.stacks| && k < |s.c.stacks[t]|
    requires |at| == |s.at| && Live(at) <= Live(s.at)
    requires forall f: nat, x: nat {:trigger Below(s.tree, f, x)} ::
               f < |s.tree| && x in Live(at) && Below(s.tree, f, x) ==>
                 !ExplainedBySync(s.c.stacks[t], f, k) && !ExplainedByWait(s.pauses[t], f, k)
    requires forall a :: a in Open(at) && a < |s.tree| ==> s.tree[a].parent != s.c.stacks[t][k].id
    requires |s.tree| >= 3 && s.tree[1].parent == 0
    ensures Settled(s.tree, Live(at), Open(at), s.c.stacks[t][k].id)
  {
    hide ExplainedBySync, ExplainedByWait, Live, Open;
    var p := s.c.stacks[t][k].id;
    EndTaskStacks(s.tree, s.at, s.c.stacks, t, k);
    PositiveId(s.tree, s.at, s.c.stacks, t, k);
    forall f: nat, x: nat | 1 <= f < |s.tree| && s.tree[f].parent == p && s.tree[f].kind == FINISH && x in Live(at)
      ensures !Below(s.tree, f, x)
    {
      assert f >= 2 && x in Live(s.at);
      assert Below(s.tree, f, x) ==> Explained(s.c.stacks, s.pauses, f, t, k);
    }
  }

  lemma {:induction false} PositiveId(d: Tree, at: seq<Place>, stacks: seq<Stack>, t: nat, k: nat)
    requires StacksOk(d, at, stacks) && t < |stacks| && k < |stacks[t]|
    ensures 1 <= stacks[t][k].id
  {
    assert StackOk(d, at, stacks[t], t);
    assert stacks[t][k].id == stacks[t][k].id;
  }

  /** The open steps of a thread that executes none. */
  lemma {:induction false} NoOpenStep(s: Sys, t: nat, k: nat)
    requires StepsOk(s.tree, s.at, s.c.stacks, s.mode, s.c.pending) && StacksOk(s.tree, s.at, s.c.stacks)
    requires t < |s.mode| && k < |s.c.stacks[t]| && (s.mode[t] != Computing || k < |s.c.stacks[t]| - 1)
    ensures forall a :: a in Open(s.at) && a < |s.tree| ==> s.tree[a].parent != s.c.stacks[t][k].id
  {
    EndTaskStacks(s.tree, s.at, s.c.stacks, t, k);
    forall a | a in Open(s.at) && a < |s.tree| ensures s.tree[a].parent != s.c.stacks[t][k].id {
      assert s.at[a].Running?;
      assert Executed(s.at[s.tree[a].parent], s.c.stacks, s.mode, s.c.pending, a);
    }
  }

  lemma {:induction false} RootFirst(s: Sys)
    requires Inv(s)
    ensures |s.tree| >= 3 && s.tree[1].parent == 0 && forall x :: x in Live(s.at) ==> x > 0
  {
    hide StacksOk, PendingOk, StepsOk, LogOk, Blocked, PausesOk;
  }

  lemma {:induction false} ShortCalls(d: Tree, st: Stack, ps: seq<Pause>, k: nat)
    requires Nested(d, st, ps, false) && k == |st| - 1
    ensures forall f: nat {:trigger ExplainedByWait(ps, f, k)} :: !ExplainedByWait(ps, f, k)
  {
    assert forall j {:trigger ps[j].stack} :: 0 <= j < |ps| ==> |ps[j].stack| <= |ps[|ps| - 1].stack|;
  }

  lemma {:induction false} BetweenReady(s: Sys, t: nat)
    requires Inv(s) && t < |s.mode| && s.mode[t] == Between && Active(s.c, t)
    ensures Ready(s, t)
  {
    var k := |s.c.stacks[t]| - 1;
    NestedOf(s, t);
    RootFirst(s);
    hide Blocked, StacksOk, StepsOk, PendingOk, LogOk, Live, Open, Settled, Nested, Ordered, ExplainedByWait;
    NoOpenStep(s, t, k);
    var ps := s.pauses[t];
    ShortCalls(s.tree, s.c.stacks[t], ps, k);
    SettledBy(s, t, k, s.at);
    assert s.c.stacks[t][k] == Top(s.c.stacks[t]);
  }

  // ---- spawn ----

  function Known(s: Sys, site: Site): Sys {
    s.(c := Registered(s, site))
  }

  lemma {:induction false} KnownCore(s: Sys, site: Site, t: nat)
    requires Core(s)
    ensures Core(Known(s, site)) && (Ready(s, t) ==> Ready(Known(s, site), t))
  {
    hide Ordered, Settled, Budding, LogOk, Places, Blocked, Live, Open;
  }

  /** A task is spawned below an implicit FINISH, which is opened if none is. */
  function SpawnTask(s: Sys, t: nat, site: Site): Sys
    requires Active(s.c, t)
  {
    var s0 := Known(s, site);
    AddTask(if Top(s.c.stacks[t]).young == ASYNC then s0 else OpenSync(s0, t), t, ASYNC, CallSiteOf(site))
  }

  lemma {:induction false} SpawnTaskCore(s: Sys, t: nat, site: Site)
    requires Core(s) && Planted(s.tree) && Active(s.c, t) && Ready(s, t)
    ensures var n := SpawnTask(s, t, site);
            Core(n) && Active(n.c, t) && Ready(n, t) && Planted(n.tree) && s.tree <= n.tree && n.pauses == s.pauses && n.mode == s.mode
  {
    hide Core;
    var s0 := Known(s, site);
    KnownCore(s, site, t);
    if Top(s.c.stacks[t]).young == ASYNC {
      AddTaskCore(s0, t, ASYNC, CallSiteOf(site));
    } else {
      OpenSyncCore(s0, t);
      LengthOf(s0);
      AddTaskCore(OpenSync(s0, t), t, ASYNC, CallSiteOf(site));
    }
  }

  lemma {:induction false} LengthOf(s: Sys)
    requires Core(s)
    ensures |s.tree| == s.c.last
  {
  }

  /** The frame of the spawning node, before and after. */
  lemma {:induction false} SpawnTaskFrame(s: Sys, t: nat, site: Site)
    requires Core(s) && Active(s.c, t)
    ensures var st, st' := s.c.stacks[t], SpawnTask(s, t, site).c.stacks[t];
            && SameSpine(st, st') && st'[..|st| - 1] == st[..|st| - 1]
            && (forall k :: |st| <= k < |st'| ==> st'[k].sync) && Top(st').sync
    ensures SpawnTask(s, t, site).c.stacks == s.c.stacks[t := SpawnTask(s, t, site).c.stacks[t]]
  {
    hide Ordered, PendingOk, StepsOk, LogOk, Blocked, Budding;
    TopPlace(s.tree, s.at, s.c.stacks, t);
  }

  lemma {:induction false} SpawnIsMoves(s: Sys, t: nat, site: Site)
    requires |s.tree| == s.c.last && Active(s.c, t) && t < |s.mode| && Indexed(s, t)
    ensures AfterSpawn(s, t, site) == StartStep(SpawnTask(s, t, site), t)
  {
    if Top(s.c.stacks[t]).young == ASYNC {
      SpawnBelow(s, t, site);
    } else {
      SpawnSync(s, t, site);
    }
  }

  lemma {:induction false} SpawnBelow(s: Sys, t: nat, site: Site)
    requires |s.tree| == s.c.last && Active(s.c, t) && t < |s.mode| && Indexed(s, t) && Top(s.c.stacks[t]).young == ASYNC
    ensures AfterSpawn(s, t, site) == StartStep(SpawnTask(s, t, site), t)
  {
    var a, b := AfterSpawn(s, t, site), StartStep(SpawnTask(s, t, site), t);
    assert a.tree == b.tree && a.at == b.at && a.pos == b.pos;
  }

  lemma {:induction false} SpawnSync(s: Sys, t: nat, site: Site)
    requires |s.tree| == s.c.last && Active(s.c, t) && t < |s.mode| && Indexed(s, t) && Top(s.c.stacks[t]).young != ASYNC
    ensures AfterSpawn(s, t, site) == StartStep(SpawnTask(s, t, site), t)
  {
    var a, b := AfterSpawn(s, t, site), StartStep(SpawnTask(s, t, site), t);
    assert a.tree == b.tree && a.at == b.at && a.pos == b.pos;
    assert a.c.log == b.c.log;
    assert a.c.stacks[t] == b.c.stacks[t];
    assert a.c.stacks == b.c.stacks;
  }

  lemma {:induction false} StartStepFrame(s: Sys, t: nat)
    requires Active(s.c, t) && t < |s.mode|
    ensures var n, st := StartStep(s, t), s.c.stacks[t];
            && n.c.stacks == s.c.stacks[t := n.c.stacks[t]] && SameSpine(st, n.c.stacks[t])
            && |n.c.stacks[t]| == |st| && n.c.stacks[t][..|st| - 1] == st[..|st| - 1]
            && s.tree <= n.tree && n.pauses == s.pauses && n.mode == s.mode[t := Computing]
  {
  }

  lemma {:induction false} SpawnKeeps(s: Sys, t: nat, site: Site)
    requires Core(s) && Planted(s.tree) && PausesOk(s.tree, s.c.stacks, s.pauses, s.mode)
    requires Indexed(s, t) && s.mode[t] == Between && Active(s.c, t) && Ready(s, t)
    ensures Inv(AfterSpawn(s, t, site))
  {
    hide Core, Ready, Nested, Inv, SpawnTask, StartStep, AfterSpawn, PausesOk, SameSpine;
    NestedOf(s, t);
    LengthOf(s);
    var m := SpawnTask(s, t, site);
    SpawnTaskCore(s, t, site);
    SpawnTaskFrame(s, t, site);
    StartStepCore(m, t);
    StartStepFrame(m, t);
    var n := StartStep(m, t);
    SpawnIsMoves(s, t, site);
    SpineTrans(s.c.stacks[t], m.c.stacks[t], n.c.stacks[t]);
    NestFrame(s.tree, n.tree, s.c.stacks[t], n.c.stacks[t], s.pauses[t]);
    KeepPauses(s.tree, n.tree, s.c.stacks, s.pauses, s.mode, t, n.c.stacks[t], s.pauses[t], Computing);
    assert s.pauses[t := s.pauses[t]] == s.pauses;
    assert s.c.stacks[t := n.c.stacks[t]] == n.c.stacks;
    InvOf(n);
  }

  lemma {:induction false} SpineTrans(a: Stack, b: Stack, c: Stack)
    requires SameSpine(a, b) && SameSpine(b, c) && |c| == |b| && |a| > 0
    requires b[..|a| - 1] == a[..|a| - 1] && c[..|b| - 1] == b[..|b| - 1]
    requires forall k :: |a| <= k < |b| ==> b[k].sync
    ensures SameSpine(a, c) && c[..|a| - 1] == a[..|a| - 1]
    ensures forall k :: |a| <= k < |c| ==> c[k].sync
  {
    assert c[..|a| - 1] == c[..|b| - 1][..|a| - 1];
    assert b[..|a| - 1] == b[..|b| - 1][..|a| - 1];
  }

  lemma {:induction false} SpawnInv(s: Sys, t: nat, site: Site)
    requires Inv(s) && Enabled(s, Spawn(t, site))
    ensures Inv(Next(s, Spawn(t, site)))
  {
    hide Core, Ready, AfterSpawn, TreeOk, StacksOk, PendingOk, StepsOk, LogOk, PausesOk, Ordered, Blocked;
    CoreOf(s);
    BetweenReady(s, t);
    SpawnKeeps(s, t, site);
  }

  // ---- spawn_and_wait_for_all and spawn_root_and_wait ----

  /** A thread calls the scheduler. */
  function Enter(s: Sys, t: nat, why: Why): Sys
    requires t < |s.pauses| && t < |s.mode| && t < |s.c.stacks|
  {
    s.(mode := s.mode[t := Scheduling], pauses := PushPause(s, t, why, s.c.stacks[t]))
  }

  lemma {:induction false} EnterPlaces(d: Tree, at: seq<Place>, stacks: seq<Stack>, mode: seq<Mode>,
                                       pending: map<nat, OpenNode>, tasks: nat, t: nat)
    requires t < |mode| && mode[t] != Computing && Places(d, at, stacks, mode, pending, tasks)
    ensures Places(d, at, stacks, mode[t := Scheduling], pending, tasks)
  {
    hide StacksOk, PendingOk, StepsOk;
    KeepSteps(d, at, stacks, mode, pending, t);
  }

  lemma {:induction false} SamePlacesBlocked(d: Tree, at: seq<Place>, stacks: seq<Stack>, stacks': seq<Stack>,
                                             pauses: seq<seq<Pause>>, pauses': seq<seq<Pause>>)
    requires Blocked(d, at, stacks, pauses) && Extends(stacks, stacks', pauses, pauses')
    ensures Blocked(d, at, stacks', pauses')
  {
    hide Extends;
    KeepBlocked(d, at, at, stacks, stacks', pauses, pauses');
  }

  lemma {:induction false} EnterCore(s: Sys, t: nat, why: Why)
    requires Core(s) && Ready(s, t)
    ensures Core(Enter(s, t, why)) && Ready(Enter(s, t, why), t)
  {
    hide Ordered, Settled, Budding, LogOk, Places, Blocked, Live, Open, Extends;
    EnterPlaces(s.tree, s.at, s.c.stacks, s.mode, s.c.pending, s.tasks, t);
    SameSpines(s.c.stacks[t]);
    assert s.c.stacks[t := s.c.stacks[t]] == s.c.stacks;
    PauseExtends(s.c.stacks, s.c.stacks, s.pauses, t, Pause(why, s.c.stacks[t]));
    SamePlacesBlocked(s.tree, s.at, s.c.stacks, s.c.stacks, s.pauses, Enter(s, t, why).pauses);
  }

  lemma {:induction false} SameSpines(st: Stack)
    ensures SameSpine(st, st)
  {
  }

  lemma {:induction false} SpawnAllIsMoves(s: Sys, t: nat, site: Site)
    requires |s.tree| == s.c.last && Active(s.c, t) && t < |s.mode| && Indexed(s, t)
    ensures AfterSpawnAll(s, t, site) == Enter(SpawnTask(s, t, site), t, ForTasks)
  {
    var a, b := AfterSpawnAll(s, t, site), Enter(SpawnTask(s, t, site), t, ForTasks);
    assert a.tree == b.tree && a.at == b.at && a.pos == b.pos;
    if Top(s.c.stacks[t]).young != ASYNC {
      assert a.c.log == b.c.log;
    }
    assert a.c == b.c;
  }

  lemma {:induction false} SpawnAllKeeps(s: Sys, t: nat, site: Site)
    requires Core(s) && Planted(s.tree) && PausesOk(s.tree, s.c.stacks, s.pauses, s.mode)
    requires Indexed(s, t) && s.mode[t] == Between && Active(s.c, t) && Ready(s, t)
    ensures Inv(AfterSpawnAll(s, t, site))
  {
    hide Core, Nested, Inv, SpawnTask, AfterSpawnAll, PausesOk, SameSpine, Settled, Live, Open;
    NestedOf(s, t);
    LengthOf(s);
    var m := SpawnTask(s, t, site);
    SpawnTaskCore(s, t, site);
    SpawnTaskFrame(s, t, site);
    EnterCore(m, t, ForTasks);
    SpawnAllIsMoves(s, t, site);
    var n, st := Enter(m, t, ForTasks), m.c.stacks[t];
    NestFrame(s.tree, n.tree, s.c.stacks[t], st, s.pauses[t]);
    NestPush(n.tree, st, s.pauses[t], ForTasks);
    KeepPauses(s.tree, n.tree, s.c.stacks, s.pauses, s.mode, t, st, n.pauses[t], Scheduling);
    assert s.c.stacks[t := st] == n.c.stacks;
    assert s.pauses[t := n.pauses[t]] == n.pauses;
    InvOf(n);
  }

  lemma {:induction false} SpawnAllInv(s: Sys, t: nat, site: Site)
    requires Inv(s) && Enabled(s, SpawnAll(t, site))
    ensures Inv(Next(s, SpawnAll(t, site)))
  {
    hide Core, Ready, AfterSpawnAll, TreeOk, StacksOk, PendingOk, StepsOk, LogOk, PausesOk, Ordered, Blocked;
    CoreOf(s);
    BetweenReady(s, t);
    SpawnAllKeeps(s, t, site);
  }

  /** The spawning node has got a FINISH child. */
  function Touched(s: Sys, t: nat, site: Site): Sys
    requires Active(s.c, t)
  {
    var c := Registered(s, site);
    s.(c := c.(stacks := c.stacks[t := SetTop(c.stacks[t], Top(c.stacks[t]).(young := FINISH))]))
  }

  lemma {:induction false} TouchedCore(s: Sys, t: nat, site: Site)
    requires Core(s) && Active(s.c, t) && Ready(s, t)
    ensures Core(Touched(s, t, site)) && Ready(Touched(s, t, site), t)
    ensures SameSpine(s.c.stacks[t], Touched(s, t, site).c.stacks[t])
  {
    hide Ordered, Settled, Budding, LogOk, StacksOk, StepsOk, PendingOk, Blocked, Live, Open, Extends;
    var st := SetTop(s.c.stacks[t], Top(s.c.stacks[t]).(young := FINISH));
    TouchStacks(s.tree, s.at, s.c.stacks, t, Top(st));
    TouchSteps(s.tree, s.at, s.c.stacks, s.mode, s.c.pending, t, st);
    SpineTouch(s.c.stacks, s.pauses, t, st);
    SamePlacesBlocked(s.tree, s.at, s.c.stacks, s.c.stacks[t := st], s.pauses, s.pauses);
  }

  lemma {:induction false} SpawnRootIsMoves(s: Sys, t: nat, site: Site)
    requires |s.tree| == s.c.last && Active(s.c, t) && t < |s.mode| && Indexed(s, t)
    ensures AfterSpawnRoot(s, t, site) ==
            AddTask(Enter(Touched(s, t, site), t, ForRoot(|s.tree|)), t, FINISH, CallSiteOf(site))
  {
    var a, b := AfterSpawnRoot(s, t, site), AddTask(Enter(Touched(s, t, site), t, ForRoot(|s.tree|)), t, FINISH, CallSiteOf(site));
    assert a.tree == b.tree && a.at == b.at && a.pos == b.pos;
    assert a.c == b.c;
  }

  /** The new root is waited for by the thread that spawned it. */
  lemma {:induction false} RootExplained(stacks: seq<Stack>, pauses: seq<seq<Pause>>, t: nat, f: nat)
    requires t < |stacks| == |pauses| && |stacks[t]| > 0 && |pauses[t]| > 0
    requires Last(pauses[t]) == Pause(ForRoot(f), stacks[t])
    ensures Explained(stacks, pauses, f, t, |stacks[t]| - 1)
  {
    var j := |pauses[t]| - 1;
    assert pauses[t][j].why == ForRoot(f) && |pauses[t][j].stack| == |stacks[t]| - 1 + 1;
  }

  lemma {:induction false} SpawnRootKeeps(s: Sys, t: nat, site: Site)
    requires Core(s) && Planted(s.tree) && PausesOk(s.tree, s.c.stacks, s.pauses, s.mode)
    requires Indexed(s, t) && s.mode[t] == Between && Active(s.c, t) && Ready(s, t)
    ensures Inv(AfterSpawnRoot(s, t, site))
  {
    hide Core, Nested, Inv, AfterSpawnRoot, PausesOk, SameSpine, Settled, Live, Open, Explained;
    NestedOf(s, t);
    LengthOf(s);
    var m, f := Touched(s, t, site), |s.tree|;
    TouchedCore(s, t, site);
    EnterCore(m, t, ForRoot(f));
    var k, st := Enter(m, t, ForRoot(f)), m.c.stacks[t];
    RootExplained(k.c.stacks, k.pauses, t, f);
    AddTaskCore(k, t, FINISH, CallSiteOf(site));
    SpawnRootIsMoves(s, t, site);
    var n := AddTask(k, t, FINISH, CallSiteOf(site));
    NestFrame(s.tree, n.tree, s.c.stacks[t], st, s.pauses[t]);
    NestPush(n.tree, st, s.pauses[t], ForRoot(f));
    KeepPauses(s.tree, n.tree, s.c.stacks, s.pauses, s.mode, t, st, n.pauses[t], Scheduling);
    assert s.c.stacks[t := st] == n.c.stacks;
    assert s.pauses[t := n.pauses[t]] == n.pauses;
    InvOf(n);
  }

  lemma {:induction false} SpawnRootInv(s: Sys, t: nat, site: Site)
    requires Inv(s) && Enabled(s, SpawnRoot(t, site))
    ensures Inv(Next(s, SpawnRoot(t, site)))
  {
    hide Core, Ready, AfterSpawnRoot, TreeOk, StacksOk, PendingOk, StepsOk, LogOk, PausesOk, Ordered, Blocked;
    CoreOf(s);
    BetweenReady(s, t);
    SpawnRootKeeps(s, t, site);
  }

  // ---- a scheduler call returns ----

  function Left(s: Sys, t: nat): Sys
    requires t < |s.pauses| && |s.pauses[t]| > 0
  {
    s.(pauses := PopPause(s, t))
  }

  /** What the call explained is over. */
  lemma {:induction false} LeftBlocked(d: Tree, at: seq<Place>, stacks: seq<Stack>, pauses: seq<seq<Pause>>, t: nat)
    requires t < |pauses| && |pauses[t]| > 0 && Blocked(d, at, stacks, pauses)
    requires forall f: nat, x: nat {:trigger Below(d, f, x)} ::
               Last(pauses[t]).why == ForRoot(f) && x in Live(at) ==> !Below(d, f, x)
    ensures Blocked(d, at, stacks, pauses[t := pauses[t][..|pauses[t]| - 1]])
  {
    hide Live;
    var ps := pauses[t];
    var pauses' := pauses[t := ps[..|ps| - 1]];
    forall f: nat, x: nat | 2 <= f < |d| && d[f].kind == FINISH && x in Live(at) && Below(d, f, x)
                            && d[f].parent < |at| && at[d[f].parent].OnStack?
      ensures Explained(stacks, pauses', f, at[d[f].parent].thread, at[d[f].parent].depth)
    {
      var u, k := at[d[f].parent].thread, at[d[f].parent].depth;
      assert Explained(stacks, pauses, f, u, k);
      if u == t && !ExplainedBySync(stacks[t], f, k) {
        var j :| 0 <= j < |ps| && ps[j].why == ForRoot(f) && |ps[j].stack| == k + 1;
        assert ps[j] == pauses'[t][j];
      }
    }
  }

  /** The last call explains only the FINISH it waits for. */
  lemma {:induction false} LastCall(d: Tree, st: Stack, ps: seq<Pause>, k: nat)
    requires Nested(d, st, ps, true) && k == |st| - 1
    ensures forall f: nat {:trigger ExplainedByWait(ps, f, k)} :: ExplainedByWait(ps, f, k) ==> Last(ps).why == ForRoot(f)
  {
    assert forall j {:trigger ps[j].stack} :: 0 <= j < |ps| - 1 ==> |ps[j].stack| < |ps[|ps| - 1].stack|;
  }

  lemma {:induction false} ResumeRootReady(s: Sys, t: nat)
    requires Inv(s) && Enabled(s, Resume(t)) && Last(s.pauses[t]).why.ForRoot?
    ensures Ready(Left(s, t), t)
    ensures Blocked(s.tree, s.at, s.c.stacks, PopPause(s, t))
  {
    hide Blocked, StacksOk, StepsOk, PendingOk, LogOk, Live, Open, Settled, Nested, Ordered, ExplainedByWait, PausesOk;
    var f := Last(s.pauses[t]).why.finish;
    RootFirst(s);
    NestedOf(s, t);
    var k := |s.c.stacks[t]| - 1;
    NoOpenStep(s, t, k);
    LastCall(s.tree, s.c.stacks[t], s.pauses[t], k);
    assert forall x: nat {:trigger Below(s.tree, f, x)} :: x in Live(s.at) ==> !Below(s.tree, f, x);
    SettledBy(s, t, k, s.at);
    LeftBlocked(s.tree, s.at, s.c.stacks, s.pauses, t);
    assert Top(s.c.stacks[t]) == s.c.stacks[t][k];
  }

  lemma {:induction false} ResumeRootKeeps(s: Sys, t: nat)
    requires Core(s) && Planted(s.tree) && PausesOk(s.tree, s.c.stacks, s.pauses, s.mode)
    requires Indexed(s, t) && s.mode[t] == Scheduling && |s.pauses[t]| > 1 && Ready(Left(s, t), t)
    requires Blocked(s.tree, s.at, s.c.stacks, PopPause(s, t))
    ensures Inv(AfterResumeRoot(s, t))
  {
    hide Budding, Places, LogOk, Ordered, Blocked, Nested, Inv, PausesOk, SameSpine, Settled, Live, Open, StartStep;
    NestedOf(s, t);
    var m, st := Left(s, t), s.c.stacks[t];
    assert Core(m);
    StartStepCore(m, t);
    StartStepFrame(m, t);
    var n := StartStep(m, t);
    NestPop(s.tree, st, s.pauses[t]);
    NestFrame(s.tree, n.tree, st, n.c.stacks[t], m.pauses[t]);
    KeepPauses(s.tree, n.tree, s.c.stacks, s.pauses, s.mode, t, n.c.stacks[t], m.pauses[t], Computing);
    assert s.pauses[t := m.pauses[t]] == n.pauses;
    assert s.c.stacks[t := n.c.stacks[t]] == n.c.stacks;
    InvOf(n);
    ResumeRootIsMove(s, t);
  }

  lemma {:induction false} ResumeRootIsMove(s: Sys, t: nat)
    requires Indexed(s, t) && |s.pauses[t]| > 0 && Active(s.c, t)
    ensures AfterResumeRoot(s, t) == StartStep(Left(s, t), t)
  {
  }

  /** The implicit FINISH on top of the stack is closed. */
  function ClosedSync(s: Sys, t: nat): Sys
    requires Active(s.c, t) && Top(s.c.stacks[t]).id < |s.at|
  {
    s.(c := s.c.(stacks := s.c.stacks[t := Pop(s.c.stacks[t])]), at := s.at[Top(s.c.stacks[t]).id := Gone])
  }

  lemma {:induction false} ResumeTasksIsMove(s: Sys, t: nat)
    requires Indexed(s, t) && |s.pauses[t]| > 0 && |s.c.stacks[t]| > 1 && Top(s.c.stacks[t]).id < |s.at|
    ensures AfterResumeTasks(s, t) == StartStep(ClosedSync(Left(s, t), t), t)
  {
  }

  /** Nothing below the closed FINISH was alive, so it blocked nothing. */
  lemma {:induction false} ClosedBlocked(d: Tree, at: seq<Place>, at': seq<Place>, stacks: seq<Stack>,
                                         pauses: seq<seq<Pause>>, t: nat, v: nat)
    requires Blocked(d, at, stacks, pauses) && t < |stacks| && |stacks[t]| > 0 && v == Top(stacks[t]).id
    requires |at'| == |at| && StacksOk(d, at', stacks[t := Pop(stacks[t])])
    requires forall i {:trigger at'[i].OnStack?} :: 0 <= i < |at| && at'[i].OnStack? ==> at'[i] == at[i]
    requires Live(at') <= Live(at) && forall x: nat {:trigger Below(d, v, x)} :: x in Live(at') ==> !Below(d, v, x)
    ensures Blocked(d, at', stacks[t := Pop(stacks[t])], pauses)
  {
    hide Live;
    var stacks' := stacks[t := Pop(stacks[t])];
    forall f: nat, x: nat | 2 <= f < |d| && d[f].kind == FINISH && x in Live(at') && Below(d, f, x)
                            && d[f].parent < |at| && at'[d[f].parent].OnStack?
      ensures Explained(stacks', pauses, f, at'[d[f].parent].thread, at'[d[f].parent].depth)
    {
      var u, k := at'[d[f].parent].thread, at'[d[f].parent].depth;
      assert x in Live(at) && at'[d[f].parent] == at[d[f].parent];
      assert Explained(stacks, pauses, f, u, k);
      assert Holds(stacks', u, k, d[f].parent);
      assert u == t && k + 1 == |stacks[t]| - 1 && ExplainedBySync(stacks[t], f, k) ==> f == v;
    }
  }

  lemma {:induction false} ClosedPlaces(s: Sys, t: nat)
    requires Places(s.tree, s.at, s.c.stacks, s.mode, s.c.pending, s.tasks) && |s.c.stacks| == |s.mode|
    requires Active(s.c, t) && s.mode[t] != Computing
    ensures var v := Top(s.c.stacks[t]).id;
            v < |s.at| && s.at[v] == OnStack(t, |s.c.stacks[t]| - 1)
    ensures var n := ClosedSync(s, t);
            && Places(n.tree, n.at, n.c.stacks, n.mode, n.c.pending, n.tasks)
            && Live(n.at) == Live(s.at) - {Top(s.c.stacks[t]).id} && Open(n.at) == Open(s.at)
            && (forall i {:trigger n.at[i].OnStack?} :: 0 <= i < |s.at| && n.at[i].OnStack? ==> n.at[i] == s.at[i])
  {
    hide StacksOk, PendingOk, StepsOk;
    EndTaskPlaces(s.tree, s.at, s.c.stacks, s.mode, s.c.pending, s.tasks, t);
    var n, v := ClosedSync(s, t), Top(s.c.stacks[t]).id;
    assert forall i {:trigger n.at[i]} :: 0 <= i < |s.at| && i != v ==> n.at[i] == s.at[i];
  }

  lemma {:induction false} ClosedTree(s: Sys, t: nat)
    requires Budding(s.tree, s.at) && LogOk(s.tree, s.at, s.pos, s.c.log) && Ordered(s.tree, Live(s.at), Open(s.at))
    requires Places(s.tree, s.at, s.c.stacks, s.mode, s.c.pending, s.tasks) && |s.c.stacks| == |s.mode|
    requires Active(s.c, t) && s.mode[t] != Computing && Top(s.c.stacks[t]).id < |s.at|
    ensures var n := ClosedSync(s, t);
            Budding(n.tree, n.at) && LogOk(n.tree, n.at, n.pos, n.c.log) && Ordered(n.tree, Live(n.at), Open(n.at))
  {
    hide Budding, LogOk, Ordered, Live, Open, StacksOk, PendingOk, StepsOk;
    var n := ClosedSync(s, t);
    ClosedPlaces(s, t);
    ClosedBudding(s.tree, s.at, Top(s.c.stacks[t]).id);
    SamePositions(s.tree, s.at, n.at, s.pos, s.c.log);
    OpenParents(s.tree, n.at, n.c.stacks, n.mode, n.c.pending);
    Shrink(s.tree, Live(s.at), Open(s.at), Live(n.at), Open(n.at));
  }

  lemma {:induction false} ClosedBudding(d: Tree, at: seq<Place>, v: nat)
    requires Budding(d, at) && v < |at|
    ensures Budding(d, at[v := Gone])
  {
  }

  /** The layers below an implicit FINISH. */
  lemma {:induction false} NestClose(d: Tree, st: Stack, ps: seq<Pause>)
    requires Nested(d, st, ps, false) && Top(st).sync && |st| > 1
    ensures Nested(d, Pop(st), ps, false)
  {
    var st' := Pop(st);
    forall j | 0 <= j < |ps| ensures |ps[j].stack| < |st'| && ps[j].stack == st'[..|ps[j].stack|] {
      assert |ps[j].stack| <= |ps[|ps| - 1].stack|;
      assert !st[|ps[j].stack|].sync;
      assert ps[j].stack == st[..|ps[j].stack|];
    }
    forall j | 0 <= j < |ps| ensures !st'[|ps[j].stack|].sync {
      assert !st[|ps[j].stack|].sync;
    }
    forall k: nat | k < |st'| && !st'[k].sync ensures FrameStart(ps, k) {
      assert !st[k].sync;
    }
  }

  lemma {:induction false} NoCallBelowSync(d: Tree, st: Stack, ps: seq<Pause>, k: nat)
    requires Nested(d, st, ps, true) && k == |st| - 2 && Top(st).sync
    ensures forall f: nat {:trigger ExplainedByWait(ps, f, k)} :: !ExplainedByWait(ps, f, k)
  {
    assert forall j {:trigger ps[j].stack} :: 0 <= j < |ps| ==> |ps[j].stack| != |st| - 1;
  }

  lemma {:induction false} ResumeTasksSettled(s: Sys, t: nat)
    requires Inv(s) && Enabled(s, Resume(t)) && Last(s.pauses[t]).why == ForTasks
    ensures Top(s.c.stacks[t]).sync && Top(s.c.stacks[t]).id < |s.at|
    ensures Ready(ClosedSync(Left(s, t), t), t)
    ensures |s.pauses[t]| > 1
  {
    hide Blocked, StacksOk, StepsOk, PendingOk, LogOk, Live, Open, Settled, Ordered, ExplainedByWait, PausesOk, Layered;
    var st, v := s.c.stacks[t], Top(s.c.stacks[t]).id;
    var k := |st| - 2;
    NestedOf(s, t);
    ClosedPlaces(s, t);
    var at := ClosedSync(s, t).at;
    RootFirst(s);
    assert Purposeful(s.tree, Last(s.pauses[t]));
    NoCallBelowSync(s.tree, st, s.pauses[t], k);
    NoOpenStep(s, t, k);
    forall f: nat, x: nat {:trigger Below(s.tree, f, x)} | f < |s.tree| && x in Live(at) && Below(s.tree, f, x)
      ensures !ExplainedBySync(st, f, k) && !ExplainedByWait(s.pauses[t], f, k)
    {
      assert x in Live(s.at) && x != v;
      assert f != v;
    }
    SettledBy(s, t, k, at);
    assert Top(Pop(st)) == st[k];
  }

  lemma {:induction false} ResumeTasksBlocked(s: Sys, t: nat)
    requires Inv(s) && Enabled(s, Resume(t)) && Last(s.pauses[t]).why == ForTasks
    ensures Top(s.c.stacks[t]).id < |s.at|
    ensures var n := ClosedSync(Left(s, t), t); Blocked(n.tree, n.at, n.c.stacks, n.pauses)
  {
    hide Blocked, StacksOk, StepsOk, PendingOk, LogOk, Live, Open, Settled, Ordered, Nested, PausesOk, TreeOk;
    NestedOf(s, t);
    ClosedPlaces(s, t);
    var n, v := ClosedSync(s, t), Top(s.c.stacks[t]).id;
    LeftBlocked(s.tree, s.at, s.c.stacks, s.pauses, t);
    assert forall x: nat {:trigger Below(s.tree, v, x)} :: x in Live(n.at) ==> !Below(s.tree, v, x);
    ClosedBlocked(s.tree, s.at, n.at, s.c.stacks, PopPause(s, t), t, v);
  }

  lemma {:induction false} ResumeTasksKeeps(s: Sys, t: nat)
    requires Core(s) && Planted(s.tree) && PausesOk(s.tree, s.c.stacks, s.pauses, s.mode)
    requires Indexed(s, t) && s.mode[t] == Scheduling && |s.pauses[t]| > 1 && |s.c.stacks[t]| > 1
    requires Top(s.c.stacks[t]).sync && Top(s.c.stacks[t]).id < |s.at|
    requires Ready(ClosedSync(Left(s, t), t), t)
    requires var n := ClosedSync(Left(s, t), t); Blocked(n.tree, n.at, n.c.stacks, n.pauses)
    ensures Inv(AfterResumeTasks(s, t))
  {
    hide Budding, Places, LogOk, Ordered, Blocked, Nested, Inv, PausesOk, SameSpine, Settled, Live, Open, StartStep;
    NestedOf(s, t);
    ClosedPlaces(s, t);
    ClosedTree(s, t);
    var m, st := ClosedSync(Left(s, t), t), s.c.stacks[t];
    assert Core(m);
    StartStepCore(m, t);
    StartStepFrame(m, t);
    var n := StartStep(m, t);
    NestPop(s.tree, st, s.pauses[t]);
    NestClose(s.tree, st, m.pauses[t]);
    NestFrame(s.tree, n.tree, Pop(st), n.c.stacks[t], m.pauses[t]);
    KeepPauses(s.tree, n.tree, s.c.stacks, s.pauses, s.mode, t, n.c.stacks[t], m.pauses[t], Computing);
    assert s.pauses[t := m.pauses[t]] == n.pauses;
    assert s.c.stacks[t := n.c.stacks[t]] == n.c.stacks;
    InvOf(n);
    ResumeTasksIsMove(s, t);
  }

  lemma {:induction false} ResumeInv(s: Sys, t: nat)
    requires Inv(s) && Enabled(s, Resume(t))
    ensures Inv(Next(s, Resume(t)))
  {
    hide Core, Ready, AfterResumeRoot, AfterResumeTasks, TreeOk, StacksOk, PendingOk, StepsOk, LogOk, PausesOk, Ordered, Blocked,
         Quiescent;
    CoreOf(s);
    NestedOf(s, t);
    if Last(s.pauses[t]).why == ForTasks {
      ResumeTasksSettled(s, t);
      ResumeTasksBlocked(s, t);
      ResumeTasksKeeps(s, t);
    } else {
      ResumeRootReady(s, t);
      ResumeRootKeeps(s, t);
    }
  }

  // ---- every step keeps the invariant ----

  lemma {:induction false} NextInv(s: Sys, e: Event)
    requires Inv(s) && Enabled(s, e)
    ensures Inv(Next(s, e))
  {
    hide Inv, Enabled, Next;
    match e
    case EndStep(t, work) => EndStepInv(s, t, work);
    case Spawn(t, site) => SpawnInv(s, t, site);
    case SpawnAll(t, site) => SpawnAllInv(s, t, site);
    case SpawnRoot(t, site) => SpawnRootInv(s, t, site);
    case WaitAll(t) => WaitAllInv(s, t);
    case EndTask(t) => EndTaskInv(s, t);
    case Begin(t, task) => BeginInv(s, t, task);
    case Resume(t) => ResumeInv(s, t);
  }
}
