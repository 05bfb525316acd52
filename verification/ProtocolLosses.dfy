/** Runs whose critical path is not attributed as it should be: spawn_root_and_wait is called while an
    implicit FINISH is open, or inside of a spawn_root_and_wait whose source position is not known. */
module ProtocolLosses {
  import opened Dpst
  import opened CountMaps
  import opened Completion
  import opened Attribution
  import opened Shares
  import opened Losses
  import opened Pass
  import opened Exactness
  import opened Collector
  import opened Protocol
  import opened ProtocolRuns
  import opened ProtocolExample

  const OUTER := Site(6, true, false)
  const INNER := Site(7, true, false)
  const SPAWN := Site(5, true, false)
  const UNKNOWN := Site(0, false, false)

  /** The works of the only two steps that have any: in the spawned task, and in the inner root. */
  datatype Loads = Loads(task: nat, root: nat)

  // ---- spawn_root_and_wait between spawn and wait_for_all, inside of a task ----

  function MixedEvents(x: Loads): seq<Event> {
    [EndStep(0, 0), SpawnRoot(0, OUTER), Begin(1, 1), EndStep(1, 0), Spawn(1, SPAWN), EndStep(1, 0),
     SpawnRoot(1, INNER), Begin(0, 3), EndStep(0, x.root), EndTask(0), Resume(1), EndStep(1, 0), WaitAll(1),
     Begin(0, 2), EndStep(0, x.task), EndTask(0), Resume(1), EndStep(1, 0), EndTask(1), Resume(0), EndStep(0, 0)]
  }

  function MixedLog(x: Loads): seq<Record> {
    [Record(1, 0, 0, FINISH, 0), Record(2, 1, 0, STEP, 0), Record(3, 1, 0, FINISH, 6), Record(4, 3, 0, STEP, 0),
     Record(5, 3, 0, FINISH, 0), Record(6, 5, 0, ASYNC, 5), Record(8, 5, 0, STEP, 0), Record(9, 5, 0, FINISH, 7),
     Record(10, 9, x.root, STEP, 0), Record(11, 5, 0, STEP, 0), Record(7, 6, x.task, STEP, 0),
     Record(12, 3, 0, STEP, 0), Record(13, 1, 0, STEP, 0)]
  }

  function MixedShape(): Tree {
    [Node(0, NO_TYPE, 0, 0), Node(0, FINISH, 0, 0), Node(1, STEP, 0, 0), Node(1, FINISH, 6, 0), Node(3, STEP, 0, 0),
     Node(3, FINISH, 0, 0), Node(5, ASYNC, 5, 0), Node(6, STEP, 0, 0), Node(5, STEP, 0, 0), Node(5, FINISH, 7, 0),
     Node(9, STEP, 0, 0), Node(5, STEP, 0, 0), Node(3, STEP, 0, 0), Node(1, STEP, 0, 0)]
  }

  function MixedState(x: Loads, k: nat): Sys
    requires k <= 21
  {
    match k
    case 0 => Initial(2)
    case 1 =>
              Sys(State([[OpenNode(1, 2, NO_TYPE, false)], []],
                    map[], 3, MixedLog(x)[..2], map[]),
                MixedShape()[..3], [Gone, OnStack(0, 0), Gone],
                [-1, 0, 1], [Between, Scheduling],
                [[Pause(Idle, [])], [Pause(Idle, [])]], 0)
    case 2 =>
              Sys(State([[OpenNode(1, 2, FINISH, false)], []],
                    map[1 := OpenNode(3, 4, NO_TYPE, false)], 5, MixedLog(x)[..3], map[6 := false]),
                MixedShape()[..5], [Gone, OnStack(0, 0), Gone, Pending(1), Running],
                [-1, 0, 1, 2, -1], [Scheduling, Scheduling],
                [[Pause(Idle, []), Pause(ForRoot(3), [OpenNode(1, 2, FINISH, false)])], [Pause(Idle, [])]], 1)
    case 3 =>
              Sys(State([[OpenNode(1, 2, FINISH, false)], [OpenNode(3, 4, NO_TYPE, false)]],
                    map[], 5, MixedLog(x)[..3], map[6 := false]),
                MixedShape()[..5], [Gone, OnStack(0, 0), Gone, OnStack(1, 0), Running],
                [-1, 0, 1, 2, -1], [Scheduling, Computing],
                [[Pause(Idle, []), Pause(ForRoot(3), [OpenNode(1, 2, FINISH, false)])], [Pause(Idle, [])]], 1)
    case 4 =>
              Sys(State([[OpenNode(1, 2, FINISH, false)], [OpenNode(3, 4, NO_TYPE, false)]],
                    map[], 5, MixedLog(x)[..4], map[6 := false]),
                MixedShape()[..5], [Gone, OnStack(0, 0), Gone, OnStack(1, 0), Gone],
                [-1, 0, 1, 2, 3], [Scheduling, Between],
                [[Pause(Idle, []), Pause(ForRoot(3), [OpenNode(1, 2, FINISH, false)])], [Pause(Idle, [])]], 1)
    case 5 =>
              Sys(State([[OpenNode(1, 2, FINISH, false)], [OpenNode(3, 4, FINISH, false), OpenNode(5, 8, ASYNC, true)]],
                    map[2 := OpenNode(6, 7, NO_TYPE, false)], 9, MixedLog(x)[..6], map[6 := false, 5 := false]),
                MixedShape()[..9], [Gone, OnStack(0, 0), Gone, OnStack(1, 0), Gone, OnStack(1, 1), Pending(2), Running, Running],
                [-1, 0, 1, 2, 3, 4, 5, -1, -1], [Scheduling, Computing],
                [[Pause(Idle, []), Pause(ForRoot(3), [OpenNode(1, 2, FINISH, false)])], [Pause(Idle, [])]], 2)
    case 6 =>
              Sys(State([[OpenNode(1, 2, FINISH, false)], [OpenNode(3, 4, FINISH, false), OpenNode(5, 8, ASYNC, true)]],
                    map[2 := OpenNode(6, 7, NO_TYPE, false)], 9, MixedLog(x)[..7], map[6 := false, 5 := false]),
                MixedShape()[..9], [Gone, OnStack(0, 0), Gone, OnStack(1, 0), Gone, OnStack(1, 1), Pending(2), Running, Gone],
                [-1, 0, 1, 2, 3, 4, 5, -1, 6], [Scheduling, Between],
                [[Pause(Idle, []), Pause(ForRoot(3), [OpenNode(1, 2, FINISH, false)])], [Pause(Idle, [])]], 2)
    case 7 =>
              Sys(State([[OpenNode(1, 2, FINISH, false)], [OpenNode(3, 4, FINISH, false), OpenNode(5, 8, FINISH, true)]],
                    map[2 := OpenNode(6, 7, NO_TYPE, false), 3 := OpenNode(9, 10, NO_TYPE, false)], 11, MixedLog(x)[..8], map[6 := false, 5 := false, 7 := false]),
                MixedShape()[..11], [Gone, OnStack(0, 0), Gone, OnStack(1, 0), Gone, OnStack(1, 1), Pending(2), Running, Gone,
                 Pending(3), Running],
                [-1, 0, 1, 2, 3, 4, 5, -1, 6, 7, -1], [Scheduling, Scheduling],
                [[Pause(Idle, []), Pause(ForRoot(3), [OpenNode(1, 2, FINISH, false)])], [Pause(Idle, []), Pause(ForRoot(9), [OpenNode(3, 4, FINISH, false), OpenNode(5, 8, FINISH, true)])]], 3)
    case 8 =>
              Sys(State([[OpenNode(1, 2, FINISH, false), OpenNode(9, 10, NO_TYPE, false)], [OpenNode(3, 4, FINISH, false), OpenNode(5, 8, FINISH, true)]],
                    map[2 := OpenNode(6, 7, NO_TYPE, false)], 11, MixedLog(x)[..8], map[6 := false, 5 := false, 7 := false]),
                MixedShape()[..11], [Gone, OnStack(0, 0), Gone, OnStack(1, 0), Gone, OnStack(1, 1), Pending(2), Running, Gone,
                 OnStack(0, 1), Running],
                [-1, 0, 1, 2, 3, 4, 5, -1, 6, 7, -1], [Computing, Scheduling],
                [[Pause(Idle, []), Pause(ForRoot(3), [OpenNode(1, 2, FINISH, false)])], [Pause(Idle, []), Pause(ForRoot(9), [OpenNode(3, 4, FINISH, false), OpenNode(5, 8, FINISH, true)])]], 3)
    case 9 =>
              Sys(State([[OpenNode(1, 2, FINISH, false), OpenNode(9, 10, NO_TYPE, false)], [OpenNode(3, 4, FINISH, false), OpenNode(5, 8, FINISH, true)]],
                    map[2 := OpenNode(6, 7, NO_TYPE, false)], 11, MixedLog(x)[..9], map[6 := false, 5 := false, 7 := false]),
                MixedShape()[..11], [Gone, OnStack(0, 0), Gone, OnStack(1, 0), Gone, OnStack(1, 1), Pending(2), Running, Gone,
                 OnStack(0, 1), Gone],
                [-1, 0, 1, 2, 3, 4, 5, -1, 6, 7, 8], [Between, Scheduling],
                [[Pause(Idle, []), Pause(ForRoot(3), [OpenNode(1, 2, FINISH, false)])], [Pause(Idle, []), Pause(ForRoot(9), [OpenNode(3, 4, FINISH, false), OpenNode(5, 8, FINISH, true)])]], 3)
    case 10 =>
              Sys(State([[OpenNode(1, 2, FINISH, false)], [OpenNode(3, 4, FINISH, false), OpenNode(5, 8, FINISH, true)]],
                    map[2 := OpenNode(6, 7, NO_TYPE, false)], 11, MixedLog(x)[..9], map[6 := false, 5 := false, 7 := false]),
                MixedShape()[..11], [Gone, OnStack(0, 0), Gone, OnStack(1, 0), Gone, OnStack(1, 1), Pending(2), Running, Gone, Gone,
                 Gone],
                [-1, 0, 1, 2, 3, 4, 5, -1, 6, 7, 8], [Scheduling, Scheduling],
                [[Pause(Idle, []), Pause(ForRoot(3), [OpenNode(1, 2, FINISH, false)])], [Pause(Idle, []), Pause(ForRoot(9), [OpenNode(3, 4, FINISH, false), OpenNode(5, 8, FINISH, true)])]], 3)
    case 11 =>
              Sys(State([[OpenNode(1, 2, FINISH, false)], [OpenNode(3, 4, FINISH, false), OpenNode(5, 11, FINISH, true)]],
                    map[2 := OpenNode(6, 7, NO_TYPE, false)], 12, MixedLog(x)[..9], map[6 := false, 5 := false, 7 := false]),
                MixedShape()[..12], [Gone, OnStack(0, 0), Gone, OnStack(1, 0), Gone, OnStack(1, 1), Pending(2), Running, Gone, Gone,
                 Gone, Running],
                [-1, 0, 1, 2, 3, 4, 5, -1, 6, 7, 8, -1], [Scheduling, Computing],
                [[Pause(Idle, []), Pause(ForRoot(3), [OpenNode(1, 2, FINISH, false)])], [Pause(Idle, [])]], 3)
    case 12 =>
              Sys(State([[OpenNode(1, 2, FINISH, false)], [OpenNode(3, 4, FINISH, false), OpenNode(5, 11, FINISH, true)]],
                    map[2 := OpenNode(6, 7, NO_TYPE, false)], 12, MixedLog(x)[..10], map[6 := false, 5 := false, 7 := false]),
                MixedShape()[..12], [Gone, OnStack(0, 0), Gone, OnStack(1, 0), Gone, OnStack(1, 1), Pending(2), Running, Gone, Gone,
                 Gone, Gone],
                [-1, 0, 1, 2, 3, 4, 5, -1, 6, 7, 8, 9], [Scheduling, Between],
                [[Pause(Idle, []), Pause(ForRoot(3), [OpenNode(1, 2, FINISH, false)])], [Pause(Idle, [])]], 3)
    case 13 =>
              Sys(State([[OpenNode(1, 2, FINISH, false)], [OpenNode(3, 4, FINISH, false), OpenNode(5, 11, FINISH, true)]],
                    map[2 := OpenNode(6, 7, NO_TYPE, false)], 12, MixedLog(x)[..10], map[6 := false, 5 := false, 7 := false]),
                MixedShape()[..12], [Gone, OnStack(0, 0), Gone, OnStack(1, 0), Gone, OnStack(1, 1), Pending(2), Running, Gone, Gone,
                 Gone, Gone],
                [-1, 0, 1, 2, 3, 4, 5, -1, 6, 7, 8, 9], [Scheduling, Scheduling],
                [[Pause(Idle, []), Pause(ForRoot(3), [OpenNode(1, 2, FINISH, false)])], [Pause(Idle, []), Pause(ForTasks, [OpenNode(3, 4, FINISH, false), OpenNode(5, 11, FINISH, true)])]], 3)
    case 14 =>
              Sys(State([[OpenNode(1, 2, FINISH, false), OpenNode(6, 7, NO_TYPE, false)], [OpenNode(3, 4, FINISH, false), OpenNode(5, 11, FINISH, true)]],
                    map[], 12, MixedLog(x)[..10], map[6 := false, 5 := false, 7 := false]),
                MixedShape()[..12], [Gone, OnStack(0, 0), Gone, OnStack(1, 0), Gone, OnStack(1, 1), OnStack(0, 1), Running, Gone, Gone,
                 Gone, Gone],
                [-1, 0, 1, 2, 3, 4, 5, -1, 6, 7, 8, 9], [Computing, Scheduling],
                [[Pause(Idle, []), Pause(ForRoot(3), [OpenNode(1, 2, FINISH, false)])], [Pause(Idle, []), Pause(ForTasks, [OpenNode(3, 4, FINISH, false), OpenNode(5, 11, FINISH, true)])]], 3)
    case 15 =>
              Sys(State([[OpenNode(1, 2, FINISH, false), OpenNode(6, 7, NO_TYPE, false)], [OpenNode(3, 4, FINISH, false), OpenNode(5, 11, FINISH, true)]],
                    map[], 12, MixedLog(x)[..11], map[6 := false, 5 := false, 7 := false]),
                MixedShape()[..12], [Gone, OnStack(0, 0), Gone, OnStack(1, 0), Gone, OnStack(1, 1), OnStack(0, 1), Gone, Gone, Gone,
                 Gone, Gone],
                [-1, 0, 1, 2, 3, 4, 5, 10, 6, 7, 8, 9], [Between, Scheduling],
                [[Pause(Idle, []), Pause(ForRoot(3), [OpenNode(1, 2, FINISH, false)])], [Pause(Idle, []), Pause(ForTasks, [OpenNode(3, 4, FINISH, false), OpenNode(5, 11, FINISH, true)])]], 3)
    case 16 =>
              Sys(State([[OpenNode(1, 2, FINISH, false)], [OpenNode(3, 4, FINISH, false), OpenNode(5, 11, FINISH, true)]],
                    map[], 12, MixedLog(x)[..11], map[6 := false, 5 := false, 7 := false]),
                MixedShape()[..12], [Gone, OnStack(0, 0), Gone, OnStack(1, 0), Gone, OnStack(1, 1), Gone, Gone, Gone, Gone, Gone, Gone],
                [-1, 0, 1, 2, 3, 4, 5, 10, 6, 7, 8, 9], [Scheduling, Scheduling],
                [[Pause(Idle, []), Pause(ForRoot(3), [OpenNode(1, 2, FINISH, false)])], [Pause(Idle, []), Pause(ForTasks, [OpenNode(3, 4, FINISH, false), OpenNode(5, 11, FINISH, true)])]], 3)
    case 17 =>
              Sys(State([[OpenNode(1, 2, FINISH, false)], [OpenNode(3, 12, FINISH, false)]],
                    map[], 13, MixedLog(x)[..11], map[6 := false, 5 := false, 7 := false]),
                MixedShape()[..13], [Gone, OnStack(0, 0), Gone, OnStack(1, 0), Gone, Gone, Gone, Gone, Gone, Gone, Gone, Gone, Running],
                [-1, 0, 1, 2, 3, 4, 5, 10, 6, 7, 8, 9, -1], [Scheduling, Computing],
                [[Pause(Idle, []), Pause(ForRoot(3), [OpenNode(1, 2, FINISH, false)])], [Pause(Idle, [])]], 3)
    case 18 =>
              Sys(State([[OpenNode(1, 2, FINISH, false)], [OpenNode(3, 12, FINISH, false)]],
                    map[], 13, MixedLog(x)[..12], map[6 := false, 5 := false, 7 := false]),
                MixedShape()[..13], [Gone, OnStack(0, 0), Gone, OnStack(1, 0), Gone, Gone, Gone, Gone, Gone, Gone, Gone, Gone, Gone],
                [-1, 0, 1, 2, 3, 4, 5, 10, 6, 7, 8, 9, 11], [Scheduling, Between],
                [[Pause(Idle, []), Pause(ForRoot(3), [OpenNode(1, 2, FINISH, false)])], [Pause(Idle, [])]], 3)
    case 19 =>
              Sys(State([[OpenNode(1, 2, FINISH, false)], []],
                    map[], 13, MixedLog(x)[..12], map[6 := false, 5 := false, 7 := false]),
                MixedShape()[..13], [Gone, OnStack(0, 0), Gone, Gone, Gone, Gone, Gone, Gone, Gone, Gone, Gone, Gone, Gone],
                [-1, 0, 1, 2, 3, 4, 5, 10, 6, 7, 8, 9, 11], [Scheduling, Scheduling],
                [[Pause(Idle, []), Pause(ForRoot(3), [OpenNode(1, 2, FINISH, false)])], [Pause(Idle, [])]], 3)
    case 20 =>
              Sys(State([[OpenNode(1, 13, FINISH, false)], []],
                    map[], 14, MixedLog(x)[..12], map[6 := false, 5 := false, 7 := false]),
                MixedShape(), [Gone, OnStack(0, 0), Gone, Gone, Gone, Gone, Gone, Gone, Gone, Gone, Gone, Gone, Gone, Running],
                [-1, 0, 1, 2, 3, 4, 5, 10, 6, 7, 8, 9, 11, -1], [Computing, Scheduling],
                [[Pause(Idle, [])], [Pause(Idle, [])]], 3)
    case 21 =>
              Sys(State([[OpenNode(1, 13, FINISH, false)], []],
                    map[], 14, MixedLog(x), map[6 := false, 5 := false, 7 := false]),
                MixedShape(), [Gone, OnStack(0, 0), Gone, Gone, Gone, Gone, Gone, Gone, Gone, Gone, Gone, Gone, Gone, Gone],
                [-1, 0, 1, 2, 3, 4, 5, 10, 6, 7, 8, 9, 11, 12], [Between, Scheduling],
                [[Pause(Idle, [])], [Pause(Idle, [])]], 3)
  }

  lemma {:induction false} MixedStep0(x: Loads)
    ensures Leads(MixedState(x, 0), MixedEvents(x)[0], MixedState(x, 1))
  {
    hide Inv;
    if Inv(MixedState(x, 0)) {
      Same(Next(MixedState(x, 0), MixedEvents(x)[0]), MixedState(x, 1));
    }
  }

  lemma {:induction false} MixedStep1(x: Loads)
    ensures Leads(MixedState(x, 1), MixedEvents(x)[1], MixedState(x, 2))
  {
    hide Inv;
    if Inv(MixedState(x, 1)) {
      Same(Next(MixedState(x, 1), MixedEvents(x)[1]), MixedState(x, 2));
    }
  }

  lemma {:induction false} MixedStep2(x: Loads)
    ensures Leads(MixedState(x, 2), MixedEvents(x)[2], MixedState(x, 3))
  {
    hide Inv;
    if Inv(MixedState(x, 2)) {
      Same(Next(MixedState(x, 2), MixedEvents(x)[2]), MixedState(x, 3));
    }
  }

  lemma {:induction false} MixedStep3(x: Loads)
    ensures Leads(MixedState(x, 3), MixedEvents(x)[3], MixedState(x, 4))
  {
    hide Inv;
    if Inv(MixedState(x, 3)) {
      Same(Next(MixedState(x, 3), MixedEvents(x)[3]), MixedState(x, 4));
    }
  }

  lemma {:induction false} MixedStep4(x: Loads)
    ensures Leads(MixedState(x, 4), MixedEvents(x)[4], MixedState(x, 5))
  {
    hide Inv, Quiescent;
    var s, r := MixedState(x, 4), MixedState(x, 5);
    if Inv(s) {
      var y := AfterSpawn(s, 1, SPAWN);
      assert Top(s.c.stacks[1]).young == FINISH || Top(s.c.stacks[1]).young == NO_TYPE;
      assert y.c.stacks[1] == r.c.stacks[1];
      assert y.tree == r.tree && y.at == r.at && y.pos == r.pos;
      assert y.c.log == r.c.log;
      Same(y, r);
    }
  }

  lemma {:induction false} MixedStep5(x: Loads)
    ensures Leads(MixedState(x, 5), MixedEvents(x)[5], MixedState(x, 6))
  {
    hide Inv;
    if Inv(MixedState(x, 5)) {
      Same(Next(MixedState(x, 5), MixedEvents(x)[5]), MixedState(x, 6));
    }
  }

  lemma {:induction false} MixedStep6(x: Loads)
    ensures Leads(MixedState(x, 6), MixedEvents(x)[6], MixedState(x, 7))
  {
    hide Inv;
    if Inv(MixedState(x, 6)) {
      Same(Next(MixedState(x, 6), MixedEvents(x)[6]), MixedState(x, 7));
    }
  }

  lemma {:induction false} MixedStep7(x: Loads)
    ensures Leads(MixedState(x, 7), MixedEvents(x)[7], MixedState(x, 8))
  {
    hide Inv;
    if Inv(MixedState(x, 7)) {
      Same(Next(MixedState(x, 7), MixedEvents(x)[7]), MixedState(x, 8));
    }
  }

  lemma {:induction false} MixedStep8(x: Loads)
    ensures Leads(MixedState(x, 8), MixedEvents(x)[8], MixedState(x, 9))
  {
    hide Inv;
    if Inv(MixedState(x, 8)) {
      Same(Next(MixedState(x, 8), MixedEvents(x)[8]), MixedState(x, 9));
    }
  }

  lemma {:induction false} MixedStep9(x: Loads)
    ensures Leads(MixedState(x, 9), MixedEvents(x)[9], MixedState(x, 10))
  {
    hide Inv;
    if Inv(MixedState(x, 9)) {
      Same(Next(MixedState(x, 9), MixedEvents(x)[9]), MixedState(x, 10));
    }
  }

  lemma {:induction false} MixedStep10(x: Loads)
    ensures Leads(MixedState(x, 10), MixedEvents(x)[10], MixedState(x, 11))
  {
    hide Inv;
    if Inv(MixedState(x, 10)) {
      Same(Next(MixedState(x, 10), MixedEvents(x)[10]), MixedState(x, 11));
    }
  }

  lemma {:induction false} MixedStep11(x: Loads)
    ensures Leads(MixedState(x, 11), MixedEvents(x)[11], MixedState(x, 12))
  {
    hide Inv;
    if Inv(MixedState(x, 11)) {
      Same(Next(MixedState(x, 11), MixedEvents(x)[11]), MixedState(x, 12));
    }
  }

  lemma {:induction false} MixedStep12(x: Loads)
    ensures Leads(MixedState(x, 12), MixedEvents(x)[12], MixedState(x, 13))
  {
    hide Inv;
    if Inv(MixedState(x, 12)) {
      Same(Next(MixedState(x, 12), MixedEvents(x)[12]), MixedState(x, 13));
    }
  }

  lemma {:induction false} MixedStep13(x: Loads)
    ensures Leads(MixedState(x, 13), MixedEvents(x)[13], MixedState(x, 14))
  {
    hide Inv;
    if Inv(MixedState(x, 13)) {
      Same(Next(MixedState(x, 13), MixedEvents(x)[13]), MixedState(x, 14));
    }
  }

  lemma {:induction false} MixedStep14(x: Loads)
    ensures Leads(MixedState(x, 14), MixedEvents(x)[14], MixedState(x, 15))
  {
    hide Inv;
    if Inv(MixedState(x, 14)) {
      Same(Next(MixedState(x, 14), MixedEvents(x)[14]), MixedState(x, 15));
    }
  }

  lemma {:induction false} MixedStep15(x: Loads)
    ensures Leads(MixedState(x, 15), MixedEvents(x)[15], MixedState(x, 16))
  {
    hide Inv;
    if Inv(MixedState(x, 15)) {
      Same(Next(MixedState(x, 15), MixedEvents(x)[15]), MixedState(x, 16));
    }
  }

  lemma {:induction false} MixedStep16(x: Loads)
    ensures Leads(MixedState(x, 16), MixedEvents(x)[16], MixedState(x, 17))
  {
    hide Inv;
    if Inv(MixedState(x, 16)) {
      Same(Next(MixedState(x, 16), MixedEvents(x)[16]), MixedState(x, 17));
    }
  }

  lemma {:induction false} MixedStep17(x: Loads)
    ensures Leads(MixedState(x, 17), MixedEvents(x)[17], MixedState(x, 18))
  {
    hide Inv;
    if Inv(MixedState(x, 17)) {
      Same(Next(MixedState(x, 17), MixedEvents(x)[17]), MixedState(x, 18));
    }
  }

  lemma {:induction false} MixedStep18(x: Loads)
    ensures Leads(MixedState(x, 18), MixedEvents(x)[18], MixedState(x, 19))
  {
    hide Inv;
    if Inv(MixedState(x, 18)) {
      Same(Next(MixedState(x, 18), MixedEvents(x)[18]), MixedState(x, 19));
    }
  }

  lemma {:induction false} MixedStep19(x: Loads)
    ensures Leads(MixedState(x, 19), MixedEvents(x)[19], MixedState(x, 20))
  {
    hide Inv;
    if Inv(MixedState(x, 19)) {
      Same(Next(MixedState(x, 19), MixedEvents(x)[19]), MixedState(x, 20));
    }
  }

  lemma {:induction false} MixedStep20(x: Loads)
    ensures Leads(MixedState(x, 20), MixedEvents(x)[20], MixedState(x, 21))
  {
    hide Inv;
    if Inv(MixedState(x, 20)) {
      Same(Next(MixedState(x, 20), MixedEvents(x)[20]), MixedState(x, 21));
    }
  }

  lemma {:induction false} MixedGoes(x: Loads, k: nat)
    requires k < 21
    ensures |MixedEvents(x)| == 21 && Leads(MixedState(x, k), MixedEvents(x)[k], MixedState(x, k + 1))
  {
    hide Leads, MixedState;
    match k
    case 0 => MixedStep0(x);
    case 1 => MixedStep1(x);
    case 2 => MixedStep2(x);
    case 3 => MixedStep3(x);
    case 4 => MixedStep4(x);
    case 5 => MixedStep5(x);
    case 6 => MixedStep6(x);
    case 7 => MixedStep7(x);
    case 8 => MixedStep8(x);
    case 9 => MixedStep9(x);
    case 10 => MixedStep10(x);
    case 11 => MixedStep11(x);
    case 12 => MixedStep12(x);
    case 13 => MixedStep13(x);
    case 14 => MixedStep14(x);
    case 15 => MixedStep15(x);
    case 16 => MixedStep16(x);
    case 17 => MixedStep17(x);
    case 18 => MixedStep18(x);
    case 19 => MixedStep19(x);
    case 20 => MixedStep20(x);
  }

  // ---- spawn_root_and_wait inside of one whose source position is not known ----

  function NestedEvents(x: Loads): seq<Event> {
    [EndStep(0, 0), SpawnRoot(0, UNKNOWN), Begin(1, 1), EndStep(1, 0), SpawnRoot(1, INNER), Begin(0, 2),
     EndStep(0, x.root), EndTask(0), Resume(1), EndStep(1, 0), EndTask(1), Resume(0), EndStep(0, 0)]
  }

  function NestedLog(x: Loads): seq<Record> {
    [Record(1, 0, 0, FINISH, 0), Record(2, 1, 0, STEP, 0), Record(3, 1, 0, FINISH, 0), Record(4, 3, 0, STEP, 0),
     Record(5, 3, 0, FINISH, 7), Record(6, 5, x.root, STEP, 0), Record(7, 3, 0, STEP, 0), Record(8, 1, 0, STEP, 0)]
  }

  function NestedShape(): Tree {
    [Node(0, NO_TYPE, 0, 0), Node(0, FINISH, 0, 0), Node(1, STEP, 0, 0), Node(1, FINISH, 0, 0), Node(3, STEP, 0, 0),
     Node(3, FINISH, 7, 0), Node(5, STEP, 0, 0), Node(3, STEP, 0, 0), Node(1, STEP, 0, 0)]
  }

  function NestedState(x: Loads, k: nat): Sys
    requires k <= 13
  {
    match k
    case 0 => Initial(2)
    case 1 =>
              Sys(State([[OpenNode(1, 2, NO_TYPE, false)], []],
                    map[], 3, NestedLog(x)[..2], map[]),
                NestedShape()[..3], [Gone, OnStack(0, 0), Gone],
                [-1, 0, 1], [Between, Scheduling],
                [[Pause(Idle, [])], [Pause(Idle, [])]], 0)
    case 2 =>
              Sys(State([[OpenNode(1, 2, FINISH, false)], []],
                    map[1 := OpenNode(3, 4, NO_TYPE, false)], 5, NestedLog(x)[..3], map[]),
                NestedShape()[..5], [Gone, OnStack(0, 0), Gone, Pending(1), Running],
                [-1, 0, 1, 2, -1], [Scheduling, Scheduling],
                [[Pause(Idle, []), Pause(ForRoot(3), [OpenNode(1, 2, FINISH, false)])], [Pause(Idle, [])]], 1)
    case 3 =>
              Sys(State([[OpenNode(1, 2, FINISH, false)], [OpenNode(3, 4, NO_TYPE, false)]],
                    map[], 5, NestedLog(x)[..3], map[]),
                NestedShape()[..5], [Gone, OnStack(0, 0), Gone, OnStack(1, 0), Running],
                [-1, 0, 1, 2, -1], [Scheduling, Computing],
                [[Pause(Idle, []), Pause(ForRoot(3), [OpenNode(1, 2, FINISH, false)])], [Pause(Idle, [])]], 1)
    case 4 =>
              Sys(State([[OpenNode(1, 2, FINISH, false)], [OpenNode(3, 4, NO_TYPE, false)]],
                    map[], 5, NestedLog(x)[..4], map[]),
                NestedShape()[..5], [Gone, OnStack(0, 0), Gone, OnStack(1, 0), Gone],
                [-1, 0, 1, 2, 3], [Scheduling, Between],
                [[Pause(Idle, []), Pause(ForRoot(3), [OpenNode(1, 2, FINISH, false)])], [Pause(Idle, [])]], 1)
    case 5 =>
              Sys(State([[OpenNode(1, 2, FINISH, false)], [OpenNode(3, 4, FINISH, false)]],
                    map[2 := OpenNode(5, 6, NO_TYPE, false)], 7, NestedLog(x)[..5], map[7 := false]),
                NestedShape()[..7], [Gone, OnStack(0, 0), Gone, OnStack(1, 0), Gone, Pending(2), Running],
                [-1, 0, 1, 2, 3, 4, -1], [Scheduling, Scheduling],
                [[Pause(Idle, []), Pause(ForRoot(3), [OpenNode(1, 2, FINISH, false)])], [Pause(Idle, []), Pause(ForRoot(5), [OpenNode(3, 4, FINISH, false)])]], 2)
    case 6 =>
              Sys(State([[OpenNode(1, 2, FINISH, false), OpenNode(5, 6, NO_TYPE, false)], [OpenNode(3, 4, FINISH, false)]],
                    map[], 7, NestedLog(x)[..5], map[7 := false]),
                NestedShape()[..7], [Gone, OnStack(0, 0), Gone, OnStack(1, 0), Gone, OnStack(0, 1), Running],
                [-1, 0, 1, 2, 3, 4, -1], [Computing, Scheduling],
                [[Pause(Idle, []), Pause(ForRoot(3), [OpenNode(1, 2, FINISH, false)])], [Pause(Idle, []), Pause(ForRoot(5), [OpenNode(3, 4, FINISH, false)])]], 2)
    case 7 =>
              Sys(State([[OpenNode(1, 2, FINISH, false), OpenNode(5, 6, NO_TYPE, false)], [OpenNode(3, 4, FINISH, false)]],
                    map[], 7, NestedLog(x)[..6], map[7 := false]),
                NestedShape()[..7], [Gone, OnStack(0, 0), Gone, OnStack(1, 0), Gone, OnStack(0, 1), Gone],
                [-1, 0, 1, 2, 3, 4, 5], [Between, Scheduling],
                [[Pause(Idle, []), Pause(ForRoot(3), [OpenNode(1, 2, FINISH, false)])], [Pause(Idle, []), Pause(ForRoot(5), [OpenNode(3, 4, FINISH, false)])]], 2)
    case 8 =>
              Sys(State([[OpenNode(1, 2, FINISH, false)], [OpenNode(3, 4, FINISH, false)]],
                    map[], 7, NestedLog(x)[..6], map[7 := false]),
                NestedShape()[..7], [Gone, OnStack(0, 0), Gone, OnStack(1, 0), Gone, Gone, Gone],
                [-1, 0, 1, 2, 3, 4, 5], [Scheduling, Scheduling],
                [[Pause(Idle, []), Pause(ForRoot(3), [OpenNode(1, 2, FINISH, false)])], [Pause(Idle, []), Pause(ForRoot(5), [OpenNode(3, 4, FINISH, false)])]], 2)
    case 9 =>
              Sys(State([[OpenNode(1, 2, FINISH, false)], [OpenNode(3, 7, FINISH, false)]],
                    map[], 8, NestedLog(x)[..6], map[7 := false]),
                NestedShape()[..8], [Gone, OnStack(0, 0), Gone, OnStack(1, 0), Gone, Gone, Gone, Running],
                [-1, 0, 1, 2, 3, 4, 5, -1], [Scheduling, Computing],
                [[Pause(Idle, []), Pause(ForRoot(3), [OpenNode(1, 2, FINISH, false)])], [Pause(Idle, [])]], 2)
    case 10 =>
              Sys(State([[OpenNode(1, 2, FINISH, false)], [OpenNode(3, 7, FINISH, false)]],
                    map[], 8, NestedLog(x)[..7], map[7 := false]),
                NestedShape()[..8], [Gone, OnStack(0, 0), Gone, OnStack(1, 0), Gone, Gone, Gone, Gone],
                [-1, 0, 1, 2, 3, 4, 5, 6], [Scheduling, Between],
                [[Pause(Idle, []), Pause(ForRoot(3), [OpenNode(1, 2, FINISH, false)])], [Pause(Idle, [])]], 2)
    case 11 =>
              Sys(State([[OpenNode(1, 2, FINISH, false)], []],
                    map[], 8, NestedLog(x)[..7], map[7 := false]),
                NestedShape()[..8], [Gone, OnStack(0, 0), Gone, Gone, Gone, Gone, Gone, Gone],
                [-1, 0, 1, 2, 3, 4, 5, 6], [Scheduling, Scheduling],
                [[Pause(Idle, []), Pause(ForRoot(3), [OpenNode(1, 2, FINISH, false)])], [Pause(Idle, [])]], 2)
    case 12 =>
              Sys(State([[OpenNode(1, 8, FINISH, false)], []],
                    map[], 9, NestedLog(x)[..7], map[7 := false]),
                NestedShape(), [Gone, OnStack(0, 0), Gone, Gone, Gone, Gone, Gone, Gone, Running],
                [-1, 0, 1, 2, 3, 4, 5, 6, -1], [Computing, Scheduling],
                [[Pause(Idle, [])], [Pause(Idle, [])]], 2)
    case 13 =>
              Sys(State([[OpenNode(1, 8, FINISH, false)], []],
                    map[], 9, NestedLog(x), map[7 := false]),
                NestedShape(), [Gone, OnStack(0, 0), Gone, Gone, Gone, Gone, Gone, Gone, Gone],
                [-1, 0, 1, 2, 3, 4, 5, 6, 7], [Between, Scheduling],
                [[Pause(Idle, [])], [Pause(Idle, [])]], 2)
  }

  lemma {:induction false} NestedStep0(x: Loads)
    ensures Leads(NestedState(x, 0), NestedEvents(x)[0], NestedState(x, 1))
  {
    hide Inv;
    if Inv(NestedState(x, 0)) {
      Same(Next(NestedState(x, 0), NestedEvents(x)[0]), NestedState(x, 1));
    }
  }

  lemma {:induction false} NestedStep1(x: Loads)
    ensures Leads(NestedState(x, 1), NestedEvents(x)[1], NestedState(x, 2))
  {
    hide Inv;
    if Inv(NestedState(x, 1)) {
      Same(Next(NestedState(x, 1), NestedEvents(x)[1]), NestedState(x, 2));
    }
  }

  lemma {:induction false} NestedStep2(x: Loads)
    ensures Leads(NestedState(x, 2), NestedEvents(x)[2], NestedState(x, 3))
  {
    hide Inv;
    if Inv(NestedState(x, 2)) {
      Same(Next(NestedState(x, 2), NestedEvents(x)[2]), NestedState(x, 3));
    }
  }

  lemma {:induction false} NestedStep3(x: Loads)
    ensures Leads(NestedState(x, 3), NestedEvents(x)[3], NestedState(x, 4))
  {
    hide Inv;
    if Inv(NestedState(x, 3)) {
      Same(Next(NestedState(x, 3), NestedEvents(x)[3]), NestedState(x, 4));
    }
  }

  lemma {:induction false} NestedStep4(x: Loads)
    ensures Leads(NestedState(x, 4), NestedEvents(x)[4], NestedState(x, 5))
  {
    hide Inv;
    if Inv(NestedState(x, 4)) {
      Same(Next(NestedState(x, 4), NestedEvents(x)[4]), NestedState(x, 5));
    }
  }

  lemma {:induction false} NestedStep5(x: Loads)
    ensures Leads(NestedState(x, 5), NestedEvents(x)[5], NestedState(x, 6))
  {
    hide Inv;
    if Inv(NestedState(x, 5)) {
      Same(Next(NestedState(x, 5), NestedEvents(x)[5]), NestedState(x, 6));
    }
  }

  lemma {:induction false} NestedStep6(x: Loads)
    ensures Leads(NestedState(x, 6), NestedEvents(x)[6], NestedState(x, 7))
  {
    hide Inv;
    if Inv(NestedState(x, 6)) {
      Same(Next(NestedState(x, 6), NestedEvents(x)[6]), NestedState(x, 7));
    }
  }

  lemma {:induction false} NestedStep7(x: Loads)
    ensures Leads(NestedState(x, 7), NestedEvents(x)[7], NestedState(x, 8))
  {
    hide Inv;
    if Inv(NestedState(x, 7)) {
      Same(Next(NestedState(x, 7), NestedEvents(x)[7]), NestedState(x, 8));
    }
  }

  lemma {:induction false} NestedStep8(x: Loads)
    ensures Leads(NestedState(x, 8), NestedEvents(x)[8], NestedState(x, 9))
  {
    hide Inv;
    if Inv(NestedState(x, 8)) {
      Same(Next(NestedState(x, 8), NestedEvents(x)[8]), NestedState(x, 9));
    }
  }

  lemma {:induction false} NestedStep9(x: Loads)
    ensures Leads(NestedState(x, 9), NestedEvents(x)[9], NestedState(x, 10))
  {
    hide Inv;
    if Inv(NestedState(x, 9)) {
      Same(Next(NestedState(x, 9), NestedEvents(x)[9]), NestedState(x, 10));
    }
  }

  lemma {:induction false} NestedStep10(x: Loads)
    ensures Leads(NestedState(x, 10), NestedEvents(x)[10], NestedState(x, 11))
  {
    hide Inv;
    if Inv(NestedState(x, 10)) {
      Same(Next(NestedState(x, 10), NestedEvents(x)[10]), NestedState(x, 11));
    }
  }

  lemma {:induction false} NestedStep11(x: Loads)
    ensures Leads(NestedState(x, 11), NestedEvents(x)[11], NestedState(x, 12))
  {
    hide Inv;
    if Inv(NestedState(x, 11)) {
      Same(Next(NestedState(x, 11), NestedEvents(x)[11]), NestedState(x, 12));
    }
  }

  lemma {:induction false} NestedStep12(x: Loads)
    ensures Leads(NestedState(x, 12), NestedEvents(x)[12], NestedState(x, 13))
  {
    hide Inv;
    if Inv(NestedState(x, 12)) {
      Same(Next(NestedState(x, 12), NestedEvents(x)[12]), NestedState(x, 13));
    }
  }

  lemma {:induction false} NestedGoes(x: Loads, k: nat)
    requires k < 13
    ensures |NestedEvents(x)| == 13 && Leads(NestedState(x, k), NestedEvents(x)[k], NestedState(x, k + 1))
  {
    hide Leads, NestedState;
    match k
    case 0 => NestedStep0(x);
    case 1 => NestedStep1(x);
    case 2 => NestedStep2(x);
    case 3 => NestedStep3(x);
    case 4 => NestedStep4(x);
    case 5 => NestedStep5(x);
    case 6 => NestedStep6(x);
    case 7 => NestedStep7(x);
    case 8 => NestedStep8(x);
    case 9 => NestedStep9(x);
    case 10 => NestedStep10(x);
    case 11 => NestedStep11(x);
    case 12 => NestedStep12(x);
  }

  // ---- a second spawn after the spawn_root_and_wait ----

  function SecondSpawn(x: Loads): Sys {
    Sys(State([[OpenNode(1, 2, FINISH, false)],
              [OpenNode(3, 4, FINISH, false), OpenNode(5, 11, FINISH, true), OpenNode(12, 15, ASYNC, true)]],
            map[2 := OpenNode(6, 7, NO_TYPE, false), 4 := OpenNode(13, 14, NO_TYPE, false)], 16,
            MixedLog(x)[..10] + [Record(12, 5, 0, FINISH, 0), Record(13, 12, 0, ASYNC, 5)],
            map[6 := false, 5 := false, 7 := false]),
        MixedShape()[..12] + [Node(5, FINISH, 0, 0), Node(12, ASYNC, 5, 0), Node(13, STEP, 0, 0), Node(12, STEP, 0, 0)],
        [Gone, OnStack(0, 0), Gone, OnStack(1, 0), Gone, OnStack(1, 1), Pending(2), Running, Gone, Gone, Gone, Gone,
         OnStack(1, 2), Pending(4), Running, Running],
        [-1, 0, 1, 2, 3, 4, 5, -1, 6, 7, 8, 9, 10, 11, -1, -1], [Scheduling, Computing],
        [[Pause(Idle, []), Pause(ForRoot(3), [OpenNode(1, 2, FINISH, false)])], [Pause(Idle, [])]], 4)
  }

  function SecondSync(x: Loads): Sys {
    Sys(State([[OpenNode(1, 2, FINISH, false)],
              [OpenNode(3, 4, FINISH, false), OpenNode(5, 11, FINISH, true), OpenNode(12, 15, ASYNC, true)]],
            map[2 := OpenNode(6, 7, NO_TYPE, false), 4 := OpenNode(13, 14, NO_TYPE, false)], 16,
            MixedLog(x)[..10] + [Record(12, 5, 0, FINISH, 0), Record(13, 12, 0, ASYNC, 5), Record(15, 12, 0, STEP, 0)],
            map[6 := false, 5 := false, 7 := false]),
        MixedShape()[..12] + [Node(5, FINISH, 0, 0), Node(12, ASYNC, 5, 0), Node(13, STEP, 0, 0), Node(12, STEP, 0, 0)],
        [Gone, OnStack(0, 0), Gone, OnStack(1, 0), Gone, OnStack(1, 1), Pending(2), Running, Gone, Gone, Gone, Gone,
         OnStack(1, 2), Pending(4), Running, Gone],
        [-1, 0, 1, 2, 3, 4, 5, -1, 6, 7, 8, 9, 10, 11, -1, 12], [Scheduling, Between],
        [[Pause(Idle, []), Pause(ForRoot(3), [OpenNode(1, 2, FINISH, false)])], [Pause(Idle, [])]], 4)
  }

  lemma {:induction false} SecondSpawned(x: Loads)
    ensures Leads(MixedState(x, 12), Spawn(1, SPAWN), SecondSpawn(x))
  {
    hide Inv;
    if Inv(MixedState(x, 12)) {
      Same(Next(MixedState(x, 12), Spawn(1, SPAWN)), SecondSpawn(x));
    }
  }

  lemma {:induction false} SecondOpened(x: Loads)
    ensures Leads(SecondSpawn(x), EndStep(1, 0), SecondSync(x))
  {
    hide Inv;
    if Inv(SecondSpawn(x)) {
      Same(Next(SecondSpawn(x), EndStep(1, 0)), SecondSync(x));
    }
  }

  // ---- the runs as a whole ----

  lemma {:induction false} MixedReaches(x: Loads, k: nat)
    requires k <= 21
    ensures |MixedEvents(x)| == 21 && Run(2, MixedEvents(x)[..k]) == Some(MixedState(x, k))
  {
    hide Inv, Enabled, Next, MixedState, MixedEvents, Run;
    if k == 0 {
      Starts(MixedEvents(x));
      MixedGoes(x, 0);
      MixedStart(x);
    } else {
      MixedReaches(x, k - 1);
      MixedGoes(x, k - 1);
      var es := MixedEvents(x)[..k];
      assert es[..k - 1] == MixedEvents(x)[..k - 1] && es[k - 1] == MixedEvents(x)[k - 1];
      GoesOn(es, MixedState(x, k - 1), MixedState(x, k));
    }
  }

  lemma {:induction false} MixedStart(x: Loads)
    ensures MixedState(x, 0) == Initial(2)
  {
  }

  lemma {:induction false} NestedReaches(x: Loads, k: nat)
    requires k <= 13
    ensures |NestedEvents(x)| == 13 && Run(2, NestedEvents(x)[..k]) == Some(NestedState(x, k))
  {
    hide Inv, Enabled, Next, NestedState, NestedEvents, Run;
    if k == 0 {
      Starts(NestedEvents(x));
      NestedGoes(x, 0);
      NestedStart(x);
    } else {
      NestedReaches(x, k - 1);
      NestedGoes(x, k - 1);
      var es := NestedEvents(x)[..k];
      assert es[..k - 1] == NestedEvents(x)[..k - 1] && es[k - 1] == NestedEvents(x)[k - 1];
      GoesOn(es, NestedState(x, k - 1), NestedState(x, k));
    }
  }

  lemma {:induction false} NestedStart(x: Loads)
    ensures NestedState(x, 0) == Initial(2)
  {
  }

  lemma {:induction false} Starts(es: seq<Event>)
    ensures Run(2, es[..0]) == Some(Initial(2))
  {
    hide Inv;
    assert es[..0] == [];
  }

  /** The spawn that follows the spawn_root_and_wait opens a second implicit FINISH in the frame of the
      task: the task cannot end any more without leaving its own node on the stack. */
  lemma {:induction false} SecondSyncRun(x: Loads)
    ensures var es := MixedEvents(x)[..12] + [Spawn(1, SPAWN), EndStep(1, 0)];
            && |MixedEvents(x)| == 21 && Run(2, es).Some?
            && var s := Run(2, es).value;
               && s.mode[1] == Between && |s.c.stacks[1]| == 3 && !AtMostOneSync(s.c.stacks[1]) && !Enabled(s, EndTask(1))
               && CanReturn(s.c.stacks[1]) && Returned(s.c.stacks[1]) == s.c.stacks[1][..1] && !s.c.stacks[1][0].sync
  {
    hide Inv, Next, MixedState, MixedEvents, Run, SecondSpawn, Enabled;
    MixedReaches(x, 12);
    var es1 := MixedEvents(x)[..12] + [Spawn(1, SPAWN)];
    assert es1[..12] == MixedEvents(x)[..12] && |es1| == 13;
    SecondSpawned(x);
    GoesOn(es1, MixedState(x, 12), SecondSpawn(x));
    var es := MixedEvents(x)[..12] + [Spawn(1, SPAWN), EndStep(1, 0)];
    assert es[..13] == es1 && |es| == 14;
    SecondOpened(x);
    GoesOn(es, SecondSpawn(x), SecondSync(x));
    CannotEnd(SecondSync(x));
  }

  /** A task that has spawned nothing calls wait_for_all, which the model excludes: CaptureWaitOnly would pop
      the node of the task itself, and the end of the task what lies below it. */
  lemma {:induction false} WaitWithoutSpawn(x: Loads)
    ensures |MixedEvents(x)| == 21 && Run(2, MixedEvents(x)[..9]).Some?
    ensures var s := Run(2, MixedEvents(x)[..9]).value;
            && s.mode[0] == Between && |s.c.stacks[0]| == 2 && !Top(s.c.stacks[0]).sync && !Enabled(s, WaitAll(0))
            && var w := WaitOnly(s.c, 0).stacks[0]; w == [s.c.stacks[0][0].(child := s.c.last)] && CanReturn(w) && Returned(w) == []
  {
    hide Inv, Next, MixedEvents, Run, Enabled;
    MixedReaches(x, 9);
    CannotWait(MixedState(x, 9));
  }

  lemma {:induction false} CannotWait(s: Sys)
    requires Sized(s) && |s.c.stacks[0]| > 0 && !Top(s.c.stacks[0]).sync
    ensures !Enabled(s, WaitAll(0))
  {
  }

  lemma {:induction false} CannotEnd(s: Sys)
    requires Sized(s) && |s.mode| == 2 && !AtMostOneSync(s.c.stacks[1])
    ensures !Enabled(s, EndTask(1))
  {
  }

  // ---- the trees that they log ----

  function MixedTree(x: Loads): Tree {
    [Node(0, NO_TYPE, 0, 0), Node(0, FINISH, 0, 0), Node(1, STEP, 0, 0), Node(1, FINISH, 6, 0), Node(3, STEP, 0, 0),
     Node(3, FINISH, 0, 0), Node(5, ASYNC, 5, 0), Node(6, STEP, 0, x.task), Node(5, STEP, 0, 0),
     Node(5, FINISH, 7, 0), Node(9, STEP, 0, x.root), Node(5, STEP, 0, 0), Node(3, STEP, 0, 0), Node(1, STEP, 0, 0)]
  }

  function NestedTree(x: Loads): Tree {
    [Node(0, NO_TYPE, 0, 0), Node(0, FINISH, 0, 0), Node(1, STEP, 0, 0), Node(1, FINISH, 0, 0), Node(3, STEP, 0, 0),
     Node(3, FINISH, 7, 0), Node(5, STEP, 0, x.root), Node(3, STEP, 0, 0), Node(1, STEP, 0, 0)]
  }

  lemma {:induction false} LogNodeOf(log: seq<Record>, n: nat, j: nat)
    requires LogsExactly(log, n, {}) && j < |log|
    ensures log[j].id < n && LoggedTree(log, n)[log[j].id] == Node(log[j].parent, log[j].kind, log[j].callSite, log[j].work)
  {
    assert LoggedTree(log, n)[log[j].id] == NodeOf(log, log[j].id);
  }

  lemma {:induction false} LogRoot(log: seq<Record>, n: nat)
    requires LogsExactly(log, n, {}) && n > 0
    ensures LoggedTree(log, n)[0] == Node(0, NO_TYPE, 0, 0)
  {
    assert LoggedTree(log, n)[0] == NodeOf(log, 0);
  }

  lemma {:induction false} MixedLogged(x: Loads)
    requires LogsExactly(MixedLog(x), 14, {})
    ensures LoggedTree(MixedLog(x), 14) == MixedTree(x)
  {
    hide LogsExactly, LoggedTree;
    var log := MixedLog(x);
    LogRoot(log, 14);
    var place := [0, 1, 2, 3, 4, 5, 10, 6, 7, 8, 9, 11, 12];
    forall v: nat | 1 <= v < 14 ensures LoggedTree(log, 14)[v] == MixedTree(x)[v] {
      LogNodeOf(log, 14, place[v - 1]);
    }
  }

  lemma {:induction false} NestedLogged(x: Loads)
    requires LogsExactly(NestedLog(x), 9, {})
    ensures LoggedTree(NestedLog(x), 9) == NestedTree(x)
  {
    hide LogsExactly, LoggedTree;
    var log := NestedLog(x);
    LogRoot(log, 9);
    var place := [0, 1, 2, 3, 4, 5, 6, 7];
    forall v: nat | 1 <= v < 9 ensures LoggedTree(log, 9)[v] == NestedTree(x)[v] {
      LogNodeOf(log, 9, place[v - 1]);
    }
  }

  lemma {:induction false} MixedFinished(x: Loads)
    ensures Run(2, MixedEvents(x)) == Some(MixedState(x, 21)) && Finished(MixedState(x, 21))
    ensures var c := MixedState(x, 21).c; LoggedTree(c.log, c.last) == MixedTree(x) && Valid(MixedTree(x)) && FinishOrdered(MixedTree(x))
  {
    hide Run, LoggedTree, Inv, Valid, FinishOrdered, MixedEvents, MixedTree;
    MixedReaches(x, 21);
    assert MixedEvents(x)[..21] == MixedEvents(x);
    FinishedRun(2, MixedEvents(x));
    MixedLogged(x);
  }

  lemma {:induction false} NestedFinished(x: Loads)
    ensures Run(2, NestedEvents(x)) == Some(NestedState(x, 13)) && Finished(NestedState(x, 13))
    ensures var c := NestedState(x, 13).c; LoggedTree(c.log, c.last) == NestedTree(x) && Valid(NestedTree(x)) && FinishOrdered(NestedTree(x))
  {
    hide Run, LoggedTree, Inv, Valid, FinishOrdered, NestedEvents, NestedTree;
    NestedReaches(x, 13);
    assert NestedEvents(x)[..13] == NestedEvents(x);
    FinishedRun(2, NestedEvents(x));
    NestedLogged(x);
  }

  // ---- what the analysis makes of them ----

  lemma {:induction false} NotBelow(d: Tree, f: nat, w: nat)
    requires f < w < |d| && d[w].parent < w && !Below(d, f, d[w].parent)
    ensures !Below(d, f, w)
  {
  }

  lemma {:induction false} IsBelow(d: Tree, f: nat, w: nat)
    requires f < w < |d| && d[w].parent < w && Below(d, f, d[w].parent)
    ensures Below(d, f, w)
  {
  }

  lemma {:induction false} EarlierNotBelow(d: Tree, f: nat, w: nat)
    requires w < f
    ensures !Below(d, f, w)
  {
  }

  lemma {:induction false} MixedDrops(x: Loads, parFor: map<nat, bool>)
    requires !IsParFor(parFor, 6)
    ensures Drops(MixedTree(x), parFor, 5, 9) && Source(MixedTree(x), 9, 10)
  {
    hide Exposed, IsParFor;
    var d := MixedTree(x);
    MixedExposed(d, parFor);
    assert d[10].parent == 9 && d[9].parent == 5 && d[9].callSite == 7;
  }

  lemma {:induction false} MixedExposed(d: Tree, parFor: map<nat, bool>)
    requires |d| > 5 && d[3].kind == d[5].kind == FINISH && d[1].callSite == 0 && d[3].parent == 1 && d[5].parent == 3
    requires d[3].callSite == 6 && !IsParFor(parFor, 6)
    ensures Exposed(d, parFor, 5)
  {
    assert Exposed(d, parFor, 1);
    assert Exposed(d, parFor, 3);
  }

  lemma {:induction false} MixedDropped(x: Loads, parFor: map<nat, bool>)
    requires Valid(MixedTree(x)) && !IsParFor(parFor, 6) && x.task == 0 && x.root > 0
    ensures Dropped(MixedTree(x), parFor, 5, 9, 10)
  {
    hide Valid, Below, Drops;
    MixedDrops(x, parFor);
    BelowRoot(MixedTree(x), 10);
  }

  lemma {:induction false} MixedOutlasts(x: Loads)
    requires Valid(MixedTree(x))
    ensures Overtakes(MixedTree(x), 5, 6, 9)
  {
    hide Valid, Below;
    var d := MixedTree(x);
    BelowItself(d, 9);
    IsBelow(d, 9, 10);
    EarlierNotBelow(d, 6, 5);
    EarlierNotBelow(d, 6, 3);
    EarlierNotBelow(d, 6, 1);
    NotBelow(d, 6, 9);
    NotBelow(d, 6, 10);
    NotBelow(d, 6, 11);
    NotBelow(d, 6, 12);
    NotBelow(d, 6, 13);
    forall v: nat {:trigger Below(d, 6, v)} | Below(d, 6, v) && v < |d| ensures v < 10 {
    }
    assert Precedes(d, 6, 10);
    assert Outlasts(d, 9, 6);
  }

  lemma {:induction false} MixedLate(x: Loads)
    requires Valid(MixedTree(x)) && 0 < x.root < x.task
    ensures Late(MixedTree(x), 5, 6, 9, 7, 10)
  {
    hide Valid, Below, Overtakes;
    var d := MixedTree(x);
    MixedOutlasts(x);
    assert d[7].parent == 6 && d[10].parent == 9;
    HolderBelow(d, 6, 7);
    SourceBelow(d, 9, 10);
    Disjoint(d, 5, 6, 9, 7, 10);
    forall v: nat {:trigger d[v].parent} | 5 < v < |d| && d[v].parent == 5 && v != 6 && v != 9 ensures Workless(d, v) {
      Disjoint(d, 5, 6, v, 7, 7);
      Disjoint(d, 5, 9, v, 10, 10);
    }
  }

  lemma {:induction false} NestedDropped(x: Loads, parFor: map<nat, bool>)
    requires Valid(NestedTree(x)) && x.root > 0
    ensures Dropped(NestedTree(x), parFor, 3, 5, 6)
  {
    hide Valid, Below;
    var d := NestedTree(x);
    BelowRoot(d, 6);
    assert Exposed(d, parFor, 1);
    assert d[3].parent == 1 && Exposed(d, parFor, 3);
    assert d[6].parent == 5;
  }

  /** The root has the span `w` and no share of it. */
  ghost predicate LosesSpan(s: seq<AFTask>, w: nat) {
    |s| > 1 && s[1].criticalChild == w && s[1].localLocalWork == 0 && Sum(CallSites(s[1])) == 0
  }

  /** At node `n`, the call sites sum up to `more` than the span `w`. */
  ghost predicate ExceedsSpan(s: seq<AFTask>, n: nat, w: nat, more: nat) {
    n < |s| && Borrows(s[n]) && s[n].criticalChild == w && Sum(CallSites(s[n])) == w + more
  }

  /** The pass over any graph of a tree with a dropped share. */
  lemma {:induction false} LosesAll(d: Tree, parFor: map<nat, bool>, s: seq<AFTask>, n: nat, c: nat, t: nat)
    requires Valid(d) && FinishOrdered(d) && Fresh(d, s) && Forked(d) && Dropped(d, parFor, n, c, t)
    ensures t < |d| && LosesSpan(AfterPass(d, parFor, s), d[t].work)
  {
    hide Valid, FinishOrdered, Mid, Fresh, Drops, Source, Lone, Forked;
    ValidSize(d);
    var x := PassTo(d, parFor, s, |d|);
    DroppedStep(d, parFor, n, c, t);
    PassLoses(d, parFor, x.nodes, x.order, n, c, t);
  }

  lemma {:induction false} DroppedStep(d: Tree, parFor: map<nat, bool>, n: nat, c: nat, t: nat)
    requires Dropped(d, parFor, n, c, t)
    ensures t < |d| && d[t].work > 0
  {
  }

  lemma {:induction false} MixedForked(x: Loads)
    ensures Forked(MixedTree(x))
  {
    var d := MixedTree(x);
    assert d[6].parent == 5 && Sync(d, 5);
  }

  lemma {:induction false} MixedSites(x: Loads)
    ensures !IsParFor(MixedState(x, 21).c.callSites, 6)
  {
  }

  /** A finished run whose whole span is lost: a task is spawned, a root with a call site is executed before
      the implicit FINISH is closed, and the task takes no time. */
  lemma {:induction false} MixedRunLoses(x: Loads)
    requires x.task == 0 && x.root > 0
    ensures Run(2, MixedEvents(x)).Some? && Finished(Run(2, MixedEvents(x)).value)
    ensures var c := Run(2, MixedEvents(x)).value.c; var d := LoggedTree(c.log, c.last);
            && Valid(d) && FinishOrdered(d)
            && forall s {:trigger Fresh(d, s)} :: Fresh(d, s) ==> LosesSpan(AfterPass(d, c.callSites, s), x.root)
  {
    hide Run, Valid, FinishOrdered, Fresh, LoggedTree, Finished, Dropped, AfterPass, Forked, MixedEvents, MixedState, Inv, LosesSpan;
    MixedFinished(x);
    MixedSites(x);
    var parFor := MixedState(x, 21).c.callSites;
    MixedDropped(x, parFor);
    MixedForked(x);
    var d := MixedTree(x);
    forall s | Fresh(d, s) ensures LosesSpan(AfterPass(d, parFor, s), x.root) {
      LosesAll(d, parFor, s, 5, 9, 10);
    }
  }

  /** The same, if the outer root has no known source position; there is no task at all. */
  lemma {:induction false} NestedRunLoses(x: Loads)
    requires x.root > 0
    ensures Run(2, NestedEvents(x)).Some? && Finished(Run(2, NestedEvents(x)).value)
    ensures var c := Run(2, NestedEvents(x)).value.c; var d := LoggedTree(c.log, c.last);
            && Valid(d) && FinishOrdered(d)
            && forall s {:trigger Fresh(d, s)} :: Fresh(d, s) ==> LosesSpan(AfterPass(d, c.callSites, s), x.root)
  {
    hide Run, Valid, FinishOrdered, Fresh, LoggedTree, Finished, Dropped, AfterPass, Forked, NestedEvents, NestedState, Inv, LosesSpan;
    NestedFinished(x);
    var parFor := NestedState(x, 13).c.callSites;
    NestedDropped(x, parFor);
    NestedForked(x);
    var d := NestedTree(x);
    forall s | Fresh(d, s) ensures LosesSpan(AfterPass(d, parFor, s), x.root) {
      LosesAll(d, parFor, s, 3, 5, 6);
    }
  }

  lemma {:induction false} NestedForked(x: Loads)
    ensures Forked(NestedTree(x))
  {
  }

  lemma {:induction false} ExceedsAll(d: Tree, parFor: map<nat, bool>, s: seq<AFTask>, n: nat, a: nat, c: nat, ta: nat, tc: nat)
    requires Valid(d) && FinishOrdered(d) && Fresh(d, s) && Forked(d) && Late(d, n, a, c, ta, tc)
    ensures ta < |d| && tc < |d| && ExceedsSpan(AfterPass(d, parFor, s), n, d[ta].work, d[tc].work)
  {
    hide Valid, FinishOrdered, Mid, Fresh, Late, Forked, Borrows;
    ValidSize(d);
    var x := PassTo(d, parFor, s, |d|);
    PassBorrows(d, parFor, x.nodes, x.order, n, a, c, ta, tc);
    LateSteps(d, n, a, c, ta, tc);
  }

  /** The same run with a task that takes longer than the root: at the implicit FINISH, the call sites sum
      up to more than the span, and the subtraction borrows. */
  lemma {:induction false} MixedRunBorrows(x: Loads)
    requires 0 < x.root < x.task
    ensures Run(2, MixedEvents(x)).Some? && Finished(Run(2, MixedEvents(x)).value)
    ensures var c := Run(2, MixedEvents(x)).value.c; var d := LoggedTree(c.log, c.last);
            && Valid(d) && FinishOrdered(d)
            && forall s {:trigger Fresh(d, s)} :: Fresh(d, s) ==> ExceedsSpan(AfterPass(d, c.callSites, s), 5, x.task, x.root)
  {
    hide Run, Valid, FinishOrdered, Fresh, LoggedTree, Finished, Late, AfterPass, Forked, MixedEvents, Borrows, MixedState, Inv, ExceedsSpan;
    MixedFinished(x);
    var parFor := MixedState(x, 21).c.callSites;
    MixedLate(x);
    MixedForked(x);
    var d := MixedTree(x);
    forall s | Fresh(d, s) ensures ExceedsSpan(AfterPass(d, parFor, s), 5, x.task, x.root) {
      ExceedsAll(d, parFor, s, 5, 6, 9, 7, 10);
    }
  }
}
