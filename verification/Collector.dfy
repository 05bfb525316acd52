/** The collection phase: the stacks of open nodes, the map of tasks spawned but not started,
    the id counter and the log, with one operation per Capture call. */
module Collector {
  import opened Dpst

  /** A node that is still open: `child` is the id of its current step. */
  datatype OpenNode = OpenNode(id: nat, child: nat, young: NodeType, sync: bool)

  datatype Record = Record(id: nat, parent: nat, work: nat, kind: NodeType, callSite: nat)

  datatype State = State(
    stacks: seq<seq<OpenNode>>,
    pending: map<nat, OpenNode>,
    last: nat,
    log: seq<Record>,
    callSites: map<nat, bool>)

  type Stack = seq<OpenNode>

  function Top(st: Stack): OpenNode
    requires |st| > 0
  {
    st[|st| - 1]
  }

  function Pop(st: Stack): Stack
    requires |st| > 0
  {
    st[..|st| - 1]
  }

  function SetTop(st: Stack, n: OpenNode): Stack
    requires |st| > 0
  {
    st[|st| - 1 := n]
  }

  function NewNode(id: nat): OpenNode {
    OpenNode(id, 0, NO_TYPE, false)
  }

  predicate Active(s: State, t: nat) {
    t < |s.stacks| && |s.stacks[t]| > 0
  }

  // ---- the operations as functions on the state ----

  function Start(threads: nat): State
    requires threads > 0
  {
    State(seq(threads, i requires 0 <= i < threads => if i == 0 then [OpenNode(1, 2, NO_TYPE, false)] else []),
          map[], 3, [Record(1, 0, 0, FINISH, 0)], map[])
  }

  /** The call site of a spawn is recorded once, and is 0 when no source position is known. */
  function SiteOf(returnAddress: nat, known: bool): nat {
    if known then returnAddress else 0
  }

  function Register(s: State, returnAddress: nat, known: bool, parFor: bool): State {
    if known && returnAddress !in s.callSites then s.(callSites := s.callSites[returnAddress := parFor]) else s
  }

  function LogStep(s: State, t: nat, work: nat): State
    requires Active(s, t)
  {
    s.(log := s.log + [Record(Top(s.stacks[t]).child, Top(s.stacks[t]).id, work, STEP, 0)])
  }

  function SpawnOnly(s: State, t: nat, task: nat, callSite: nat): State
    requires Active(s, t)
  {
    var st, n := s.stacks[t], s.last;
    var cur := Top(st);
    if cur.young == ASYNC then
      State(s.stacks[t := SetTop(st, cur.(child := n + 2))],
            s.pending[task := NewNode(n).(child := n + 1)],
            n + 3,
            s.log + [Record(n, cur.id, 0, ASYNC, callSite)],
            s.callSites)
    else
      State(s.stacks[t := SetTop(st, cur.(young := FINISH)) + [OpenNode(n, n + 3, ASYNC, true)]],
            s.pending[task := NewNode(n + 1).(child := n + 2)],
            n + 4,
            s.log + [Record(n, cur.id, 0, FINISH, 0), Record(n + 1, n, 0, ASYNC, callSite)],
            s.callSites)
  }

  function SpawnAndWaitForAll(s: State, t: nat, task: nat, callSite: nat): State
    requires Active(s, t)
  {
    var st, n := s.stacks[t], s.last;
    var cur := Top(st);
    if cur.young == ASYNC then
      State(s.stacks,
            s.pending[task := NewNode(n).(child := n + 1)],
            n + 2,
            s.log + [Record(n, cur.id, 0, ASYNC, callSite)],
            s.callSites)
    else
      State(s.stacks[t := SetTop(st, cur.(young := FINISH)) + [OpenNode(n, 0, ASYNC, true)]],
            s.pending[task := NewNode(n + 1).(child := n + 2)],
            n + 3,
            s.log + [Record(n, cur.id, 0, FINISH, 0), Record(n + 1, n, 0, ASYNC, callSite)],
            s.callSites)
  }

  function SpawnAndWait(s: State, t: nat, task: nat, callSite: nat): State
    requires Active(s, t)
  {
    var st, n := s.stacks[t], s.last;
    State(s.stacks[t := SetTop(st, Top(st).(young := FINISH))],
          s.pending[task := NewNode(n).(child := n + 1)],
          n + 2,
          s.log + [Record(n, Top(st).id, 0, FINISH, callSite)],
          s.callSites)
  }

  function Execute(s: State, t: nat, task: nat): State
    requires t < |s.stacks| && task in s.pending
  {
    s.(stacks := s.stacks[t := s.stacks[t] + [s.pending[task]]], pending := s.pending - {task})
  }

  /** CaptureReturn pops one implicit FINISH at most. */
  predicate CanReturn(st: Stack) {
    |st| > 0 && (Top(st).sync ==> |st| > 1)
  }

  function Returned(st: Stack): Stack
    requires CanReturn(st)
  {
    if Top(st).sync then Pop(Pop(st)) else Pop(st)
  }

  function Return(s: State, t: nat): State
    requires t < |s.stacks| && CanReturn(s.stacks[t])
  {
    s.(stacks := s.stacks[t := Returned(s.stacks[t])])
  }

  function Wait(s: State, t: nat): State
    requires Active(s, t)
  {
    var st := s.stacks[t];
    s.(stacks := s.stacks[t := SetTop(st, Top(st).(child := s.last))], last := s.last + 1)
  }

  function WaitOnly(s: State, t: nat): State
    requires t < |s.stacks| && |s.stacks[t]| > 1
  {
    Wait(s.(stacks := s.stacks[t := Pop(s.stacks[t])]), t)
  }

  // ---- the graph object of the collection phase ----

  class AFTaskGraph {
    const curDpstIndex: array<Stack>
    var tempCurMap: map<nat, OpenNode>
    var lastAllocatedNode: nat
    var callSiteMap: map<nat, bool>
    var taskLog: seq<Record>

    ghost function Abs(): State
      reads this, curDpstIndex
    {
      State(curDpstIndex[..], tempCurMap, lastAllocatedNode, taskLog, callSiteMap)
    }

    constructor (threads: nat)
      requires threads > 0
      ensures fresh(curDpstIndex) && Abs() == Start(threads)
    {
      curDpstIndex := new Stack[threads](_ => []);
      lastAllocatedNode := 1;
      tempCurMap, callSiteMap, taskLog := map[], map[], [];
      new;
      var headNode := CreateNode();
      curDpstIndex[0] := curDpstIndex[0] + [headNode];
      Log(headNode.id, 0, 0, FINISH, 0);
      curDpstIndex[0] := SetTop(curDpstIndex[0], headNode.(child := lastAllocatedNode));
      lastAllocatedNode := lastAllocatedNode + 1;
      assert curDpstIndex[0] == [OpenNode(1, 2, NO_TYPE, false)];
      assert curDpstIndex[..] == Start(threads).stacks;
    }

    method CreateNode() returns (n: OpenNode)
      modifies `lastAllocatedNode
      ensures n == NewNode(old(lastAllocatedNode)) && lastAllocatedNode == old(lastAllocatedNode) + 1
    {
      n := OpenNode(lastAllocatedNode, 0, NO_TYPE, false);
      lastAllocatedNode := lastAllocatedNode + 1;
    }

    /** Task_Logger::log on the calling thread; the records of all threads, in time order. */
    method Log(id: nat, parent: nat, work: nat, kind: NodeType, callSite: nat)
      modifies `taskLog
      ensures taskLog == old(taskLog) + [Record(id, parent, work, kind, callSite)]
    {
      taskLog := taskLog + [Record(id, parent, work, kind, callSite)];
    }

    /** What TP_CaptureSpawn_Entry, TP_CaptureWait_Entry and TP_CaptureReturn all do. */
    method LogCurrentStep(t: nat, count: nat)
      requires Active(Abs(), t)
      modifies `taskLog
      ensures Abs() == LogStep(old(Abs()), t, count)
    {
      Log(Top(curDpstIndex[t]).child, Top(curDpstIndex[t]).id, count, STEP, 0);
    }

    method CaptureSpawnOnly(t: nat, taskId: nat, returnAddress: nat)
      requires Active(Abs(), t) && taskId !in tempCurMap
      modifies this, curDpstIndex
      ensures Abs() == SpawnOnly(old(Abs()), t, taskId, returnAddress)
    {
      var curNode := Top(curDpstIndex[t]);
      var newNode: OpenNode;
      if curNode.young == ASYNC {
        newNode := CreateNode();
        curNode := curNode.(young := ASYNC);
        Log(newNode.id, curNode.id, 0, ASYNC, returnAddress);
      } else {
        var newFinish := CreateNode();
        curDpstIndex[t] := SetTop(curDpstIndex[t], curNode.(young := FINISH));
        newFinish := newFinish.(sync := true);
        Log(newFinish.id, curNode.id, 0, FINISH, 0);
        newNode := CreateNode();
        newFinish := newFinish.(young := ASYNC);
        Log(newNode.id, newFinish.id, 0, ASYNC, returnAddress);
        curDpstIndex[t] := curDpstIndex[t] + [newFinish];
        curNode := newFinish;
      }
      ghost var below := Pop(curDpstIndex[t]);
      newNode := newNode.(child := lastAllocatedNode);
      lastAllocatedNode := lastAllocatedNode + 1;
      curDpstIndex[t] := SetTop(curDpstIndex[t], curNode.(child := lastAllocatedNode));
      lastAllocatedNode := lastAllocatedNode + 1;
      tempCurMap := tempCurMap[taskId := newNode];
      assert curDpstIndex[t] == below + [curNode.(child := lastAllocatedNode - 1)];
      assert curDpstIndex[t] == SpawnOnly(old(Abs()), t, taskId, returnAddress).stacks[t];
    }

    method CaptureSpawnAndWaitForAll(t: nat, taskId: nat, returnAddress: nat)
      requires Active(Abs(), t) && taskId !in tempCurMap
      modifies this, curDpstIndex
      ensures Abs() == SpawnAndWaitForAll(old(Abs()), t, taskId, returnAddress)
    {
      var curNode := Top(curDpstIndex[t]);
      var newNode: OpenNode;
      if curNode.young == ASYNC {
        newNode := CreateNode();
        Log(newNode.id, curNode.id, 0, ASYNC, returnAddress);
      } else {
        var newFinish := CreateNode();
        curDpstIndex[t] := SetTop(curDpstIndex[t], curNode.(young := FINISH));
        newFinish := newFinish.(sync := true);
        Log(newFinish.id, curNode.id, 0, FINISH, 0);
        newNode := CreateNode();
        newFinish := newFinish.(young := ASYNC);
        Log(newNode.id, newFinish.id, 0, ASYNC, returnAddress);
        curDpstIndex[t] := curDpstIndex[t] + [newFinish];
      }
      newNode := newNode.(child := lastAllocatedNode);
      lastAllocatedNode := lastAllocatedNode + 1;
      tempCurMap := tempCurMap[taskId := newNode];
    }

    method CaptureExecute(t: nat, taskId: nat)
      requires t < curDpstIndex.Length && taskId in tempCurMap
      modifies `tempCurMap, curDpstIndex
      ensures Abs() == Execute(old(Abs()), t, taskId)
    {
      var tempCur := tempCurMap[taskId];
      tempCurMap := tempCurMap - {taskId};
      curDpstIndex[t] := curDpstIndex[t] + [tempCur];
    }

    method CaptureSpawnAndWait(t: nat, taskId: nat, returnAddress: nat)
      requires Active(Abs(), t) && taskId !in tempCurMap
      modifies this, curDpstIndex
      ensures Abs() == SpawnAndWait(old(Abs()), t, taskId, returnAddress)
    {
      var curNode := Top(curDpstIndex[t]);
      var newFinish := CreateNode();
      curDpstIndex[t] := SetTop(curDpstIndex[t], curNode.(young := FINISH));
      Log(newFinish.id, curNode.id, 0, FINISH, returnAddress);
      newFinish := newFinish.(child := lastAllocatedNode);
      lastAllocatedNode := lastAllocatedNode + 1;
      tempCurMap := tempCurMap[taskId := newFinish];
    }

    method CaptureReturn(t: nat)
      requires t < curDpstIndex.Length && CanReturn(curDpstIndex[t])
      modifies curDpstIndex
      ensures Abs() == Return(old(Abs()), t)
    {
      var curNode := Top(curDpstIndex[t]);
      if curNode.sync {
        curDpstIndex[t] := Pop(curDpstIndex[t]);
      }
      curDpstIndex[t] := Pop(curDpstIndex[t]);
    }

    method CaptureWait(t: nat)
      requires Active(Abs(), t)
      modifies `lastAllocatedNode, curDpstIndex
      ensures Abs() == Wait(old(Abs()), t)
    {
      curDpstIndex[t] := SetTop(curDpstIndex[t], Top(curDpstIndex[t]).(child := lastAllocatedNode));
      lastAllocatedNode := lastAllocatedNode + 1;
    }

    method CaptureWaitOnly(t: nat)
      requires t < curDpstIndex.Length && |curDpstIndex[t]| > 1
      modifies `lastAllocatedNode, curDpstIndex
      ensures Abs() == WaitOnly(old(Abs()), t)
    {
      curDpstIndex[t] := Pop(curDpstIndex[t]);
      curDpstIndex[t] := SetTop(curDpstIndex[t], Top(curDpstIndex[t]).(child := lastAllocatedNode));
      lastAllocatedNode := lastAllocatedNode + 1;
    }

    /** The overload for spawn and spawn_root_and_wait. */
    method CaptureSetTaskId(t: nat, taskId: nat, spOnly: bool, returnAddress: nat, known: bool, parFor: bool)
      requires Active(Abs(), t) && taskId !in tempCurMap
      modifies this, curDpstIndex
      ensures var s, site := Register(old(Abs()), returnAddress, known, parFor), SiteOf(returnAddress, known);
              Abs() == if spOnly then SpawnOnly(s, t, taskId, site) else SpawnAndWait(s, t, taskId, site)
    {
      var site := returnAddress;
      if !known {
        site := 0;
      } else if site !in callSiteMap {
        callSiteMap := callSiteMap[site := parFor];
      }
      if spOnly {
        CaptureSpawnOnly(t, taskId, site);
      } else {
        CaptureSpawnAndWait(t, taskId, site);
      }
    }

    /** The overload for spawn_and_wait_for_all. */
    method CaptureSetTaskIdForAll(t: nat, taskId: nat, returnAddress: nat, known: bool, parFor: bool)
      requires Active(Abs(), t) && taskId !in tempCurMap
      modifies this, curDpstIndex
      ensures var s, site := Register(old(Abs()), returnAddress, known, parFor), SiteOf(returnAddress, known);
              Abs() == SpawnAndWaitForAll(s, t, taskId, site)
    {
      var site := returnAddress;
      if !known {
        site := 0;
      } else if site !in callSiteMap {
        callSiteMap := callSiteMap[site := parFor];
      }
      CaptureSpawnAndWaitForAll(t, taskId, site);
    }
  }
}
