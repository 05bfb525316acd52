/** The graph of the analysis phase, filled from the log files of the threads. */
module Loader {
  import opened Dpst
  import opened CountMaps
  import opened Completion
  import opened Collector

  /** One line of a log file: a record, and the work a step spent in each optimised region. */
  datatype Line = Line(record: Record, regions: seq<(nat, nat)>)

  const BLANK := AFTask(false, 0, NO_TYPE, 0, 0, 0, 0, 0, 0, 0, None, None)

  function AddRegions(rw: Option<map<nat, nat>>, regions: seq<(nat, nat)>): Option<map<nat, nat>> {
    if regions == [] then rw
    else
      var m := AddRegions(rw, regions[..|regions| - 1]);
      var (region, work) := regions[|regions| - 1];
      Some(match m case None => map[region := work] case Some(x) => Add(x, region, work))
  }

  function Initialized(t: AFTask, r: Record): AFTask {
    t.(parent := r.parent, kind := r.kind, callSite := r.callSite, spRootNWt := r.kind == FINISH && r.callSite != 0)
  }

  /** What one line makes of node `v`. */
  function Apply(t: AFTask, l: Line, v: nat): AFTask {
    var t1 := if l.record.id == v then Initialized(t, l.record) else t;
    var t2 := if l.record.parent == v && v != 0 then t1.(numChildren := t1.numChildren + 1) else t1;
    if l.record.id == v && l.record.kind == STEP then
      t2.(work := l.record.work, regionWork := AddRegions(t2.regionWork, l.regions))
    else t2
  }

  /** Node `v` of the graph after the given lines. */
  function NodeAfter(lines: seq<Line>, v: nat): AFTask {
    if lines == [] then BLANK else Apply(NodeAfter(lines[..|lines| - 1], v), lines[|lines| - 1], v)
  }

  function Flatten(files: seq<seq<Line>>): seq<Line> {
    if files == [] then [] else Flatten(files[..|files| - 1]) + files[|files| - 1]
  }

  predicate InBounds(files: seq<seq<Line>>, n: nat) {
    forall i, j {:trigger files[i][j]} :: 0 <= i < |files| && 0 <= j < |files[i]| ==>
      files[i][j].record.id < n && files[i][j].record.parent < n
  }

  class TaskGraph {
    const tgraphNodes: array<AFTask>
    var lastAllocatedNode: nat

    ghost predicate Holds(lines: seq<Line>)
      reads this, tgraphNodes
    {
      && lastAllocatedNode == |lines|
      && forall v: nat {:trigger tgraphNodes[v]} :: v < tgraphNodes.Length ==> tgraphNodes[v] == NodeAfter(lines, v)
    }

    constructor (capacity: nat)
      ensures fresh(tgraphNodes) && tgraphNodes.Length == capacity && Holds([])
    {
      tgraphNodes := new AFTask[capacity](_ => BLANK);
      lastAllocatedNode := 0;
    }

    method InitializeTask(index: nat, nodeType: NodeType, callSite: nat, parentIdx: nat)
      requires index < tgraphNodes.Length
      modifies `lastAllocatedNode, tgraphNodes
      ensures lastAllocatedNode == old(lastAllocatedNode) + 1
      ensures tgraphNodes[..] ==
              old(tgraphNodes[..])[index := Initialized(old(tgraphNodes[index]), Record(index, parentIdx, 0, nodeType, callSite))]
    {
      lastAllocatedNode := lastAllocatedNode + 1;
      tgraphNodes[index] := tgraphNodes[index].(parent := parentIdx, kind := nodeType, callSite := callSite);
      if nodeType == FINISH && callSite != 0 {
        tgraphNodes[index] := tgraphNodes[index].(spRootNWt := true);
      } else {
        tgraphNodes[index] := tgraphNodes[index].(spRootNWt := false);
      }
    }

    method ReadRegions(index: nat, regions: seq<(nat, nat)>)
      requires index < tgraphNodes.Length
      modifies tgraphNodes
      ensures tgraphNodes[..] ==
              old(tgraphNodes[..])[index := old(tgraphNodes[index]).(regionWork := AddRegions(old(tgraphNodes[index]).regionWork, regions))]
    {
      var i := 0;
      while i < |regions|
        invariant 0 <= i <= |regions|
        invariant tgraphNodes[..] ==
          old(tgraphNodes[..])[index := old(tgraphNodes[index]).(regionWork := AddRegions(old(tgraphNodes[index]).regionWork, regions[..i]))]
      {
        assert regions[..i + 1][..i] == regions[..i];
        var (region, regWork) := regions[i];
        assert tgraphNodes[index] == tgraphNodes[..][index];
        match tgraphNodes[index].regionWork {
          case None =>
            tgraphNodes[index] := tgraphNodes[index].(regionWork := Some(map[region := regWork]));
          case Some(rwMap) =>
            if region !in rwMap {
              tgraphNodes[index] := tgraphNodes[index].(regionWork := Some(rwMap[region := regWork]));
            } else {
              tgraphNodes[index] := tgraphNodes[index].(regionWork := Some(rwMap[region := rwMap[region] + regWork]));
            }
        }
        i := i + 1;
      }
      assert regions[..i] == regions;
    }

    /** The body of the loop over the lines of a file. */
    method ReadLine(l: Line, ghost before: seq<Line>)
      requires l.record.id < tgraphNodes.Length && l.record.parent < tgraphNodes.Length && Holds(before)
      modifies `lastAllocatedNode, tgraphNodes
      ensures Holds(before + [l])
    {
      var r := l.record;
      assert forall v: nat :: NodeAfter(before + [l], v) == Apply(NodeAfter(before, v), l, v) by {
        assert (before + [l])[..|before|] == before;
      }
      InitializeTask(r.id, r.kind, r.callSite, r.parent);
      if r.parent != 0 {
        tgraphNodes[r.parent] := tgraphNodes[r.parent].(numChildren := tgraphNodes[r.parent].numChildren + 1);
      }
      if r.kind == STEP {
        tgraphNodes[r.id] := tgraphNodes[r.id].(work := r.work);
        ReadRegions(r.id, l.regions);
      }
    }

    method CreateDpst(files: seq<seq<Line>>)
      requires Holds([]) && InBounds(files, tgraphNodes.Length)
      modifies `lastAllocatedNode, tgraphNodes
      ensures Holds(Flatten(files))
    {
      var i := 0;
      while i < |files|
        invariant 0 <= i <= |files|
        invariant Holds(Flatten(files[..i]))
      {
        var j := 0;
        ghost var before := Flatten(files[..i]);
        assert before + files[i][..0] == before;
        while j < |files[i]|
          invariant 0 <= j <= |files[i]|
          invariant Holds(before + files[i][..j])
        {
          ReadLine(files[i][j], before + files[i][..j]);
          assert before + files[i][..j] + [files[i][j]] == before + files[i][..j + 1];
          j := j + 1;
        }
        assert files[i][..j] == files[i];
        assert files[..i + 1][..i] == files[..i];
        i := i + 1;
      }
      assert files[..i] == files;
    }
  }
}
