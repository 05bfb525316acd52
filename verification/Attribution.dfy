/** How the critical path is shared out between call sites: the conditions on the shape of a tree, and
    what one completion does to the shares of the parent. */
module Attribution {
  import opened Dpst
  import opened CountMaps
  import opened Completion

  // ---- conditions on the shape of a tree ----

  /** Tasks are spawned below a FINISH without a call site. */
  ghost predicate Forked(d: Tree) {
    forall c {:trigger d[c].kind} :: 2 <= c < |d| && d[c].kind == ASYNC ==> d[c].parent < |d| && Sync(d, d[c].parent)
  }

  /** An inner node is numbered directly before its first child, which is a step, or a task if the
      node is an implicit FINISH. */
  ghost predicate Grown(d: Tree) {
    && Forked(d)
    && forall v {:trigger d[v].kind} :: 1 <= v < |d| && d[v].kind != STEP ==>
         v + 1 < |d| && d[v + 1].parent == v && (d[v + 1].kind == STEP || (Sync(d, v) && d[v + 1].kind == ASYNC))
  }

  /** A FINISH whose whole span goes to its own call site. */
  predicate Collapses(d: Tree, parFor: map<nat, bool>, v: nat)
    requires v < |d|
  {
    d[v].kind == FINISH && d[v].callSite != 0 && IsParFor(parFor, d[v].callSite)
  }

  /** Between the root and `v` there are FINISH nodes only, none of which collapses. */
  predicate Exposed(d: Tree, parFor: map<nat, bool>, v: nat)
    decreases v
  {
    v == 1 ||
    (1 < v < |d| && d[v].kind == FINISH && d[v].parent < v && !Collapses(d, parFor, d[v].parent) && Exposed(d, parFor, d[v].parent))
  }

  /** FINISH `c` may pass call sites on to its parent. */
  ghost predicate Emits(d: Tree, c: nat)
    requires c < |d|
  {
    d[c].callSite != 0 || exists b :: c < b < |d| && d[b].parent == c && d[b].kind == ASYNC
  }

  /** The exposed FINISH `n` has no call site, and drops the call sites that `c` may pass on. */
  ghost predicate Drops(d: Tree, parFor: map<nat, bool>, n: nat, c: nat) {
    && 1 < n < c < |d| && Sync(d, n) && Exposed(d, parFor, n)
    && d[c].parent == n && d[c].kind == FINISH && Emits(d, c)
  }

  ghost predicate Lossy(d: Tree, parFor: map<nat, bool>) {
    exists n: nat, c: nat :: Drops(d, parFor, n, c)
  }

  /** The subtree of `c` goes on when the one of `a` is complete. */
  ghost predicate Outlasts(d: Tree, c: nat, a: nat) {
    exists w: nat :: w < |d| && Below(d, c, w) && Precedes(d, a, w)
  }

  ghost predicate Precedes(d: Tree, a: nat, w: nat) {
    forall x: nat {:trigger Below(d, a, x)} :: Below(d, a, x) && x < |d| ==> x < w
  }

  /** FINISH `c` may pass call sites on to `n` after task `a` has determined the span of `n`. */
  ghost predicate Overtakes(d: Tree, n: nat, a: nat, c: nat) {
    && 1 < n < a < |d| && n < c < |d| && Sync(d, n) && d[a].parent == d[c].parent == n
    && d[a].kind == ASYNC && d[c].kind == FINISH && Emits(d, c) && Outlasts(d, c, a)
  }

  ghost predicate Overtaken(d: Tree) {
    exists n: nat, a: nat, c: nat :: Overtakes(d, n, a, c)
  }

  /** Implicit FINISH nodes hold steps and tasks, all other inner nodes steps and FINISH nodes. */
  ghost predicate Alternating(d: Tree) {
    forall c {:trigger d[c].kind} :: 2 <= c < |d| && d[c].parent < |d|
      ==> d[c].kind == STEP || d[c].kind == if Sync(d, d[c].parent) then ASYNC else FINISH
  }

  lemma {:induction false} AlternatingIsFine(d: Tree, parFor: map<nat, bool>)
    requires Valid(d) && Alternating(d)
    ensures Forked(d) && !Lossy(d, parFor) && !Overtaken(d)
  {
    forall c | 2 <= c < |d| && d[c].kind == ASYNC ensures d[c].parent < |d| && Sync(d, d[c].parent) {
      assert d[c].parent < c;
    }
    forall n: nat, c: nat ensures !Drops(d, parFor, n, c) {
    }
    forall n: nat, a: nat, c: nat ensures !Overtakes(d, n, a, c) {
    }
  }

  // ---- what one completion does to the shares of the parent ----

  /** The part of the call sites of the completed FINISH `n` that its parent receives. */
  ghost function Passed(n: AFTask, parFor: map<nat, bool>): int {
    if n.localWork < n.criticalChild then Sum(CallSites(n))
    else if n.spRootNWt then
      if IsParFor(parFor, n.callSite) then n.localWork else Sum(CallSites(n)) + n.localLocalWork
    else 0
  }

  lemma {:induction false} SumSingle(k: nat, x: int)
    ensures Sum(map[k := x]) == x
  {
    SumAdd(map[], k, x);
    assert Add(map[], k, x) == map[k := x];
  }

  lemma {:induction false} FinishInto(n: AFTask, p: AFTask, parFor: map<nat, bool>)
    requires p.kind != STEP && n.kind == FINISH && n.parent != 0 && n.criticalCallSites.Some? && p.criticalCallSites.Some?
    ensures Parent(n, p, parFor).localLocalWork == p.localLocalWork + LocalShare(n)
    ensures Sum(CallSites(Parent(n, p, parFor))) == Sum(CallSites(p)) + Passed(n, parFor)
    ensures Passed(n, parFor) + LocalShare(n) ==
            if n.localWork < n.criticalChild then n.criticalChild
            else if n.spRootNWt && !IsParFor(parFor, n.callSite) then Sum(CallSites(n)) + n.localLocalWork
            else if n.spRootNWt then n.localWork else n.localLocalWork
    ensures NonNegative(CallSites(n)) && NonNegative(CallSites(p)) && n.localLocalWork >= 0 ==>
              NonNegative(CallSites(Parent(n, p, parFor)))
  {
    SumAdd(CallSites(n), n.callSite, n.localLocalWork);
    SumSingle(n.callSite, n.localWork);
    if OwnCallSites(n, parFor).Some? {
      SumMerge(OwnCallSites(n, parFor).value, p.criticalCallSites.value);
    }
  }

  lemma {:induction false} AsyncInto(n: AFTask, p: AFTask, parFor: map<nat, bool>)
    requires p.kind != STEP && n.kind == ASYNC
    ensures Parent(n, p, parFor).localLocalWork == p.localLocalWork
    ensures Sum(CallSites(Parent(n, p, parFor))) ==
            if Takes(n, p) then Sum(CallSites(n)) + n.localLocalWork else Sum(CallSites(p))
    ensures NonNegative(CallSites(n)) && NonNegative(CallSites(p)) && n.localLocalWork >= 0 ==>
              NonNegative(CallSites(Parent(n, p, parFor)))
  {
    SumAdd(CallSites(n), n.callSite, n.localLocalWork);
  }

  lemma {:induction false} StepInto(n: AFTask, p: AFTask, parFor: map<nat, bool>)
    requires p.kind != STEP && n.kind == STEP
    ensures Parent(n, p, parFor).localLocalWork == p.localLocalWork + n.work
    ensures CallSites(Parent(n, p, parFor)) == CallSites(p)
  {
  }

  /** The shares of the nodes after the completion of `v`. */
  lemma {:induction false} SharesAfter(s: seq<AFTask>, v: nat, parFor: map<nat, bool>)
    requires 1 <= v < |s| && s[v].parent < v && s[s[v].parent].kind != STEP
    ensures var t := Completed(s, v, parFor);
            && |t| == |s| && t[s[v].parent] == Parent(s[v], s[s[v].parent], parFor)
            && t[v].localLocalWork == s[v].localLocalWork && t[v].localWork == s[v].localWork
            && (s[v].kind == FINISH ==> t[v].criticalChild == OwnSpan(s[v]) && t[v].criticalCallSites == OwnCallSites(s[v], parFor))
            && forall u {:trigger t[u]} :: 0 <= u < |s| && u != v && u != s[v].parent ==> t[u] == s[u]
  {
  }

  // ---- what the machine words hold ----

  const WORD := 0x1_0000_0000_0000_0000

  function Word(x: int): nat {
    x % WORD
  }

  /** The call sites as the program holds them. */
  function Words(m: map<nat, int>): map<nat, int> {
    map k | k in m :: Word(m[k])
  }

  lemma {:induction false} WordsSum(m: map<nat, int>)
    ensures Word(Sum(Words(m))) == Word(Sum(m))
    decreases |m|
  {
    hide Word, Sum;
    if m != map[] {
      var k :| k in m;
      SumRemove(m, k);
      SumRemove(Words(m), k);
      SizeRemove(m, k);
      assert Words(m) - {k} == Words(m - {k});
      WordsSum(m - {k});
      WordAdd(m[k], Sum(m - {k}));
      WordAdd(Word(m[k]), Sum(Words(m - {k})));
      WordOfWord(m[k]);
    } else {
      assert Words(m) == m;
    }
  }

  lemma {:induction false} WordAdd(x: int, y: int)
    ensures Word(x + y) == Word(Word(x) + Word(y))
  {
    var a, b := x / WORD, y / WORD;
    assert x == a * WORD + Word(x) && y == b * WORD + Word(y);
  }

  lemma {:induction false} WordOfWord(x: int)
    ensures Word(Word(x)) == Word(x)
  {
  }

  /** What the program adds to the parent's word when it subtracts in words; the words agree with the
      integers, and the subtraction borrows exactly when the call sites exceed the span. */
  lemma {:induction false} WordShare(n: AFTask, share: int)
    requires n.localWork < n.criticalChild < WORD
    ensures var sum := Word(Sum(Words(CallSites(n))));
            && Word(Word(share) + SizeSub(n.criticalChild, sum)) == Word(share + LocalShare(n))
            && (0 <= Sum(CallSites(n)) < WORD ==>
                  (SizeSub(n.criticalChild, sum) == LocalShare(n) <==> Sum(CallSites(n)) <= n.criticalChild))
  {
    hide Word, Words, Sum;
    var m := CallSites(n);
    WordsSum(m);
    WordSub(share, n.criticalChild, Sum(m), Word(Sum(Words(m))));
  }

  lemma {:induction false} WordSub(share: int, c: nat, sum: int, w: nat)
    requires w == Word(sum) && c < WORD
    ensures Word(Word(share) + SizeSub(c, w)) == Word(share + (c - sum))
    ensures 0 <= sum < WORD ==> (SizeSub(c, w) == c - sum <==> sum <= c)
  {
    var q := sum / WORD;
    WordAdd(share, SizeSub(c, w));
    WordAdd(share, c - sum);
    WordShift(c - w, q);
    WordOfWord(c - w);
  }

  lemma {:induction false} WordShift(x: int, q: int)
    ensures Word(x - q * WORD) == Word(x)
  {
    var r := x / WORD;
    assert x - q * WORD == (r - q) * WORD + Word(x);
  }
}
