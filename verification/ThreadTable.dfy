/** The table of thread-local objects: a list of hash arrays of growing size, searched and extended by
    any number of threads at once. Every step is one access to shared memory. Thread `t` has key `t + 1`. */
module ThreadTable {
  import opened Collections
  import opened HashBits

  /** A slot is empty while its key is 0. */
  datatype Slot = Slot(key: nat, ptr: nat)

  datatype Arr = Arr(lg: nat, slots: seq<Slot>)

  /** Where a thread is in table_lookup; arrays are numbered in the order of their publication, so
      that the root is the last one and the next of array `a` is array `a - 1`. */
  datatype Pc =
    | Idle
    | Scan(a: nat, d: nat)
    | Matched(a: nat, ptr: nat)
    | CreateLocal
    | CountUp(ptr: nat)
    | CheckRoot(ptr: nat, c: nat)
    | SwapRoot(ptr: nat, s: nat, arrays: nat)
    | LoadRoot(ptr: nat)
    | Claim(ptr: nat, a: nat, d: nat)
    | Store(ptr: nat, a: nat, i: nat)

  /** `created` and `returned` are histories: the locals that a thread has created, and the pointers
      that its lookups have returned. `number` is the value of my_count that its insertion got. */
  datatype Table = Table(
    arrays: seq<Arr>,
    count: nat,
    pc: seq<Pc>,
    created: seq<seq<nat>>,
    returned: seq<seq<nat>>,
    number: seq<nat>,
    nextPtr: nat)

  const WORD := 64

  /** The multiplicative hash; `start` uses its upper bits. */
  function Hash(k: nat): nat {
    Cut(k * 0x9E3779B97F4A7C15, WORD)
  }

  function UpperBits(h: nat, k: nat): nat {
    hide Pow2;
    h / Pow2(k)
  }

  function StartOf(t: nat, lg: nat): nat {
    if lg <= WORD then UpperBits(Hash(t + 1), WORD - lg) else 0
  }

  /** `start` is an index of the array. */
  lemma {:induction false} StartInRange(t: nat, lg: nat)
    ensures StartOf(t, lg) < Pow2(lg)
  {
    hide Pow2, Hash, Cut;
    if lg <= WORD {
      PowAdd(lg, WORD - lg);
      HashBound(t + 1, lg + (WORD - lg));
      DivBound(Hash(t + 1), Pow2(lg), Pow2(WORD - lg));
    }
  }

  lemma {:induction false} HashBound(k: nat, w: nat)
    requires w == WORD
    ensures Hash(k) < Pow2(w)
  {
    hide Pow2;
  }

  lemma {:induction false} DivBound(h: nat, a: nat, b: nat)
    requires b > 0 && h < a * b
    ensures h / b < a
  {
    var q, r := h / b, h % b;
    assert h == b * q + r && b * a == a * b;
    if q > a {
      MulApart(b, q, a);
    }
  }

  /** The slot that the probe reaches after `d` steps: `(start + d) & mask`. */
  function Probe(t: nat, lg: nat, d: nat): (i: nat)
    ensures i < Pow2(lg)
  {
    (StartOf(t, lg) + d) % Pow2(lg)
  }

  predicate Sized(s: Table) {
    |s.pc| == |s.created| == |s.returned| == |s.number|
  }

  /** `while( c>size_t(1)<<(s-1) ) ++s`. */
  function GrowTo(c: nat, s: nat): (r: nat)
    requires s >= 1
    ensures r >= s && c <= Pow2(r - 1) && (c > Pow2(s - 1) ==> r > s) && (r > s ==> c > Pow2(r - 2))
    decreases c - Pow2(s - 1)
  {
    if c > Pow2(s - 1) then
      assert Pow2(s) == 2 * Pow2(s - 1);
      GrowTo(c, s + 1)
    else s
  }

  function NewArray(lg: nat): Arr {
    Arr(lg, seq(Pow2(lg), _ => Slot(0, 0)))
  }

  predicate CanStep(s: Table, t: nat) {
    && Sized(s) && t < |s.pc|
    && match s.pc[t]
       case Scan(a, d) => a < |s.arrays| && |s.arrays[a].slots| == Pow2(s.arrays[a].lg)
       case CheckRoot(_, _) => s.arrays == [] || s.arrays[|s.arrays| - 1].lg >= 1
       case SwapRoot(_, _, n) => n <= |s.arrays|
       case LoadRoot(_) => s.arrays != []
       case Claim(_, a, d) => a < |s.arrays| && |s.arrays[a].slots| == Pow2(s.arrays[a].lg)
       case Store(_, a, i) => a < |s.arrays| && i < |s.arrays[a].slots|
       case _ => true
  }

  function Next(s: Table, t: nat, p: Pc): Table
    requires Sized(s) && t < |s.pc|
  {
    s.(pc := s.pc[t := p])
  }

  function Return(s: Table, t: nat, ptr: nat): Table
    requires Sized(s) && t < |s.pc|
  {
    s.(pc := s.pc[t := Idle], returned := s.returned[t := s.returned[t] + [ptr]])
  }

  /** Thread `t` performs one access. */
  function Step(s: Table, t: nat): Table
    requires CanStep(s, t)
  {
    match s.pc[t]
    case Idle => Next(s, t, if s.arrays == [] then CreateLocal else Scan(|s.arrays| - 1, 0))
    case Scan(a, d) =>
      var slot := s.arrays[a].slots[Probe(t, s.arrays[a].lg, d)];
      if slot.key == 0 then Next(s, t, if a == 0 then CreateLocal else Scan(a - 1, 0))
      else if slot.key == t + 1 then Next(s, t, Matched(a, slot.ptr))
      else Next(s, t, Scan(a, d + 1))
    case Matched(a, ptr) =>
      if a == |s.arrays| - 1 then Return(s, t, ptr) else Next(s, t, LoadRoot(ptr))
    case CreateLocal =>
      s.(pc := s.pc[t := CountUp(s.nextPtr)], created := s.created[t := s.created[t] + [s.nextPtr]], nextPtr := s.nextPtr + 1)
    case CountUp(ptr) =>
      s.(pc := s.pc[t := CheckRoot(ptr, s.count + 1)], count := s.count + 1, number := s.number[t := s.count + 1])
    case CheckRoot(ptr, c) =>
      if s.arrays == [] then Next(s, t, SwapRoot(ptr, GrowTo(c, 2), 0))
      else
        var lg := s.arrays[|s.arrays| - 1].lg;
        if c > Pow2(lg) / 2 then Next(s, t, SwapRoot(ptr, GrowTo(c, lg), |s.arrays|))
        else Next(s, t, LoadRoot(ptr))
    case SwapRoot(ptr, lg, n) =>
      if |s.arrays| == n then s.(pc := s.pc[t := LoadRoot(ptr)], arrays := s.arrays + [NewArray(lg)])
      else if s.arrays[|s.arrays| - 1].lg >= lg then Next(s, t, LoadRoot(ptr))
      else Next(s, t, SwapRoot(ptr, lg, |s.arrays|))
    case LoadRoot(ptr) => Next(s, t, Claim(ptr, |s.arrays| - 1, 0))
    case Claim(ptr, a, d) =>
      var i := Probe(t, s.arrays[a].lg, d);
      if s.arrays[a].slots[i].key == 0 then
        var slots := s.arrays[a].slots[i := s.arrays[a].slots[i].(key := t + 1)];
        s.(pc := s.pc[t := Store(ptr, a, i)], arrays := s.arrays[a := s.arrays[a].(slots := slots)])
      else Next(s, t, Claim(ptr, a, d + 1))
    case Store(ptr, a, i) =>
      var slots := s.arrays[a].slots[i := s.arrays[a].slots[i].(ptr := ptr)];
      Return(s.(arrays := s.arrays[a := s.arrays[a].(slots := slots)]), t, ptr)
  }

  function Initial(threads: nat): Table {
    Table([], 0, seq(threads, _ => Idle), seq(threads, _ => []), seq(threads, _ => []), seq(threads, _ => 0), 0)
  }

  // ---- probing ----

  lemma {:induction false} ProbeIs(t: nat, lg: nat, d: nat)
    requires d < Pow2(lg)
    ensures var x := StartOf(t, lg) + d; Probe(t, lg, d) == if x < Pow2(lg) then x else x - Pow2(lg)
  {
    StartInRange(t, lg);
    var x := StartOf(t, lg) + d;
    if x < Pow2(lg) {
      ModUnique(x, Pow2(lg), 0, x);
    } else {
      ModUnique(x, Pow2(lg), 1, x - Pow2(lg));
    }
  }

  /** The probe reaches every slot. */
  lemma {:induction false} ProbeReaches(t: nat, lg: nat, i: nat) returns (d: nat)
    requires i < Pow2(lg)
    ensures d < Pow2(lg) && Probe(t, lg, d) == i
  {
    StartInRange(t, lg);
    var s := StartOf(t, lg);
    d := if s <= i then i - s else i + Pow2(lg) - s;
    ProbeIs(t, lg, d);
  }

  lemma {:induction false} ProbeOnce(t: nat, lg: nat, d: nat, e: nat)
    requires d < Pow2(lg) && e < Pow2(lg) && Probe(t, lg, d) == Probe(t, lg, e)
    ensures d == e
  {
    StartInRange(t, lg);
    ProbeIs(t, lg, d);
    ProbeIs(t, lg, e);
  }

  // ---- the invariant ----

  predicate Has(a: Arr, t: nat) {
    exists i :: 0 <= i < |a.slots| && a.slots[i].key == t + 1
  }

  /** The first `d` slots of the probe of thread `t` are taken. */
  ghost predicate Taken(a: Arr, t: nat, d: nat) {
    |a.slots| == Pow2(a.lg) && forall e: nat {:trigger Probe(t, a.lg, e)} :: e < d ==> a.slots[Probe(t, a.lg, e)].key != 0
  }

  /** None of the first `d` slots of the probe of thread `t` is its own. */
  ghost predicate Missed(a: Arr, t: nat, d: nat) {
    |a.slots| == Pow2(a.lg) && forall e: nat {:trigger Probe(t, a.lg, e)} :: e < d ==> a.slots[Probe(t, a.lg, e)].key != t + 1
  }

  /** An array whose probes find what is in it, and whose owners were among the first to be counted. */
  ghost predicate ArrOk(a: Arr, number: seq<nat>) {
    && a.lg >= 2 && |a.slots| == Pow2(a.lg)
    && (forall i {:trigger a.slots[i].key} :: 0 <= i < |a.slots| && a.slots[i].key != 0 ==>
          a.slots[i].key <= |number| && 1 <= number[a.slots[i].key - 1] <= Pow2(a.lg - 1))
    && (forall i, j {:trigger a.slots[i].key, a.slots[j].key} :: 0 <= i < j < |a.slots| && a.slots[i].key != 0 ==>
          a.slots[i].key != a.slots[j].key)
    && (forall t: nat, d: nat {:trigger Probe(t, a.lg, d)} ::
          d < Pow2(a.lg) && a.slots[Probe(t, a.lg, d)].key == t + 1 ==> Taken(a, t, d))
  }

  ghost predicate ArraysOk(arrays: seq<Arr>, number: seq<nat>) {
    && (forall a {:trigger arrays[a]} :: 0 <= a < |arrays| ==> ArrOk(arrays[a], number))
    && (forall a, b {:trigger arrays[a].lg, arrays[b].lg} :: 0 <= a < b < |arrays| ==> arrays[a].lg < arrays[b].lg)
  }

  ghost predicate NumbersOk(number: seq<nat>, count: nat) {
    && (forall t {:trigger number[t]} :: 0 <= t < |number| ==> number[t] <= count)
    && (forall t, u {:trigger number[t], number[u]} :: 0 <= t < u < |number| && number[t] != 0 ==> number[t] != number[u])
  }

  /** All slots of thread `t`, but for slot `i` of array `a`, hold its pointer. */
  ghost predicate Holds(arrays: seq<Arr>, t: nat, ptr: nat, a: int, i: int) {
    forall b, j {:trigger arrays[b].slots[j]} ::
      0 <= b < |arrays| && 0 <= j < |arrays[b].slots| && (b, j) != (a, i) && arrays[b].slots[j].key == t + 1 ==>
        arrays[b].slots[j].ptr == ptr
  }

  ghost predicate Absent(arrays: seq<Arr>, t: nat, from: nat) {
    forall a {:trigger arrays[a]} :: from <= a < |arrays| ==> !Has(arrays[a], t)
  }

  /** The thread has no local object yet, or it has one and is in the table. */
  ghost predicate Settled(arrays: seq<Arr>, t: nat, created: seq<nat>, number: nat) {
    if created == [] then number == 0 && Absent(arrays, t, 0)
    else |created| == 1 && number > 0 && Holds(arrays, t, created[0], -1, -1) && !Absent(arrays, t, 0)
  }

  ghost predicate ThreadOk(arrays: seq<Arr>, t: nat, pc: Pc, created: seq<nat>, returned: seq<nat>, number: nat) {
    && (forall r :: r in returned ==> created == [r])
    && match pc
       case Idle => Settled(arrays, t, created, number)
       case Scan(a, d) =>
         Settled(arrays, t, created, number) && a < |arrays| && Absent(arrays, t, a + 1) && Taken(arrays[a], t, d)
         && Missed(arrays[a], t, d)
       case Matched(a, ptr) =>
         created == [ptr] && Settled(arrays, t, created, number) && a < |arrays| && Absent(arrays, t, a + 1) && Has(arrays[a], t)
       case CreateLocal => created == [] && number == 0 && Absent(arrays, t, 0)
       case CountUp(ptr) => created == [ptr] && number == 0 && Absent(arrays, t, 0)
       case CheckRoot(ptr, c) => created == [ptr] && number == c > 0 && Absent(arrays, t, 0)
       case SwapRoot(ptr, lg, n) =>
         created == [ptr] && Absent(arrays, t, 0) && lg >= 2 && 0 < number <= Pow2(lg - 1) && n <= |arrays|
         && (n > 0 ==> arrays[n - 1].lg < lg)
       case LoadRoot(ptr) =>
         created == [ptr] && arrays != [] && Holds(arrays, t, ptr, -1, -1) && Absent(arrays, t, |arrays| - 1)
         && arrays[|arrays| - 1].lg >= 1 && 0 < number <= Pow2(arrays[|arrays| - 1].lg - 1)
       case Claim(ptr, a, d) =>
         created == [ptr] && a < |arrays| && Holds(arrays, t, ptr, -1, -1) && !Has(arrays[a], t) && Taken(arrays[a], t, d)
         && arrays[a].lg >= 1 && 0 < number <= Pow2(arrays[a].lg - 1)
       case Store(ptr, a, i) =>
         created == [ptr] && number > 0 && a < |arrays| && i < |arrays[a].slots| && arrays[a].slots[i].key == t + 1
         && Holds(arrays, t, ptr, a, i)
  }

  ghost predicate ThreadsOk(s: Table)
    requires Sized(s)
  {
    forall t: nat {:trigger s.pc[t]} :: t < |s.pc| ==> ThreadOk(s.arrays, t, s.pc[t], s.created[t], s.returned[t], s.number[t])
  }

  ghost predicate Inv(s: Table) {
    Sized(s) && ArraysOk(s.arrays, s.number) && NumbersOk(s.number, s.count) && ThreadsOk(s)
  }

  lemma {:induction false} InitialInv(threads: nat)
    ensures Inv(Initial(threads))
  {
    var s := Initial(threads);
    assert forall t {:trigger s.pc[t]} :: 0 <= t < threads ==> s.pc[t] == Idle && s.created[t] == [] && s.returned[t] == [];
  }

  // ---- every array is at most half full ----

  ghost function Occupied(a: Arr): set<nat> {
    set i: nat | i < |a.slots| && a.slots[i].key != 0
  }

  /** Distinct positive numbers up to `m` can be given to at most `m` slots. */
  lemma {:induction false} Pigeonhole(idx: set<nat>, num: map<nat, nat>, m: nat)
    requires idx == num.Keys && forall i :: i in num ==> 1 <= num[i] <= m
    requires forall i, j {:trigger num[i], num[j]} :: i in num && j in num && i != j ==> num[i] != num[j]
    ensures |idx| <= m
    decreases m
  {
    if m == 0 {
      assert idx == {};
    } else if i :| i in num && num[i] == m {
      var rest := idx - {i};
      var num' := map j | j in rest :: num[j];
      Pigeonhole(rest, num', m - 1);
      assert idx == rest + {i};
    } else {
      Pigeonhole(idx, num, m - 1);
    }
  }

  lemma {:induction false} OwnersDiffer(a: Arr, number: seq<nat>, count: nat, i: nat, j: nat)
    requires ArrOk(a, number) && NumbersOk(number, count) && i < |a.slots| && j < |a.slots| && i != j
    requires a.slots[i].key != 0 && a.slots[j].key != 0
    ensures a.slots[i].key <= |number| && a.slots[j].key <= |number|
    ensures number[a.slots[i].key - 1] != number[a.slots[j].key - 1]
  {
    hide Taken;
    assert a.slots[i].key != a.slots[j].key;
  }

  lemma {:induction false} OwnersFew(a: Arr, number: seq<nat>)
    requires ArrOk(a, number)
    ensures a.lg >= 2
    ensures forall i {:trigger a.slots[i].key} :: 0 <= i < |a.slots| && a.slots[i].key != 0 ==>
              a.slots[i].key <= |number| && 1 <= number[a.slots[i].key - 1] <= Pow2(a.lg - 1)
  {
    hide Taken, Pow2;
  }

  lemma {:induction false} HalfPow(k: nat)
    requires k >= 1
    ensures Pow2(k) / 2 == Pow2(k - 1)
  {
  }

  /** At most half of the slots of an array are taken. */
  lemma {:induction false} HalfFull(a: Arr, number: seq<nat>, count: nat)
    requires ArrOk(a, number) && NumbersOk(number, count)
    ensures |Occupied(a)| <= Pow2(a.lg) / 2
  {
    hide Taken, Pow2, ArrOk, NumbersOk;
    var idx := Occupied(a);
    OwnersFew(a, number);
    var num := map i | i in idx :: number[a.slots[i].key - 1];
    forall i, j | i in num && j in num && i != j ensures num[i] != num[j] {
      OwnersDiffer(a, number, count, i, j);
    }
    Pigeonhole(idx, num, Pow2(a.lg - 1));
    HalfPow(a.lg);
  }

  /** A probe that found as many slots taken as there are has found all of them taken. */
  lemma {:induction false} FullArray(a: Arr, t: nat, d: nat)
    requires Taken(a, t, d) && d >= Pow2(a.lg)
    ensures |Occupied(a)| == Pow2(a.lg)
  {
    forall i: nat | i < |a.slots| ensures a.slots[i].key != 0 {
      var e := ProbeReaches(t, a.lg, i);
    }
    RangeSize(|a.slots|);
    assert Occupied(a) == Range(|a.slots|);
  }

  /** Every probe meets an empty slot, so that the loops end. */
  lemma {:induction false} ProbeEnds(a: Arr, number: seq<nat>, count: nat, t: nat, d: nat)
    requires ArrOk(a, number) && NumbersOk(number, count) && Taken(a, t, d)
    ensures d < Pow2(a.lg)
  {
    HalfFull(a, number, count);
    if d >= Pow2(a.lg) {
      FullArray(a, t, d);
    }
  }

  /** A probe that meets an empty slot has not missed the key of its thread. */
  lemma {:induction false} ProbeFinds(a: Arr, number: seq<nat>, t: nat, d: nat)
    requires ArrOk(a, number) && d < Pow2(a.lg) && a.slots[Probe(t, a.lg, d)].key == 0
    requires Missed(a, t, d)
    ensures !Has(a, t)
  {
    forall i: nat | i < |a.slots| ensures a.slots[i].key != t + 1 {
      var e := ProbeReaches(t, a.lg, i);
      assert e > d && a.slots[i].key == t + 1 ==> Taken(a, t, e);
    }
  }

  // ---- what the other threads do ----

  /** As far as thread `t` is concerned, slots have been taken and arrays without it added. */
  ghost predicate SameFor(x: seq<Arr>, y: seq<Arr>, t: nat) {
    && |x| <= |y|
    && (forall a {:trigger y[a]} :: 0 <= a < |x| ==> SameArr(x[a], y[a], t))
    && (forall a {:trigger y[a]} :: |x| <= a < |y| ==> !Has(y[a], t))
  }

  ghost predicate SameArr(x: Arr, y: Arr, t: nat) {
    && y.lg == x.lg && |y.slots| == |x.slots|
    && forall j {:trigger y.slots[j]} {:trigger x.slots[j]} :: 0 <= j < |x.slots| ==>
         && (y.slots[j].key == t + 1 <==> x.slots[j].key == t + 1)
         && (x.slots[j].key == t + 1 ==> y.slots[j].ptr == x.slots[j].ptr)
         && (x.slots[j].key != 0 ==> y.slots[j].key != 0)
  }

  lemma {:induction false} HasSame(x: Arr, y: Arr, t: nat)
    requires SameArr(x, y, t)
    ensures Has(y, t) <==> Has(x, t)
  {
    if Has(x, t) {
      var i :| 0 <= i < |x.slots| && x.slots[i].key == t + 1;
      assert y.slots[i].key == t + 1;
    }
    if Has(y, t) {
      var i :| 0 <= i < |y.slots| && y.slots[i].key == t + 1;
      assert x.slots[i].key == t + 1;
    }
  }

  lemma {:induction false} TakenSame(x: Arr, y: Arr, t: nat, d: nat)
    requires SameArr(x, y, t) && Taken(x, t, d)
    ensures Taken(y, t, d)
  {
    forall e: nat | e < d ensures y.slots[Probe(t, y.lg, e)].key != 0 {
      assert x.slots[Probe(t, x.lg, e)].key != 0;
    }
  }

  lemma {:induction false} AbsentSame(x: seq<Arr>, y: seq<Arr>, t: nat, from: nat)
    requires SameFor(x, y, t)
    ensures from <= |x| ==> (Absent(y, t, from) <==> Absent(x, t, from))
  {
    hide SameArr, Has;
    forall a | 0 <= a < |x| ensures Has(y[a], t) <==> Has(x[a], t) {
      assert y[a] == y[a];
      HasSame(x[a], y[a], t);
    }
    if from <= |x| && Absent(y, t, from) {
      forall a | from <= a < |x| ensures !Has(x[a], t) {
        assert y[a] == y[a];
      }
    }
  }

  lemma {:induction false} HoldsSame(x: seq<Arr>, y: seq<Arr>, t: nat, ptr: nat, a: int, i: int)
    requires SameFor(x, y, t) && Holds(x, t, ptr, a, i)
    ensures Holds(y, t, ptr, a, i)
  {
    forall b, j | 0 <= b < |y| && 0 <= j < |y[b].slots| && (b, j) != (a, i) && y[b].slots[j].key == t + 1
      ensures y[b].slots[j].ptr == ptr
    {
      assert b >= |x| ==> !Has(y[b], t);
      assert x[b].slots[j].ptr == ptr;
    }
  }

  lemma {:induction false} SettledSame(x: seq<Arr>, y: seq<Arr>, t: nat, created: seq<nat>, number: nat)
    requires SameFor(x, y, t) && Settled(x, t, created, number)
    ensures Settled(y, t, created, number)
  {
    AbsentSame(x, y, t, 0);
    if created != [] {
      HoldsSame(x, y, t, created[0], -1, -1);
    }
  }

  ghost predicate Growing(y: seq<Arr>) {
    forall a, b {:trigger y[a].lg, y[b].lg} :: 0 <= a < b < |y| ==> y[a].lg < y[b].lg
  }

  /** The steps of other threads do not disturb a thread. */
  lemma {:induction false} ThreadFrame(x: seq<Arr>, y: seq<Arr>, t: nat, pc: Pc, created: seq<nat>, returned: seq<nat>, number: nat)
    requires SameFor(x, y, t) && Growing(y) && ThreadOk(x, t, pc, created, returned, number)
    ensures ThreadOk(y, t, pc, created, returned, number)
  {
    hide SameArr, Has, Taken, Missed, Absent, Holds;
    match pc
    case Idle => SettledSame(x, y, t, created, number);
    case Scan(a, d) =>
      SettledSame(x, y, t, created, number);
      AbsentSame(x, y, t, a + 1);
      assert y[a] == y[a];
      TakenSame(x[a], y[a], t, d);
      MissedSame(x[a], y[a], t, d);
    case Matched(a, ptr) =>
      SettledSame(x, y, t, created, number);
      AbsentSame(x, y, t, a + 1);
      assert y[a] == y[a];
      HasSame(x[a], y[a], t);
    case CreateLocal => AbsentSame(x, y, t, 0);
    case CountUp(_) => AbsentSame(x, y, t, 0);
    case CheckRoot(_, _) => AbsentSame(x, y, t, 0);
    case SwapRoot(_, _, n) =>
      AbsentSame(x, y, t, 0);
      LgSame(x, y, t);
    case LoadRoot(ptr) =>
      HoldsSame(x, y, t, ptr, -1, -1);
      RootSame(x, y, t);
    case Claim(ptr, a, d) =>
      HoldsSame(x, y, t, ptr, -1, -1);
      LgSame(x, y, t);
      assert y[a] == y[a];
      HasSame(x[a], y[a], t);
      TakenSame(x[a], y[a], t, d);
    case Store(ptr, a, i) =>
      HoldsSame(x, y, t, ptr, a, i);
      SlotSame(x, y, t, a, i);
  }

  lemma {:induction false} MissedSame(x: Arr, y: Arr, t: nat, d: nat)
    requires SameArr(x, y, t) && Missed(x, t, d)
    ensures Missed(y, t, d)
  {
    forall e: nat | e < d ensures y.slots[Probe(t, y.lg, e)].key != t + 1 {
      assert x.slots[Probe(t, x.lg, e)].key != t + 1;
    }
  }

  lemma {:induction false} LgSame(x: seq<Arr>, y: seq<Arr>, t: nat)
    requires SameFor(x, y, t)
    ensures |x| <= |y| && forall a {:trigger x[a].lg} :: 0 <= a < |x| ==> y[a].lg == x[a].lg
  {
    forall a | 0 <= a < |x| ensures y[a].lg == x[a].lg {
      assert SameArr(x[a], y[a], t);
    }
  }

  lemma {:induction false} SlotSame(x: seq<Arr>, y: seq<Arr>, t: nat, a: nat, i: nat)
    requires SameFor(x, y, t) && a < |x| && i < |x[a].slots| && x[a].slots[i].key == t + 1
    ensures a < |y| && i < |y[a].slots| && y[a].slots[i].key == t + 1
  {
    assert SameArr(x[a], y[a], t);
  }

  /** The root may have been replaced by a larger one, which does not hold the thread either. */
  lemma {:induction false} RootSame(x: seq<Arr>, y: seq<Arr>, t: nat)
    requires SameFor(x, y, t) && Growing(y) && x != [] && Absent(x, t, |x| - 1) && x[|x| - 1].lg >= 1
    ensures Absent(y, t, |y| - 1) && y[|y| - 1].lg >= x[|x| - 1].lg && Pow2(x[|x| - 1].lg - 1) <= Pow2(y[|y| - 1].lg - 1)
  {
    LgSame(x, y, t);
    AbsentSame(x, y, t, |x| - 1);
    var l := y[|x| - 1].lg;
    assert |x| < |y| ==> l < y[|y| - 1].lg;
    PowGrows(l - 1, y[|y| - 1].lg - 1);
  }

  // ---- what a thread does to the arrays ----

  lemma {:induction false} PublishOk(arrays: seq<Arr>, number: seq<nat>, lg: nat)
    requires ArraysOk(arrays, number) && lg >= 2 && (arrays != [] ==> arrays[|arrays| - 1].lg < lg)
    ensures ArraysOk(arrays + [NewArray(lg)], number)
    ensures forall t: nat {:trigger SameFor(arrays, arrays + [NewArray(lg)], t)} :: SameFor(arrays, arrays + [NewArray(lg)], t)
  {
    hide ArrOk, Has;
    var y := arrays + [NewArray(lg)];
    NewArrayOk(lg, number);
    forall a | 0 <= a < |y| ensures ArrOk(y[a], number) {
      assert a < |arrays| ==> y[a] == arrays[a];
    }
    forall a, b | 0 <= a < b < |y| ensures y[a].lg < y[b].lg {
      assert y[a] == arrays[a];
      if b < |arrays| {
        assert y[b] == arrays[b];
      } else if a < |arrays| - 1 {
        assert arrays[a].lg < arrays[|arrays| - 1].lg;
      }
    }
    forall t: nat ensures SameFor(arrays, y, t) {
      forall a | 0 <= a < |arrays| ensures SameArr(arrays[a], y[a], t) {
        assert y[a] == arrays[a];
      }
      NewArrayOk(lg, number);
      assert y[|arrays|] == NewArray(lg);
    }
  }

  lemma {:induction false} NewArrayOk(lg: nat, number: seq<nat>)
    requires lg >= 2
    ensures ArrOk(NewArray(lg), number) && forall t: nat {:trigger Has(NewArray(lg), t)} :: !Has(NewArray(lg), t)
  {
    var a := NewArray(lg);
    assert forall i {:trigger a.slots[i]} :: 0 <= i < |a.slots| ==> a.slots[i].key == 0;
  }

  /** Thread `u` has claimed slot `i`. */
  function Claimed(a: Arr, i: nat, u: nat): Arr
    requires i < |a.slots|
  {
    a.(slots := a.slots[i := a.slots[i].(key := u + 1)])
  }

  /** A slot that was taken stays taken. */
  lemma {:induction false} ClaimTaken(a: Arr, i: nat, u: nat, t: nat, e: nat)
    requires i < |a.slots| && Taken(a, t, e)
    ensures Taken(Claimed(a, i, u), t, e)
  {
    hide Probe, Pow2;
    var b := Claimed(a, i, u);
    forall g: nat | g < e ensures b.slots[Probe(t, b.lg, g)].key != 0 {
      assert a.slots[Probe(t, a.lg, g)].key != 0;
    }
  }

  lemma {:induction false} ClaimFound(a: Arr, number: seq<nat>, u: nat, d: nat, t: nat, e: nat)
    requires ArrOk(a, number) && d < Pow2(a.lg) && Taken(a, u, d) && !Has(a, u)
    requires a.slots[Probe(u, a.lg, d)].key == 0
    requires var b := Claimed(a, Probe(u, a.lg, d), u); e < Pow2(a.lg) && b.slots[Probe(t, a.lg, e)].key == t + 1
    ensures Taken(Claimed(a, Probe(u, a.lg, d), u), t, e)
  {
    hide Pow2, Taken, Probe;
    var i := Probe(u, a.lg, d);
    if t == u {
      assert a.slots[Probe(t, a.lg, e)].key != u + 1;
      ProbeOnce(u, a.lg, d, e);
    } else {
      assert a.slots[Probe(t, a.lg, e)].key == t + 1;
    }
    ClaimTaken(a, i, u, t, e);
  }

  lemma {:induction false} ClaimArrOk(a: Arr, number: seq<nat>, u: nat, d: nat)
    requires ArrOk(a, number) && u < |number| && d < Pow2(a.lg) && Taken(a, u, d) && !Has(a, u)
    requires a.slots[Probe(u, a.lg, d)].key == 0 && 0 < number[u] <= Pow2(a.lg - 1)
    ensures ArrOk(Claimed(a, Probe(u, a.lg, d), u), number)
  {
    hide Pow2, Taken, Probe;
    var i := Probe(u, a.lg, d);
    var b := Claimed(a, i, u);
    forall t: nat, e: nat | e < Pow2(b.lg) && b.slots[Probe(t, b.lg, e)].key == t + 1 ensures Taken(b, t, e) {
      ClaimFound(a, number, u, d, t, e);
    }
    forall j, k | 0 <= j < k < |b.slots| && b.slots[j].key != 0 ensures b.slots[j].key != b.slots[k].key {
      assert a.slots[j].key != u + 1 && a.slots[k].key != u + 1;
    }
  }

  lemma {:induction false} WriteOk(arrays: seq<Arr>, number: seq<nat>, a: nat, b: Arr)
    requires ArraysOk(arrays, number) && a < |arrays| && ArrOk(b, number) && b.lg == arrays[a].lg
    ensures ArraysOk(arrays[a := b], number)
  {
    hide ArrOk;
    var y := arrays[a := b];
    forall c | 0 <= c < |y| ensures ArrOk(y[c], number) {
      assert c != a ==> y[c] == arrays[c];
    }
    forall c, e | 0 <= c < e < |y| ensures y[c].lg < y[e].lg {
      assert y[c].lg == arrays[c].lg && y[e].lg == arrays[e].lg;
    }
  }

  lemma {:induction false} WriteSame(arrays: seq<Arr>, a: nat, b: Arr, t: nat)
    requires a < |arrays| && SameArr(arrays[a], b, t)
    ensures SameFor(arrays, arrays[a := b], t)
  {
    forall c | 0 <= c < |arrays| && c != a ensures SameArr(arrays[c], arrays[a := b][c], t) {
    }
  }

  /** A new number disturbs no array that the thread is not in. */
  lemma {:induction false} CountOk(arrays: seq<Arr>, number: seq<nat>, count: nat, t: nat)
    requires ArraysOk(arrays, number) && NumbersOk(number, count) && t < |number| && Absent(arrays, t, 0)
    ensures ArraysOk(arrays, number[t := count + 1]) && NumbersOk(number[t := count + 1], count + 1)
  {
    hide Taken;
    forall a | 0 <= a < |arrays| ensures ArrOk(arrays[a], number[t := count + 1]) {
      assert ArrOk(arrays[a], number) && !Has(arrays[a], t);
    }
  }

  // ---- the thread that steps ----

  /** What a step of thread `t` has to do to keep the invariant. */
  ghost predicate Keeps(s: Table, y: Table, t: nat)
    requires Sized(s) && t < |s.pc|
  {
    && Sized(y) && |y.pc| == |s.pc|
    && ArraysOk(y.arrays, y.number) && NumbersOk(y.number, y.count)
    && ThreadOk(y.arrays, t, y.pc[t], y.created[t], y.returned[t], y.number[t])
    && (forall u: nat {:trigger y.pc[u]} :: u < |s.pc| && u != t ==>
         y.pc[u] == s.pc[u] && y.created[u] == s.created[u] && y.returned[u] == s.returned[u] && y.number[u] == s.number[u])
    && (forall u: nat {:trigger SameFor(s.arrays, y.arrays, u)} :: u != t ==> SameFor(s.arrays, y.arrays, u))
  }

  lemma {:induction false} SameArrays(x: seq<Arr>)
    ensures forall u: nat {:trigger SameFor(x, x, u)} :: SameFor(x, x, u)
  {
  }

  lemma {:induction false} KeepsInv(s: Table, y: Table, t: nat)
    requires Inv(s) && t < |s.pc| && Keeps(s, y, t)
    ensures Inv(y)
  {
    hide ThreadOk, SameFor, ArrOk;
    forall u: nat | u < |y.pc| ensures ThreadOk(y.arrays, u, y.pc[u], y.created[u], y.returned[u], y.number[u]) {
      if u != t {
        assert ThreadOk(s.arrays, u, s.pc[u], s.created[u], s.returned[u], s.number[u]);
        assert SameFor(s.arrays, y.arrays, u);
        ThreadFrame(s.arrays, y.arrays, u, s.pc[u], s.created[u], s.returned[u], s.number[u]);
      }
    }
  }

  lemma {:induction false} ArrSize(a: Arr, number: seq<nat>)
    requires ArrOk(a, number)
    ensures a.lg >= 2 && |a.slots| == Pow2(a.lg)
  {
  }

  lemma {:induction false} HasSlot(a: Arr, i: nat, t: nat)
    requires i < |a.slots| && a.slots[i].key == t + 1
    ensures Has(a, t)
  {
  }

  lemma {:induction false} HasPtr(arrays: seq<Arr>, t: nat, created: seq<nat>, number: nat, a: nat, i: nat)
    requires Settled(arrays, t, created, number) && a < |arrays| && i < |arrays[a].slots| && arrays[a].slots[i].key == t + 1
    ensures created == [arrays[a].slots[i].ptr]
  {
    HasSlot(arrays[a], i, t);
  }

  lemma {:induction false} AbsentMore(arrays: seq<Arr>, t: nat, a: nat)
    requires a < |arrays| && Absent(arrays, t, a + 1) && !Has(arrays[a], t)
    ensures Absent(arrays, t, a)
  {
    hide Has;
  }

  lemma {:induction false} AbsentAt(arrays: seq<Arr>, t: nat, a: nat, b: nat)
    requires b <= a < |arrays| && Absent(arrays, t, b)
    ensures !Has(arrays[a], t)
  {
    hide Has;
  }

  lemma {:induction false} AbsentFewer(arrays: seq<Arr>, t: nat, a: nat, b: nat)
    requires b <= a && Absent(arrays, t, b)
    ensures Absent(arrays, t, a)
  {
    hide Has;
  }

  lemma {:induction false} ProbeStart(a: Arr, t: nat)
    requires |a.slots| == Pow2(a.lg)
    ensures Taken(a, t, 0) && Missed(a, t, 0)
  {
  }

  lemma {:induction false} ProbeTaken(a: Arr, t: nat, d: nat)
    requires Taken(a, t, d) && a.slots[Probe(t, a.lg, d)].key != 0
    ensures Taken(a, t, d + 1)
  {
    hide Probe;
  }

  lemma {:induction false} ProbeMissed(a: Arr, t: nat, d: nat)
    requires Missed(a, t, d) && a.slots[Probe(t, a.lg, d)].key != t + 1
    ensures Missed(a, t, d + 1)
  {
    hide Probe;
  }

  lemma {:induction false} ThreadAt(s: Table, t: nat)
    requires Inv(s) && t < |s.pc|
    ensures ThreadOk(s.arrays, t, s.pc[t], s.created[t], s.returned[t], s.number[t])
  {
    hide ThreadOk, ArraysOk;
  }

  lemma {:induction false} ArrAt(s: Table, a: nat)
    requires Inv(s) && a < |s.arrays|
    ensures ArrOk(s.arrays[a], s.number) && s.arrays[a].lg >= 2 && |s.arrays[a].slots| == Pow2(s.arrays[a].lg)
  {
    hide ThreadOk;
    ArrSize(s.arrays[a], s.number);
  }

  // What a thread knows after each of its steps.

  lemma {:induction false} IdleStep(s: Table, t: nat)
    requires Inv(s) && t < |s.pc| && s.pc[t] == Idle
    ensures ThreadOk(s.arrays, t, if s.arrays == [] then CreateLocal else Scan(|s.arrays| - 1, 0), s.created[t], s.returned[t], s.number[t])
  {
    hide Inv, Pow2, Has, Taken, Missed;
    ThreadAt(s, t);
    if s.arrays != [] {
      ArrAt(s, |s.arrays| - 1);
      ProbeStart(s.arrays[|s.arrays| - 1], t);
    }
  }

  /** The probe of an array stays within its size. */
  lemma {:induction false} ScanStep(s: Table, t: nat, a: nat, d: nat)
    requires Inv(s) && t < |s.pc| && s.pc[t] == Scan(a, d)
    ensures CanStep(s, t) && d < Pow2(s.arrays[a].lg)
    ensures ThreadOk(s.arrays, t, Step(s, t).pc[t], s.created[t], s.returned[t], s.number[t])
  {
    hide Inv, ArrOk, Pow2, Has, Absent, Holds, Taken, Missed, Settled, Probe;
    ThreadAt(s, t);
    ArrAt(s, a);
    SizedInv(s);
    var x := s.arrays[a];
    ProbeEnds(x, s.number, s.count, t, d);
    var i := Probe(t, x.lg, d);
    if x.slots[i].key == 0 {
      ProbeFinds(x, s.number, t, d);
      AbsentMore(s.arrays, t, a);
      if a > 0 {
        ArrAt(s, a - 1);
        ProbeStart(s.arrays[a - 1], t);
      } else {
        AbsentAll(s.arrays, t, s.created[t], s.number[t]);
      }
    } else if x.slots[i].key == t + 1 {
      HasSlot(x, i, t);
      HasPtr(s.arrays, t, s.created[t], s.number[t], a, i);
    } else {
      ProbeTaken(x, t, d);
      ProbeMissed(x, t, d);
    }
  }

  lemma {:induction false} SizedInv(s: Table)
    requires Inv(s)
    ensures Sized(s) && ArraysOk(s.arrays, s.number) && NumbersOk(s.number, s.count)
  {
    hide ThreadOk, ArraysOk, NumbersOk;
  }

  lemma {:induction false} AbsentAll(arrays: seq<Arr>, t: nat, created: seq<nat>, number: nat)
    requires Settled(arrays, t, created, number) && Absent(arrays, t, 0)
    ensures created == [] && number == 0
  {
    hide Absent;
  }

  /** A thread found below the root was counted before the array in which it was found got its size. */
  lemma {:induction false} MatchedStep(s: Table, t: nat, a: nat, ptr: nat)
    requires Inv(s) && t < |s.pc| && s.pc[t] == Matched(a, ptr)
    ensures s.created[t] == [ptr] && Settled(s.arrays, t, s.created[t], s.number[t])
    ensures a != |s.arrays| - 1 ==> ThreadOk(s.arrays, t, LoadRoot(ptr), s.created[t], s.returned[t], s.number[t])
  {
    hide Inv, Pow2, Has, Absent, Holds, ArrOk;
    ThreadAt(s, t);
    SizedInv(s);
    ArrAt(s, a);
    NumberOf(s.arrays[a], s.number, t);
    var top := |s.arrays| - 1;
    if a != top {
      AbsentFewer(s.arrays, t, top, a + 1);
      assert s.arrays[a].lg < s.arrays[top].lg;
      PowGrows(s.arrays[a].lg - 1, s.arrays[top].lg - 1);
    }
  }

  lemma {:induction false} NumberOf(a: Arr, number: seq<nat>, t: nat)
    requires ArrOk(a, number) && Has(a, t) && t < |number|
    ensures a.lg >= 1 && 0 < number[t] <= Pow2(a.lg - 1)
  {
    hide Taken, Pow2;
  }

  lemma {:induction false} CreateStep(s: Table, t: nat, ptr: nat)
    requires Inv(s) && t < |s.pc| && s.pc[t] == CreateLocal
    ensures s.created[t] == [] && ThreadOk(s.arrays, t, CountUp(ptr), [ptr], s.returned[t], s.number[t])
  {
    hide Inv, Absent;
    ThreadAt(s, t);
  }

  lemma {:induction false} CountStep(s: Table, t: nat, ptr: nat)
    requires Inv(s) && t < |s.pc| && s.pc[t] == CountUp(ptr)
    ensures Absent(s.arrays, t, 0)
    ensures ThreadOk(s.arrays, t, CheckRoot(ptr, s.count + 1), s.created[t], s.returned[t], s.count + 1)
  {
    hide Inv, Absent;
    ThreadAt(s, t);
  }

  lemma {:induction false} HoldsNone(arrays: seq<Arr>, t: nat, ptr: nat)
    requires Absent(arrays, t, 0)
    ensures Holds(arrays, t, ptr, -1, -1)
  {
    forall a, i | 0 <= a < |arrays| && 0 <= i < |arrays[a].slots| ensures arrays[a].slots[i].key != t + 1 {
      assert !Has(arrays[a], t);
    }
  }

  lemma {:induction false} LoadRootOk(arrays: seq<Arr>, t: nat, ptr: nat, created: seq<nat>, returned: seq<nat>, number: nat)
    requires arrays != [] && created == [ptr] && Absent(arrays, t, 0) && arrays[|arrays| - 1].lg >= 1
    requires 0 < number <= Pow2(arrays[|arrays| - 1].lg - 1)
    requires forall r :: r in returned ==> created == [r]
    ensures ThreadOk(arrays, t, LoadRoot(ptr), created, returned, number)
  {
    hide Holds, Absent;
    HoldsNone(arrays, t, ptr);
    AbsentFewer(arrays, t, |arrays| - 1, 0);
  }

  /** The new array is large enough for all that have been counted so far. */
  lemma {:induction false} CheckStep(s: Table, t: nat, ptr: nat, c: nat)
    requires Inv(s) && t < |s.pc| && s.pc[t] == CheckRoot(ptr, c)
    ensures CanStep(s, t)
    ensures ThreadOk(s.arrays, t, Step(s, t).pc[t], s.created[t], s.returned[t], s.number[t])
  {
    hide Inv, Pow2, Absent, Holds, ArraysOk, NumbersOk;
    ThreadAt(s, t);
    SizedInv(s);
    if s.arrays != [] {
      var top := |s.arrays| - 1;
      ArrAt(s, top);
      HalfPow(s.arrays[top].lg);
      if c <= Pow2(s.arrays[top].lg) / 2 {
        LoadRootOk(s.arrays, t, ptr, s.created[t], s.returned[t], s.number[t]);
      }
    }
  }

  lemma {:induction false} SwapStep(s: Table, t: nat, ptr: nat, lg: nat, n: nat)
    requires Inv(s) && t < |s.pc| && s.pc[t] == SwapRoot(ptr, lg, n)
    ensures CanStep(s, t)
    ensures ThreadOk(Step(s, t).arrays, t, Step(s, t).pc[t], s.created[t], s.returned[t], s.number[t])
    ensures ArraysOk(Step(s, t).arrays, s.number)
    ensures forall u: nat {:trigger SameFor(s.arrays, Step(s, t).arrays, u)} :: SameFor(s.arrays, Step(s, t).arrays, u)
  {
    hide Inv, Pow2, Absent, Holds, ArraysOk, NumbersOk, SameFor, NewArray;
    ThreadAt(s, t);
    SizedInv(s);
    SameArrays(s.arrays);
    var top := |s.arrays| - 1;
    if |s.arrays| == n {
      PublishOk(s.arrays, s.number, lg);
      AbsentSame(s.arrays, s.arrays + [NewArray(lg)], t, 0);
      NewArrayLg(lg);
      LoadRootOk(s.arrays + [NewArray(lg)], t, ptr, s.created[t], s.returned[t], s.number[t]);
    } else if s.arrays[top].lg >= lg {
      PowGrows(lg - 1, s.arrays[top].lg - 1);
      LoadRootOk(s.arrays, t, ptr, s.created[t], s.returned[t], s.number[t]);
    }
  }

  lemma {:induction false} NewArrayLg(lg: nat)
    ensures NewArray(lg).lg == lg
  {
  }

  lemma {:induction false} LoadStep(s: Table, t: nat, ptr: nat)
    requires Inv(s) && t < |s.pc| && s.pc[t] == LoadRoot(ptr)
    ensures s.arrays != [] && ThreadOk(s.arrays, t, Claim(ptr, |s.arrays| - 1, 0), s.created[t], s.returned[t], s.number[t])
  {
    hide Inv, Pow2, Has, Absent, Holds, Taken;
    ThreadAt(s, t);
    var top := |s.arrays| - 1;
    ArrAt(s, top);
    ProbeStart(s.arrays[top], t);
    AbsentAt(s.arrays, t, top, top);
  }

  lemma {:induction false} ClaimMiss(s: Table, t: nat, ptr: nat, a: nat, d: nat)
    requires Inv(s) && t < |s.pc| && s.pc[t] == Claim(ptr, a, d)
    ensures a < |s.arrays| && |s.arrays[a].slots| == Pow2(s.arrays[a].lg) && d < Pow2(s.arrays[a].lg)
    ensures s.arrays[a].slots[Probe(t, s.arrays[a].lg, d)].key != 0 ==>
              ThreadOk(s.arrays, t, Claim(ptr, a, d + 1), s.created[t], s.returned[t], s.number[t])
  {
    hide Inv, Pow2, Has, Holds, Taken, ArrOk, Probe;
    ThreadAt(s, t);
    SizedInv(s);
    ArrAt(s, a);
    ProbeEnds(s.arrays[a], s.number, s.count, t, d);
    if s.arrays[a].slots[Probe(t, s.arrays[a].lg, d)].key != 0 {
      ProbeTaken(s.arrays[a], t, d);
    }
  }

  lemma {:induction false} ClaimedSame(a: Arr, i: nat, u: nat, t: nat)
    requires i < |a.slots| && a.slots[i].key == 0 && t != u
    ensures SameArr(a, Claimed(a, i, u), t)
  {
  }

  lemma {:induction false} HoldsClaimed(arrays: seq<Arr>, t: nat, ptr: nat, a: nat, i: nat)
    requires a < |arrays| && i < |arrays[a].slots| && Holds(arrays, t, ptr, -1, -1)
    ensures Holds(arrays[a := Claimed(arrays[a], i, t)], t, ptr, a, i)
  {
  }

  lemma {:induction false} ClaimHit(s: Table, t: nat, ptr: nat, a: nat, d: nat)
    requires Inv(s) && t < |s.pc| && s.pc[t] == Claim(ptr, a, d)
    requires a < |s.arrays| && |s.arrays[a].slots| == Pow2(s.arrays[a].lg) && d < Pow2(s.arrays[a].lg)
    requires s.arrays[a].slots[Probe(t, s.arrays[a].lg, d)].key == 0
    ensures var i := Probe(t, s.arrays[a].lg, d); var y := s.arrays[a := Claimed(s.arrays[a], i, t)];
            && ThreadOk(y, t, Store(ptr, a, i), s.created[t], s.returned[t], s.number[t])
            && ArraysOk(y, s.number)
            && forall u: nat {:trigger SameFor(s.arrays, y, u)} :: u != t ==> SameFor(s.arrays, y, u)
  {
    hide Inv, Pow2, Has, Holds, Taken, ArrOk, Probe, ArraysOk, NumbersOk, SameFor, SameArr;
    ThreadAt(s, t);
    SizedInv(s);
    ArrAt(s, a);
    var i := Probe(t, s.arrays[a].lg, d);
    var b := Claimed(s.arrays[a], i, t);
    ClaimArrOk(s.arrays[a], s.number, t, d);
    WriteOk(s.arrays, s.number, a, b);
    HoldsClaimed(s.arrays, t, ptr, a, i);
    var y := s.arrays[a := b];
    forall u: nat | u != t ensures SameFor(s.arrays, y, u) {
      ClaimedSame(s.arrays[a], i, t, u);
      WriteSame(s.arrays, a, b, u);
    }
  }

  /** Thread `t` has stored its pointer in its slot `i`. */
  function Stored(a: Arr, i: nat, ptr: nat): Arr
    requires i < |a.slots|
  {
    a.(slots := a.slots[i := a.slots[i].(ptr := ptr)])
  }

  lemma {:induction false} StoredSame(a: Arr, i: nat, ptr: nat, t: nat)
    requires i < |a.slots| && a.slots[i].key != t + 1
    ensures SameArr(a, Stored(a, i, ptr), t)
  {
  }

  lemma {:induction false} StoredTaken(a: Arr, i: nat, ptr: nat, t: nat, d: nat)
    requires i < |a.slots| && Taken(a, t, d)
    ensures Taken(Stored(a, i, ptr), t, d)
  {
    hide Probe;
    forall e: nat | e < d ensures Stored(a, i, ptr).slots[Probe(t, a.lg, e)].key != 0 {
      assert a.slots[Probe(t, a.lg, e)].key != 0;
    }
  }

  lemma {:induction false} StoredOk(a: Arr, i: nat, ptr: nat, number: seq<nat>)
    requires i < |a.slots| && ArrOk(a, number)
    ensures ArrOk(Stored(a, i, ptr), number)
  {
    hide Taken, Pow2;
    var b := Stored(a, i, ptr);
    forall j | 0 <= j < |b.slots| ensures b.slots[j].key == a.slots[j].key {
    }
    forall t: nat, d: nat | d < Pow2(b.lg) && b.slots[Probe(t, b.lg, d)].key == t + 1 ensures Taken(b, t, d) {
      assert a.slots[Probe(t, a.lg, d)].key == t + 1;
      StoredTaken(a, i, ptr, t, d);
    }
  }

  lemma {:induction false} HoldsStored(arrays: seq<Arr>, t: nat, ptr: nat, a: nat, i: nat)
    requires a < |arrays| && i < |arrays[a].slots| && arrays[a].slots[i].key == t + 1 && Holds(arrays, t, ptr, a, i)
    ensures Holds(arrays[a := Stored(arrays[a], i, ptr)], t, ptr, -1, -1)
    ensures !Absent(arrays[a := Stored(arrays[a], i, ptr)], t, 0)
  {
    var y := arrays[a := Stored(arrays[a], i, ptr)];
    HasSlot(y[a], i, t);
    forall b, j | 0 <= b < |y| && 0 <= j < |y[b].slots| && y[b].slots[j].key == t + 1 ensures y[b].slots[j].ptr == ptr {
      assert arrays[b].slots[j].key == t + 1;
    }
  }

  lemma {:induction false} StoreStep(s: Table, t: nat, ptr: nat, a: nat, i: nat)
    requires Inv(s) && t < |s.pc| && s.pc[t] == Store(ptr, a, i)
    ensures s.created[t] == [ptr] && a < |s.arrays| && i < |s.arrays[a].slots|
    ensures var y := s.arrays[a := Stored(s.arrays[a], i, ptr)];
            && Settled(y, t, s.created[t], s.number[t])
            && ArraysOk(y, s.number)
            && forall u: nat {:trigger SameFor(s.arrays, y, u)} :: u != t ==> SameFor(s.arrays, y, u)
  {
    hide Inv, Pow2, Has, Holds, Absent, ArrOk, ArraysOk, NumbersOk, SameFor, SameArr;
    ThreadAt(s, t);
    SizedInv(s);
    ArrAt(s, a);
    StoredOk(s.arrays[a], i, ptr, s.number);
    WriteOk(s.arrays, s.number, a, Stored(s.arrays[a], i, ptr));
    HoldsStored(s.arrays, t, ptr, a, i);
    var y := s.arrays[a := Stored(s.arrays[a], i, ptr)];
    forall u: nat | u != t ensures SameFor(s.arrays, y, u) {
      StoredSame(s.arrays[a], i, ptr, u);
      WriteSame(s.arrays, a, Stored(s.arrays[a], i, ptr), u);
    }
  }

  // Returning from a lookup.

  lemma {:induction false} Returned(arrays: seq<Arr>, t: nat, ptr: nat, pc: Pc, created: seq<nat>, returned: seq<nat>, number: nat, old_: seq<Arr>)
    requires ThreadOk(old_, t, pc, created, returned, number) && created == [ptr] && Settled(arrays, t, created, number)
    ensures ThreadOk(arrays, t, Idle, created, returned + [ptr], number)
  {
    hide Settled, Absent, Holds, Has, Taken, Missed;
  }

  /** A step that changes nothing but where its thread is, or the histories of its thread. */
  lemma {:induction false} Local(s: Table, y: Table, t: nat)
    requires Inv(s) && t < |s.pc| && Sized(y) && |y.pc| == |s.pc|
    requires y.arrays == s.arrays && y.count == s.count && y.number == s.number
    requires y.pc == s.pc[t := y.pc[t]] && y.created == s.created[t := y.created[t]] && y.returned == s.returned[t := y.returned[t]]
    requires ThreadOk(y.arrays, t, y.pc[t], y.created[t], y.returned[t], y.number[t])
    ensures Keeps(s, y, t)
  {
    hide ThreadOk, ArraysOk, NumbersOk, SameFor;
    SameArrays(s.arrays);
  }

  /** A step that changes the arrays, and where its thread is. */
  lemma {:induction false} Changing(s: Table, y: Table, t: nat)
    requires Inv(s) && t < |s.pc| && Sized(y) && |y.pc| == |s.pc|
    requires y.count == s.count && y.number == s.number && y.created == s.created
    requires y.pc == s.pc[t := y.pc[t]] && y.returned == s.returned[t := y.returned[t]]
    requires ArraysOk(y.arrays, y.number) && ThreadOk(y.arrays, t, y.pc[t], y.created[t], y.returned[t], y.number[t])
    requires forall u: nat {:trigger SameFor(s.arrays, y.arrays, u)} :: u != t ==> SameFor(s.arrays, y.arrays, u)
    ensures Keeps(s, y, t)
  {
    hide ThreadOk, ArraysOk, NumbersOk, SameFor;
  }

  lemma {:induction false} Counting(s: Table, y: Table, t: nat)
    requires Inv(s) && t < |s.pc| && Sized(y) && |y.pc| == |s.pc|
    requires y.arrays == s.arrays && y.created == s.created && y.returned == s.returned
    requires y.pc == s.pc[t := y.pc[t]] && y.number == s.number[t := y.number[t]]
    requires ArraysOk(y.arrays, y.number) && NumbersOk(y.number, y.count)
    requires ThreadOk(y.arrays, t, y.pc[t], y.created[t], y.returned[t], y.number[t])
    ensures Keeps(s, y, t)
  {
    hide ThreadOk, ArraysOk, NumbersOk, SameFor;
    SameArrays(s.arrays);
  }

  lemma {:induction false} StepKeeps(s: Table, t: nat)
    requires Inv(s) && t < |s.pc|
    ensures CanStep(s, t) && Keeps(s, Step(s, t), t)
  {
    hide Inv, ThreadOk, Settled, ArraysOk, NumbersOk, SameFor, Pow2, Has, Probe, NewArray, Keeps;
    SizedInv(s);
    ThreadAt(s, t);
    match s.pc[t]
    case Idle =>
      IdleStep(s, t);
      Local(s, Step(s, t), t);
    case Scan(a, d) =>
      ScanStep(s, t, a, d);
      Local(s, Step(s, t), t);
    case Matched(a, ptr) =>
      MatchedStep(s, t, a, ptr);
      if a == |s.arrays| - 1 {
        Returned(s.arrays, t, ptr, s.pc[t], s.created[t], s.returned[t], s.number[t], s.arrays);
      }
      Local(s, Step(s, t), t);
    case CreateLocal =>
      CreateStep(s, t, s.nextPtr);
      assert s.created[t] + [s.nextPtr] == [s.nextPtr];
      Local(s, Step(s, t), t);
    case CountUp(ptr) =>
      CountStep(s, t, ptr);
      CountOk(s.arrays, s.number, s.count, t);
      Counting(s, Step(s, t), t);
    case CheckRoot(ptr, c) =>
      CheckStep(s, t, ptr, c);
      Local(s, Step(s, t), t);
    case SwapRoot(ptr, lg, n) =>
      SwapStep(s, t, ptr, lg, n);
      Changing(s, Step(s, t), t);
    case LoadRoot(ptr) =>
      LoadStep(s, t, ptr);
      Local(s, Step(s, t), t);
    case Claim(ptr, a, d) =>
      ClaimMiss(s, t, ptr, a, d);
      if s.arrays[a].slots[Probe(t, s.arrays[a].lg, d)].key == 0 {
        ClaimHit(s, t, ptr, a, d);
        Changing(s, Step(s, t), t);
      } else {
        Local(s, Step(s, t), t);
      }
    case Store(ptr, a, i) =>
      StoreStep(s, t, ptr, a, i);
      Returned(Step(s, t).arrays, t, ptr, s.pc[t], s.created[t], s.returned[t], s.number[t], s.arrays);
      Changing(s, Step(s, t), t);
  }

  /** Every thread can always take its step, and no step breaks the table. */
  lemma {:induction false} StepInv(s: Table, t: nat)
    requires Inv(s) && t < |s.pc|
    ensures CanStep(s, t) && Inv(Step(s, t)) && |Step(s, t).pc| == |s.pc|
  {
    hide Inv, Step;
    StepKeeps(s, t);
    KeepsInv(s, Step(s, t), t);
    KeepsSize(s, Step(s, t), t);
  }

  lemma {:induction false} KeepsSize(s: Table, y: Table, t: nat)
    requires Sized(s) && t < |s.pc| && Keeps(s, y, t)
    ensures |y.pc| == |s.pc|
  {
    hide ThreadOk, ArraysOk, NumbersOk, SameFor;
  }

  // ---- runs ----

  /** The table after the threads of `run` have taken one step each, in this order. */
  ghost function Run(threads: nat, run: seq<nat>): (s: Table)
    requires forall k :: 0 <= k < |run| ==> run[k] < threads
    ensures Inv(s) && |s.pc| == threads
  {
    hide Inv, Step;
    if run == [] then
      InitialInv(threads);
      Initial(threads)
    else
      var t := run[|run| - 1];
      var s := Run(threads, run[..|run| - 1]);
      StepInv(s, t);
      Step(s, t)
  }

  /** In every run, the root is the largest array, every array is at most half full, and every probe
      is at a slot that it has not seen before. */
  lemma {:induction false} LoopsEnd(threads: nat, run: seq<nat>, t: nat)
    requires (forall k :: 0 <= k < |run| ==> run[k] < threads) && t < threads
    ensures var s := Run(threads, run);
            && CanStep(s, t)
            && (forall a {:trigger s.arrays[a]} :: 0 <= a < |s.arrays| ==> |Occupied(s.arrays[a])| <= |s.arrays[a].slots| / 2)
            && (forall a, b {:trigger s.arrays[a].lg, s.arrays[b].lg} :: 0 <= a < b < |s.arrays| ==> s.arrays[a].lg < s.arrays[b].lg)
            && match s.pc[t]
               case Scan(a, d) => d < |s.arrays[a].slots|
               case Claim(_, a, d) => d < |s.arrays[a].slots|
               case _ => true
  {
    hide Inv, ArrOk, Occupied, Step, ThreadOk, NumbersOk, Run;
    var s := Run(threads, run);
    StepInv(s, t);
    SizedInv(s);
    forall a | 0 <= a < |s.arrays| ensures |Occupied(s.arrays[a])| <= |s.arrays[a].slots| / 2 {
      ArrAt(s, a);
      HalfFull(s.arrays[a], s.number, s.count);
    }
    match s.pc[t]
    case Scan(a, d) => ScanStep(s, t, a, d);
    case Claim(ptr, a, d) => ClaimMiss(s, t, ptr, a, d);
    case _ =>
  }

  /** In every run, a thread creates its object at most once, and all its lookups return that object. */
  lemma {:induction false} OneLocal(threads: nat, run: seq<nat>, t: nat)
    requires (forall k :: 0 <= k < |run| ==> run[k] < threads) && t < threads
    ensures var s := Run(threads, run);
            |s.created[t]| <= 1 && forall r :: r in s.returned[t] ==> s.created[t] == [r]
  {
    hide Inv, Run, Absent, Holds, Has, Taken, Missed;
    var s := Run(threads, run);
    ThreadAt(s, t);
  }

  /** A lookup returns when its thread gets idle, and then adds the local object of the thread to the
      pointers returned; no other step adds any. */
  lemma {:induction false} LookupReturns(s: Table, t: nat, u: nat)
    requires Inv(s) && t < |s.pc| && u < |s.pc|
    ensures CanStep(s, t) && Sized(s) && Sized(Step(s, t)) && |Step(s, t).pc| == |s.pc|
    ensures var y := Step(s, t);
            && (y.pc[t] == Idle ==> s.pc[t] != Idle && |s.created[t]| == 1)
            && y.returned[u] == s.returned[u] + if u == t && y.pc[t] == Idle then [s.created[t][0]] else []
  {
    hide Inv, Step, CanStep, Keeps;
    SizedInv(s);
    StepKeeps(s, t);
    KeepsSize(s, Step(s, t), t);
    assert s.returned[u] + [] == s.returned[u];
    ReturnsOwn(s, t);
    if u != t {
      KeepsOther(s, Step(s, t), t, u);
    }
  }

  lemma {:induction false} KeepsOther(s: Table, y: Table, t: nat, u: nat)
    requires Sized(s) && t < |s.pc| && u < |s.pc| && Keeps(s, y, t) && u != t
    ensures |y.pc| == |y.returned| == |s.pc| && y.returned[u] == s.returned[u] && y.pc[u] == s.pc[u]
  {
    hide ThreadOk, ArraysOk, NumbersOk, SameFor;
    assert y.pc[u] == s.pc[u];
  }

  lemma {:induction false} ReturnsOwn(s: Table, t: nat)
    requires Inv(s) && CanStep(s, t)
    ensures var y := Step(s, t);
            && Sized(y) && |y.pc| == |s.pc|
            && (y.pc[t] == Idle ==> s.pc[t] != Idle && |s.created[t]| == 1)
            && y.returned[t] == s.returned[t] + if y.pc[t] == Idle then [s.created[t][0]] else []
  {
    hide Inv, Pow2, Probe, NewArray, GrowTo, Holds, Absent, Has, Taken, Missed, Settled;
    ThreadAt(s, t);
    assert s.returned[t] + [] == s.returned[t];
  }

  // ---- every lookup ends ----

  /** How far a lookup is from its end: which loop it is in, the arrays left to be searched or outgrown,
      and the slots left to be probed. */
  datatype Distance = Distance(phase: nat, arrays: nat, slots: nat)

  predicate Closer(a: Distance, b: Distance) {
    || a.phase < b.phase
    || (a.phase == b.phase && (a.arrays < b.arrays || (a.arrays == b.arrays && a.slots < b.slots)))
  }

  function Left(arrays: seq<Arr>, a: nat, d: nat): nat {
    if a < |arrays| && d < Pow2(arrays[a].lg) then Pow2(arrays[a].lg) - d else 0
  }

  /** How much larger than array number `n` the new array is, as a power of two. */
  function Ahead(arrays: seq<Arr>, lg: nat, n: nat): nat {
    if 0 < n <= |arrays| && arrays[n - 1].lg < lg then lg - arrays[n - 1].lg else lg
  }

  function Remaining(arrays: seq<Arr>, pc: Pc): Distance {
    match pc
    case Idle => Distance(0, 0, 0)
    case Store(_, _, _) => Distance(1, 0, 0)
    case Claim(_, a, d) => Distance(2, 0, Left(arrays, a, d))
    case LoadRoot(_) => Distance(3, 0, 0)
    case SwapRoot(_, lg, n) => Distance(4, Ahead(arrays, lg, n), 0)
    case CheckRoot(_, _) => Distance(5, 0, 0)
    case CountUp(_) => Distance(6, 0, 0)
    case CreateLocal => Distance(7, 0, 0)
    case Matched(_, _) => Distance(8, 0, 0)
    case Scan(a, d) => Distance(9, a, Left(arrays, a, d))
  }

  /** Every step of a lookup brings it closer to its end. */
  lemma {:induction false} LookupEnds(s: Table, t: nat)
    requires Inv(s) && t < |s.pc| && s.pc[t] != Idle
    ensures CanStep(s, t) && t < |Step(s, t).pc|
    ensures Closer(Remaining(Step(s, t).arrays, Step(s, t).pc[t]), Remaining(s.arrays, s.pc[t]))
  {
    hide Inv, Step, CanStep, Closer, Remaining;
    SizedInv(s);
    StepInv(s, t);
    match s.pc[t]
    case Scan(a, d) => ScanEnds(s, t, a, d);
    case Claim(ptr, a, d) => ClaimEnds(s, t, ptr, a, d);
    case SwapRoot(ptr, lg, n) => SwapEnds(s, t, ptr, lg, n);
    case _ => PlainEnds(s, t);
  }

  lemma {:induction false} ScanEnds(s: Table, t: nat, a: nat, d: nat)
    requires Inv(s) && t < |s.pc| && s.pc[t] == Scan(a, d)
    ensures CanStep(s, t) && t < |Step(s, t).pc|
    ensures Closer(Remaining(Step(s, t).arrays, Step(s, t).pc[t]), Remaining(s.arrays, s.pc[t]))
  {
    hide Inv, Pow2, Probe, ThreadOk;
    ScanStep(s, t, a, d);
  }

  lemma {:induction false} ClaimEnds(s: Table, t: nat, ptr: nat, a: nat, d: nat)
    requires Inv(s) && t < |s.pc| && s.pc[t] == Claim(ptr, a, d)
    ensures CanStep(s, t) && t < |Step(s, t).pc|
    ensures Closer(Remaining(Step(s, t).arrays, Step(s, t).pc[t]), Remaining(s.arrays, s.pc[t]))
  {
    hide Inv, Pow2, Probe, ThreadOk;
    SizedInv(s);
    ClaimMiss(s, t, ptr, a, d);
  }

  lemma {:induction false} SwapEnds(s: Table, t: nat, ptr: nat, lg: nat, n: nat)
    requires Inv(s) && t < |s.pc| && s.pc[t] == SwapRoot(ptr, lg, n)
    ensures CanStep(s, t) && t < |Step(s, t).pc|
    ensures Closer(Remaining(Step(s, t).arrays, Step(s, t).pc[t]), Remaining(s.arrays, s.pc[t]))
  {
    hide Inv, Pow2, Holds, Absent, NewArray, ArrOk, SameFor;
    SizedInv(s);
    ThreadAt(s, t);
    SwapStep(s, t, ptr, lg, n);
    var top := |s.arrays| - 1;
    if n <= top {
      ArrAt(s, top);
      assert n > 0 ==> s.arrays[n - 1].lg < s.arrays[top].lg;
    }
  }

  lemma {:induction false} PlainEnds(s: Table, t: nat)
    requires CanStep(s, t) && !s.pc[t].Idle? && !s.pc[t].Scan? && !s.pc[t].Claim? && !s.pc[t].SwapRoot?
    ensures t < |Step(s, t).pc|
    ensures Closer(Remaining(Step(s, t).arrays, Step(s, t).pc[t]), Remaining(s.arrays, s.pc[t]))
  {
    hide Pow2, Probe, NewArray, GrowTo, Left, Ahead;
  }

  /** The steps of other threads never set it back. */
  lemma {:induction false} LookupUndisturbed(s: Table, t: nat, u: nat)
    requires Inv(s) && t < |s.pc| && u < |s.pc| && u != t
    ensures CanStep(s, u) && |Step(s, u).pc| == |s.pc| && Step(s, u).pc[t] == s.pc[t]
    ensures Remaining(Step(s, u).arrays, s.pc[t]) == Remaining(s.arrays, s.pc[t])
  {
    hide Inv, Step, CanStep, Keeps, Remaining;
    SizedInv(s);
    StepKeeps(s, u);
    KeepsSize(s, Step(s, u), u);
    KeepsOther(s, Step(s, u), u, t);
    SizesStay(s, u);
    RemainingSame(s, t, Step(s, u).arrays);
  }

  predicate Grown(x: seq<Arr>, y: seq<Arr>) {
    |x| <= |y| && forall a {:trigger y[a].lg} :: 0 <= a < |x| ==> y[a].lg == x[a].lg
  }

  lemma {:induction false} SizesStay(s: Table, u: nat)
    requires CanStep(s, u)
    ensures Grown(s.arrays, Step(s, u).arrays)
  {
    hide Pow2, Probe, NewArray, GrowTo;
  }

  lemma {:induction false} RemainingSame(s: Table, t: nat, y: seq<Arr>)
    requires Inv(s) && t < |s.pc| && Grown(s.arrays, y)
    ensures Remaining(y, s.pc[t]) == Remaining(s.arrays, s.pc[t])
  {
    hide Inv, Pow2, Holds, Absent, Has, Taken, Missed, Settled;
    SizedInv(s);
    ThreadAt(s, t);
  }

  // ---- a whole lookup ----

  /** At least `n` arrays existed when the lookup began: it will not store into any but the newest of them,
      or a newer one. */
  ghost predicate Recent(s: Table, t: nat, n: nat) {
    && t < |s.pc| && n <= |s.arrays|
    && match s.pc[t]
       case Claim(_, a, _) => n <= a + 1
       case Store(_, a, _) => n <= a + 1
       case _ => true
  }

  lemma {:induction false} RecentKept(s: Table, u: nat, t: nat, n: nat)
    requires Inv(s) && u < |s.pc| && Recent(s, t, n)
    ensures CanStep(s, u) && Recent(Step(s, u), t, n)
  {
    hide Inv, Pow2, Probe, NewArray, GrowTo;
    StepInv(s, u);
    if u != t {
      SizedInv(s);
      StepKeeps(s, u);
      KeepsOther(s, Step(s, u), u, t);
      SizesStay(s, u);
    }
  }

  /** Thread `t` has a slot in an array that is at least as new as the `n`-th. */
  ghost predicate Lands(s: Table, t: nat, n: nat) {
    exists a: nat :: n <= a + 1 && a < |s.arrays| && Has(s.arrays[a], t)
  }

  lemma {:induction false} RecentEnds(s: Table, t: nat, n: nat)
    requires Inv(s) && Recent(s, t, n) && s.pc[t] != Idle
    ensures CanStep(s, t) && t < |Step(s, t).pc| && (Step(s, t).pc[t] == Idle ==> Lands(Step(s, t), t, n))
  {
    hide Inv, Pow2, Probe, NewArray, GrowTo, Holds, Absent, Taken, Missed, Settled;
    StepInv(s, t);
    SizedInv(s);
    ThreadAt(s, t);
    var y := Step(s, t);
    if y.pc[t] == Idle {
      match s.pc[t]
      case Matched(a, _) =>
        assert Has(y.arrays[a], t);
      case Store(ptr, a, i) =>
        assert y.arrays[a].slots[i].key == t + 1;
        assert Has(y.arrays[a], t);
      case _ =>
    }
  }

  lemma {:induction false} RunStep(threads: nat, run: seq<nat>, k: nat)
    requires (forall m :: 0 <= m < |run| ==> run[m] < threads) && k < |run|
    ensures var s := Run(threads, run[..k]); CanStep(s, run[k]) && Run(threads, run[..k + 1]) == Step(s, run[k])
  {
    hide Inv, Step;
    StepInv(Run(threads, run[..k]), run[k]);
    assert run[..k + 1][..k] == run[..k];
  }

  /** The table after the first `k` steps of a run. */
  ghost function StateAt(threads: nat, run: seq<nat>, k: nat): (s: Table)
    requires (forall m :: 0 <= m < |run| ==> run[m] < threads) && k <= |run|
    ensures Inv(s) && |s.pc| == threads
  {
    Run(threads, run[..k])
  }

  /** Thread `t` is inside of a lookup at all times from `i + 1` on, up to `j`. */
  ghost predicate Looking(threads: nat, run: seq<nat>, i: nat, j: nat, t: nat)
    requires (forall m :: 0 <= m < |run| ==> run[m] < threads) && i < j <= |run| && t < threads
  {
    && run[i] == t && StateAt(threads, run, i).pc[t] == Idle
    && forall k {:trigger StateAt(threads, run, k)} :: i < k <= j ==> StateAt(threads, run, k).pc[t] != Idle
  }

  lemma {:induction false} WhileLooking(threads: nat, run: seq<nat>, i: nat, j: nat, t: nat)
    requires (forall m :: 0 <= m < |run| ==> run[m] < threads) && i < j <= |run| && t < threads && Looking(threads, run, i, j, t)
    ensures var a, s := StateAt(threads, run, i), StateAt(threads, run, j);
            && Recent(s, t, |a.arrays|) && Sized(a) && Sized(s) && s.returned[t] == a.returned[t]
    decreases j
  {
    hide Inv, Step, Run, Recent;
    var k := j - 1;
    RunStep(threads, run, k);
    var a, s := StateAt(threads, run, i), StateAt(threads, run, k);
    LookupReturns(s, run[k], t);
    SizedInv(a);
    SizedInv(StateAt(threads, run, j));
    assert s.returned[t] + [] == s.returned[t];
    if k == i {
      RecentNow(a, t);
    } else {
      assert StateAt(threads, run, k).pc[t] != Idle;
      WhileLooking(threads, run, i, k, t);
    }
    RecentKept(s, run[k], t, |a.arrays|);
    assert StateAt(threads, run, j).pc[t] != Idle;
  }

  lemma {:induction false} RecentNow(s: Table, t: nat)
    requires t < |s.pc| && s.pc[t] == Idle
    ensures Recent(s, t, |s.arrays|)
  {
  }

  /** Every lookup returns one pointer, the object of its thread, and leaves it in an array that is at least
      as new as the root was when the lookup began, whatever the other threads do. */
  lemma {:induction false} WholeLookup(threads: nat, run: seq<nat>, i: nat, j: nat, t: nat)
    requires (forall m :: 0 <= m < |run| ==> run[m] < threads) && i < j < |run| && t < threads && Looking(threads, run, i, j, t)
    requires StateAt(threads, run, j + 1).pc[t] == Idle
    ensures var a, s := StateAt(threads, run, i), StateAt(threads, run, j + 1);
            && Sized(a) && Sized(s) && |s.created[t]| == 1 && s.returned[t] == a.returned[t] + [s.created[t][0]]
            && Lands(s, t, |a.arrays|)
  {
    hide Inv, Step, Run, Recent, Lands, Has;
    RunStep(threads, run, j);
    var a, b, s := StateAt(threads, run, i), StateAt(threads, run, j), StateAt(threads, run, j + 1);
    WhileLooking(threads, run, i, j, t);
    assert StateAt(threads, run, j).pc[t] != Idle;
    SizedInv(s);
    if run[j] == t {
      LookupReturns(b, t, t);
      RecentEnds(b, t, |a.arrays|);
      ReturnsCreated(b, t);
    } else {
      LookupUndisturbed(b, t, run[j]);
    }
  }

  lemma {:induction false} ReturnsCreated(s: Table, t: nat)
    requires Inv(s) && t < |s.pc| && s.pc[t] != Idle
    ensures CanStep(s, t) && Sized(s) && Sized(Step(s, t)) && t < |Step(s, t).pc|
    ensures Step(s, t).pc[t] == Idle ==> Step(s, t).created[t] == s.created[t]
  {
    hide Inv, Pow2, Probe, NewArray, GrowTo;
    StepInv(s, t);
    SizedInv(s);
  }

  // ---- no array is larger than needed ----

  /** An array of the smallest size, or one that half as many slots would not do for. */
  predicate Tight(lg: nat, count: nat) {
    lg == 2 || (lg > 2 && Pow2(lg - 2) < count)
  }

  predicate PcTight(p: Pc, count: nat) {
    match p
    case CheckRoot(_, c) => c <= count
    case SwapRoot(_, lg, _) => Tight(lg, count)
    case _ => true
  }

  ghost predicate AllTight(s: Table) {
    && (forall a {:trigger s.arrays[a].lg} :: 0 <= a < |s.arrays| ==> Tight(s.arrays[a].lg, s.count))
    && forall t {:trigger s.pc[t]} :: 0 <= t < |s.pc| ==> PcTight(s.pc[t], s.count)
  }

  lemma {:induction false} OwnTight(s: Table, t: nat)
    requires Inv(s) && CanStep(s, t) && AllTight(s)
    ensures |Step(s, t).pc| == |s.pc| && PcTight(Step(s, t).pc[t], Step(s, t).count)
  {
    hide Inv, Probe, Pow2, NewArray;
    assert PcTight(s.pc[t], s.count);
    if s.pc[t].CheckRoot? && s.arrays != [] {
      var lg := s.arrays[|s.arrays| - 1].lg;
      ArrAt(s, |s.arrays| - 1);
      HalfPow(lg);
    }
  }

  /** The count never gets smaller, and an array that is published has the size that its thread has found. */
  lemma {:induction false} NewTight(s: Table, t: nat)
    requires Inv(s) && CanStep(s, t)
    ensures var y := Step(s, t);
            && s.count <= y.count && |s.arrays| <= |y.arrays| <= |s.arrays| + 1
            && (|y.arrays| > |s.arrays| ==> s.pc[t].SwapRoot? && y.arrays[|s.arrays|].lg == s.pc[t].s)
  {
    hide Inv, Probe, Pow2, NewArray, GrowTo;
    if s.pc[t].SwapRoot? {
      NewArrayLg(s.pc[t].s);
    }
  }

  lemma {:induction false} StepTight(s: Table, t: nat)
    requires Inv(s) && CanStep(s, t) && AllTight(s)
    ensures AllTight(Step(s, t))
  {
    hide Inv, Step, CanStep, Pow2, Keeps;
    var y := Step(s, t);
    InStep(s, t);
    OwnTight(s, t);
    NewTight(s, t);
    SizesStay(s, t);
    StepKeeps(s, t);
    assert PcTight(s.pc[t], s.count);
    forall u | 0 <= u < |y.pc| ensures PcTight(y.pc[u], y.count) {
      if u != t {
        KeepsOther(s, y, t, u);
        assert PcTight(s.pc[u], s.count);
      }
    }
    forall a | 0 <= a < |y.arrays| ensures Tight(y.arrays[a].lg, y.count) {
      if a < |s.arrays| {
        assert Tight(s.arrays[a].lg, s.count);
      }
    }
  }

  lemma {:induction false} InStep(s: Table, t: nat)
    requires CanStep(s, t)
    ensures Sized(s) && t < |s.pc|
  {
  }

  /** In every run, an array has four slots, or fewer than four times as many as threads were counted. */
  lemma {:induction false} NoWaste(threads: nat, run: seq<nat>)
    requires forall k :: 0 <= k < |run| ==> run[k] < threads
    ensures AllTight(Run(threads, run))
    ensures var s := Run(threads, run);
            forall a {:trigger s.arrays[a]} :: 0 <= a < |s.arrays| ==> |s.arrays[a].slots| == 4 || |s.arrays[a].slots| < 4 * s.count
    decreases |run|
  {
    hide Inv, Step, Pow2, AllTight;
    if run != [] {
      var s := Run(threads, run[..|run| - 1]);
      NoWaste(threads, run[..|run| - 1]);
      StepInv(s, run[|run| - 1]);
      StepTight(s, run[|run| - 1]);
    } else {
      NoneTight(threads);
    }
    var s := Run(threads, run);
    forall a | 0 <= a < |s.arrays| ensures |s.arrays[a].slots| == 4 || |s.arrays[a].slots| < 4 * s.count {
      ArrAt(s, a);
      TightSize(s, a);
    }
  }

  lemma {:induction false} NoneTight(threads: nat)
    ensures AllTight(Initial(threads))
  {
  }

  lemma {:induction false} TightSize(s: Table, a: nat)
    requires AllTight(s) && a < |s.arrays|
    ensures Pow2(s.arrays[a].lg) == 4 || Pow2(s.arrays[a].lg) < 4 * s.count
  {
    var lg := s.arrays[a].lg;
    assert Tight(lg, s.count);
    if lg > 2 {
      assert Pow2(lg) == 2 * Pow2(lg - 1) == 4 * Pow2(lg - 2);
    } else {
      assert Pow2(2) == 2 * Pow2(1) == 4 * Pow2(0);
    }
  }

  /** Locals come from distinct creations. */
  ghost predicate Fresh(s: Table) {
    && Sized(s)
    && (forall t, p {:trigger p in s.created[t]} :: 0 <= t < |s.created| && p in s.created[t] ==> p < s.nextPtr)
    && (forall t, u, p {:trigger p in s.created[t], s.created[u]} ::
         0 <= t < |s.created| && 0 <= u < |s.created| && u != t && p in s.created[t] ==> p !in s.created[u])
  }

  lemma {:induction false} StepFresh(s: Table, t: nat)
    requires CanStep(s, t) && Fresh(s)
    ensures Fresh(Step(s, t))
  {
    hide Pow2, Probe, NewArray, GrowTo;
    var y := Step(s, t);
    if s.pc[t] != CreateLocal {
      assert y.created == s.created && y.nextPtr == s.nextPtr;
    } else {
      assert forall u {:trigger y.created[u]} :: 0 <= u < |s.created| && u != t ==> y.created[u] == s.created[u];
      assert forall p {:trigger p in y.created[t]} :: p in y.created[t] <==> p in s.created[t] || p == s.nextPtr;
    }
  }

  lemma {:induction false} RunFresh(threads: nat, run: seq<nat>)
    requires forall k :: 0 <= k < |run| ==> run[k] < threads
    ensures Fresh(Run(threads, run))
    decreases |run|
  {
    hide Inv, Step;
    if run != [] {
      var t := run[|run| - 1];
      RunFresh(threads, run[..|run| - 1]);
      var s := Run(threads, run[..|run| - 1]);
      StepInv(s, t);
      StepFresh(s, t);
    }
  }

  /** In every run, lookups of different threads return different objects. */
  lemma {:induction false} OwnLocal(threads: nat, run: seq<nat>, t: nat, u: nat)
    requires (forall k :: 0 <= k < |run| ==> run[k] < threads) && t < threads && u < threads && t != u
    ensures var s := Run(threads, run);
            forall p, q {:trigger p in s.returned[t], q in s.returned[u]} :: p in s.returned[t] && q in s.returned[u] ==> p != q
  {
    hide Inv, Run;
    OneLocal(threads, run, t);
    OneLocal(threads, run, u);
    RunFresh(threads, run);
    var s := Run(threads, run);
    forall p, q | p in s.returned[t] && q in s.returned[u] ensures p != q {
      assert p in s.created[t] && q in s.created[u];
    }
  }
}
