/** The concurrent hash map as a protocol: any number of threads look up, insert and erase, with bucket
    locks, while the table grows and buckets are rehashed between any two of their steps. */
module HashProtocol {
  import opened HashBits
  import opened HashTable
  import opened ConcurrentHashMap

  datatype Op<K, V> = Find(key: K) | Insert(key: K, value: V) | Remove(key: K)

  /** Where a thread is in lookup or erase, with its copy `m` of the mask. In Search, Missed and Upgrade it
      holds bucket `i`, for writing if `w`; in Write, Recheck and Place it holds it for writing. In Fill it has marked the
      buckets of `stack` as rehashed, each one the parent of the one before, and has to fill the last one. */
  datatype Pc<K, V> =
    | Idle
    | Ask(op: Op<K, V>)
    | Acquire(op: Op<K, V>, m: nat)
    | Fill(op: Op<K, V>, m: nat, stack: seq<nat>)
    | Search(op: Op<K, V>, m: nat, i: nat, w: bool)
    | Missed(op: Op<K, V>, m: nat, i: nat, w: bool)
    | Upgrade(op: Op<K, V>, m: nat, i: nat, w: bool)
    | Again(op: Op<K, V>, m: nat, i: nat)
    | Write(op: Op<K, V>, m: nat, i: nat)
    | Recheck(op: Op<K, V>, m: nat, i: nat)
    | Place(op: Op<K, V>, m: nat, i: nat)
    | Grow(op: Op<K, V>, m: nat)
    | Done(op: Op<K, V>, result: Entry<V>)

  /** `contents` is the map that the table stands for; `growing` tells that the next segment is being
      allocated. */
  datatype State<K, V> = State(table: Table<K, V>, level: nat, size: nat, growing: bool, contents: map<K, V>, pc: seq<Pc<K, V>>)

  predicate Holding<K, V>(p: Pc<K, V>) {
    p.Search? || p.Missed? || p.Upgrade? || Writing(p)
  }

  predicate Writing<K, V>(p: Pc<K, V>) {
    p.Write? || p.Recheck? || p.Place? || ((p.Search? || p.Missed? || p.Upgrade?) && p.w)
  }

  /** The buckets that are marked as rehashed and have not been filled yet. */
  ghost function Open<K, V>(pc: seq<Pc<K, V>>): set<nat> {
    set u, o | 0 <= u < |pc| && pc[u].Fill? && o in pc[u].stack :: o
  }

  /** No other thread holds bucket `i` in any way. */
  ghost predicate Free<K, V>(pc: seq<Pc<K, V>>, t: nat, i: nat) {
    i !in Open(pc) && forall u {:trigger pc[u]} :: 0 <= u < |pc| && u != t && Holding(pc[u]) ==> pc[u].i != i
  }

  /** No other thread holds bucket `i` for writing. */
  ghost predicate Readable<K, V>(pc: seq<Pc<K, V>>, t: nat, i: nat) {
    i !in Open(pc) && forall u {:trigger pc[u]} :: 0 <= u < |pc| && u != t && Writing(pc[u]) ==> pc[u].i != i
  }

  /** The position of the key, or the length of the list. */
  function Position<K(==), V>(l: seq<(K, V)>, key: K): (n: nat)
    ensures n <= |l| && (n < |l| ==> l[n].0 == key)
    ensures n == |l| ==> NoKey(l, key)
  {
    if l == [] then 0
    else if l[0].0 == key then 0
    else
      var n := Position(l[1..], key);
      assert n == |l| - 1 ==> NoKey(l, key) by {
        assert forall k {:trigger l[k]} :: 0 < k < |l| ==> l[k] == l[1..][k - 1];
      }
      n + 1
  }

  /** The lowest set bit of `c` from `j` on, or `e`. */
  function NextBit(c: nat, j: nat, e: nat): (k: nat)
    requires j <= e
    ensures j <= k <= e && (k < e ==> Bit(c, k)) && forall b :: j <= b < k ==> !Bit(c, b)
    decreases e - j
  {
    if j == e || Bit(c, j) then j else NextBit(c, j + 1, e)
  }

  /** check_mask_race. */
  predicate Race<K, V>(t: Table<K, V>, e: nat, c: nat, m: nat)
    requires 1 <= m <= e && Pow2(e) <= |t|
  {
    m != e && Cut(c, m) != Cut(c, e) &&
    var j := NextBit(c, m, e);
    j < e && Marked(t, Cut(c, j + 1))
  }

  predicate Marked<K, V>(t: Table<K, V>, i: nat) {
    i < |t| && t[i].Rehashed?
  }

  function Next<K, V>(s: State<K, V>, t: nat, p: Pc<K, V>): State<K, V>
    requires t < |s.pc|
  {
    s.(pc := s.pc[t := p])
  }

  ghost predicate CanStep<K, V>(hash: K -> nat, s: State<K, V>, t: nat) {
    t < |s.pc| &&
    match s.pc[t]
    case Idle => false
    case Acquire(op, m) =>
      var i := Cut(hash(op.key), m);
      i < |s.table| && (s.table[i].Pending? || Readable(s.pc, t, i))
    case Fill(op, m, st) =>
      st != [] && st[|st| - 1] > 0 && st[|st| - 1] < |s.table| &&
      var p := HashBits.Parent(st[|st| - 1]);
      (s.table[p].Pending? || Free(s.pc, t, p))
    case Search(op, m, i, w) => i < |s.table| && s.table[i].Rehashed?
    case Missed(op, m, i, w) => 1 <= m <= s.level && Pow2(s.level) <= |s.table|
    case Upgrade(op, m, i, w) =>
      i < |s.table| && s.table[i].Rehashed? && (op.Remove? ==> Position(s.table[i].items, op.key) < |s.table[i].items| && s.size > 0)
    case Again(op, m, i) => i < |s.table| && s.table[i].Rehashed? && Free(s.pc, t, i)
    case Write(op, m, i) => 1 <= m <= s.level && Pow2(s.level) <= |s.table|
    case Recheck(op, m, i) => 1 <= m <= s.level && Pow2(s.level) <= |s.table|
    case Place(op, m, i) => op.Insert? && i < |s.table| && s.table[i].Rehashed?
    case _ => true
  }

  /** Thread `t` goes on. */
  ghost function Step<K, V>(hash: K -> nat, s: State<K, V>, t: nat): State<K, V>
    requires CanStep(hash, s, t)
  {
    match s.pc[t]
    case Idle => s
    case Ask(op) => Next(s, t, Acquire(op, s.level))
    case Acquire(op, m) =>
      var i := Cut(hash(op.key), m);
      if s.table[i].Pending? then Next(s, t, Fill(op, m, [i])).(table := s.table[i := Rehashed([])])
      else Next(s, t, Search(op, m, i, false))
    case Fill(op, m, st) =>
      var h := st[|st| - 1];
      var p := HashBits.Parent(h);
      if s.table[p].Pending? then Next(s, t, Fill(op, m, st + [p])).(table := s.table[p := Rehashed([])])
      else Next(s, t, if |st| == 1 then Search(op, m, h, false) else Fill(op, m, st[..|st| - 1])).(table := Split(s.table, hash, h))
    case Search(op, m, i, w) =>
      var l := s.table[i].items;
      var n := Position(l, op.key);
      if n < |l| then Next(s, t, if op.Remove? then Upgrade(op, m, i, w) else Done(op, Found(l[n].1)))
      else Next(s, t, if op.Insert? then Upgrade(op, m, i, w) else Missed(op, m, i, w))
    case Missed(op, m, i, w) =>
      Next(s, t, if Race(s.table, s.level, hash(op.key), m) then Acquire(op, s.level) else Done(op, Missing))
    case Upgrade(op, m, i, w) =>
      if !Free(s.pc, t, i) then Next(s, t, Again(op, m, i))
      else if op.Remove? then
        var l := s.table[i].items;
        var n := Position(l, op.key);
        Next(s, t, Done(op, Found(l[n].1))).(table := s.table[i := Rehashed(l[..n] + l[n + 1..])], size := s.size - 1,
                                            contents := s.contents - {op.key})
      else Next(s, t, Write(op, m, i))
    case Again(op, m, i) =>
      var l := s.table[i].items;
      var n := Position(l, op.key);
      if op.Remove? then Next(s, t, Recheck(op, m, i))
      else if n < |l| then Next(s, t, Done(op, Found(l[n].1)))
      else Next(s, t, Write(op, m, i))
    case Write(op, m, i) =>
      Next(s, t, if Race(s.table, s.level, hash(op.key), m) then Acquire(op, s.level) else Place(op, s.level, i))
    case Recheck(op, m, i) =>
      Next(s, t, if Race(s.table, s.level, hash(op.key), m) then Acquire(op, s.level) else Search(op, s.level, i, true))
    case Place(op, m, i) =>
      var grows := s.size + 1 >= Pow2(m) - 1 && m == s.level && !s.growing;
      Next(s, t, if grows then Grow(op, m) else Done(op, Missing)).(
        table := s.table[i := Rehashed([(op.key, op.value)] + s.table[i].items)], size := s.size + 1,
        growing := s.growing || grows, contents := s.contents[op.key := op.value])
    case Grow(op, m) =>
      Next(s, t, Done(op, Missing)).(table := s.table + Segment(m), level := if m >= FIRST_BLOCK then m + 1 else FIRST_BLOCK,
                                  growing := false)
    case Done(_, _) => Next(s, t, Idle)
  }

  /** The buckets of the next allocation. */
  function Segment<K, V>(m: nat): Table<K, V> {
    if m >= FIRST_BLOCK then seq(Pow2(m), _ => Pending) else seq(Pow2(FIRST_BLOCK) - 2, _ => Pending)
  }

  function Start<K, V>(threads: nat): State<K, V> {
    State([Rehashed([]), Rehashed([])], 1, 0, false, map[], seq(threads, _ => Idle))
  }

  // ---- the invariant ----

  /** What thread knows, given the table, the open buckets and the level. */
  ghost predicate Knows<K, V>(hash: K -> nat, t: Table<K, V>, open: set<nat>, e: nat, growing: bool, p: Pc<K, V>)
    requires Pow2(e) == |t|
  {
    match p
    case Idle => true
    case Ask(_) => true
    case Done(_, _) => true
    case Acquire(op, m) => 1 <= m <= e
    case Fill(op, m, st) => 1 <= m <= e && st != [] && st[0] == Cut(hash(op.key), m) && Stack(t, st)
    case Search(op, m, i, w) => Near(hash, t, open, e, op, m, i, w)
    case Missed(op, m, i, w) => Near(hash, t, open, e, op, m, i, w) && !op.Insert? && NoKey(t[i].items, op.key)
    case Upgrade(op, m, i, w) =>
      Near(hash, t, open, e, op, m, i, w) &&
      if op.Remove? then Position(t[i].items, op.key) < |t[i].items| else op.Insert? && NoKey(t[i].items, op.key)
    case Again(op, m, i) => !op.Find? && 1 <= m <= e && i < |t| && t[i].Rehashed? && i == Cut(hash(op.key), m)
    case Write(op, m, i) => Near(hash, t, open, e, op, m, i, true) && op.Insert? && NoKey(t[i].items, op.key)
    case Recheck(op, m, i) => Near(hash, t, open, e, op, m, i, true) && op.Remove?
    case Place(op, m, i) =>
      Near(hash, t, open, e, op, m, i, true) && op.Insert? && NoKey(t[i].items, op.key) && Home(Masked(t, open), e, hash(op.key)) == i
    case Grow(op, m) => growing && m == e && op.Insert?
  }

  ghost predicate Stack<K, V>(t: Table<K, V>, st: seq<nat>) {
    && (forall k {:trigger st[k]} :: 0 <= k < |st| ==> 2 <= st[k] < |t| && t[st[k]] == Rehashed([]))
    && (forall k {:trigger st[k]} :: 0 < k < |st| ==> st[k] == HashBits.Parent(st[k - 1]))
  }

  /** Bucket `i` is filled, and it is what the mask selects or, if the lock is one for writing, may be the
      home of the key instead. */
  ghost predicate Near<K, V>(hash: K -> nat, t: Table<K, V>, open: set<nat>, e: nat, op: Op<K, V>, m: nat, i: nat, w: bool)
    requires Pow2(e) == |t|
  {
    && 1 <= m <= e && i < |t| && t[i].Rehashed? && i !in open
    && (i == Cut(hash(op.key), m) || (w && Home(Masked(t, open), e, hash(op.key)) == i))
  }

  /** Two threads do not get into each other's way. */
  ghost predicate Apart<K, V>(p: Pc<K, V>, q: Pc<K, V>) {
    && (Writing(p) && Holding(q) ==> p.i != q.i)
    && (Writing(q) && Holding(p) ==> p.i != q.i)
    && (p.Fill? && q.Fill? ==> forall o {:trigger o in p.stack} :: o in p.stack ==> o !in q.stack)
    && !(p.Grow? && q.Grow?)
  }

  ghost predicate Sound<K, V>(hash: K -> nat, s: State<K, V>) {
    && Holds(Masked(s.table, Open(s.pc)), s.level, hash, s.contents)
    && s.size == |s.contents| && (s.level == 1 || s.level >= FIRST_BLOCK)
  }

  ghost predicate Inv<K, V>(hash: K -> nat, s: State<K, V>) {
    && Sound(hash, s) && Pow2(s.level) == |s.table|
    && (forall t {:trigger s.pc[t]} :: 0 <= t < |s.pc| ==> Knows(hash, s.table, Open(s.pc), s.level, s.growing, s.pc[t]))
    && (forall t, u {:trigger s.pc[t], s.pc[u]} :: 0 <= t < u < |s.pc| ==> Apart(s.pc[t], s.pc[u]))
  }

  // ---- what the steps of other threads leave alone ----

  /** What a step of another thread may do, as far as a thread with program counter `p` is concerned. */
  ghost predicate Calm<K, V>(t: Table<K, V>, open: set<nat>, e: nat, growing: bool,
                             t': Table<K, V>, open': set<nat>, e': nat, growing': bool, p: Pc<K, V>)
    requires Pow2(e) == |t| && Pow2(e') == |t'|
  {
    && e <= e' && |t| <= |t'|
    && (forall i {:trigger t'[i].Rehashed?} :: 0 <= i < |t| && t[i].Rehashed? ==> t'[i].Rehashed?)
    && (Holding(p) && p.i < |t| && t[p.i].Rehashed? && p.i !in open ==> Untouched(t, open, e, t', open', e', p.i))
    && (p.Fill? ==> forall o {:trigger o in p.stack} :: o in p.stack && o < |t| && t[o] == Rehashed([]) ==> t'[o] == t[o])
    && (p.Grow? ==> e' == e && growing' == growing)
  }

  /** Bucket `i` and the codes that are at home in it stay as they are. */
  ghost predicate Untouched<K, V>(t: Table<K, V>, open: set<nat>, e: nat, t': Table<K, V>, open': set<nat>, e': nat, i: nat)
    requires Pow2(e) == |t| && Pow2(e') == |t'| && i < |t| <= |t'|
  {
    && t'[i] == t[i] && i !in open'
    && forall c: nat {:trigger Home(Masked(t', open'), e', c)} :: Home(Masked(t, open), e, c) == i ==> Home(Masked(t', open'), e', c) == i
  }

  lemma {:induction false} StackStill<K, V>(t: Table<K, V>, t': Table<K, V>, st: seq<nat>)
    requires Stack(t, st) && |t| <= |t'|
    requires forall o {:trigger o in st} :: o in st && o < |t| && t[o] == Rehashed([]) ==> t'[o] == t[o]
    ensures Stack(t', st)
  {
    hide HashBits.Parent;
    forall k | 0 <= k < |st| ensures 2 <= st[k] < |t'| && t'[st[k]] == Rehashed([]) {
      assert st[k] in st;
    }
  }

  lemma {:induction false} KnowsStill<K, V>(hash: K -> nat, t: Table<K, V>, open: set<nat>, e: nat, growing: bool,
                                            t': Table<K, V>, open': set<nat>, e': nat, growing': bool, p: Pc<K, V>)
    requires Pow2(e) == |t| && Pow2(e') == |t'| && Knows(hash, t, open, e, growing, p)
    requires Calm(t, open, e, growing, t', open', e', growing', p)
    ensures Knows(hash, t', open', e', growing', p)
  {
    hide Pow2, Cut, Home, Masked, Position, NoKey, Stack;
    if p.Fill? {
      StackStill(t, t', p.stack);
    }
  }

  lemma {:induction false} CalmMark<K, V>(t: Table<K, V>, open: set<nat>, e: nat, growing: bool, j: nat, p: Pc<K, V>)
    requires Pow2(e) == |t| && j < |t| && t[j].Pending? && j !in open
    ensures Calm(t, open, e, growing, t[j := Rehashed([])], open + {j}, e, growing, p)
  {
    hide Pow2, Home, Masked;
    MaskedOpen(t, open, j);
  }

  lemma {:induction false} CalmWrite<K, V>(t: Table<K, V>, open: set<nat>, e: nat, growing: bool, growing': bool, j: nat, l: seq<(K, V)>, p: Pc<K, V>)
    requires Pow2(e) == |t| && j < |t| && t[j].Rehashed? && j !in open && (Holding(p) ==> p.i != j) && (p.Fill? ==> j !in p.stack)
    requires p.Grow? ==> growing' == growing
    ensures Calm(t, open, e, growing, t[j := Rehashed(l)], open, e, growing', p)
  {
    hide Pow2, Home;
    var t' := t[j := Rehashed(l)];
    forall c: nat ensures Home(Masked(t', open), e, c) == Home(Masked(t, open), e, c) {
      SameHome(Masked(t, open), Masked(t', open), e, c);
    }
  }

  lemma {:induction false} CalmGrow<K, V>(t: Table<K, V>, open: set<nat>, e: nat, growing: bool, more: Table<K, V>, e': nat, p: Pc<K, V>)
    requires Pow2(e) == |t| && Pow2(e') == |t + more| && 1 <= e <= e' && !p.Grow?
    requires forall i {:trigger more[i]} :: 0 <= i < |more| ==> more[i].Pending?
    requires forall o {:trigger o in open} :: o in open ==> o < |t|
    ensures Calm(t, open, e, growing, t + more, open, e', false, p)
  {
    hide Pow2, Home;
    var t' := t + more;
    forall c: nat ensures Home(Masked(t', open), e', c) == Home(Masked(t, open), e, c) {
      HomeGrows(Masked(t, open), e, Masked(t', open), e', c);
    }
  }

  lemma {:induction false} CalmSplit<K, V>(hash: K -> nat, t: Table<K, V>, open: set<nat>, e: nat, growing: bool, h: nat, p: Pc<K, V>)
    requires Pow2(e) == |t| && 2 <= h < |t| && h in open && t[h].Rehashed? && t[HashBits.Parent(h)].Rehashed? && HashBits.Parent(h) !in open
    requires Holding(p) ==> p.i != HashBits.Parent(h)
    requires p.Fill? ==> h !in p.stack && HashBits.Parent(h) !in p.stack
    ensures Calm(t, open, e, growing, Split(t, hash, h), open - {h}, e, growing, p)
  {
    hide Pow2, Home, HashBits.Parent, Log2, Stay, Moved, Belongs;
    var t', q := Split(t, hash, h), HashBits.Parent(h);
    var r, r' := Masked(t, open), Masked(t', open - {h});
    assert SplitsOff(r, r', h);
    LogBelow(h, e);
    forall c: nat ensures Home(r, e, c) != q ==> Home(r', e, c) == Home(r, e, c) {
      HomeSplits(r, r', e, h, c);
    }
  }

  // ---- which buckets are open ----

  lemma {:induction false} OpenSame<K, V>(pc: seq<Pc<K, V>>, t: nat, p: Pc<K, V>)
    requires t < |pc| && !pc[t].Fill? && !p.Fill?
    ensures Open(pc[t := p]) == Open(pc)
  {
    var q := pc[t := p];
    forall o | o in Open(pc) ensures o in Open(q) {
      var u :| 0 <= u < |pc| && pc[u].Fill? && o in pc[u].stack;
      assert q[u] == pc[u];
    }
    forall o | o in Open(q) ensures o in Open(pc) {
      var u :| 0 <= u < |q| && q[u].Fill? && o in q[u].stack;
      assert q[u] == pc[u];
    }
  }

  lemma {:induction false} OpenMore<K, V>(pc: seq<Pc<K, V>>, t: nat, p: Pc<K, V>, j: nat)
    requires t < |pc| && p.Fill? && (if pc[t].Fill? then p.stack == pc[t].stack + [j] else p.stack == [j])
    ensures Open(pc[t := p]) == Open(pc) + {j}
  {
    var q := pc[t := p];
    assert q[t].Fill? && j in q[t].stack;
    forall o | o in Open(pc) ensures o in Open(q) {
      var u :| 0 <= u < |pc| && pc[u].Fill? && o in pc[u].stack;
      assert u == t ==> o in p.stack;
      assert u != t ==> q[u] == pc[u];
      assert q[u].Fill? && o in q[u].stack;
    }
    forall o | o in Open(q) ensures o in Open(pc) + {j} {
      var u :| 0 <= u < |q| && q[u].Fill? && o in q[u].stack;
      assert u != t ==> q[u] == pc[u];
      if o != j {
        assert pc[u].Fill? && o in pc[u].stack;
      }
    }
  }

  lemma {:induction false} OpenLess<K, V>(pc: seq<Pc<K, V>>, t: nat, p: Pc<K, V>, h: nat)
    requires t < |pc| && pc[t].Fill? && pc[t].stack != [] && h == pc[t].stack[|pc[t].stack| - 1]
    requires forall k {:trigger pc[t].stack[k]} :: 0 <= k < |pc[t].stack| - 1 ==> pc[t].stack[k] != h
    requires forall u {:trigger pc[u]} :: 0 <= u < |pc| && u != t && pc[u].Fill? ==> h !in pc[u].stack
    requires if p.Fill? then p.stack == pc[t].stack[..|pc[t].stack| - 1] else |pc[t].stack| == 1
    ensures Open(pc[t := p]) == Open(pc) - {h}
  {
    var q, st := pc[t := p], pc[t].stack;
    forall o | o in Open(pc) && o != h ensures o in Open(q) {
      var u :| 0 <= u < |pc| && pc[u].Fill? && o in pc[u].stack;
      if u == t {
        var k :| 0 <= k < |st| && st[k] == o;
        assert k < |st| - 1 && p.Fill? && p.stack[k] == o && o in q[t].stack;
      } else {
        assert q[u] == pc[u];
      }
    }
    forall o | o in Open(q) ensures o in Open(pc) && o != h {
      var u :| 0 <= u < |q| && q[u].Fill? && o in q[u].stack;
      if u == t {
        var k :| 0 <= k < |p.stack| && p.stack[k] == o;
        assert st[k] == o && pc[t].stack[k] != h;
        OpenHas(pc, t, o);
      } else {
        assert q[u] == pc[u];
      }
    }
  }

  lemma {:induction false} OpenHas<K, V>(pc: seq<Pc<K, V>>, u: nat, o: nat)
    requires u < |pc| && pc[u].Fill? && o in pc[u].stack
    ensures o in Open(pc)
  {
  }

  lemma {:induction false} OpenKnown<K, V>(hash: K -> nat, s: State<K, V>)
    requires Inv(hash, s)
    ensures forall o {:trigger o in Open(s.pc)} :: o in Open(s.pc) ==> 2 <= o < |s.table| && s.table[o] == Rehashed([])
  {
    forall o | o in Open(s.pc) ensures 2 <= o < |s.table| && s.table[o] == Rehashed([]) {
      var u :| 0 <= u < |s.pc| && s.pc[u].Fill? && o in s.pc[u].stack;
      assert Knows(hash, s.table, Open(s.pc), s.level, s.growing, s.pc[u]);
      var k :| 0 <= k < |s.pc[u].stack| && s.pc[u].stack[k] == o;
    }
  }

  // ---- putting a step together ----

  /** What the new state of a step has to satisfy. */
  ghost predicate Fits<K, V>(hash: K -> nat, s: State<K, V>, s': State<K, V>, t: nat) {
    && t < |s.pc| && Pow2(s.level) == |s.table| && Pow2(s'.level) == |s'.table| && |s'.pc| == |s.pc|
    && Sound(hash, s')
    && Knows(hash, s'.table, Open(s'.pc), s'.level, s'.growing, s'.pc[t])
    && (forall u {:trigger s'.pc[u]} :: 0 <= u < |s.pc| && u != t ==>
         && s'.pc[u] == s.pc[u] && Apart(s'.pc[t], s.pc[u])
         && Calm(s.table, Open(s.pc), s.level, s.growing, s'.table, Open(s'.pc), s'.level, s'.growing, s.pc[u]))
  }

  lemma {:induction false} FitsInv<K, V>(hash: K -> nat, s: State<K, V>, s': State<K, V>, t: nat)
    requires Inv(hash, s) && Fits(hash, s, s', t)
    ensures Inv(hash, s')
  {
    hide Sound, Knows, Calm, Apart, Open, Pow2;
    forall u | 0 <= u < |s'.pc| ensures Knows(hash, s'.table, Open(s'.pc), s'.level, s'.growing, s'.pc[u]) {
      if u != t {
        assert s'.pc[u] == s.pc[u];
        KnowsStill(hash, s.table, Open(s.pc), s.level, s.growing, s'.table, Open(s'.pc), s'.level, s'.growing, s.pc[u]);
      }
    }
    forall u, v | 0 <= u < v < |s'.pc| ensures Apart(s'.pc[u], s'.pc[v]) {
      if u == t {
        assert s'.pc[v] == s.pc[v];
      } else if v == t {
        assert s'.pc[u] == s.pc[u];
        ApartSym(s'.pc[t], s.pc[u]);
      } else {
        assert s'.pc[u] == s.pc[u] && s'.pc[v] == s.pc[v];
      }
    }
  }

  lemma {:induction false} ApartSym<K, V>(p: Pc<K, V>, q: Pc<K, V>)
    requires Apart(p, q)
    ensures Apart(q, p)
  {
  }

  lemma {:induction false} KnowsAt<K, V>(hash: K -> nat, s: State<K, V>, t: nat)
    requires Inv(hash, s) && t < |s.pc|
    ensures Pow2(s.level) == |s.table| && Knows(hash, s.table, Open(s.pc), s.level, s.growing, s.pc[t])
    ensures Holds(Masked(s.table, Open(s.pc)), s.level, hash, s.contents) && s.level >= 1 && s.size == |s.contents|
    ensures s.level == 1 || s.level >= FIRST_BLOCK
  {
    hide Knows, Apart, Open, Pow2, Holds;
  }

  lemma {:induction false} ApartAt<K, V>(hash: K -> nat, s: State<K, V>, t: nat, u: nat)
    requires Inv(hash, s) && t < |s.pc| && u < |s.pc| && t != u
    ensures Apart(s.pc[t], s.pc[u])
  {
    hide Knows, Apart, Open, Pow2, Sound;
    if u < t {
      ApartSym(s.pc[u], s.pc[t]);
    }
  }

  /** A step that only changes where the thread is. */
  lemma {:induction false} QuietStep<K, V>(hash: K -> nat, s: State<K, V>, t: nat, p: Pc<K, V>)
    requires Inv(hash, s) && t < |s.pc| && !s.pc[t].Fill? && !p.Fill? && Pow2(s.level) == |s.table|
    requires Knows(hash, s.table, Open(s.pc), s.level, s.growing, p)
    requires forall u {:trigger s.pc[u]} :: 0 <= u < |s.pc| && u != t ==> Apart(p, s.pc[u])
    ensures Inv(hash, Next(s, t, p))
  {
    hide Knows, Apart, Pow2, Holds, Open;
    OpenSame(s.pc, t, p);
    var s' := Next(s, t, p);
    forall u | 0 <= u < |s.pc| && u != t ensures s'.pc[u] == s.pc[u] && Calm(s.table, Open(s.pc), s.level, s.growing, s'.table, Open(s'.pc), s'.level, s'.growing, s.pc[u]) {
      CalmNothing(s.table, Open(s.pc), s.level, s.growing, s.pc[u]);
    }
    FitsInv(hash, s, s', t);
  }

  lemma {:induction false} CalmNothing<K, V>(t: Table<K, V>, open: set<nat>, e: nat, growing: bool, p: Pc<K, V>)
    requires Pow2(e) == |t|
    ensures Calm(t, open, e, growing, t, open, e, growing, p)
  {
  }

  /** The thread keeps a lock it has, or gives it up. */
  lemma {:induction false} KeepsLock<K, V>(p: Pc<K, V>, p': Pc<K, V>, q: Pc<K, V>)
    requires Apart(p, q) && !p'.Fill? && !p'.Grow?
    requires Holding(p') ==> Holding(p) && p'.i == p.i && (Writing(p') ==> Writing(p))
    ensures Apart(p', q)
  {
  }

  // ---- stale masks ----

  /** If no race is seen, the bucket that the thread holds is the home of the key. */
  lemma {:induction false} NoRace<K, V>(hash: K -> nat, s: State<K, V>, op: Op<K, V>, m: nat, i: nat)
    requires Inv(hash, s) && Pow2(s.level) == |s.table| && Near(hash, s.table, Open(s.pc), s.level, op, m, i, true)
    requires !Race(s.table, s.level, hash(op.key), m)
    ensures Home(Masked(s.table, Open(s.pc)), s.level, hash(op.key)) == i
  {
    hide Inv, Home, Pow2, Cut, Open;
    InvSound(hash, s);
    var r, c, e := Masked(s.table, Open(s.pc)), hash(op.key), s.level;
    if i == Cut(c, m) {
      TableSizes(r, e, hash, s.contents, m);
      if Cut(c, m) == Cut(c, e) {
        UnchangedHome(r, e, c, m);
      } else {
        SomeBit(c, m, e);
        var j := NextBit(c, m, e);
        PowGrows(j + 1, e);
        CutSmaller(c, j + 1, |r|);
        NextBucketDecides(r, e, c, m, j);
      }
    }
  }

  lemma {:induction false} CutSmaller(c: nat, k: nat, n: nat)
    requires Pow2(k) <= n
    ensures Cut(c, k) < n
  {
  }

  lemma {:induction false} InvSound<K, V>(hash: K -> nat, s: State<K, V>)
    requires Inv(hash, s)
    ensures Holds(Masked(s.table, Open(s.pc)), s.level, hash, s.contents) && s.level >= 1 && Pow2(s.level) == |s.table|
  {
    hide Knows, Apart, Open, Pow2, Holds;
  }

  // ---- the steps of a thread ----

  /** What an operation that is applied to the map `m` answers and leaves behind. */
  function Answer<K, V>(op: Op<K, V>, m: map<K, V>): Entry<V> {
    if op.key in m then Found(m[op.key]) else Missing
  }

  function Applied<K, V>(op: Op<K, V>, m: map<K, V>): map<K, V> {
    match op
    case Find(_) => m
    case Insert(k, v) => if k in m then m else m[k := v]
    case Remove(k) => m - {k}
  }

  /** The result of an operation that has been applied. */
  predicate HasResult<K, V>(p: Pc<K, V>) {
    p.Grow? || p.Done?
  }

  function ResultOf<K, V>(p: Pc<K, V>): Entry<V>
    requires HasResult(p)
  {
    if p.Grow? then Missing else p.result
  }

  /** In one step, a thread either leaves the map as it is, or applies its operation and gets the answer
      that the map gives at this moment. It is idle again only when it has an answer. An insertion starts
      the growth of the table if and only if the load factor is reached, and nothing else makes it grow. */
  ghost predicate Atomic<K, V>(s: State<K, V>, s': State<K, V>, t: nat) {
    t < |s.pc| == |s'.pc| &&
    var p, p' := s.pc[t], s'.pc[t];
    && (p'.Grow? <==> p.Place? && p.m == s.level && |s'.contents| >= Pow2(s.level) - 1 && !s.growing)
    && (if p.Grow? then s'.level > s.level else s'.level == s.level)
    && (!p.Idle? && p'.Idle? ==> p.Done?)
    && if !HasResult(p) && HasResult(p') then
         && !p.Idle? && p'.op == p.op && ResultOf(p') == Answer(p.op, s.contents) && s'.contents == Applied(p.op, s.contents)
       else
         && s'.contents == s.contents && (!p.Idle? && !p'.Idle? ==> p'.op == p.op)
         && (HasResult(p) ==> if HasResult(p') then ResultOf(p') == ResultOf(p) else p.Done? && p'.Idle?)
  }

  lemma {:induction false} StartStep<K, V>(hash: K -> nat, s: State<K, V>, t: nat)
    requires Inv(hash, s) && CanStep(hash, s, t) && (s.pc[t].Ask? || s.pc[t].Done?)
    ensures Inv(hash, Step(hash, s, t)) && Atomic(s, Step(hash, s, t), t)
  {
    hide Inv, Apart, Knows, Open, Split, Segment, HashBits.Parent, Stack, Free, Readable, Position, Race, Cut, NoKey;
    KnowsAt(hash, s, t);
    var p' := Step(hash, s, t).pc[t];
    KnowsLittle(hash, s.table, Open(s.pc), s.level, s.growing, p');
    forall u | 0 <= u < |s.pc| && u != t ensures Apart(p', s.pc[u]) {
      ApartAt(hash, s, t, u);
      KeepsLock(s.pc[t], p', s.pc[u]);
    }
    QuietStep(hash, s, t, p');
  }

  lemma {:induction false} KnowsLittle<K, V>(hash: K -> nat, t: Table<K, V>, open: set<nat>, e: nat, growing: bool, p: Pc<K, V>)
    requires Pow2(e) == |t| && (p.Idle? || p.Ask? || p.Done? || (p.Acquire? && 1 <= p.m <= e))
    ensures Knows(hash, t, open, e, growing, p)
  {
  }

  lemma {:induction false} AcquireStep<K, V>(hash: K -> nat, s: State<K, V>, t: nat)
    requires Inv(hash, s) && CanStep(hash, s, t) && s.pc[t].Acquire? && s.table[Cut(hash(s.pc[t].op.key), s.pc[t].m)].Rehashed?
    ensures Inv(hash, Step(hash, s, t)) && Atomic(s, Step(hash, s, t), t)
  {
    hide Inv, Apart, Open, Pow2, Cut, Split, Segment, HashBits.Parent, Stack, Race;
    KnowsAt(hash, s, t);
    var p' := Step(hash, s, t).pc[t];
    forall u | 0 <= u < |s.pc| && u != t ensures Apart(p', s.pc[u]) {
      ApartAt(hash, s, t, u);
      ReadsLock(s.pc[t], p', s.pc[u]);
    }
    QuietStep(hash, s, t, p');
  }

  lemma {:induction false} ReadsLock<K, V>(p: Pc<K, V>, p': Pc<K, V>, q: Pc<K, V>)
    requires Apart(p, q) && p'.Search? && !p'.w && (Writing(q) ==> q.i != p'.i)
    ensures Apart(p', q)
  {
  }

  lemma {:induction false} SearchStep<K, V>(hash: K -> nat, s: State<K, V>, t: nat)
    requires Inv(hash, s) && CanStep(hash, s, t) && s.pc[t].Search?
    ensures Inv(hash, Step(hash, s, t)) && Atomic(s, Step(hash, s, t), t)
  {
    hide Inv, Apart, Open, Pow2, Cut, Home, Holds, NoKey, Masked, Split, Segment, HashBits.Parent, Stack, Free, Readable, Race;
    KnowsAt(hash, s, t);
    var p, p' := s.pc[t], Step(hash, s, t).pc[t];
    forall u | 0 <= u < |s.pc| && u != t ensures Apart(p', s.pc[u]) {
      ApartAt(hash, s, t, u);
      KeepsLock(p, p', s.pc[u]);
    }
    var n := Position(s.table[p.i].items, p.op.key);
    if n < |s.table[p.i].items| {
      IsThere(hash, s, p.i, n);
    }
    QuietStep(hash, s, t, p');
  }

  /** An item of a filled bucket is in the map. */
  lemma {:induction false} IsThere<K, V>(hash: K -> nat, s: State<K, V>, i: nat, n: nat)
    requires Inv(hash, s) && i < |s.table| && i !in Open(s.pc) && s.table[i].Rehashed? && n < |s.table[i].items|
    ensures var x := s.table[i].items[n]; x.0 in s.contents && s.contents[x.0] == x.1
  {
    hide Inv, Holds, Open;
    InvSound(hash, s);
    FoundItem(Masked(s.table, Open(s.pc)), s.level, hash, s.contents, i, n);
  }

  /** What is not in its home is not in the map. */
  lemma {:induction false} IsNotThere<K, V>(hash: K -> nat, s: State<K, V>, i: nat, key: K)
    requires Inv(hash, s) && i < |s.table| && i !in Open(s.pc) && s.table[i].Rehashed? && NoKey(s.table[i].items, key)
    requires Pow2(s.level) == |s.table| && Home(Masked(s.table, Open(s.pc)), s.level, hash(key)) == i
    ensures key !in s.contents
  {
    hide Inv, Holds, Open, Home;
    InvSound(hash, s);
    MissedItem(Masked(s.table, Open(s.pc)), s.level, hash, s.contents, i, key);
  }

  lemma {:induction false} NearWrite<K, V>(hash: K -> nat, t: Table<K, V>, open: set<nat>, e: nat, op: Op<K, V>, m: nat, i: nat, w: bool)
    requires Pow2(e) == |t| && Near(hash, t, open, e, op, m, i, w)
    ensures Near(hash, t, open, e, op, m, i, true) && i < |t| && t[i].Rehashed? && i !in open
  {
  }

  lemma {:induction false} MissedStep<K, V>(hash: K -> nat, s: State<K, V>, t: nat)
    requires Inv(hash, s) && CanStep(hash, s, t) && s.pc[t].Missed?
    ensures Inv(hash, Step(hash, s, t)) && Atomic(s, Step(hash, s, t), t)
  {
    hide Inv, Apart, Open, Pow2, Cut, Home, Holds, NoKey, Masked, Near, Race, Split, Segment, HashBits.Parent, Stack, Free, Readable;
    KnowsAt(hash, s, t);
    var p, p' := s.pc[t], Step(hash, s, t).pc[t];
    forall u | 0 <= u < |s.pc| && u != t ensures Apart(p', s.pc[u]) {
      ApartAt(hash, s, t, u);
      KeepsLock(p, p', s.pc[u]);
    }
    NearWrite(hash, s.table, Open(s.pc), s.level, p.op, p.m, p.i, p.w);
    if !Race(s.table, s.level, hash(p.op.key), p.m) {
      NoRace(hash, s, p.op, p.m, p.i);
      IsNotThere(hash, s, p.i, p.op.key);
      assert s.contents - {p.op.key} == s.contents;
    }
    QuietStep(hash, s, t, p');
  }

  lemma {:induction false} WriteStep<K, V>(hash: K -> nat, s: State<K, V>, t: nat)
    requires Inv(hash, s) && CanStep(hash, s, t) && (s.pc[t].Write? || s.pc[t].Recheck?)
    ensures Inv(hash, Step(hash, s, t)) && Atomic(s, Step(hash, s, t), t)
  {
    hide Inv, Apart, Open, Pow2, Cut, Home, Holds, NoKey, Masked, Race, Split, Segment, HashBits.Parent, Stack, Free, Readable;
    KnowsAt(hash, s, t);
    var p, p' := s.pc[t], Step(hash, s, t).pc[t];
    forall u | 0 <= u < |s.pc| && u != t ensures Apart(p', s.pc[u]) {
      ApartAt(hash, s, t, u);
      KeepsLock(p, p', s.pc[u]);
    }
    if !Race(s.table, s.level, hash(p.op.key), p.m) {
      NoRace(hash, s, p.op, p.m, p.i);
    }
    QuietStep(hash, s, t, p');
  }

  lemma {:induction false} AgainStep<K, V>(hash: K -> nat, s: State<K, V>, t: nat)
    requires Inv(hash, s) && CanStep(hash, s, t) && s.pc[t].Again?
    ensures Inv(hash, Step(hash, s, t)) && Atomic(s, Step(hash, s, t), t)
  {
    hide Inv, Apart, Open, Pow2, Cut, Home, Holds, NoKey, Masked, Split, Segment, HashBits.Parent, Stack, Race;
    KnowsAt(hash, s, t);
    var p, p' := s.pc[t], Step(hash, s, t).pc[t];
    forall u | 0 <= u < |s.pc| && u != t ensures Apart(p', s.pc[u]) {
      ApartAt(hash, s, t, u);
      TakesLock(p, p', s.pc[u], p.i);
    }
    var n := Position(s.table[p.i].items, p.op.key);
    if n < |s.table[p.i].items| {
      IsThere(hash, s, p.i, n);
    }
    QuietStep(hash, s, t, p');
  }

  lemma {:induction false} TakesLock<K, V>(p: Pc<K, V>, p': Pc<K, V>, q: Pc<K, V>, i: nat)
    requires Apart(p, q) && !p'.Fill? && !p'.Grow? && (Holding(p') ==> p'.i == i) && (Holding(q) ==> q.i != i)
    ensures Apart(p', q)
  {
  }

  lemma {:induction false} UpgradeStep<K, V>(hash: K -> nat, s: State<K, V>, t: nat)
    requires Inv(hash, s) && CanStep(hash, s, t) && s.pc[t].Upgrade? && (s.pc[t].op.Insert? || !Free(s.pc, t, s.pc[t].i))
    ensures Inv(hash, Step(hash, s, t)) && Atomic(s, Step(hash, s, t), t)
  {
    hide Inv, Apart, Open, Pow2, Cut, Home, Holds, NoKey, Masked, Split, Segment, HashBits.Parent, Stack, Race;
    KnowsAt(hash, s, t);
    var p, p' := s.pc[t], Step(hash, s, t).pc[t];
    if p.w {
      WritersAreFree(hash, s, t);
    }
    forall u | 0 <= u < |s.pc| && u != t ensures Apart(p', s.pc[u]) {
      ApartAt(hash, s, t, u);
      if Free(s.pc, t, p.i) {
        TakesLock(p, p', s.pc[u], p.i);
      } else {
        KeepsLock(p, p', s.pc[u]);
      }
    }
    QuietStep(hash, s, t, p');
  }

  lemma {:induction false} WritersAreFree<K, V>(hash: K -> nat, s: State<K, V>, t: nat)
    requires Inv(hash, s) && t < |s.pc| && Writing(s.pc[t]) && s.pc[t].i !in Open(s.pc)
    ensures Free(s.pc, t, s.pc[t].i)
  {
    hide Inv, Open;
    forall u | 0 <= u < |s.pc| && u != t && Holding(s.pc[u]) ensures s.pc[u].i != s.pc[t].i {
      ApartAt(hash, s, t, u);
    }
  }

  // Steps that change the table.

  lemma {:induction false} EraseStep<K, V>(hash: K -> nat, s: State<K, V>, t: nat)
    requires Inv(hash, s) && CanStep(hash, s, t) && s.pc[t].Upgrade? && s.pc[t].op.Remove? && Free(s.pc, t, s.pc[t].i)
    ensures Inv(hash, Step(hash, s, t)) && Atomic(s, Step(hash, s, t), t)
  {
    hide Inv, Apart, Open, Pow2, Cut, Home, Holds, NoKey, Masked, Calm;
    KnowsAt(hash, s, t);
    var p, s' := s.pc[t], Step(hash, s, t);
    var l := s.table[p.i].items;
    var n := Position(l, p.op.key);
    IsThere(hash, s, p.i, n);
    OpenSame(s.pc, t, s'.pc[t]);
    Erased(s.table, Open(s.pc), s.level, hash, s.contents, p.i, n);
    KnowsLittle(hash, s'.table, Open(s'.pc), s'.level, s'.growing, s'.pc[t]);
    OneLess(s.contents, p.op.key);
    forall u | 0 <= u < |s.pc| && u != t
      ensures Apart(s'.pc[t], s.pc[u])
      ensures Calm(s.table, Open(s.pc), s.level, s.growing, s'.table, Open(s'.pc), s'.level, s'.growing, s.pc[u])
    {
      ApartAt(hash, s, t, u);
      KeepsLock(p, s'.pc[t], s.pc[u]);
      NotInStack(s.pc, u, p.i);
      CalmWrite(s.table, Open(s.pc), s.level, s.growing, s.growing, p.i, l[..n] + l[n + 1..], s.pc[u]);
    }
    FitsInv(hash, s, s', t);
  }

  lemma {:induction false} NotInStack<K, V>(pc: seq<Pc<K, V>>, u: nat, i: nat)
    requires u < |pc| && i !in Open(pc)
    ensures pc[u].Fill? ==> i !in pc[u].stack
  {
  }

  lemma {:induction false} OneLess<K, V>(m: map<K, V>, k: K)
    requires k in m
    ensures |m - {k}| == |m| - 1 && |m| > 0
  {
    assert (m - {k}).Keys == m.Keys - {k};
  }

  lemma {:induction false} Erased<K, V>(t: Table<K, V>, open: set<nat>, e: nat, hash: K -> nat, m: map<K, V>, i: nat, n: nat)
    requires Holds(Masked(t, open), e, hash, m) && i < |t| && i !in open && t[i].Rehashed? && n < |t[i].items|
    ensures var l := t[i].items; Holds(Masked(t[i := Rehashed(l[..n] + l[n + 1..])], open), e, hash, m - {l[n].0})
  {
    hide Holds;
    var l := t[i].items;
    EraseHolds(Masked(t, open), e, hash, m, i, n);
    assert Masked(t[i := Rehashed(l[..n] + l[n + 1..])], open) == Masked(t, open)[i := Rehashed(l[..n] + l[n + 1..])];
  }

  lemma {:induction false} PlaceStep<K, V>(hash: K -> nat, s: State<K, V>, t: nat)
    requires Inv(hash, s) && CanStep(hash, s, t) && s.pc[t].Place?
    ensures Inv(hash, Step(hash, s, t)) && Atomic(s, Step(hash, s, t), t)
  {
    hide Inv, Apart, Open, Pow2, Cut, Home, Holds, NoKey, Masked, Calm;
    KnowsAt(hash, s, t);
    var p, s' := s.pc[t], Step(hash, s, t);
    IsNotThere(hash, s, p.i, p.op.key);
    OpenSame(s.pc, t, s'.pc[t]);
    Inserted(s.table, Open(s.pc), s.level, hash, s.contents, p.i, p.op.key, p.op.value);
    OneMore(s.contents, p.op.key, p.op.value);
    forall u | 0 <= u < |s.pc| && u != t
      ensures Apart(s'.pc[t], s.pc[u])
      ensures Calm(s.table, Open(s.pc), s.level, s.growing, s'.table, Open(s'.pc), s'.level, s'.growing, s.pc[u])
    {
      ApartAt(hash, s, t, u);
      GrowerIsAlone(hash, s, u);
      ReleasesWrite(p, s'.pc[t], s.pc[u]);
      NotInStack(s.pc, u, p.i);
      CalmWrite(s.table, Open(s.pc), s.level, s.growing, s'.growing, p.i, [(p.op.key, p.op.value)] + s.table[p.i].items, s.pc[u]);
    }
    FitsInv(hash, s, s', t);
  }

  lemma {:induction false} GrowerIsAlone<K, V>(hash: K -> nat, s: State<K, V>, u: nat)
    requires Inv(hash, s) && u < |s.pc|
    ensures s.pc[u].Grow? ==> s.growing
  {
    hide Inv;
    KnowsAt(hash, s, u);
  }

  lemma {:induction false} ReleasesWrite<K, V>(p: Pc<K, V>, p': Pc<K, V>, q: Pc<K, V>)
    requires Apart(p, q) && Writing(p) && (p'.Grow? || p'.Done?) && (p'.Grow? ==> !q.Grow?)
    ensures Apart(p', q) && (Holding(q) ==> q.i != p.i)
  {
  }

  lemma {:induction false} OneMore<K, V>(m: map<K, V>, k: K, v: V)
    requires k !in m
    ensures |m[k := v]| == |m| + 1
  {
    assert m[k := v].Keys == m.Keys + {k};
  }

  lemma {:induction false} Inserted<K, V>(t: Table<K, V>, open: set<nat>, e: nat, hash: K -> nat, m: map<K, V>, i: nat, k: K, v: V)
    requires Holds(Masked(t, open), e, hash, m) && k !in m && i < |t| && i !in open && t[i].Rehashed?
    requires Pow2(e) == |t| && Home(Masked(t, open), e, hash(k)) == i
    ensures Holds(Masked(t[i := Rehashed([(k, v)] + t[i].items)], open), e, hash, m[k := v])
  {
    hide Holds, Home;
    InsertHolds(Masked(t, open), e, hash, m, k, v);
    assert Masked(t[i := Rehashed([(k, v)] + t[i].items)], open) == Masked(t, open)[i := Rehashed([(k, v)] + t[i].items)];
  }

  lemma {:induction false} GrowStep<K, V>(hash: K -> nat, s: State<K, V>, t: nat)
    requires Inv(hash, s) && CanStep(hash, s, t) && s.pc[t].Grow?
    ensures Inv(hash, Step(hash, s, t)) && Atomic(s, Step(hash, s, t), t)
  {
    hide Inv, Apart, Open, Pow2, Cut, Home, Holds, NoKey, Masked, Calm, Segment;
    KnowsAt(hash, s, t);
    OpenKnown(hash, s);
    var p, s' := s.pc[t], Step(hash, s, t);
    OpenSame(s.pc, t, s'.pc[t]);
    Grown(s.table, Open(s.pc), s.level, hash, s.contents);
    KnowsLittle(hash, s'.table, Open(s'.pc), s'.level, s'.growing, s'.pc[t]);
    forall u | 0 <= u < |s.pc| && u != t
      ensures Apart(s'.pc[t], s.pc[u])
      ensures Calm(s.table, Open(s.pc), s.level, s.growing, s'.table, Open(s'.pc), s'.level, s'.growing, s.pc[u])
    {
      ApartAt(hash, s, t, u);
      KeepsLock(p, s'.pc[t], s.pc[u]);
      OneGrower(p, s.pc[u]);
      CalmGrow(s.table, Open(s.pc), s.level, s.growing, Segment(s.level), s'.level, s.pc[u]);
    }
    FitsInv(hash, s, s', t);
  }

  lemma {:induction false} OneGrower<K, V>(p: Pc<K, V>, q: Pc<K, V>)
    requires Apart(p, q) && p.Grow?
    ensures !q.Grow?
  {
  }

  lemma {:induction false} Grown<K, V>(t: Table<K, V>, open: set<nat>, e: nat, hash: K -> nat, m: map<K, V>)
    requires Holds(Masked(t, open), e, hash, m) && (e == 1 || e >= FIRST_BLOCK) && forall o {:trigger o in open} :: o in open ==> o < |t|
    ensures var l := if e >= FIRST_BLOCK then e + 1 else FIRST_BLOCK; var t' := t + Segment(e);
            e < l && Pow2(l) == |t'| && Holds(Masked(t', open), l, hash, m)
    ensures forall i {:trigger (Segment<K, V>(e))[i]} :: 0 <= i < |Segment<K, V>(e)| ==> (Segment<K, V>(e))[i].Pending?
  {
    hide Holds;
    var l := if e >= FIRST_BLOCK then e + 1 else FIRST_BLOCK;
    GrownSize(Masked(t, open), e, hash, m);
    var t' := t + Segment(e);
    GrowHolds(Masked(t, open), e, hash, m, Masked(t', open), l);
  }

  /** A pending bucket is marked, by a thread that is going to fill it. */
  lemma {:induction false} MarkStep<K, V>(hash: K -> nat, s: State<K, V>, t: nat, j: nat, p': Pc<K, V>)
    requires Inv(hash, s) && t < |s.pc| && j < |s.table| && s.table[j].Pending? && Pow2(s.level) == |s.table| && p'.Fill?
    requires if s.pc[t].Fill? then p'.stack == s.pc[t].stack + [j] else p'.stack == [j]
    requires Knows(hash, s.table[j := Rehashed([])], Open(s.pc) + {j}, s.level, s.growing, p')
    ensures Inv(hash, Next(s, t, p').(table := s.table[j := Rehashed([])]))
  {
    hide Inv, Apart, Pow2, Cut, Home, Holds, NoKey, Masked, Calm, Knows, Open;
    KnowsAt(hash, s, t);
    OpenKnown(hash, s);
    OpenMore(s.pc, t, p', j);
    var s' := Next(s, t, p').(table := s.table[j := Rehashed([])]);
    MaskedOpen(s.table, Open(s.pc), j);
    forall u | 0 <= u < |s.pc| && u != t
      ensures Apart(p', s.pc[u])
      ensures Calm(s.table, Open(s.pc), s.level, s.growing, s'.table, Open(s'.pc), s'.level, s'.growing, s.pc[u])
    {
      ApartAt(hash, s, t, u);
      NotInStack(s.pc, u, j);
      AddsToStack(s.pc[t], p', s.pc[u], j);
      CalmMark(s.table, Open(s.pc), s.level, s.growing, j, s.pc[u]);
    }
    FitsInv(hash, s, s', t);
  }

  lemma {:induction false} AddsToStack<K, V>(p: Pc<K, V>, p': Pc<K, V>, q: Pc<K, V>, j: nat)
    requires Apart(p, q) && p'.Fill? && (if p.Fill? then p'.stack == p.stack + [j] else p'.stack == [j]) && (q.Fill? ==> j !in q.stack)
    ensures Apart(p', q)
  {
  }

  lemma {:induction false} AcquirePending<K, V>(hash: K -> nat, s: State<K, V>, t: nat)
    requires Inv(hash, s) && CanStep(hash, s, t) && s.pc[t].Acquire? && s.table[Cut(hash(s.pc[t].op.key), s.pc[t].m)].Pending?
    ensures Inv(hash, Step(hash, s, t)) && Atomic(s, Step(hash, s, t), t)
  {
    hide Inv, Apart, Pow2, Cut, Home, Holds, Masked, Open;
    KnowsAt(hash, s, t);
    var p := s.pc[t];
    var j := Cut(hash(p.op.key), p.m);
    OpenKnown(hash, s);
    LowFilled(hash, s, j);
    MarkStep(hash, s, t, j, Fill(p.op, p.m, [j]));
  }

  lemma {:induction false} LowFilled<K, V>(hash: K -> nat, s: State<K, V>, j: nat)
    requires Inv(hash, s) && j < |s.table| && s.table[j].Pending?
    ensures j >= 2 && j !in Open(s.pc)
  {
    hide Inv, Home, Open;
    InvSound(hash, s);
    OpenKnown(hash, s);
    var r := Masked(s.table, Open(s.pc));
    assert r[0].Rehashed? && r[1].Rehashed?;
  }

  lemma {:induction false} FillMarks<K, V>(hash: K -> nat, s: State<K, V>, t: nat)
    requires Inv(hash, s) && CanStep(hash, s, t) && s.pc[t].Fill?
    requires var st := s.pc[t].stack; s.table[HashBits.Parent(st[|st| - 1])].Pending?
    ensures Inv(hash, Step(hash, s, t)) && Atomic(s, Step(hash, s, t), t)
  {
    hide Inv, Apart, Pow2, Cut, Home, Holds, Masked, Open, HashBits.Parent, Stack;
    KnowsAt(hash, s, t);
    var p := s.pc[t];
    var j := HashBits.Parent(p.stack[|p.stack| - 1]);
    LowFilled(hash, s, j);
    StackMore(s.table, p.stack, j);
    MarkStep(hash, s, t, j, Fill(p.op, p.m, p.stack + [j]));
  }

  lemma {:induction false} StackMore<K, V>(t: Table<K, V>, st: seq<nat>, j: nat)
    requires Stack(t, st) && st != [] && st[|st| - 1] > 0 && j == HashBits.Parent(st[|st| - 1]) && 2 <= j < |t| && t[j].Pending?
    ensures Stack(t[j := Rehashed([])], st + [j])
  {
    hide HashBits.Parent;
  }

  lemma {:induction false} FillSplits<K, V>(hash: K -> nat, s: State<K, V>, t: nat)
    requires Inv(hash, s) && CanStep(hash, s, t) && s.pc[t].Fill?
    requires var st := s.pc[t].stack; s.table[HashBits.Parent(st[|st| - 1])].Rehashed?
    ensures Inv(hash, Step(hash, s, t)) && Atomic(s, Step(hash, s, t), t)
  {
    hide Inv, Apart, Pow2, Cut, Home, Holds, Masked, Open, HashBits.Parent, Stack, Split, Calm;
    KnowsAt(hash, s, t);
    OpenKnown(hash, s);
    var p, s' := s.pc[t], Step(hash, s, t);
    var h := p.stack[|p.stack| - 1];
    var q := HashBits.Parent(h);
    StackLast(s.table, p.stack, h);
    OpenHas(s.pc, t, h);
    forall u | 0 <= u < |s.pc| && u != t ensures s.pc[u].Fill? ==> h !in s.pc[u].stack {
      ApartAt(hash, s, t, u);
      NotShared(p, s.pc[u], h);
    }
    OpenLess(s.pc, t, s'.pc[t], h);
    SplitSound(s.table, Open(s.pc), s.level, hash, s.contents, h);
    forall u | 0 <= u < |s.pc| && u != t
      ensures Apart(s'.pc[t], s.pc[u])
      ensures Calm(s.table, Open(s.pc), s.level, s.growing, s'.table, Open(s'.pc), s'.level, s'.growing, s.pc[u])
    {
      ApartAt(hash, s, t, u);
      KnowsAt(hash, s, u);
      LeavesStack(hash, s, t, u, s'.pc[t], h);
      NotInStack(s.pc, u, q);
      CalmSplit(hash, s.table, Open(s.pc), s.level, s.growing, h, s.pc[u]);
    }
    forall o {:trigger o in p.stack} | o in p.stack ensures o in Open(s.pc) {
      OpenHas(s.pc, t, o);
    }
    SplitKnows(hash, s.table, Open(s.pc), s.level, s.growing, p, s'.pc[t], h);
    FitsInv(hash, s, s', t);
  }

  lemma {:induction false} NotShared<K, V>(p: Pc<K, V>, q: Pc<K, V>, h: nat)
    requires Apart(p, q) && p.Fill? && h in p.stack
    ensures q.Fill? ==> h !in q.stack
  {
  }

  /** The buckets of a stack are different from each other. */
  lemma {:induction false} StackLast<K, V>(t: Table<K, V>, st: seq<nat>, h: nat)
    requires Stack(t, st) && st != [] && h == st[|st| - 1]
    ensures 2 <= h < |t| && t[h] == Rehashed([]) && h in st && HashBits.Parent(h) < h
    ensures forall k {:trigger st[k]} :: 0 <= k < |st| - 1 ==> st[k] != h
  {
    forall k | 0 <= k < |st| - 1 ensures st[k] > h {
      StackFalls(t, st, k, |st| - 1);
    }
  }

  lemma {:induction false} ParentLess(i: nat)
    requires i > 0
    ensures HashBits.Parent(i) < i
  {
    var p := HashBits.Parent(i);
  }

  lemma {:induction false} StackFalls<K, V>(t: Table<K, V>, st: seq<nat>, j: nat, k: nat)
    requires Stack(t, st) && j < k < |st|
    ensures st[k] < st[j]
    decreases k
  {
    hide HashBits.Parent;
    assert st[k] == HashBits.Parent(st[k - 1]);
    ParentLess(st[k - 1]);
    if j < k - 1 {
      StackFalls(t, st, j, k - 1);
    }
  }

  lemma {:induction false} SplitSound<K, V>(t: Table<K, V>, open: set<nat>, e: nat, hash: K -> nat, m: map<K, V>, h: nat)
    requires Holds(Masked(t, open), e, hash, m) && 2 <= h < |t| && h in open && HashBits.Parent(h) !in open
    requires t[HashBits.Parent(h)].Rehashed?
    ensures Holds(Masked(Split(t, hash, h), open - {h}), e, hash, m) && |Split(t, hash, h)| == |t|
  {
    hide Holds, HashBits.Parent;
    SplitHolds(Masked(t, open), e, hash, m, h);
    MaskedSplit(t, hash, open - {h}, h);
    assert open - {h} + {h} == open;
  }

  lemma {:induction false} LeavesStack<K, V>(hash: K -> nat, s: State<K, V>, t: nat, u: nat, p': Pc<K, V>, h: nat)
    requires Inv(hash, s) && t < |s.pc| && u < |s.pc| && Apart(s.pc[t], s.pc[u]) && s.pc[t].Fill? && s.pc[t].stack != [] && h in Open(s.pc)
    requires if |s.pc[t].stack| == 1 then p' == Search(s.pc[t].op, s.pc[t].m, h, false)
             else p' == Fill(s.pc[t].op, s.pc[t].m, s.pc[t].stack[..|s.pc[t].stack| - 1])
    ensures Apart(p', s.pc[u])
  {
    hide Inv, Open, Stack, Home, Masked, Cut, NoKey;
    KnowsAt(hash, s, u);
    if p'.Fill? {
      var st := s.pc[t].stack;
      forall o {:trigger o in p'.stack} | o in p'.stack ensures o in st {
        var k :| 0 <= k < |p'.stack| && p'.stack[k] == o;
        assert st[k] == o;
      }
    }
  }

  lemma {:induction false} SplitKnows<K, V>(hash: K -> nat, t: Table<K, V>, open: set<nat>, e: nat, growing: bool, p: Pc<K, V>, p': Pc<K, V>, h: nat)
    requires Pow2(e) == |t| && p.Fill? && Knows(hash, t, open, e, growing, p) && h == p.stack[|p.stack| - 1]
    requires 2 <= h < |t| && t[HashBits.Parent(h)].Rehashed? && HashBits.Parent(h) !in open
    requires forall o {:trigger o in p.stack} :: o in p.stack ==> o in open
    requires if |p.stack| == 1 then p' == Search(p.op, p.m, h, false) else p' == Fill(p.op, p.m, p.stack[..|p.stack| - 1])
    ensures Pow2(e) == |Split(t, hash, h)| && Knows(hash, Split(t, hash, h), open - {h}, e, growing, p')
  {
    hide Pow2, Cut, Home, Masked, HashBits.Parent, Stay, Moved;
    StackLast(t, p.stack, h);
    if |p.stack| > 1 {
      var st := p.stack[..|p.stack| - 1];
      assert st[0] == p.stack[0];
      forall k | 0 <= k < |st| ensures 2 <= st[k] < |t| && Split(t, hash, h)[st[k]] == Rehashed([]) {
        assert st[k] == p.stack[k] && p.stack[k] in p.stack;
      }
      forall k | 0 < k < |st| ensures st[k] == HashBits.Parent(st[k - 1]) {
        assert st[k] == p.stack[k] && st[k - 1] == p.stack[k - 1];
      }
    }
  }

  /** Every step keeps the invariant, and applies the operation of the thread at one moment or not at all. */
  lemma {:induction false} StepInv<K, V>(hash: K -> nat, s: State<K, V>, t: nat)
    requires Inv(hash, s) && CanStep(hash, s, t)
    ensures Inv(hash, Step(hash, s, t)) && Atomic(s, Step(hash, s, t), t)
  {
    hide Inv, Step, Atomic, Open, Free, Readable, Cut, HashBits.Parent;
    match s.pc[t]
    case Ask(_) => StartStep(hash, s, t);
    case Done(_, _) => StartStep(hash, s, t);
    case Acquire(op, m) =>
      if s.table[Cut(hash(op.key), m)].Pending? {
        AcquirePending(hash, s, t);
      } else {
        AcquireStep(hash, s, t);
      }
    case Fill(op, m, st) =>
      if s.table[HashBits.Parent(st[|st| - 1])].Pending? {
        FillMarks(hash, s, t);
      } else {
        FillSplits(hash, s, t);
      }
    case Search(_, _, _, _) => SearchStep(hash, s, t);
    case Missed(_, _, _, _) => MissedStep(hash, s, t);
    case Upgrade(op, _, i, _) =>
      if op.Remove? && Free(s.pc, t, i) {
        EraseStep(hash, s, t);
      } else {
        UpgradeOther(hash, s, t);
      }
    case Again(_, _, _) => AgainStep(hash, s, t);
    case Write(_, _, _) => WriteStep(hash, s, t);
    case Recheck(_, _, _) => WriteStep(hash, s, t);
    case Place(_, _, _) => PlaceStep(hash, s, t);
    case Grow(_, _) => GrowStep(hash, s, t);
  }

  lemma {:induction false} UpgradeOther<K, V>(hash: K -> nat, s: State<K, V>, t: nat)
    requires Inv(hash, s) && CanStep(hash, s, t) && s.pc[t].Upgrade? && !(s.pc[t].op.Remove? && Free(s.pc, t, s.pc[t].i))
    ensures Inv(hash, Step(hash, s, t)) && Atomic(s, Step(hash, s, t), t)
  {
    hide Inv, Step, Atomic, Open, Free;
    KnowsAt(hash, s, t);
    UpgradeStep(hash, s, t);
  }

  // ---- progress ----

  /** A thread that holds a bucket never waits. */
  lemma {:induction false} HoldersGoOn<K, V>(hash: K -> nat, s: State<K, V>, t: nat)
    requires Inv(hash, s) && t < |s.pc| && !s.pc[t].Idle? && !s.pc[t].Acquire? && !s.pc[t].Fill? && !s.pc[t].Again?
    ensures CanStep(hash, s, t)
  {
    hide Inv, Home, Masked, Open, Cut, NoKey;
    KnowsAt(hash, s, t);
    var p := s.pc[t];
    if p.Upgrade? && p.op.Remove? {
      IsThere(hash, s, p.i, Position(s.table[p.i].items, p.op.key));
      OneLess(s.contents, p.op.key);
    }
  }

  /** A thread that fills a bucket waits for a lower one, if for any. */
  lemma {:induction false} FillerGoesOn<K, V>(hash: K -> nat, s: State<K, V>, t: nat) returns (u: nat)
    requires Inv(hash, s) && t < |s.pc| && s.pc[t].Fill? && forall v {:trigger s.pc[v]} :: 0 <= v < |s.pc| ==> !Holding(s.pc[v])
    ensures u < |s.pc| && s.pc[u].Fill? && CanStep(hash, s, u)
    decreases if s.pc[t].stack == [] then 0 else s.pc[t].stack[|s.pc[t].stack| - 1]
  {
    hide Inv, Home, Masked, Cut, Stack, HashBits.Parent;
    KnowsAt(hash, s, t);
    var st := s.pc[t].stack;
    var h := st[|st| - 1];
    StackLast(s.table, st, h);
    var q := HashBits.Parent(h);
    if s.table[q].Rehashed? && q in Open(s.pc) {
      var v: nat :| v < |s.pc| && s.pc[v].Fill? && q in s.pc[v].stack;
      KnowsAt(hash, s, v);
      LastIsLeast(s.table, s.pc[v].stack, q);
      u := FillerGoesOn(hash, s, v);
    } else {
      u := t;
    }
  }

  lemma {:induction false} LastIsLeast<K, V>(t: Table<K, V>, st: seq<nat>, o: nat)
    requires Stack(t, st) && o in st
    ensures st != [] && st[|st| - 1] <= o
  {
    hide Stack;
    var k :| 0 <= k < |st| && st[k] == o;
    if k < |st| - 1 {
      StackFalls(t, st, k, |st| - 1);
    }
  }

  /** As long as an operation is under way, some thread can go on. */
  lemma {:induction false} NotStuck<K, V>(hash: K -> nat, s: State<K, V>, t: nat) returns (u: nat)
    requires Inv(hash, s) && t < |s.pc| && !s.pc[t].Idle?
    ensures u < |s.pc| && CanStep(hash, s, u)
  {
    hide Inv, Home, Masked, Cut, CanStep, Knows;
    if v: nat :| v < |s.pc| && Holding(s.pc[v]) {
      HoldersGoOn(hash, s, v);
      u := v;
    } else if v: nat :| v < |s.pc| && s.pc[v].Fill? {
      u := FillerGoesOn(hash, s, v);
    } else {
      assert Open(s.pc) == {};
      WaitersGoOn(hash, s, t);
      u := t;
    }
  }

  lemma {:induction false} WaitersGoOn<K, V>(hash: K -> nat, s: State<K, V>, t: nat)
    requires Inv(hash, s) && t < |s.pc| && !s.pc[t].Idle? && Open(s.pc) == {} && !s.pc[t].Fill?
    requires forall v {:trigger s.pc[v]} :: 0 <= v < |s.pc| ==> !Holding(s.pc[v])
    ensures CanStep(hash, s, t)
  {
    hide Inv, Home, Masked, Open, Cut;
    KnowsAt(hash, s, t);
    InvSound(hash, s);
    var p := s.pc[t];
    if p.Acquire? {
      TableSizes(Masked(s.table, Open(s.pc)), s.level, hash, s.contents, p.m);
      CutSmaller(hash(p.op.key), p.m, |s.table|);
    } else if !p.Again? {
      HoldersGoOn(hash, s, t);
    }
  }

  // ---- runs ----

  /** A thread that is idle starts an operation, or one that is not goes on. */
  datatype Move<K, V> = Begin(t: nat, op: Op<K, V>) | Go(t: nat)

  ghost predicate CanMove<K, V>(hash: K -> nat, s: State<K, V>, m: Move<K, V>) {
    match m
    case Begin(t, _) => t < |s.pc| && s.pc[t].Idle?
    case Go(t) => CanStep(hash, s, t)
  }

  ghost function After<K, V>(hash: K -> nat, s: State<K, V>, m: Move<K, V>): State<K, V>
    requires CanMove(hash, s, m)
  {
    match m
    case Begin(t, op) => Next(s, t, Ask(op))
    case Go(t) => Step(hash, s, t)
  }

  lemma {:induction false} StartInv<K, V>(hash: K -> nat, threads: nat)
    ensures Inv(hash, Start<K, V>(threads))
  {
    var s := Start<K, V>(threads);
    assert Pow2(1) == 2 * Pow2(0);
    assert Open(s.pc) == {};
    MaskedNone(s.table);
  }

  lemma {:induction false} OthersStay<K, V>(hash: K -> nat, s: State<K, V>, m: Move<K, V>)
    requires CanMove(hash, s, m)
    ensures |After(hash, s, m).pc| == |s.pc| && (m.Begin? ==> After(hash, s, m).pc[m.t] == Ask(m.op))
    ensures forall u {:trigger s.pc[u]} :: 0 <= u < |s.pc| && u != m.t ==> After(hash, s, m).pc[u] == s.pc[u]
  {
    hide Step, CanStep;
    if m.Go? {
      OnlyOwnPc(hash, s, m.t);
    }
  }

  lemma {:induction false} OnlyOwnPc<K, V>(hash: K -> nat, s: State<K, V>, t: nat)
    requires CanStep(hash, s, t)
    ensures t < |s.pc| == |Step(hash, s, t).pc| && Step(hash, s, t).pc == s.pc[t := Step(hash, s, t).pc[t]]
  {
    hide Step, CanStep;
    StepRange(hash, s, t);
    var p := s.pc[t];
    if p.Acquire? || p.Fill? {
      OwnPcFill(hash, s, t);
    } else if p.Upgrade? || p.Place? || p.Grow? {
      OwnPcChange(hash, s, t);
    } else {
      OwnPcQuiet(hash, s, t);
    }
  }

  lemma {:induction false} StepRange<K, V>(hash: K -> nat, s: State<K, V>, t: nat)
    requires CanStep(hash, s, t)
    ensures t < |s.pc| && !s.pc[t].Idle?
  {
    hide Free, Readable, Race, Position, Split, Segment, Cut, HashBits.Parent, Pow2, Masked, Home, Open;
  }

  lemma {:induction false} OwnPcFill<K, V>(hash: K -> nat, s: State<K, V>, t: nat)
    requires CanStep(hash, s, t) && (s.pc[t].Acquire? || s.pc[t].Fill?)
    ensures |s.pc| == |Step(hash, s, t).pc| && Step(hash, s, t).pc == s.pc[t := Step(hash, s, t).pc[t]]
  {
    hide Free, Readable, Race, Position, Split, Segment, Cut, HashBits.Parent, Pow2, Masked, Home, Open;
  }

  lemma {:induction false} OwnPcChange<K, V>(hash: K -> nat, s: State<K, V>, t: nat)
    requires CanStep(hash, s, t) && (s.pc[t].Upgrade? || s.pc[t].Place? || s.pc[t].Grow?)
    ensures |s.pc| == |Step(hash, s, t).pc| && Step(hash, s, t).pc == s.pc[t := Step(hash, s, t).pc[t]]
  {
    hide Free, Readable, Race, Position, Split, Segment, Cut, HashBits.Parent, Pow2, Masked, Home, Open;
  }

  lemma {:induction false} OwnPcQuiet<K, V>(hash: K -> nat, s: State<K, V>, t: nat)
    requires CanStep(hash, s, t) && !s.pc[t].Idle? && !s.pc[t].Acquire? && !s.pc[t].Fill?
    requires !s.pc[t].Upgrade? && !s.pc[t].Place? && !s.pc[t].Grow?
    ensures |s.pc| == |Step(hash, s, t).pc| && Step(hash, s, t).pc == s.pc[t := Step(hash, s, t).pc[t]]
    ensures Step(hash, s, t).table == s.table && Step(hash, s, t).level == s.level
  {
    hide Free, Readable, Race, Position, Split, Segment, Cut, HashBits.Parent, Pow2, Masked, Home, Open;
  }

  lemma {:induction false} MoveInv<K, V>(hash: K -> nat, s: State<K, V>, m: Move<K, V>)
    requires Inv(hash, s) && CanMove(hash, s, m)
    ensures Inv(hash, After(hash, s, m)) && Atomic(s, After(hash, s, m), m.t)
    ensures m.Begin? ==> After(hash, s, m).pc[m.t] == Ask(m.op)
    ensures forall u {:trigger s.pc[u]} :: 0 <= u < |s.pc| && u != m.t ==> After(hash, s, m).pc[u] == s.pc[u]
  {
    hide Inv, Step, CanStep, Knows, Open, Apart;
    OthersStay(hash, s, m);
    match m
    case Begin(t, op) =>
      KnowsAt(hash, s, t);
      KnowsLittle(hash, s.table, Open(s.pc), s.level, s.growing, Ask(op));
      forall u | 0 <= u < |s.pc| && u != t ensures Apart(Ask(op), s.pc[u]) {
        ApartAt(hash, s, t, u);
        KeepsLock(s.pc[t], Ask(op), s.pc[u]);
      }
      QuietStep(hash, s, t, Ask(op));
    case Go(t) => StepInv(hash, s, t);
  }

  /** The state after a sequence of moves, or the fact that one of them was not possible. */
  ghost function Run<K, V>(hash: K -> nat, threads: nat, ms: seq<Move<K, V>>): (r: Entry<State<K, V>>)
    ensures r.Found? ==> Inv(hash, r.value)
    decreases |ms|
  {
    hide Inv, CanMove, After;
    if ms == [] then
      StartInv<K, V>(hash, threads);
      Found(Start(threads))
    else
      var r := Run(hash, threads, ms[..|ms| - 1]);
      var m := ms[|ms| - 1];
      if r.Found? && CanMove(hash, r.value, m) then
        MoveInv(hash, r.value, m);
        Found(After(hash, r.value, m))
      else Missing
  }

  /** In every run, each operation takes effect on the map at one moment between its beginning and its end,
      with the answer that the map gives at that moment; nothing else changes the map. */
  lemma {:induction false} Linearizable<K, V>(hash: K -> nat, threads: nat, ms: seq<Move<K, V>>, m: Move<K, V>)
    requires Run(hash, threads, ms).Found? && Run(hash, threads, ms + [m]).Found?
    ensures Atomic(Run(hash, threads, ms).value, Run(hash, threads, ms + [m]).value, m.t)
  {
    hide Inv, CanMove, After, Atomic;
    assert (ms + [m])[..|ms|] == ms;
    MoveInv(hash, Run(hash, threads, ms).value, m);
  }

  /** In every run, the table holds the map: the number of its items is the counter, and every filled bucket
      is in order although others may be half filled. */
  lemma {:induction false} AlwaysHolds<K, V>(hash: K -> nat, threads: nat, ms: seq<Move<K, V>>)
    requires Run(hash, threads, ms).Found?
    ensures var s := Run(hash, threads, ms).value;
            && Holds(Masked(s.table, Open(s.pc)), s.level, hash, s.contents) && s.size == |s.contents|
            && forall t, u {:trigger s.pc[t], s.pc[u]} :: 0 <= t < u < |s.pc| ==> Apart(s.pc[t], s.pc[u])
  {
    hide Run, Knows, Holds, Apart, Open;
  }

  // ---- one effect for every call ----

  lemma {:induction false} RunPrefix<K, V>(hash: K -> nat, threads: nat, ms: seq<Move<K, V>>, k: nat)
    requires k <= |ms| && Run(hash, threads, ms).Found?
    ensures Run(hash, threads, ms[..k]).Found?
    decreases |ms|
  {
    hide Inv, CanMove, After;
    if k < |ms| {
      RunPrefix(hash, threads, ms[..|ms| - 1], k);
      assert ms[..|ms| - 1][..k] == ms[..k];
    } else {
      assert ms[..k] == ms;
    }
  }

  /** The state before move `k`. */
  ghost function StateAt<K, V>(hash: K -> nat, threads: nat, ms: seq<Move<K, V>>, k: nat): (s: State<K, V>)
    requires k <= |ms| && Run(hash, threads, ms).Found?
    ensures Inv(hash, s) && Run(hash, threads, ms[..k]) == Found(s)
  {
    RunPrefix(hash, threads, ms, k);
    Run(hash, threads, ms[..k]).value
  }

  lemma {:induction false} MoveAt<K, V>(hash: K -> nat, threads: nat, ms: seq<Move<K, V>>, k: nat)
    requires k < |ms| && Run(hash, threads, ms).Found?
    ensures var s, s', m := StateAt(hash, threads, ms, k), StateAt(hash, threads, ms, k + 1), ms[k];
            && CanMove(hash, s, m) && Atomic(s, s', m.t) && (m.Begin? ==> m.t < |s'.pc| && s'.pc[m.t] == Ask(m.op))
            && |s'.pc| == |s.pc| && forall u {:trigger s.pc[u]} :: 0 <= u < |s.pc| && u != m.t ==> s'.pc[u] == s.pc[u]
  {
    hide Inv, CanStep, After, Atomic;
    RunPrefix(hash, threads, ms, k);
    RunPrefix(hash, threads, ms, k + 1);
    var l := ms[..k + 1];
    assert l[..|l| - 1] == ms[..k] && l[|l| - 1] == ms[k];
    MoveInv(hash, StateAt(hash, threads, ms, k), ms[k]);
    OthersStay(hash, StateAt(hash, threads, ms, k), ms[k]);
  }

  /** Move `k` applies the operation to the map. */
  ghost predicate Effect<K, V>(hash: K -> nat, threads: nat, ms: seq<Move<K, V>>, k: nat, t: nat, op: Op<K, V>)
    requires k < |ms| && Run(hash, threads, ms).Found?
  {
    ms[k] == Go(t) && StateAt(hash, threads, ms, k + 1).contents == Applied(op, StateAt(hash, threads, ms, k).contents)
  }

  ghost predicate LeavesMap<K, V>(hash: K -> nat, threads: nat, ms: seq<Move<K, V>>, k: nat)
    requires k < |ms| && Run(hash, threads, ms).Found?
  {
    StateAt(hash, threads, ms, k + 1).contents == StateAt(hash, threads, ms, k).contents
  }

  /** Thread `t` is inside of the call that it has begun with move `i`, up to move `k`. */
  ghost predicate Inside<K, V>(hash: K -> nat, threads: nat, ms: seq<Move<K, V>>, i: nat, k: nat, t: nat, op: Op<K, V>)
    requires Run(hash, threads, ms).Found?
  {
    && i < k <= |ms| && ms[i] == Begin(t, op)
    && forall j: nat {:trigger StateAt(hash, threads, ms, j)} :: i < j <= k ==>
         t < |StateAt(hash, threads, ms, j).pc| && !StateAt(hash, threads, ms, j).pc[t].Idle?
  }

  /** What has happened to the call before move `k`: its effect, in move `e`, if it has a result, and none
      otherwise. */
  lemma {:induction false} SoFar<K, V>(hash: K -> nat, threads: nat, ms: seq<Move<K, V>>, i: nat, k: nat, t: nat, op: Op<K, V>) returns (e: nat)
    requires Run(hash, threads, ms).Found? && Inside(hash, threads, ms, i, k, t, op)
    ensures t < |StateAt(hash, threads, ms, k).pc|
    ensures var p := StateAt(hash, threads, ms, k).pc[t];
            && !p.Idle? && p.op == op
            && (HasResult(p) ==> i < e < k && Effect(hash, threads, ms, e, t, op)
                                 && ResultOf(p) == Answer(op, StateAt(hash, threads, ms, e).contents))
            && (forall m: nat {:trigger LeavesMap(hash, threads, ms, m)} :: i < m < k && ms[m].t == t && !(HasResult(p) && m == e) ==>
                  LeavesMap(hash, threads, ms, m))
    decreases k
  {
    hide Inv, CanMove, Run;
    var s := StateAt(hash, threads, ms, k);
    MoveAt(hash, threads, ms, k - 1);
    e := k - 1;
    if k - 1 > i {
      var r := StateAt(hash, threads, ms, k - 1);
      assert !r.pc[t].Idle? && !s.pc[t].Idle?;
      var f := SoFar(hash, threads, ms, i, k - 1, t, op);
      if ms[k - 1].t != t || HasResult(r.pc[t]) {
        e := f;
      } else {
        NoBeginInside(hash, r, ms[k - 1], t);
      }
      forall m: nat | i < m < k && ms[m].t == t && !(HasResult(s.pc[t]) && m == e) ensures LeavesMap(hash, threads, ms, m) {
        if m < k - 1 {
          assert LeavesMap(hash, threads, ms, m);
        }
      }
    }
  }

  lemma {:induction false} NoBeginInside<K, V>(hash: K -> nat, s: State<K, V>, m: Move<K, V>, t: nat)
    requires CanMove(hash, s, m) && m.t == t && t < |s.pc| && !s.pc[t].Idle?
    ensures m == Go(t)
  {
  }

  /** In every run, a call that ends has taken effect in exactly one move of its own between its beginning and
      its end, and has the answer that the map gave at that moment. */
  lemma {:induction false} OneEffect<K, V>(hash: K -> nat, threads: nat, ms: seq<Move<K, V>>, i: nat, j: nat, t: nat, op: Op<K, V>) returns (e: nat)
    requires Run(hash, threads, ms).Found? && j < |ms| && Inside(hash, threads, ms, i, j, t, op)
    requires t < |StateAt(hash, threads, ms, j + 1).pc| && StateAt(hash, threads, ms, j + 1).pc[t].Idle?
    ensures i < e < j && Effect(hash, threads, ms, e, t, op) && t < |StateAt(hash, threads, ms, j).pc|
    ensures StateAt(hash, threads, ms, j).pc[t] == Done(op, Answer(op, StateAt(hash, threads, ms, e).contents))
    ensures forall m: nat {:trigger LeavesMap(hash, threads, ms, m)} :: i < m <= j && ms[m].t == t && m != e ==> LeavesMap(hash, threads, ms, m)
  {
    hide Inv, CanMove, Run;
    MoveAt(hash, threads, ms, j);
    e := SoFar(hash, threads, ms, i, j, t, op);
    var r, s := StateAt(hash, threads, ms, j), StateAt(hash, threads, ms, j + 1);
    assert !r.pc[t].Idle?;
    assert ms[j].t == t && r.pc[t].Done?;
    forall m: nat | i < m <= j && ms[m].t == t && m != e ensures LeavesMap(hash, threads, ms, m) {
      if m == j {
        assert s.contents == r.contents;
      }
    }
  }

  // ---- every call ends unless the table keeps growing ----

  /** How far a thread is from the end of its call: how stale its mask is, where it is, and what it still has
      to fill. */
  datatype Distance = Distance(stale: nat, phase: nat, pending: nat, stack: nat)

  predicate Closer(a: Distance, b: Distance) {
    || a.stale < b.stale
    || (a.stale == b.stale && a.phase < b.phase)
    || (a.stale == b.stale && a.phase == b.phase && a.pending < b.pending)
    || (a.stale == b.stale && a.phase == b.phase && a.pending == b.pending && a.stack < b.stack)
  }

  function Phase<K, V>(p: Pc<K, V>): nat {
    match p
    case Ask(_) => 13
    case Acquire(_, _) => 12
    case Fill(_, _, _) => 11
    case Search(_, _, _, w) => if w then 6 else 10
    case Missed(_, _, _, w) => if w then 5 else 9
    case Upgrade(_, _, _, w) => if w then 5 else 9
    case Again(_, _, _) => 8
    case Recheck(_, _, _) => 7
    case Write(_, _, _) => 4
    case Place(_, _, _) => 3
    case Grow(_, _) => 2
    case Done(_, _) => 1
    case Idle => 0
  }

  function Stale<K, V>(e: nat, p: Pc<K, V>): nat {
    if p.Ask? then e + 1
    else if p.Grow? || p.Done? || p.Idle? || p.m > e then 0
    else e - p.m
  }

  ghost function PendingBuckets<K, V>(t: Table<K, V>): set<nat> {
    set i: nat | i < |t| && t[i].Pending?
  }

  ghost function Remaining<K, V>(s: State<K, V>, t: nat): Distance
    requires t < |s.pc|
  {
    Distance(Stale(s.level, s.pc[t]), Phase(s.pc[t]), |PendingBuckets(s.table)|, if s.pc[t].Fill? then |s.pc[t].stack| else 0)
  }

  lemma {:induction false} MarksOne<K, V>(t: Table<K, V>, j: nat)
    requires j < |t| && t[j].Pending?
    ensures |PendingBuckets(t[j := Rehashed([])])| < |PendingBuckets(t)|
  {
    assert PendingBuckets(t[j := Rehashed([])]) == PendingBuckets(t) - {j};
  }

  lemma {:induction false} SplitMarksNone<K, V>(t: Table<K, V>, hash: K -> nat, h: nat)
    requires 0 < h < |t| && t[HashBits.Parent(h)].Rehashed? && t[h].Rehashed?
    ensures PendingBuckets(Split(t, hash, h)) == PendingBuckets(t)
  {
    hide HashBits.Parent, Stay, Moved;
  }

  /** Every step of a thread brings its call closer to the end. */
  lemma {:induction false} OwnStepEnds<K, V>(hash: K -> nat, s: State<K, V>, t: nat)
    requires Inv(hash, s) && CanStep(hash, s, t)
    ensures t < |Step(hash, s, t).pc| && Closer(Remaining(Step(hash, s, t), t), Remaining(s, t))
  {
    hide Inv, Step, CanStep, Remaining, Closer;
    StepRange(hash, s, t);
    OnlyOwnPc(hash, s, t);
    match s.pc[t]
    case Acquire(_, _) => AcquireEnds(hash, s, t);
    case Fill(_, _, _) => FillEnds(hash, s, t);
    case Missed(_, _, _, _) => RaceEnds(hash, s, t);
    case Write(_, _, _) => RaceEnds(hash, s, t);
    case Recheck(_, _, _) => RaceEnds(hash, s, t);
    case Upgrade(_, _, _, _) => UpgradeEnds(hash, s, t);
    case Search(_, _, _, _) => SearchEnds(hash, s, t);
    case Again(_, _, _) => SearchEnds(hash, s, t);
    case _ => PlainEnds(hash, s, t);
  }

  lemma {:induction false} AcquireEnds<K, V>(hash: K -> nat, s: State<K, V>, t: nat)
    requires Inv(hash, s) && CanStep(hash, s, t) && s.pc[t].Acquire?
    ensures t < |Step(hash, s, t).pc| && Closer(Remaining(Step(hash, s, t), t), Remaining(s, t))
  {
    hide Inv, Knows, Open, Readable, Cut, PendingBuckets;
  }

  lemma {:induction false} RaceEnds<K, V>(hash: K -> nat, s: State<K, V>, t: nat)
    requires Inv(hash, s) && CanStep(hash, s, t) && (s.pc[t].Missed? || s.pc[t].Write? || s.pc[t].Recheck?)
    ensures t < |Step(hash, s, t).pc| && Closer(Remaining(Step(hash, s, t), t), Remaining(s, t))
  {
    hide Inv, Knows, Open, Race, Home, Masked, PendingBuckets, Cut, Pow2, Free, Readable, Split, Segment, Position, HashBits.Parent;
    MaskIsOld(hash, s, t);
    RaceIsStale(s.table, s.level, hash(s.pc[t].op.key), s.pc[t].m);
  }

  lemma {:induction false} MaskIsOld<K, V>(hash: K -> nat, s: State<K, V>, t: nat)
    requires CanStep(hash, s, t) && (s.pc[t].Missed? || s.pc[t].Write? || s.pc[t].Recheck?)
    ensures 1 <= s.pc[t].m <= s.level && Pow2(s.level) <= |s.table|
  {
    hide Pow2, Open, Free, Readable, Cut, HashBits.Parent, Position;
  }

  lemma {:induction false} SearchEnds<K, V>(hash: K -> nat, s: State<K, V>, t: nat)
    requires CanStep(hash, s, t) && (s.pc[t].Search? || s.pc[t].Again?)
    ensures t < |Step(hash, s, t).pc| && Closer(Remaining(Step(hash, s, t), t), Remaining(s, t))
  {
    hide Open, Free, Readable, Segment, Split, Race, Cut, Pow2, HashBits.Parent, PendingBuckets;
  }

  lemma {:induction false} PlainEnds<K, V>(hash: K -> nat, s: State<K, V>, t: nat)
    requires CanStep(hash, s, t) && (s.pc[t].Ask? || s.pc[t].Place? || s.pc[t].Grow? || s.pc[t].Done?)
    ensures t < |Step(hash, s, t).pc| && Closer(Remaining(Step(hash, s, t), t), Remaining(s, t))
  {
    hide Open, Free, Readable, Segment, Split, Race, Cut, Pow2, HashBits.Parent, PendingBuckets, Position;
  }

  lemma {:induction false} RaceIsStale<K, V>(t: Table<K, V>, e: nat, c: nat, m: nat)
    requires 1 <= m <= e && Pow2(e) <= |t|
    ensures Race(t, e, c, m) ==> m < e
  {
  }

  lemma {:induction false} UpgradeEnds<K, V>(hash: K -> nat, s: State<K, V>, t: nat)
    requires Inv(hash, s) && CanStep(hash, s, t) && s.pc[t].Upgrade?
    ensures t < |Step(hash, s, t).pc| && Closer(Remaining(Step(hash, s, t), t), Remaining(s, t))
  {
    hide Inv, Knows, Open, Free, Readable, Segment, Split, Race, Cut, Pow2, HashBits.Parent, PendingBuckets;
    UpgradeFree(hash, s, t);
  }

  lemma {:induction false} UpgradeFree<K, V>(hash: K -> nat, s: State<K, V>, t: nat)
    requires Inv(hash, s) && t < |s.pc| && s.pc[t].Upgrade?
    ensures s.pc[t].w ==> Free(s.pc, t, s.pc[t].i)
  {
    hide Inv, Open, Free, Home, Masked, NoKey, Cut;
    KnowsAt(hash, s, t);
    if s.pc[t].w {
      WritersAreFree(hash, s, t);
    }
  }

  lemma {:induction false} FillEnds<K, V>(hash: K -> nat, s: State<K, V>, t: nat)
    requires Inv(hash, s) && CanStep(hash, s, t) && s.pc[t].Fill?
    ensures t < |Step(hash, s, t).pc| && Closer(Remaining(Step(hash, s, t), t), Remaining(s, t))
  {
    hide Inv, Open, Free, Split, Cut, HashBits.Parent, PendingBuckets, Stack;
    KnowsAt(hash, s, t);
    var st := s.pc[t].stack;
    var h := st[|st| - 1];
    StackLast(s.table, st, h);
    if s.table[HashBits.Parent(h)].Pending? {
      MarksOne(s.table, HashBits.Parent(h));
    } else {
      SplitMarksNone(s.table, hash, h);
    }
  }
}
