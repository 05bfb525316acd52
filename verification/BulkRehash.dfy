/** Rehashing the whole table at once: all buckets below a root are marked, then its items move. */
module BulkRehash {
  import opened HashBits
  import opened HashTable

  // ---- the home of a bucket index ----

  lemma {:induction false} HomeOfSmall<K, V>(t: Table<K, V>, e: nat, l: nat, x: nat)
    requires 1 <= l <= e && Pow2(e) <= |t| && Pow2(l) <= |t| && x < Pow2(l)
    ensures Home(t, e, x) == Home(t, l, x)
    decreases e
  {
    CutSmall(x, l);
    if l < e {
      PowGrows(l, e);
      PowGrows(e - 1, e);
      CutSmall(x, e);
      HomeOfSmall(t, e - 1, l, x);
      if t[x].Rehashed? {
        LowHome(t, l, x);
      }
    }
  }

  lemma {:induction false} HomeSameCuts<K, V>(t: Table<K, V>, l: nat, x: nat, c: nat)
    requires Pow2(l) <= |t| && forall k {:trigger Cut(x, k)} {:trigger Cut(c, k)} :: 0 <= k <= l ==> Cut(x, k) == Cut(c, k)
    ensures Home(t, l, x) == Home(t, l, c)
    decreases l
  {
    if l > 1 {
      PowGrows(l - 1, l);
      HomeSameCuts(t, l - 1, x, c);
    }
  }

  /** A bucket index has the same home as the codes that the mask sends to it. */
  lemma {:induction false} HomeOfCut<K, V>(t: Table<K, V>, l: nat, c: nat)
    requires Pow2(l) <= |t|
    ensures Home(t, l, Cut(c, l)) == Home(t, l, c)
  {
    forall k | 0 <= k <= l ensures Cut(Cut(c, l), k) == Cut(c, k) {
      CutCut(c, k, l);
    }
    HomeSameCuts(t, l, Cut(c, l), c);
  }

  /** The home is one of the masked codes. */
  lemma {:induction false} HomeIsCut<K, V>(t: Table<K, V>, e: nat, c: nat) returns (k: nat)
    requires e >= 1 && Pow2(e) <= |t|
    ensures 1 <= k <= e && Cut(c, k) == Home(t, e, c)
    decreases e
  {
    k := e;
    if e > 1 && !t[Cut(c, e)].Rehashed? {
      PowGrows(e - 1, e);
      k := HomeIsCut(t, e - 1, c);
    }
  }

  /** Every code with home `h` agrees with `h` up to the segment of `h`. */
  lemma {:induction false} HomeCut<K, V>(t: Table<K, V>, e: nat, c: nat)
    requires e >= 1 && Pow2(e) <= |t|
    ensures Cut(c, SegmentIndexOf(Home(t, e, c)) + 1) == Home(t, e, c)
  {
    var h := Home(t, e, c);
    var k := HomeIsCut(t, e, c);
    SegmentLog(h);
    if h >= 2 {
      LogBelow(h, k);
      CutTop(c, k, Log2(h) + 1);
    } else {
      CutCut(c, 1, k);
      assert Pow2(1) == 2 * Pow2(0);
      CutSmall(h, 1);
    }
  }

  lemma {:induction false} SegmentLog(h: nat)
    ensures SegmentIndexOf(h) == if h < 2 then 0 else Log2(h)
    ensures h < Pow2(SegmentIndexOf(h) + 1)
  {
    assert Pow2(1) == 2 * Pow2(0);
    if h < 2 {
      SegmentOf(h, 0);
    } else {
      var k := Log2(h);
      LogAtLeast(h);
      EvenPow(k);
      SegmentOf(h, k);
    }
  }

  // ---- marking all buckets below a root ----

  /** Only pending buckets whose home is `h` have been marked. */
  ghost predicate OnlyUnder<K, V>(t: Table<K, V>, t': Table<K, V>, e: nat, h: nat)
    requires Pow2(e) <= |t|
  {
    && |t'| == |t|
    && forall i {:trigger t'[i]} :: 0 <= i < |t| ==>
         t'[i] == t[i] || (t[i].Pending? && t'[i] == Rehashed([]) && Home(t, e, i) == h)
  }

  /** All of them have been. */
  ghost predicate AllMarked<K, V>(t: Table<K, V>, t': Table<K, V>, e: nat, h: nat)
    requires Pow2(e) <= |t|
  {
    OnlyUnder(t, t', e, h) && forall i {:trigger t'[i]} :: 0 <= i < |t| && Home(t, e, i) == h ==> t'[i].Rehashed?
  }

  /** Marking moves only codes whose home was the root. */
  lemma {:induction false} HomeMarked<K, V>(t: Table<K, V>, t': Table<K, V>, e: nat, h: nat, l: nat, c: nat)
    requires 1 <= l <= e && Pow2(e) <= |t| && Pow2(l) <= |t| && OnlyUnder(t, t', e, h) && Home(t, l, c) != h
    ensures Home(t', l, c) == Home(t, l, c)
    decreases l
  {
    if l > 1 {
      var x := Cut(c, l);
      PowGrows(l - 1, l);
      if t[x].Pending? {
        HomeOfSmall(t, e, l, x);
        HomeOfCut(t, l, c);
        HomeMarked(t, t', e, h, l - 1, c);
      }
    }
  }

  /** The state of the loop of mark_rehashed_levels: what is left has no bits below segment `s`. */
  ghost predicate Left<K, V>(t: Table<K, V>, t': Table<K, V>, e: nat, h: nat, s: nat)
    requires Pow2(e) <= |t| == |t'|
  {
    forall i: nat {:trigger t'[i]} :: i < |t| && Home(t, e, i) == h && t'[i].Pending? ==> Cut(i, s) == h && Home(t', e, i) == h
  }

  ghost predicate LowRehashed<K, V>(t: Table<K, V>, e: nat) {
    e >= 1 && |t| == Pow2(e) && |t| >= 2 && t[0].Rehashed? && t[1].Rehashed?
  }

  lemma {:induction false} LeftStart<K, V>(t: Table<K, V>, e: nat, h: nat)
    requires LowRehashed(t, e) && h < |t|
    ensures OnlyUnder(t, t, e, h) && Left(t, t, e, h, SegmentIndexOf(h) + 1)
  {
    forall i: nat | i < |t| && Home(t, e, i) == h ensures Cut(i, SegmentIndexOf(h) + 1) == h {
      HomeCut(t, e, i);
    }
  }

  lemma {:induction false} ChildBounds(e: nat, h: nat, s: nat)
    requires SegmentIndexOf(h) < s < e
    ensures var j := h + Pow2(s);
            2 <= j < Pow2(e) && h < Pow2(s) && j < Pow2(s + 1) && Log2(j) == s && Parent(j) == h && SegmentBase(s) + h == j
  {
    hide Log2, Cut, Parent;
    SegmentLog(h);
    PowGrows(SegmentIndexOf(h) + 1, s);
    AddBit(h, s);
    EvenPow(s);
    PowGrows(s + 1, e);
    PowGrows(1, s);
    assert Pow2(1) == 2 * Pow2(0);
  }

  /** The child of `h` in segment `s`. */
  lemma {:induction false} ChildOf<K, V>(t: Table<K, V>, e: nat, h: nat, s: nat)
    requires LowRehashed(t, e) && h < |t| && t[h].Rehashed? && SegmentIndexOf(h) < s < e
    ensures var j := h + Pow2(s);
            2 <= j < |t| && h < j && Log2(j) == s < e && Parent(j) == h && SegmentBase(s) + h == j
    ensures t[h + Pow2(s)].Pending? ==> Home(t, e, h + Pow2(s)) == h
  {
    hide Log2, Cut, Parent, SegmentBase, SegmentIndexOf, Pow2;
    ChildBounds(e, h, s);
    var j := h + Pow2(s);
    if t[j].Pending? {
      ChildHome(t, e, h, s);
    }
  }

  lemma {:induction false} ChildHome<K, V>(t: Table<K, V>, e: nat, h: nat, s: nat)
    requires LowRehashed(t, e) && h < |t| && t[h].Rehashed? && h < Pow2(s) && s < e && h + Pow2(s) < |t| && t[h + Pow2(s)].Pending?
    requires h + Pow2(s) < Pow2(s + 1) && Log2(h + Pow2(s)) == s && Parent(h + Pow2(s)) == h
    ensures Home(t, e, h + Pow2(s)) == h
  {
    hide Log2;
    var j := h + Pow2(s);
    PowGrows(s + 1, e);
    PowGrows(s, e);
    HomeOfSmall(t, e, s + 1, j);
    CutSmall(j, s + 1);
    LowHome(t, s, j);
  }

  lemma {:induction false} LeftSkip<K, V>(t0: Table<K, V>, t: Table<K, V>, e: nat, h: nat, s: nat)
    requires LowRehashed(t0, e) && OnlyUnder(t0, t, e, h) && Left(t0, t, e, h, s) && SegmentIndexOf(h) < s < e
    requires h + Pow2(s) < |t| && t[h + Pow2(s)].Rehashed?
    ensures Left(t0, t, e, h, s + 1)
  {
    PowGrows(s + 1, e);
    forall i: nat | i < |t| && Home(t0, e, i) == h && t[i].Pending? ensures Cut(i, s + 1) == h {
      assert Cut(i, s) == h && Home(t, e, i) == h;
      CutStep(i, s);
      if Bit(i, s) {
        HomeAbove(t, e, i, s + 1);
      }
    }
  }

  /** A child that was pending, and everything below it, has been marked. */
  lemma {:induction false} LeftMark<K, V>(t0: Table<K, V>, t: Table<K, V>, t1: Table<K, V>, t2: Table<K, V>, e: nat, h: nat, s: nat)
    requires LowRehashed(t0, e) && h < |t0| && t0[h].Rehashed? && OnlyUnder(t0, t, e, h) && Left(t0, t, e, h, s)
    requires SegmentIndexOf(h) < s < e && h + Pow2(s) < |t| && t[h + Pow2(s)].Pending?
    requires t1 == t[h + Pow2(s) := Rehashed([])] && AllMarked(t1, t2, e, h + Pow2(s))
    ensures OnlyUnder(t0, t2, e, h) && Left(t0, t2, e, h, s + 1)
  {
    var j := h + Pow2(s);
    ChildOf(t0, e, h, s);
    assert t[0].Rehashed? && t[1].Rehashed? && t[h].Rehashed?;
    forall i: nat | i < |t| ensures MarkedFrom(t0, t, t1, t2, e, h, j, i) {
      LeftMarkAt(t0, t, t1, t2, e, h, s, i);
    }
    forall i: nat | i < |t| && Home(t0, e, i) == h && t2[i].Pending? ensures Cut(i, s + 1) == h && Home(t2, e, i) == h {
      LeftMarkRest(t0, t, t1, t2, e, h, s, i);
    }
    forall i | 0 <= i < |t0| ensures t2[i] == t0[i] || (t0[i].Pending? && t2[i] == Rehashed([]) && Home(t0, e, i) == h) {
      assert MarkedFrom(t0, t, t1, t2, e, h, j, i);
    }
  }

  ghost predicate MarkedFrom<K, V>(t0: Table<K, V>, t: Table<K, V>, t1: Table<K, V>, t2: Table<K, V>, e: nat, h: nat, j: nat, i: nat)
    requires Pow2(e) <= |t0| && i < |t0| && |t2| == |t0|
  {
    t2[i] == t0[i] || (t0[i].Pending? && t2[i] == Rehashed([]) && Home(t0, e, i) == h)
  }

  lemma {:induction false} LeftMarkAt<K, V>(t0: Table<K, V>, t: Table<K, V>, t1: Table<K, V>, t2: Table<K, V>, e: nat, h: nat,
                                            s: nat, i: nat)
    requires LowRehashed(t0, e) && h < |t0| && t0[h].Rehashed? && OnlyUnder(t0, t, e, h) && i < |t0|
    requires SegmentIndexOf(h) < s < e && h + Pow2(s) < |t| && t[h + Pow2(s)].Pending?
    requires t1 == t[h + Pow2(s) := Rehashed([])] && OnlyUnder(t1, t2, e, h + Pow2(s))
    ensures t2[i] == t0[i] || (t0[i].Pending? && t2[i] == Rehashed([]) && Home(t0, e, i) == h)
  {
    var j := h + Pow2(s);
    ChildOf(t0, e, h, s);
    assert t[0].Rehashed? && t[1].Rehashed? && t[h].Rehashed?;
    assert t2[i] == t1[i] || Home(t1, e, i) == j;
    if i != j && t2[i] != t1[i] {
      HomeSplits(t, t1, e, j, i);
      HomeRehashed(t, e, i);
      if Home(t0, e, i) != h {
        HomeMarked(t0, t, e, h, e, i);
      }
    }
  }

  lemma {:induction false} LeftMarkRest<K, V>(t0: Table<K, V>, t: Table<K, V>, t1: Table<K, V>, t2: Table<K, V>, e: nat, h: nat,
                                              s: nat, i: nat)
    requires LowRehashed(t0, e) && h < |t0| && t0[h].Rehashed? && OnlyUnder(t0, t, e, h) && Left(t0, t, e, h, s) && i < |t0|
    requires SegmentIndexOf(h) < s < e && h + Pow2(s) < |t| && t[h + Pow2(s)].Pending?
    requires t1 == t[h + Pow2(s) := Rehashed([])] && AllMarked(t1, t2, e, h + Pow2(s))
    requires Home(t0, e, i) == h && t2[i].Pending?
    ensures Cut(i, s + 1) == h && Home(t2, e, i) == h
  {
    var j := h + Pow2(s);
    ChildOf(t0, e, h, s);
    assert t[0].Rehashed? && t[1].Rehashed? && t[h].Rehashed?;
    assert t2[i] == t1[i] && i != j;
    assert t[i].Pending?;
    assert Cut(i, s) == h && Home(t, e, i) == h;
    HomeSplits(t, t1, e, j, i);
    CutStep(i, s);
    HomeMarked(t1, t2, e, j, e, i);
  }

  lemma {:induction false} LeftEnd<K, V>(t0: Table<K, V>, t: Table<K, V>, e: nat, h: nat)
    requires LowRehashed(t0, e) && OnlyUnder(t0, t, e, h) && h < |t0| && t0[h].Rehashed? && Left(t0, t, e, h, e)
    ensures AllMarked(t0, t, e, h)
  {
    forall i: nat | i < |t0| && Home(t0, e, i) == h ensures t[i].Rehashed? {
      CutSmall(i, e);
      assert t[h].Rehashed?;
      assert t[i].Pending? ==> Cut(i, e) == h;
    }
  }

  // ---- moving the items of a root ----

  /** The keys of a list. */
  ghost function Keys<K, V>(l: seq<(K, V)>): set<K> {
    set x | x in l :: x.0
  }

  /** The map with the items of `l` added in order. */
  ghost function AddAll<K, V>(m: map<K, V>, l: seq<(K, V)>): map<K, V>
    decreases |l|
  {
    if l == [] then m else AddAll(m[l[0].0 := l[0].1], l[1..])
  }

  lemma {:induction false} AddBack<K, V>(m: map<K, V>, l: seq<(K, V)>)
    requires UniqueKeys(l) && forall x {:trigger x in l} :: x in l ==> x.0 in m && m[x.0] == x.1
    ensures AddAll(m - Keys(l), l) == m
    decreases |l|
  {
    if l == [] {
      assert Keys(l) == {};
    } else {
      var x, r := l[0], l[1..];
      assert l == [x] + r;
      forall y | y in r ensures y in l {
      }
      UniqueKeysTail(l);
      AddBack(m, r);
      assert (m - Keys(l))[x.0 := x.1] == m - Keys(r);
    }
  }

  lemma {:induction false} UniqueKeysTail<K, V>(l: seq<(K, V)>)
    requires UniqueKeys(l) && l != []
    ensures UniqueKeys(l[1..]) && l[0].0 !in Keys(l[1..])
    ensures Keys(l) == {l[0].0} + Keys(l[1..])
  {
    var r := l[1..];
    assert forall i {:trigger r[i]} :: 0 <= i < |r| ==> r[i] == l[i + 1];
    assert l == [l[0]] + r;
    forall x | x in l ensures x.0 in {l[0].0} + Keys(r) {
      assert x == l[0] || x in r;
    }
    assert l[0] in l;
    forall x | x in r ensures x in l {
    }
  }

  /** Without the items of bucket `h` the table holds the rest of the map. */
  lemma {:induction false} ClearHolds<K, V>(t: Table<K, V>, e: nat, hash: K -> nat, m: map<K, V>, h: nat)
    requires Holds(t, e, hash, m) && h < |t| && t[h].Rehashed?
    ensures Holds(t[h := Rehashed([])], e, hash, m - Keys(t[h].items))
  {
    hide Home;
    var l := t[h].items;
    var t', m' := t[h := Rehashed([])], m - Keys(l);
    WriteRooted(t, e, h, []);
    forall q | 0 <= q < |t'| && t'[q].Rehashed?
      ensures UniqueKeys(t'[q].items)
      ensures forall x {:trigger x in t'[q].items} :: x in t'[q].items ==> Home(t', e, hash(x.0)) == q && x.0 in m' && m'[x.0] == x.1
    {
      UniqueKeysAt(t, e, hash, m, q);
      forall x | x in t'[q].items ensures Home(t', e, hash(x.0)) == q && x.0 in m' && m'[x.0] == x.1 {
        PlacedAt(t, e, hash, m, q, x);
        KeyElsewhere(t, e, hash, m, h, q, x.0);
      }
    }
    forall k | k in m' ensures HasItem(t', Home(t', e, hash(k)), k, m'[k]) {
      CompleteAt(t, e, hash, m, k);
      assert m'[k] == m[k];
      HomeKey(t, e, hash, m, h, k);
    }
  }

  lemma {:induction false} HomeKey<K, V>(t: Table<K, V>, e: nat, hash: K -> nat, m: map<K, V>, h: nat, k: K)
    requires Holds(t, e, hash, m) && h < |t| && t[h].Rehashed? && k in m
    ensures Home(t, e, hash(k)) == h ==> k in Keys(t[h].items)
  {
    CompleteAt(t, e, hash, m, k);
    assert Home(t, e, hash(k)) == h ==> (k, m[k]) in t[h].items;
  }

  /** A key that lives in bucket `q` is not among those of bucket `h`. */
  lemma {:induction false} KeyElsewhere<K, V>(t: Table<K, V>, e: nat, hash: K -> nat, m: map<K, V>, h: nat, q: nat, k: K)
    requires Holds(t, e, hash, m) && h < |t| && t[h].Rehashed? && Home(t, e, hash(k)) == q
    ensures q != h ==> k !in Keys(t[h].items)
  {
    forall x | x in t[h].items ensures Home(t, e, hash(x.0)) == h {
      PlacedAt(t, e, hash, m, h, x);
    }
  }

  lemma {:induction false} MarkedRooted<K, V>(t: Table<K, V>, t': Table<K, V>, e: nat, h: nat)
    requires Rooted(t, e) && h < |t| && t[h].Rehashed? && AllMarked(t, t', e, h)
    ensures Rooted(t', e)
  {
    assert t'[0].Rehashed? && t'[1].Rehashed?;
    forall i | 2 <= i < |t'| && t'[i].Rehashed? ensures t'[Parent(i)].Rehashed? {
      assert t'[i] == t[i] || t[i].Pending?;
      if t[i].Pending? {
        HomeOfParent(t, e, i);
        assert Home(t, e, Parent(i)) == h;
      } else {
        assert t[i].Rehashed?;
        assert t'[Parent(i)] == t[Parent(i)] || t'[Parent(i)].Rehashed?;
      }
    }
  }

  /** A pending bucket has the home of its parent. */
  lemma {:induction false} HomeOfParent<K, V>(t: Table<K, V>, e: nat, i: nat)
    requires e >= 1 && 2 <= i < Pow2(e) == |t| && t[i].Pending?
    ensures Home(t, e, Parent(i)) == Home(t, e, i)
  {
    hide Home;
    CutSmall(i, e);
    CutSmall(Parent(i), e);
    HomeByLevels(t, e, i);
    HomeByLevels(t, e, Parent(i));
  }

  /** Marking below an empty root keeps the table in order. */
  lemma {:induction false} MarkHolds<K, V>(t: Table<K, V>, t': Table<K, V>, e: nat, hash: K -> nat, m: map<K, V>, h: nat)
    requires Holds(t, e, hash, m) && h < |t| && t[h] == Rehashed([]) && AllMarked(t, t', e, h)
    ensures Holds(t', e, hash, m)
  {
    hide Home;
    MarkedRooted(t, t', e, h);
    forall q | 0 <= q < |t'| && t'[q].Rehashed?
      ensures UniqueKeys(t'[q].items)
      ensures forall x {:trigger x in t'[q].items} :: x in t'[q].items ==> Home(t', e, hash(x.0)) == q && x.0 in m && m[x.0] == x.1
    {
      assert t'[q] == t[q] || t'[q] == Rehashed([]);
      if t'[q] == t[q] {
        UniqueKeysAt(t, e, hash, m, q);
        forall x | x in t'[q].items ensures Home(t', e, hash(x.0)) == q && x.0 in m && m[x.0] == x.1 {
          PlacedAt(t, e, hash, m, q, x);
          HomeMarked(t, t', e, h, e, hash(x.0));
        }
      }
    }
    forall k | k in m ensures HasItem(t', Home(t', e, hash(k)), k, m[k]) {
      CompleteAt(t, e, hash, m, k);
      HomeMarked(t, t', e, h, e, hash(k));
      assert t'[Home(t, e, hash(k))] == t[Home(t, e, hash(k))];
    }
  }

  /** What is left of the list of the root: items that are not in `m1` yet, and whose masked codes
      are their homes now. */
  ghost predicate Rest<K, V>(t: Table<K, V>, e: nat, hash: K -> nat, m: map<K, V>, m1: map<K, V>, l: seq<(K, V)>)
    requires Pow2(e) <= |t|
  {
    && UniqueKeys(l) && AddAll(m1, l) == m
    && forall x {:trigger x in l} :: x in l ==> x.0 !in m1 && Home(t, e, hash(x.0)) == Cut(hash(x.0), e)
  }

  /** The first `i` items of bucket `h` are where they belong; the others still have to move. */
  ghost predicate Moving<K, V>(t: Table<K, V>, e: nat, hash: K -> nat, m: map<K, V>, h: nat, i: nat, m1: map<K, V>) {
    && h < |t| && t[h].Rehashed? && i <= |t[h].items|
    && Holds(t[h := Rehashed(t[h].items[..i])], e, hash, m1)
    && Rest(t[h := Rehashed(t[h].items[..i])], e, hash, m, m1, t[h].items[i..])
  }

  lemma {:induction false} RestNext<K, V>(t: Table<K, V>, t': Table<K, V>, e: nat, hash: K -> nat, m: map<K, V>, m1: map<K, V>, l: seq<(K, V)>)
    requires Pow2(e) <= |t| && Rest(t, e, hash, m, m1, l) && l != [] && |t'| == |t|
    requires forall c {:trigger Home(t', e, c)} :: Home(t', e, c) == Home(t, e, c)
    ensures l[0].0 !in m1 && Home(t, e, hash(l[0].0)) == Cut(hash(l[0].0), e)
    ensures Rest(t', e, hash, m, m1[l[0].0 := l[0].1], l[1..])
  {
    hide Home;
    var r := l[1..];
    UniqueKeysTail(l);
    assert l[0] in l;
    forall x | x in r ensures x.0 !in m1[l[0].0 := l[0].1] && Home(t', e, hash(x.0)) == Cut(hash(x.0), e) {
      assert x in l && x.0 in Keys(r);
    }
  }

  lemma {:induction false} MoveStay<K, V>(t: Table<K, V>, e: nat, hash: K -> nat, m: map<K, V>, h: nat, i: nat, m1: map<K, V>)
    requires Moving(t, e, hash, m, h, i, m1) && i < |t[h].items| && Cut(hash(t[h].items[i].0), e) == h
    ensures var x := t[h].items[i]; Moving(t, e, hash, m, h, i + 1, m1[x.0 := x.1])
  {
    hide Holds, Rest, Home;
    var l, x := t[h].items, t[h].items[i];
    var v, v' := t[h := Rehashed(l[..i])], t[h := Rehashed(l[..i + 1])];
    assert l[..i + 1] == l[..i] + [x] && l[i..][0] == x && l[i..][1..] == l[i + 1..];
    RootedOf(v, e, hash, m1);
    SameHomes(v, v', e);
    RestNext(v, v', e, hash, m, m1, l[i..]);
    InsertHolds(v, e, hash, m1, x.0, x.1);
    assert v[h := Rehashed(l[..i] + [x])] == v';
  }

  lemma {:induction false} RootedOf<K, V>(t: Table<K, V>, e: nat, hash: K -> nat, m: map<K, V>)
    requires Holds(t, e, hash, m)
    ensures Rooted(t, e) && Pow2(e) <= |t|
  {
  }

  lemma {:induction false} SameHomes<K, V>(t: Table<K, V>, t': Table<K, V>, e: nat)
    requires Pow2(e) <= |t| && Pow2(e) <= |t'|
    requires forall i {:trigger t[i]} {:trigger t'[i]} :: 0 <= i < Pow2(e) ==> t[i].Rehashed? == t'[i].Rehashed?
    ensures forall c {:trigger Home(t', e, c)} :: Home(t', e, c) == Home(t, e, c)
  {
    forall c ensures Home(t', e, c) == Home(t, e, c) {
      SameHome(t, t', e, c);
    }
  }

  /** An item whose masked code is another bucket moves to the front of that bucket. */
  function MovedAway<K, V>(t: Table<K, V>, h: nat, i: nat, q: nat): Table<K, V>
    requires h < |t| && q < |t| && t[h].Rehashed? && t[q].Rehashed? && i < |t[h].items|
  {
    var l := t[h].items;
    t[h := Rehashed(l[..i] + l[i + 1..])][q := Rehashed([l[i]] + t[q].items)]
  }

  lemma {:induction false} MoveAway<K, V>(t: Table<K, V>, e: nat, hash: K -> nat, m: map<K, V>, h: nat, i: nat, m1: map<K, V>)
    requires Moving(t, e, hash, m, h, i, m1) && i < |t[h].items| && Cut(hash(t[h].items[i].0), e) != h
    ensures var x := t[h].items[i]; var q := Cut(hash(x.0), e);
            && q < |t| && t[q].Rehashed? && Moving(MovedAway(t, h, i, q), e, hash, m, h, i, m1[x.0 := x.1])
  {
    hide Holds, Rest, Home;
    var l, x := t[h].items, t[h].items[i];
    var q, v := Cut(hash(x.0), e), t[h := Rehashed(l[..i])];
    RootedOf(v, e, hash, m1);
    assert l[i..][0] == x && l[i..][1..] == l[i + 1..];
    RestNext(v, v, e, hash, m, m1, l[i..]);
    InsertHolds(v, e, hash, m1, x.0, x.1);
    assert v[q] == t[q];
    var t', r := MovedAway(t, h, i, q), l[..i] + l[i + 1..];
    var v' := t'[h := Rehashed(t'[h].items[..i])];
    assert t'[h].items == r && r[..i] == l[..i] && r[i..] == l[i + 1..];
    assert v' == v[q := Rehashed([x] + v[q].items)];
    SameHomes(v, v', e);
    RestNext(v, v', e, hash, m, m1, l[i..]);
  }

  lemma {:induction false} MoveEnd<K, V>(t: Table<K, V>, e: nat, hash: K -> nat, m: map<K, V>, h: nat, i: nat, m1: map<K, V>)
    requires Moving(t, e, hash, m, h, i, m1) && i >= |t[h].items|
    ensures Holds(t, e, hash, m)
  {
    hide Holds;
    assert t[h].items[..i] == t[h].items && t[h := t[h]] == t && t[h].items[i..] == [];
  }

  /** All buckets below root `h` have been marked: its items can move. */
  lemma {:induction false} MoveStart<K, V>(t: Table<K, V>, t': Table<K, V>, e: nat, hash: K -> nat, m: map<K, V>, h: nat)
    requires Holds(t, e, hash, m) && h < |t| && t[h].Rehashed? && AllMarked(t, t', e, h)
    ensures t'[h] == t[h] && Moving(t', e, hash, m, h, 0, m - Keys(t[h].items))
  {
    hide Home, Placed, Complete, Rooted;
    var l, m1 := t[h].items, m - Keys(t[h].items);
    var c, c' := t[h := Rehashed([])], t'[h := Rehashed([])];
    RootedOf(t, e, hash, m);
    ClearHolds(t, e, hash, m, h);
    RootedOf(c, e, hash, m1);
    ClearMarked(t, t', e, h);
    MarkHolds(c, c', e, hash, m1, h);
    UniqueKeysAt(t, e, hash, m, h);
    forall x | x in l ensures x.0 in m && m[x.0] == x.1 && x.0 !in m1 && Home(c', e, hash(x.0)) == Cut(hash(x.0), e) {
      PlacedAt(t, e, hash, m, h, x);
      assert x.0 in Keys(l);
      HomeAfterMark(t, t', c', e, h, hash(x.0));
    }
    AddBack(m, l);
    assert l[..0] == [] && l[0..] == l;
  }

  lemma {:induction false} ClearMarked<K, V>(t: Table<K, V>, t': Table<K, V>, e: nat, h: nat)
    requires Pow2(e) <= |t| && h < |t| && t[h].Rehashed? && AllMarked(t, t', e, h)
    ensures t'[h] == t[h] && AllMarked(t[h := Rehashed([])], t'[h := Rehashed([])], e, h)
  {
    hide Home;
    assert t'[h] == t[h];
    var c, c' := t[h := Rehashed([])], t'[h := Rehashed([])];
    SameHomes(t, c, e);
    forall i | 0 <= i < |c| ensures c'[i] == c[i] || (c[i].Pending? && c'[i] == Rehashed([]) && Home(c, e, i) == h) {
      assert t'[i] == t[i] || Home(t, e, i) == h;
      assert Home(c, e, i) == Home(t, e, i);
    }
    forall i | 0 <= i < |c| && Home(c, e, i) == h ensures c'[i].Rehashed? {
      assert Home(c, e, i) == Home(t, e, i);
      assert t'[i].Rehashed?;
    }
  }

  /** After marking, a code whose home was the root is at home in its masked bucket. */
  lemma {:induction false} HomeAfterMark<K, V>(t: Table<K, V>, t': Table<K, V>, c': Table<K, V>, e: nat, h: nat, c: nat)
    requires Pow2(e) <= |t| && AllMarked(t, t', e, h) && Home(t, e, c) == h && h < |t| && c' == t'[h := Rehashed([])]
    ensures Home(c', e, c) == Cut(c, e)
  {
    HomeOfCut(t, e, c);
    assert t'[Cut(c, e)].Rehashed?;
    LowHome(c', e, c);
  }

  // ---- the scan of the last segment ----

  /** A pending bucket anywhere has a pending bucket above it in the last segment. */
  lemma {:induction false} LastSegmentTells<K, V>(t: Table<K, V>, e: nat)
    requires Rooted(t, e) && Pow2(e - 1) <= |t|
    requires forall i {:trigger t[i]} :: Pow2(e - 1) <= i < |t| ==> t[i].Rehashed?
    ensures forall i {:trigger t[i]} :: 0 <= i < |t| ==> t[i].Rehashed?
    ensures forall c {:trigger Home(t, e, c)} :: Home(t, e, c) == Cut(c, e)
  {
    PowGrows(e - 1, e);
    forall i | 0 <= i < |t| ensures t[i].Rehashed? {
      if 2 <= i < Pow2(e - 1) {
        AddBit(i, e - 1);
        assert t[i + Pow2(e - 1)].Rehashed?;
      }
    }
    forall c ensures Home(t, e, c) == Cut(c, e) {
      LowHome(t, e, c);
    }
  }
}
