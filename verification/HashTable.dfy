/** The bucket array of the concurrent hash map as a value: which bucket holds which items while
    buckets are split lazily. A mask `2^e - 1` is represented by its level `e`. */
module HashTable {
  import opened HashBits

  /** A bucket that has not been rehashed yet holds no list of its own. */
  datatype Bucket<+K, +V> = Pending | Rehashed(items: seq<(K, V)>)

  type Table<+K, +V> = seq<Bucket<K, V>>

  /** Every rehashed bucket has a rehashed parent, and the two lowest buckets are rehashed. */
  ghost predicate Rooted<K, V>(t: Table<K, V>, e: nat) {
    && e >= 1 && |t| == Pow2(e) && |t| >= 2 && t[0].Rehashed? && t[1].Rehashed?
    && forall i {:trigger t[i].Rehashed?} :: 2 <= i < |t| && t[i].Rehashed? ==> t[Parent(i)].Rehashed?
  }

  /** The first rehashed bucket on the way from `c & mask` down, clearing the topmost bits. */
  function Home<K, V>(t: Table<K, V>, e: nat, c: nat): (i: nat)
    requires Pow2(e) <= |t|
    ensures i < Pow2(e)
    decreases e
  {
    if e <= 1 || t[Cut(c, e)].Rehashed? then Cut(c, e)
    else
      assert Pow2(e) == 2 * Pow2(e - 1);
      Home(t, e - 1, c)
  }

  lemma {:induction false} HomeRehashed<K, V>(t: Table<K, V>, e: nat, c: nat)
    requires 1 <= e && Pow2(e) <= |t| && t[0].Rehashed? && |t| >= 2 && t[1].Rehashed?
    ensures t[Home(t, e, c)].Rehashed?
    decreases e
  {
    if e > 1 {
      assert Pow2(e) == 2 * Pow2(e - 1);
      HomeRehashed(t, e - 1, c);
    } else {
      assert Pow2(1) == 2 * Pow2(0);
    }
  }

  /** The home of a code is reached from its masked index by repeatedly taking the parent. */
  lemma {:induction false} HomeByParents<K, V>(t: Table<K, V>, e: nat, c: nat)
    requires Rooted(t, e)
    ensures Home(t, e, c) == RootOf(t, Cut(c, e))
  {
    HomeByLevels(t, e, c);
  }

  function RootOf<K, V>(t: Table<K, V>, i: nat): nat
    requires i < |t|
  {
    if i < 2 || t[i].Rehashed? then i else RootOf(t, Parent(i))
  }

  lemma {:induction false} HomeByLevels<K, V>(t: Table<K, V>, e: nat, c: nat)
    requires e >= 1 && Pow2(e) <= |t|
    ensures Home(t, e, c) == RootOf(t, Cut(c, e))
    decreases e
  {
    if e > 1 {
      assert Pow2(e) == 2 * Pow2(e - 1);
      HomeByLevels(t, e - 1, c);
      CutStep(c, e - 1);
      if Bit(c, e - 1) {
        ParentOfStep(c, e - 1);
        PowGrows(1, e - 1);
      } else {
        LowRoot(t, e, c);
      }
    } else {
      assert Pow2(1) == 2 * Pow2(0);
    }
  }

  lemma {:induction false} LowRoot<K, V>(t: Table<K, V>, e: nat, c: nat)
    requires e > 1 && Pow2(e) <= |t| && Cut(c, e) == Cut(c, e - 1) && Pow2(e - 1) <= |t|
    ensures t[Cut(c, e)].Rehashed? ==> Home(t, e - 1, c) == Cut(c, e)
    decreases e
  {
  }

  // ---- contents ----

  /** No key twice. */
  ghost predicate UniqueKeys<K, V>(l: seq<(K, V)>) {
    forall i, j {:trigger l[i], l[j]} :: 0 <= i < j < |l| ==> l[i].0 != l[j].0
  }

  /** Every item lies in its home bucket and is part of the map. */
  ghost predicate Placed<K, V>(t: Table<K, V>, e: nat, hash: K -> nat, m: map<K, V>)
    requires Pow2(e) <= |t|
  {
    forall i {:trigger t[i].items} :: 0 <= i < |t| && t[i].Rehashed? ==>
      UniqueKeys(t[i].items) && forall x {:trigger x in t[i].items} :: x in t[i].items ==>
        Home(t, e, hash(x.0)) == i && x.0 in m && m[x.0] == x.1
  }

  /** Every entry of the map is an item of its home bucket. */
  ghost predicate Complete<K, V>(t: Table<K, V>, e: nat, hash: K -> nat, m: map<K, V>)
    requires Pow2(e) <= |t|
  {
    forall k {:trigger m[k]} :: k in m ==> HasItem(t, Home(t, e, hash(k)), k, m[k])
  }

  ghost predicate HasItem<K, V>(t: Table<K, V>, i: nat, k: K, v: V) {
    i < |t| && t[i].Rehashed? && (k, v) in t[i].items
  }

  /** The table at level `e` holds the map `m`. */
  ghost predicate Holds<K, V>(t: Table<K, V>, e: nat, hash: K -> nat, m: map<K, V>) {
    Rooted(t, e) && Placed(t, e, hash, m) && Complete(t, e, hash, m)
  }

  // ---- the home bucket when the table changes ----

  /** New segments of pending buckets move nobody. */
  lemma {:induction false} HomeGrows<K, V>(t: Table<K, V>, e: nat, t': Table<K, V>, l: nat, c: nat)
    requires 1 <= e <= l && |t| == Pow2(e) && Pow2(l) <= |t'| && t <= t'
    requires forall i {:trigger t'[i]} :: |t| <= i < |t'| ==> t'[i].Pending?
    ensures Home(t', l, c) == Home(t, e, c)
    decreases l
  {
    if l == e {
      SameHome(t, t', e, c);
    } else {
      assert Pow2(l) == 2 * Pow2(l - 1);
      HomeGrows(t, e, t', l - 1, c);
      var i := Cut(c, l);
      if i < |t| {
        CutCut(c, e, l);
        CutSmall(i, e);
        assert t'[i] == t[i];
      }
    }
  }

  lemma {:induction false} SameHome<K, V>(t: Table<K, V>, t': Table<K, V>, e: nat, c: nat)
    requires Pow2(e) <= |t| && Pow2(e) <= |t'|
    requires forall i {:trigger t[i]} {:trigger t'[i]} :: 0 <= i < Pow2(e) ==> t[i].Rehashed? == t'[i].Rehashed?
    ensures Home(t, e, c) == Home(t', e, c)
    decreases e
  {
    if e > 1 {
      assert Pow2(e) == 2 * Pow2(e - 1);
      SameHome(t, t', e - 1, c);
    }
  }

  /** Code `c` belongs to bucket `h` once that bucket is split off its parent. */
  predicate Belongs(c: nat, h: nat)
    requires h > 0
  {
    Cut(c, Log2(h) + 1) == h
  }

  /** The tables differ in bucket `h` only, which `t'` has rehashed. */
  ghost predicate SplitsOff<K, V>(t: Table<K, V>, t': Table<K, V>, h: nat) {
    && 2 <= h < |t| == |t'| && t[h].Pending? && t'[h].Rehashed? && t[Parent(h)].Rehashed?
    && forall i {:trigger t'[i]} :: 0 <= i < |t| && i != h ==> t'[i].Rehashed? == t[i].Rehashed?
  }

  predicate Taken<K, V>(t: Table<K, V>, e: nat, h: nat, c: nat)
    requires Pow2(e) <= |t| && h > 0
  {
    Home(t, e, c) == Parent(h) && Belongs(c, h)
  }

  /** At the lowest level that has a bucket `h`. */
  lemma {:induction false} HomeSplitsLow<K, V>(t: Table<K, V>, t': Table<K, V>, h: nat, c: nat)
    requires SplitsOff(t, t', h) && Pow2(Log2(h) + 1) <= |t|
    ensures var e := Log2(h) + 1; Home(t', e, c) == if Taken(t, e, h, c) then h else Home(t, e, c)
  {
    var b := Log2(h);
    LogAtLeast(h);
    assert Pow2(b + 1) == 2 * Pow2(b);
    if Cut(c, b + 1) == h {
      ParentCut(c, b + 1);
      LowHome(t, b, c);
    } else {
      HomeBelow(t, t', b, h, c);
    }
  }

  /** Splitting bucket `h` off its rehashed parent takes exactly the codes that belong to it. */
  lemma {:induction false} HomeSplits<K, V>(t: Table<K, V>, t': Table<K, V>, e: nat, h: nat, c: nat)
    requires SplitsOff(t, t', h) && Log2(h) < e && Pow2(e) <= |t|
    ensures Home(t', e, c) == if Taken(t, e, h, c) then h else Home(t, e, c)
    decreases e
  {
    hide Log2, Cut;
    var b := Log2(h);
    LogAtLeast(h);
    if e == b + 1 {
      HomeSplitsLow(t, t', h, c);
    } else {
      PowGrows(e - 1, e);
      HomeSplits(t, t', e - 1, h, c);
      SplitAbove(t, t', e, h, c);
    }
  }

  /** One level up, a rehashed bucket decides, and no bucket but `h` does so differently. */
  lemma {:induction false} SplitAbove<K, V>(t: Table<K, V>, t': Table<K, V>, e: nat, h: nat, c: nat)
    requires SplitsOff(t, t', h) && 1 <= Log2(h) < e - 1 && Pow2(e) <= |t| && Pow2(e - 1) <= |t|
    requires Home(t', e - 1, c) == if Taken(t, e - 1, h, c) then h else Home(t, e - 1, c)
    ensures Home(t', e, c) == if Taken(t, e, h, c) then h else Home(t, e, c)
  {
    hide Log2, Cut;
    var b, i := Log2(h), Cut(c, e);
    if i == h {
      CutTop(c, e, b + 1);
      CutTop(c, e, e - 1);
      LowHome(t', e - 1, c);
    } else if t[i].Rehashed? {
      CutMono(c, b + 1, e);
    }
  }

  lemma {:induction false} LogAtLeast(h: nat)
    requires h >= 2
    ensures Log2(h) >= 1
  {
  }

  /** A rehashed bucket at the current level is the home. */
  lemma {:induction false} LowHome<K, V>(t: Table<K, V>, e: nat, c: nat)
    requires Pow2(e) <= |t| && t[Cut(c, e)].Rehashed?
    ensures Home(t, e, c) == Cut(c, e)
  {
  }

  lemma {:induction false} HomeBelow<K, V>(t: Table<K, V>, t': Table<K, V>, e: nat, h: nat, c: nat)
    requires Pow2(e) <= h < |t| == |t'|
    requires forall i {:trigger t'[i]} :: 0 <= i < |t| && i != h ==> t'[i].Rehashed? == t[i].Rehashed?
    ensures Home(t', e, c) == Home(t, e, c)
  {
    SameHome(t, t', e, c);
  }

  // ---- every operation keeps the table in order ----

  lemma {:induction false} PlacedAt<K, V>(t: Table<K, V>, e: nat, hash: K -> nat, m: map<K, V>, i: nat, x: (K, V))
    requires Holds(t, e, hash, m) && i < |t| && t[i].Rehashed? && x in t[i].items
    ensures Home(t, e, hash(x.0)) == i && x.0 in m && m[x.0] == x.1
  {
  }

  lemma {:induction false} UniqueKeysAt<K, V>(t: Table<K, V>, e: nat, hash: K -> nat, m: map<K, V>, i: nat)
    requires Holds(t, e, hash, m) && i < |t| && t[i].Rehashed?
    ensures UniqueKeys(t[i].items)
  {
    hide Home;
    assert t[i].items == t[i].items;
  }

  lemma {:induction false} CompleteAt<K, V>(t: Table<K, V>, e: nat, hash: K -> nat, m: map<K, V>, k: K)
    requires Holds(t, e, hash, m) && k in m
    ensures HasItem(t, Home(t, e, hash(k)), k, m[k])
  {
  }

  /** The items of the parent that stay there when bucket `h` is split off, and those that move to it. */
  function Stay<K, V>(l: seq<(K, V)>, hash: K -> nat, h: nat): seq<(K, V)>
    requires h > 0
  {
    if l == [] then []
    else
      var x := l[|l| - 1];
      Stay(l[..|l| - 1], hash, h) + if Belongs(hash(x.0), h) then [] else [x]
  }

  function Moved<K, V>(l: seq<(K, V)>, hash: K -> nat, h: nat): seq<(K, V)>
    requires h > 0
  {
    if l == [] then []
    else
      var x := l[|l| - 1];
      (if Belongs(hash(x.0), h) then [x] else []) + Moved(l[..|l| - 1], hash, h)
  }

  lemma {:induction false} SplitItems<K, V>(l: seq<(K, V)>, hash: K -> nat, h: nat, x: (K, V))
    requires h > 0
    ensures x in Stay(l, hash, h) <==> x in l && !Belongs(hash(x.0), h)
    ensures x in Moved(l, hash, h) <==> x in l && Belongs(hash(x.0), h)
    decreases |l|
  {
    if l != [] {
      SplitItems(l[..|l| - 1], hash, h, x);
      assert l == l[..|l| - 1] + [l[|l| - 1]];
    }
  }

  lemma {:induction false} UniqueKeysSnoc<K, V>(l: seq<(K, V)>, x: (K, V))
    requires UniqueKeys(l) && NoKey(l, x.0)
    ensures UniqueKeys(l + [x]) && UniqueKeys([x] + l)
  {
    var r := [x] + l;
    forall i, j | 0 <= i < j < |r| ensures r[i].0 != r[j].0 {
      assert r[j] == l[j - 1];
      if i > 0 {
        assert r[i] == l[i - 1];
      }
    }
  }

  ghost predicate NoKey<K, V>(l: seq<(K, V)>, k: K) {
    forall i {:trigger l[i]} :: 0 <= i < |l| ==> l[i].0 != k
  }

  lemma {:induction false} NoKeyPart<K, V>(l: seq<(K, V)>, s: seq<(K, V)>, k: K)
    requires NoKey(l, k) && forall i {:trigger s[i]} :: 0 <= i < |s| ==> s[i] in l
    ensures NoKey(s, k)
  {
  }

  lemma {:induction false} SplitLast<K, V>(l: seq<(K, V)>, hash: K -> nat, h: nat)
    requires h > 0 && l != []
    ensures var init, x := l[..|l| - 1], l[|l| - 1];
            if Belongs(hash(x.0), h) then
              Stay(l, hash, h) == Stay(init, hash, h) && Moved(l, hash, h) == [x] + Moved(init, hash, h)
            else Stay(l, hash, h) == Stay(init, hash, h) + [x] && Moved(l, hash, h) == Moved(init, hash, h)
  {
  }

  lemma {:induction false} UniqueKeysInit<K, V>(l: seq<(K, V)>)
    requires UniqueKeys(l) && l != []
    ensures UniqueKeys(l[..|l| - 1]) && NoKey(l[..|l| - 1], l[|l| - 1].0)
  {
    var init := l[..|l| - 1];
    forall i | 0 <= i < |init| ensures init[i] == l[i] && init[i].0 != l[|l| - 1].0 {
    }
  }

  lemma {:induction false} SplitNoDup<K, V>(l: seq<(K, V)>, hash: K -> nat, h: nat)
    requires h > 0 && UniqueKeys(l)
    ensures UniqueKeys(Stay(l, hash, h)) && UniqueKeys(Moved(l, hash, h))
    decreases |l|
  {
    hide Stay, Moved, Belongs, UniqueKeys, NoKey;
    if l == [] {
      UniqueKeysNil(hash, h, l);
    } else {
      var init, x := l[..|l| - 1], l[|l| - 1];
      UniqueKeysInit(l);
      SplitNoDup(init, hash, h);
      SplitLast(l, hash, h);
      var s, d := Stay(init, hash, h), Moved(init, hash, h);
      forall i | 0 <= i < |s| ensures s[i] in init {
        SplitItems(init, hash, h, s[i]);
      }
      forall i | 0 <= i < |d| ensures d[i] in init {
        SplitItems(init, hash, h, d[i]);
      }
      NoKeyPart(init, s, x.0);
      NoKeyPart(init, d, x.0);
      if Belongs(hash(x.0), h) {
        UniqueKeysSnoc(Moved(init, hash, h), x);
      } else {
        UniqueKeysSnoc(Stay(init, hash, h), x);
      }
    }
  }

  lemma {:induction false} UniqueKeysNil<K, V>(hash: K -> nat, h: nat, l: seq<(K, V)>)
    requires h > 0 && l == []
    ensures UniqueKeys(Stay(l, hash, h)) && UniqueKeys(Moved(l, hash, h))
  {
  }

  /** Bucket `h` is split off its parent. */
  function Split<K, V>(t: Table<K, V>, hash: K -> nat, h: nat): Table<K, V>
    requires 0 < h < |t| && t[Parent(h)].Rehashed?
  {
    var l := t[Parent(h)].items;
    t[Parent(h) := Rehashed(Stay(l, hash, h))][h := Rehashed(Moved(l, hash, h))]
  }

  lemma {:induction false} SplitRooted<K, V>(t: Table<K, V>, e: nat, hash: K -> nat, h: nat)
    requires Rooted(t, e) && 2 <= h < |t| && t[h].Pending? && t[Parent(h)].Rehashed?
    ensures Rooted(Split(t, hash, h), e)
  {
    var t' := Split(t, hash, h);
    forall i | 2 <= i < |t'| && t'[i].Rehashed? ensures t'[Parent(i)].Rehashed? {
      assert i != h ==> t[i].Rehashed?;
    }
  }

  lemma {:induction false} SplitHome<K, V>(t: Table<K, V>, e: nat, hash: K -> nat, h: nat, c: nat)
    requires Rooted(t, e) && 2 <= h < |t| && t[h].Pending? && t[Parent(h)].Rehashed?
    ensures Home(Split(t, hash, h), e, c) == if Home(t, e, c) == Parent(h) && Belongs(c, h) then h else Home(t, e, c)
  {
    LogBelow(h, e);
    HomeSplits(t, Split(t, hash, h), e, h, c);
  }

  lemma {:induction false} SplitHolds<K, V>(t: Table<K, V>, e: nat, hash: K -> nat, m: map<K, V>, h: nat)
    requires Holds(t, e, hash, m) && 2 <= h < |t| && t[h].Pending? && t[Parent(h)].Rehashed?
    ensures Holds(Split(t, hash, h), e, hash, m)
  {
    hide Home, Stay, Moved, Belongs;
    var p, t' := Parent(h), Split(t, hash, h);
    SplitRooted(t, e, hash, h);
    forall i | 0 <= i < |t'| && t'[i].Rehashed?
      ensures UniqueKeys(t'[i].items)
      ensures forall x {:trigger x in t'[i].items} :: x in t'[i].items ==> Home(t', e, hash(x.0)) == i && x.0 in m && m[x.0] == x.1
    {
      var j := if i == h then p else i;
      UniqueKeysAt(t, e, hash, m, j);
      if i == h || i == p {
        SplitNoDup(t[p].items, hash, h);
      }
      forall x | x in t'[i].items ensures Home(t', e, hash(x.0)) == i && x.0 in m && m[x.0] == x.1 {
        SplitItems(t[p].items, hash, h, x);
        PlacedAt(t, e, hash, m, j, x);
        SplitHome(t, e, hash, h, hash(x.0));
      }
    }
    forall k | k in m ensures HasItem(t', Home(t', e, hash(k)), k, m[k]) {
      CompleteAt(t, e, hash, m, k);
      SplitHome(t, e, hash, h, hash(k));
      SplitItems(t[p].items, hash, h, (k, m[k]));
    }
  }

  lemma {:induction false} WriteRooted<K, V>(t: Table<K, V>, e: nat, i: nat, l: seq<(K, V)>)
    requires Rooted(t, e) && i < |t| && t[i].Rehashed?
    ensures Rooted(t[i := Rehashed(l)], e)
    ensures forall c {:trigger Home(t[i := Rehashed(l)], e, c)} :: Home(t[i := Rehashed(l)], e, c) == Home(t, e, c)
  {
    var t' := t[i := Rehashed(l)];
    forall j | 2 <= j < |t'| && t'[j].Rehashed? ensures t'[Parent(j)].Rehashed? {
      assert t[j].Rehashed?;
    }
    forall c ensures Home(t', e, c) == Home(t, e, c) {
      SameHome(t, t', e, c);
    }
  }

  /** A new item joins its home bucket, whose list becomes `l`. */
  lemma {:induction false} JoinHolds<K, V>(t: Table<K, V>, e: nat, hash: K -> nat, m: map<K, V>, k: K, v: V, l: seq<(K, V)>)
    requires Holds(t, e, hash, m) && k !in m
    requires t[Home(t, e, hash(k))].Rehashed? && UniqueKeys(l)
    requires forall x {:trigger x in l} :: x in l <==> x == (k, v) || x in t[Home(t, e, hash(k))].items
    ensures Holds(t[Home(t, e, hash(k)) := Rehashed(l)], e, hash, m[k := v])
  {
    hide Home;
    var i := Home(t, e, hash(k));
    var t', m' := t[i := Rehashed(l)], m[k := v];
    WriteRooted(t, e, i, l);
    forall j | 0 <= j < |t'| && t'[j].Rehashed?
      ensures UniqueKeys(t'[j].items)
      ensures forall x {:trigger x in t'[j].items} :: x in t'[j].items ==> Home(t', e, hash(x.0)) == j && x.0 in m' && m'[x.0] == x.1
    {
      UniqueKeysAt(t, e, hash, m, j);
      forall x | x in t[j].items ensures Home(t, e, hash(x.0)) == j && x.0 in m && m[x.0] == x.1 {
        PlacedAt(t, e, hash, m, j, x);
      }
    }
    forall q | q in m' ensures HasItem(t', Home(t', e, hash(q)), q, m'[q]) {
      if q != k {
        CompleteAt(t, e, hash, m, q);
        assert m'[q] == m[q];
      }
    }
  }

  /** No item of a bucket has a key that is not in the map. */
  lemma {:induction false} KeyAbsent<K, V>(t: Table<K, V>, e: nat, hash: K -> nat, m: map<K, V>, i: nat, k: K)
    requires Holds(t, e, hash, m) && k !in m && i < |t| && t[i].Rehashed?
    ensures NoKey(t[i].items, k)
  {
    forall j | 0 <= j < |t[i].items| ensures t[i].items[j].0 != k {
      PlacedAt(t, e, hash, m, i, t[i].items[j]);
    }
  }

  lemma {:induction false} InsertHolds<K, V>(t: Table<K, V>, e: nat, hash: K -> nat, m: map<K, V>, k: K, v: V)
    requires Holds(t, e, hash, m) && k !in m
    ensures var i := Home(t, e, hash(k));
            && t[i].Rehashed?
            && Holds(t[i := Rehashed([(k, v)] + t[i].items)], e, hash, m[k := v])
            && Holds(t[i := Rehashed(t[i].items + [(k, v)])], e, hash, m[k := v])
  {
    HomeRehashed(t, e, hash(k));
    hide Home;
    var i := Home(t, e, hash(k));
    UniqueKeysAt(t, e, hash, m, i);
    KeyAbsent(t, e, hash, m, i, k);
    UniqueKeysSnoc(t[i].items, (k, v));
    JoinHolds(t, e, hash, m, k, v, [(k, v)] + t[i].items);
    JoinHolds(t, e, hash, m, k, v, t[i].items + [(k, v)]);
  }

  lemma {:induction false} EraseHolds<K, V>(t: Table<K, V>, e: nat, hash: K -> nat, m: map<K, V>, i: nat, j: nat)
    requires Holds(t, e, hash, m) && i < |t| && t[i].Rehashed? && j < |t[i].items|
    ensures var l := t[i].items;
            l[j].0 in m && Holds(t[i := Rehashed(l[..j] + l[j + 1..])], e, hash, m - {l[j].0})
  {
    hide Home;
    var l, k := t[i].items, t[i].items[j].0;
    var l', m' := l[..j] + l[j + 1..], m - {k};
    var t' := t[i := Rehashed(l')];
    UniqueKeysAt(t, e, hash, m, i);
    PlacedAt(t, e, hash, m, i, l[j]);
    WriteRooted(t, e, i, l');
    RemoveItem(l, j);
    forall q | 0 <= q < |t'| && t'[q].Rehashed?
      ensures UniqueKeys(t'[q].items)
      ensures forall x {:trigger x in t'[q].items} :: x in t'[q].items ==> Home(t', e, hash(x.0)) == q && x.0 in m' && m'[x.0] == x.1
    {
      UniqueKeysAt(t, e, hash, m, q);
      forall x | x in t'[q].items ensures Home(t', e, hash(x.0)) == q && x.0 in m' && m'[x.0] == x.1 {
        PlacedAt(t, e, hash, m, q, x);
      }
    }
    forall q | q in m' ensures HasItem(t', Home(t', e, hash(q)), q, m'[q]) {
      CompleteAt(t, e, hash, m, q);
      assert m'[q] == m[q];
    }
  }

  lemma {:induction false} RemoveItem<K, V>(l: seq<(K, V)>, j: nat)
    requires UniqueKeys(l) && j < |l|
    ensures var r := l[..j] + l[j + 1..];
            UniqueKeys(r) && forall x {:trigger x in r} :: x in r <==> x in l && x.0 != l[j].0
  {
    var r := l[..j] + l[j + 1..];
    assert forall i {:trigger r[i]} :: 0 <= i < |r| ==> r[i] == l[if i < j then i else i + 1];
    forall x ensures x in r <==> x in l && x.0 != l[j].0 {
      if x in l && x.0 != l[j].0 {
        var i :| 0 <= i < |l| && l[i] == x;
        assert r[if i < j then i else i - 1] == x;
      }
    }
  }

  lemma {:induction false} GrowHolds<K, V>(t: Table<K, V>, e: nat, hash: K -> nat, m: map<K, V>, t': Table<K, V>, l: nat)
    requires Holds(t, e, hash, m) && e <= l && |t'| == Pow2(l) && t <= t'
    requires forall i {:trigger t'[i]} :: |t| <= i < |t'| ==> t'[i].Pending?
    ensures Holds(t', l, hash, m)
  {
    GrowRooted(t, e, t', l);
    forall c: nat ensures Home(t', l, c) == Home(t, e, c) {
      HomeGrows(t, e, t', l, c);
    }
    hide Home;
    forall i | 0 <= i < |t'| && t'[i].Rehashed?
      ensures UniqueKeys(t'[i].items)
      ensures forall x {:trigger x in t'[i].items} :: x in t'[i].items ==> Home(t', l, hash(x.0)) == i && x.0 in m && m[x.0] == x.1
    {
      assert t'[i] == t[i];
      UniqueKeysAt(t, e, hash, m, i);
      forall x | x in t'[i].items ensures Home(t', l, hash(x.0)) == i && x.0 in m && m[x.0] == x.1 {
        PlacedAt(t, e, hash, m, i, x);
      }
    }
    forall k | k in m ensures HasItem(t', Home(t', l, hash(k)), k, m[k]) {
      CompleteAt(t, e, hash, m, k);
    }
  }

  lemma {:induction false} GrowRooted<K, V>(t: Table<K, V>, e: nat, t': Table<K, V>, l: nat)
    requires Rooted(t, e) && e <= l && |t'| == Pow2(l) && t <= t'
    requires forall i {:trigger t'[i]} :: |t| <= i < |t'| ==> t'[i].Pending?
    ensures Rooted(t', l)
  {
    forall i | 2 <= i < |t'| && t'[i].Rehashed? ensures t'[Parent(i)].Rehashed? {
      assert t'[i] == t[i] && t'[Parent(i)] == t[Parent(i)];
    }
    assert t'[0] == t[0] && t'[1] == t[1];
  }

  lemma {:induction false} HomeAbove<K, V>(t: Table<K, V>, e: nat, c: nat, k: nat)
    requires k <= e && Pow2(e) <= |t| && Pow2(k) <= |t| && t[Cut(c, k)].Rehashed?
    ensures Home(t, e, c) >= Cut(c, k)
    decreases e
  {
    if k < e {
      PowGrows(e - 1, e);
      CutMono(c, k, e);
      HomeAbove(t, e - 1, c, k);
    } else {
      LowHome(t, e, c);
    }
  }
}
