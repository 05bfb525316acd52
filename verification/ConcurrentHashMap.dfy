/** The concurrent hash map: buckets are split on demand, and operations may work with an old mask. */
module ConcurrentHashMap {
  import opened BulkRehash
  import opened HashBits
  import opened HashTable

  datatype Entry<V> = Missing | Found(value: V)

  /** The number of segments that the first allocation enables at once. */
  const FIRST_BLOCK := 8

  // ---- stale masks ----

  /** A rehashed bucket has only rehashed buckets below it, whatever the mask. */
  lemma {:induction false} RehashedBelow<K, V>(t: Table<K, V>, e: nat, c: nat, l: nat, k: nat)
    requires Rooted(t, e) && 1 <= k <= l <= e && Pow2(l) <= |t| && Pow2(k) <= |t| && t[Cut(c, l)].Rehashed?
    ensures t[Cut(c, k)].Rehashed?
    decreases l
  {
    if k < l {
      PowGrows(l - 1, l);
      CutStep(c, l - 1);
      if Bit(c, l - 1) {
        ParentOfStep(c, l - 1);
        PowGrows(1, l - 1);
        assert Pow2(1) == 2 * Pow2(0);
      }
      RehashedBelow(t, e, c, l - 1, k);
    }
  }

  /** While all buckets above it are pending or the same, an old mask still finds the home. */
  lemma {:induction false} HomeStays<K, V>(t: Table<K, V>, m: nat, l: nat, c: nat)
    requires 1 <= m <= l && Pow2(l) <= |t| && Pow2(m) <= |t| && t[Cut(c, m)].Rehashed?
    requires forall k {:trigger Cut(c, k)} :: m < k <= l ==> Cut(c, k) < |t| && (Cut(c, k) == Cut(c, m) || t[Cut(c, k)].Pending?)
    ensures Home(t, l, c) == Cut(c, m)
    decreases l
  {
    if l > m {
      PowGrows(l - 1, l);
      HomeStays(t, m, l - 1, c);
    } else {
      LowHome(t, m, c);
    }
  }

  /** Masks up to the next bit of the code change nothing. */
  lemma {:induction false} SameCut(c: nat, m: nat, j: nat)
    requires m <= j && forall k :: m <= k < j ==> !Bit(c, k)
    ensures forall k {:trigger Cut(c, k)} :: m <= k <= j ==> Cut(c, k) == Cut(c, m)
    decreases j
  {
    if m < j {
      SameCut(c, m, j - 1);
      CutStep(c, j - 1);
    }
  }

  lemma {:induction false} SomeBit(c: nat, m: nat, l: nat)
    requires m <= l && Cut(c, m) != Cut(c, l)
    ensures exists k :: m <= k < l && Bit(c, k)
  {
    if forall k :: m <= k < l ==> !Bit(c, k) {
      SameCut(c, m, l);
    }
  }

  /** The next bucket that an old mask could miss decides whether it misses anything. */
  lemma {:induction false} NextBucketDecides<K, V>(t: Table<K, V>, e: nat, c: nat, m: nat, j: nat)
    requires Rooted(t, e) && 1 <= m <= j < e && Pow2(j + 1) <= |t| && Pow2(m) <= |t| && t[Cut(c, m)].Rehashed? && Bit(c, j)
    requires forall k :: m <= k < j ==> !Bit(c, k)
    ensures t[Cut(c, j + 1)].Rehashed? <==> Home(t, e, c) != Cut(c, m)
  {
    SameCut(c, m, j);
    if t[Cut(c, j + 1)].Pending? {
      forall k | m < k <= e ensures Cut(c, k) < |t| && (Cut(c, k) == Cut(c, m) || t[Cut(c, k)].Pending?) {
        PowGrows(k, e);
        if k > j && t[Cut(c, k)].Rehashed? {
          RehashedBelow(t, e, c, k, j + 1);
        }
      }
      HomeStays(t, m, e, c);
    } else {
      HomeAbove(t, e, c, j + 1);
      ParentOfStep(c, j);
    }
  }

  /** The table with the buckets that are being filled still pending. */
  ghost function Masked<K, V>(t: Table<K, V>, open: set<nat>): (r: Table<K, V>)
    ensures |r| == |t| && forall i {:trigger r[i]} :: 0 <= i < |t| ==> r[i] == if i in open then Pending else t[i]
  {
    seq(|t|, i requires 0 <= i < |t| => if i in open then Pending else t[i])
  }

  lemma {:induction false} MaskedNone<K, V>(t: Table<K, V>)
    ensures Masked(t, {}) == t
  {
  }

  lemma {:induction false} MaskedOpen<K, V>(t: Table<K, V>, open: set<nat>, h: nat)
    requires h < |t| && t[h].Pending? && h !in open
    ensures Masked(t[h := Rehashed([])], open + {h}) == Masked(t, open)
  {
  }

  /** Filling bucket `h` closes it. */
  lemma {:induction false} MaskedSplit<K, V>(t: Table<K, V>, hash: K -> nat, open: set<nat>, h: nat)
    requires 0 < h < |t| && h !in open && Parent(h) !in open && t[Parent(h)].Rehashed?
    ensures Masked(Split(t, hash, h), open) == Split(Masked(t, open + {h}), hash, h)
  {
  }

  /** The buckets being filled are above `h`, and still empty. */
  ghost predicate OpenAbove<K, V>(t: Table<K, V>, open: set<nat>, h: nat) {
    forall o {:trigger o in open} :: o in open ==> h < o < |t| && t[o] == Rehashed([])
  }

  ghost predicate KeepsRehashed<K, V>(t: Table<K, V>, t': Table<K, V>, h: nat) {
    && |t'| == |t|
    && (forall i {:trigger t'[i]} :: h < i < |t| ==> t'[i] == t[i])
    && (forall i {:trigger t'[i]} :: 0 <= i < |t| && t[i].Rehashed? ==> t'[i].Rehashed?)
  }

  lemma {:induction false} LowBuckets<K, V>(t: Table<K, V>, e: nat, open: set<nat>, i: nat)
    requires Rooted(Masked(t, open), e) && OpenAbove(t, open, i) && i < |t|
    ensures t[i].Pending? ==> i >= 2
  {
    var r := Masked(t, open);
    assert r[0].Rehashed? && r[1].Rehashed?;
  }

  /** The state of the loop that splits the list `l`: `k` items are done, the next one is at `i`. */
  ghost predicate Splitting<K, V>(l: seq<(K, V)>, k: nat, rest: seq<(K, V)>, moved: seq<(K, V)>, i: nat, hash: K -> nat, h: nat) {
    && h > 0 && k <= |l| && rest == Stay(l[..k], hash, h) + l[k..] && i == |Stay(l[..k], hash, h)|
    && moved == Moved(l[..k], hash, h)
  }

  lemma {:induction false} SplitStart<K, V>(l: seq<(K, V)>, hash: K -> nat, h: nat)
    requires h > 0
    ensures Splitting(l, 0, l, [], 0, hash, h)
  {
    assert l[..0] == [] && l[0..] == l;
  }

  lemma {:induction false} SplitStep<K, V>(l: seq<(K, V)>, k: nat, rest: seq<(K, V)>, moved: seq<(K, V)>, i: nat,
                                           hash: K -> nat, h: nat)
    requires Splitting(l, k, rest, moved, i, hash, h) && i < |rest|
    ensures k < |l| && h > 0
    ensures if Belongs(hash(rest[i].0), h) then Splitting(l, k + 1, rest[..i] + rest[i + 1..], [rest[i]] + moved, i, hash, h)
            else Splitting(l, k + 1, rest, moved, i + 1, hash, h)
  {
    hide Stay, Moved, Belongs;
    var s := l[..k + 1];
    assert s[..|s| - 1] == l[..k] && s[|s| - 1] == l[k] == rest[i];
    assert l[k..] == [l[k]] + l[k + 1..];
    SplitLast(s, hash, h);
  }

  lemma {:induction false} SplitEnd<K, V>(l: seq<(K, V)>, k: nat, rest: seq<(K, V)>, moved: seq<(K, V)>, i: nat,
                                          hash: K -> nat, h: nat)
    requires Splitting(l, k, rest, moved, i, hash, h) && i >= |rest|
    ensures h > 0 && rest == Stay(l, hash, h) && moved == Moved(l, hash, h)
  {
    assert l[..k] == l;
  }

  lemma {:induction false} Overwrite<K, V>(t: Table<K, V>, p: nat, h: nat, a: Bucket<K, V>, b: Bucket<K, V>,
                                           a': Bucket<K, V>, b': Bucket<K, V>)
    requires p < |t| && h < |t| && p != h
    ensures t[p := a][h := b][p := a'][h := b'] == t[p := a'][h := b']
    ensures t[p := t[p]][h := t[h]] == t
  {
  }

  lemma {:induction false} TableSizes<K, V>(t: Table<K, V>, e: nat, hash: K -> nat, m: map<K, V>, k: nat)
    requires Holds(t, e, hash, m) && 1 <= k <= e
    ensures Rooted(t, e) && Pow2(k) <= |t| == Pow2(e) && |t| >= 2
  {
    PowGrows(k, e);
  }

  lemma {:induction false} GrownSize<K, V>(t: Table<K, V>, e: nat, hash: K -> nat, m: map<K, V>)
    requires Holds(t, e, hash, m)
    ensures |t| + Pow2(e) == Pow2(e + 1) && Pow2(FIRST_BLOCK) == 256 && (e == 1 ==> |t| == 2)
  {
    assert Pow2(1) == 2 * Pow2(0);
    assert Pow2(4) == 2 * Pow2(3) && Pow2(3) == 2 * Pow2(2) && Pow2(2) == 2 * Pow2(1);
    PowAdd(4, 4);
  }

  /** What is found in a bucket is in the map. */
  lemma {:induction false} FoundItem<K, V>(t: Table<K, V>, e: nat, hash: K -> nat, m: map<K, V>, i: nat, n: nat)
    requires Holds(t, e, hash, m) && i < |t| && t[i].Rehashed? && n < |t[i].items|
    ensures t[i].items[n].0 in m && m[t[i].items[n].0] == t[i].items[n].1
  {
    PlacedAt(t, e, hash, m, i, t[i].items[n]);
  }

  /** What is not found in its home is not in the map. */
  lemma {:induction false} MissedItem<K, V>(t: Table<K, V>, e: nat, hash: K -> nat, m: map<K, V>, i: nat, key: K)
    requires Holds(t, e, hash, m) && i == Home(t, e, hash(key)) && i < |t| && t[i].Rehashed? && NoKey(t[i].items, key)
    ensures key !in m
  {
    if key in m {
      CompleteAt(t, e, hash, m, key);
      NotListed(t[i].items, key, m[key]);
    }
  }

  lemma {:induction false} NotListed<K, V>(l: seq<(K, V)>, k: K, v: V)
    requires NoKey(l, k)
    ensures (k, v) !in l
  {
  }

  /** The current mask finds the home if its bucket is rehashed. */
  lemma {:induction false} HomeOfMask<K, V>(t: Table<K, V>, e: nat, hash: K -> nat, m: map<K, V>, c: nat)
    requires Holds(t, e, hash, m)
    ensures Pow2(e) == |t| && (t[Cut(c, e)].Rehashed? ==> Home(t, e, c) == Cut(c, e))
  {
    if t[Cut(c, e)].Rehashed? {
      LowHome(t, e, c);
    }
  }

  lemma {:induction false} SegmentBound<K, V>(t: Table<K, V>, e: nat, h: nat)
    requires LowRehashed(t, e) && h < |t|
    ensures SegmentIndexOf(h) < e && |t| == Pow2(e)
  {
    SegmentLog(h);
    if h >= 2 {
      LogBelow(h, e);
    }
  }

  lemma {:induction false} StillLow<K, V>(t0: Table<K, V>, t: Table<K, V>, e: nat, h: nat, j: nat)
    requires LowRehashed(t0, e) && OnlyUnder(t0, t, e, h) && j < |t|
    ensures LowRehashed(t[j := Rehashed([])], e)
  {
    assert t[0].Rehashed? && t[1].Rehashed?;
  }

  lemma {:induction false} MarkedSize<K, V>(t: Table<K, V>, t': Table<K, V>, e: nat, h: nat)
    requires Pow2(e) <= |t| && AllMarked(t, t', e, h)
    ensures |t'| == |t|
  {
  }

  lemma {:induction false} MovingSizes<K, V>(t: Table<K, V>, e: nat, hash: K -> nat, m: map<K, V>, h: nat, i: nat, m1: map<K, V>)
    requires Moving(t, e, hash, m, h, i, m1)
    ensures h < |t| && t[h].Rehashed? && i <= |t[h].items|
  {
  }

  /** Marking takes no bucket back, and bucket `b` is among those marked. */
  lemma {:induction false} Unmarked<K, V>(t: Table<K, V>, t': Table<K, V>, e: nat, h: nat, b: nat)
    requires Pow2(e) <= |t| && AllMarked(t, t', e, h) && b < |t| && Home(t, e, b) == h
    ensures |t'| == |t| && t'[b].Rehashed? && forall i {:trigger t'[i]} :: 0 <= i < |t| && t[i].Rehashed? ==> t'[i].Rehashed?
  {
    hide Home;
    forall i | 0 <= i < |t| && t[i].Rehashed? ensures t'[i].Rehashed? {
      assert t'[i] == t[i] || t'[i] == Rehashed([]);
    }
  }

  lemma {:induction false} InitialHolds<K, V>(t: Table<K, V>, e: nat, hash: K -> nat, m: map<K, V>, t': Table<K, V>, l: nat)
    requires Holds(t, e, hash, m) && m == map[] && t <= t' && e <= l && |t'| == Pow2(l)
    requires forall i {:trigger t'[i]} :: 0 <= i < |t'| ==> t'[i].Rehashed?
    requires forall i {:trigger t'[i]} :: |t| <= i < |t'| ==> t'[i] == Rehashed([])
    ensures Holds(t', l, hash, m)
  {
    hide Home;
    forall i | 0 <= i < |t'| && t'[i].Rehashed? ensures t'[i].items == [] {
      if i < |t| {
        assert t'[i] == t[i];
        EmptyBucket(t, e, hash, m, i);
      }
    }
  }

  lemma {:induction false} EmptyBucket<K, V>(t: Table<K, V>, e: nat, hash: K -> nat, m: map<K, V>, i: nat)
    requires Holds(t, e, hash, m) && m == map[] && i < |t| && t[i].Rehashed?
    ensures t[i].items == []
  {
    if t[i].items != [] {
      PlacedAt(t, e, hash, m, i, t[i].items[0]);
    }
  }

  class ConcurrentHashMap<K(==), V> {
    const hash: K -> nat
    var table: Table<K, V>
    var level: nat
    var mySize: nat
    ghost var contents: map<K, V>

    ghost predicate Valid()
      reads this
    {
      Holds(table, level, hash, contents) && mySize == |contents| && (level == 1 || level >= 8)
    }

    /** The embedded segment. */
    constructor (hash: K -> nat)
      ensures Valid() && contents == map[] && this.hash == hash
    {
      this.hash := hash;
      table, level, mySize, contents := [Rehashed([]), Rehashed([])], 1, 0, map[];
      new;
      assert Pow2(1) == 2 * Pow2(0);
    }

    /** rehash_bucket: bucket `h` is marked first, then its parent is made ready, then split. */
    method RehashBucket(h: nat, ghost open: set<nat>)
      requires Holds(Masked(table, open), level, hash, contents)
      requires 2 <= h < |table| && table[h].Pending? && OpenAbove(table, open, h)
      modifies `table
      ensures Holds(Masked(table, open), level, hash, contents)
      ensures KeepsRehashed(old(table), table, h) && table[h].Rehashed?
      decreases h, 0
    {
      hide Holds;
      MaskedOpen(table, open, h);
      table := table[h := Rehashed([])];
      var b := Log2(h);
      Acquire(Cut(h, b), open + {h});
      ghost var t := table;
      SplitBucket(h);
      MaskedSplit(t, hash, open, h);
      SplitHolds(Masked(t, open + {h}), level, hash, contents, h);
    }

    /** The bucket accessor: a pending bucket is rehashed on demand. */
    method Acquire(i: nat, ghost open: set<nat>)
      requires Holds(Masked(table, open), level, hash, contents)
      requires i < |table| && OpenAbove(table, open, i)
      modifies `table
      ensures Holds(Masked(table, open), level, hash, contents)
      ensures KeepsRehashed(old(table), table, i) && table[i].Rehashed?
      decreases i, 1
    {
      if table[i].Pending? {
        LowBuckets(table, level, open, i);
        RehashBucket(i, open);
      }
    }

    /** The loop of rehash_bucket: items that belong to `h` are excluded from its parent. */
    method SplitBucket(h: nat)
      requires 2 <= h < |table| && table[h] == Rehashed([]) && table[Parent(h)].Rehashed?
      modifies `table
      ensures table == Split(old(table), hash, h)
    {
      hide Stay, Moved, Splitting, Log2, Cut;
      var mask := Log2(h) + 1;
      var p := Cut(h, Log2(h));
      ghost var t, l, k := table, table[p].items, 0;
      ghost var rest, moved: seq<(K, V)> := l, [];
      SplitStart(l, hash, h);
      Overwrite(t, p, h, t[p], t[h], Rehashed(rest), Rehashed(moved));
      var i := 0;
      while i < |table[p].items|
        invariant |table| == |t| && table == t[p := Rehashed(rest)][h := Rehashed(moved)]
        invariant Splitting(l, k, rest, moved, i, hash, h) && k <= |l|
        decreases |l| - k
      {
        assert table[p] == Rehashed(rest) && table[h] == Rehashed(moved);
        var list := table[p].items;
        var n := list[i];
        SplitStep(l, k, rest, moved, i, hash, h);
        if Cut(hash(n.0), mask) == h {
          table := table[p := Rehashed(list[..i] + list[i + 1..])][h := Rehashed([n] + table[h].items)];
          Overwrite(t, p, h, Rehashed(rest), Rehashed(moved), Rehashed(rest[..i] + rest[i + 1..]), Rehashed([n] + moved));
          rest, moved := rest[..i] + rest[i + 1..], [n] + moved;
        } else {
          i := i + 1;
        }
        k := k + 1;
      }
      SplitEnd(l, k, rest, moved, i, hash, h);
    }

    /** check_rehashing_collision, for two different masks. */
    method CheckRehashingCollision(h: nat, mOld: nat, m: nat) returns (race: bool)
      requires Rooted(table, level) && 1 <= mOld < m == level && Pow2(mOld) <= |table| && table[Cut(h, mOld)].Rehashed?
      ensures race <==> Home(table, level, h) != Cut(h, mOld)
    {
      race := false;
      if Cut(h, mOld) != Cut(h, m) {
        SomeBit(h, mOld, m);
        ghost var bit :| mOld <= bit < m && Bit(h, bit);
        var j := mOld;
        while !Bit(h, j)
          invariant mOld <= j <= bit && forall k :: mOld <= k < j ==> !Bit(h, k)
          decreases bit - j
        {
          j := j + 1;
        }
        PowGrows(j + 1, m);
        NextBucketDecides(table, level, h, mOld, j);
        if table[Cut(h, j + 1)].Rehashed? {
          race := true;
        }
      } else {
        LowHome(table, mOld, h);
        UnchangedHome(table, level, h, mOld);
      }
    }

    /** check_mask_race: the old mask `m` must be given up exactly when the home of `h` is elsewhere. */
    method CheckMaskRace(h: nat, m: nat) returns (race: bool, now: nat)
      requires Rooted(table, level) && 1 <= m <= level && Pow2(m) <= |table| && table[Cut(h, m)].Rehashed?
      ensures now == level && (race <==> Home(table, level, h) != Cut(h, m))
    {
      race, now := false, level;
      if m != now {
        race := CheckRehashingCollision(h, m, now);
      } else {
        LowHome(table, m, h);
      }
    }

    /** search_bucket: the position of the key in bucket `i`, or the length of its list. */
    method SearchBucket(key: K, i: nat) returns (j: nat)
      requires i < |table| && table[i].Rehashed?
      ensures j <= |table[i].items|
      ensures j < |table[i].items| ==> table[i].items[j].0 == key
      ensures j == |table[i].items| ==> NoKey(table[i].items, key)
    {
      j := 0;
      while j < |table[i].items| && table[i].items[j].0 != key
        invariant j <= |table[i].items| && forall n {:trigger table[i].items[n]} :: 0 <= n < j ==> table[i].items[n].0 != key
      {
        j := j + 1;
      }
    }

    /** enable_segment for the next segment `k`; its buckets are pending. */
    method EnableSegment(k: nat)
      requires Valid() && k == level
      modifies `table, `level
      ensures Valid() && level == if k >= FIRST_BLOCK then k + 1 else FIRST_BLOCK
    {
      hide Holds;
      ghost var t := table;
      GrownSize(table, level, hash, contents);
      if k >= FIRST_BLOCK {
        table := table + seq(Pow2(k), _ => Pending);
        level := k + 1;
      } else {
        table := table + seq(Pow2(FIRST_BLOCK) - 2, _ => Pending);
        level := FIRST_BLOCK;
      }
      GrowHolds(t, k, hash, contents, table, level);
    }

    /** lookup with the mask of level `m0`, read at some earlier time. */
    method Lookup(opInsert: bool, key: K, t: V, m0: nat) returns (ok: bool, result: Entry<V>)
      requires Valid() && 1 <= m0 <= level
      modifies `table, `level, `mySize, `contents
      ensures Valid()
      ensures level == old(level) <==> !(opInsert && ok && mySize >= Pow2(old(level)) - 1)
      ensures !opInsert ==> contents == old(contents) && (ok <==> key in contents)
      ensures opInsert ==> contents == (if key in old(contents) then old(contents) else old(contents)[key := t])
      ensures opInsert ==> (ok <==> key !in old(contents))
      ensures result == if key in contents then Found(contents[key]) else Missing
    {
      hide Holds, Placed, Complete, Home;
      var h, m := hash(key), m0;
      var growSegment := 0;
      result, ok := Missing, false;
      MaskedNone(table);
      while true
        invariant Valid() && 1 <= m <= level && contents == old(contents) && level == old(level)
        invariant growSegment == 0
        decreases level - m
      {
        TableSizes(table, level, hash, contents, m);
        var i := Cut(h, m);
        MaskedNone(table);
        Acquire(i, {});
        MaskedNone(table);
        TableSizes(table, level, hash, contents, m);
        var n := SearchBucket(key, i);
        if n < |table[i].items| {
          FoundItem(table, level, hash, contents, i, n);
          result, ok := Found(table[i].items[n].1), !opInsert;
          break;
        }
        var race, now := CheckMaskRace(h, m);
        if race {
          HomeOfMask(table, level, hash, contents, h);
          m := now;
        } else {
          m := now;
          MissedItem(table, level, hash, contents, i, key);
          if opInsert {
            growSegment := InsertNewNode(i, key, t, m);
            result, ok := Found(t), true;
          }
          break;
        }
      }
      if growSegment != 0 {
        EnableSegment(growSegment);
      }
    }

    /** insert_new_node: returns the segment to enable, or 0. */
    method InsertNewNode(i: nat, key: K, t: V, m: nat) returns (newSeg: nat)
      requires Valid() && m == level && key !in contents && i == Home(table, level, hash(key))
      modifies `table, `mySize, `contents
      ensures Valid() && contents == old(contents)[key := t]
      ensures newSeg == if mySize >= Pow2(level) - 1 then level else 0
    {
      hide Holds, Home;
      InsertHolds(table, level, hash, contents, key, t);
      TableSizes(table, level, hash, contents, level);
      mySize := mySize + 1;
      table := table[i := Rehashed([(key, t)] + table[i].items)];
      contents := contents[key := t];
      newSeg := if mySize >= Pow2(m) - 1 then m else 0;
    }

    /** erase with the mask of level `m0`, read at some earlier time. */
    method Erase(key: K, m0: nat) returns (ok: bool)
      requires Valid() && 1 <= m0 <= level
      modifies `table, `mySize, `contents
      ensures Valid() && contents == old(contents) - {key} && (ok <==> key in old(contents))
    {
      hide Holds, Placed, Complete, Home;
      var h, m := hash(key), m0;
      ok := false;
      while true
        invariant Valid() && 1 <= m <= level && contents == old(contents)
        decreases level - m
      {
        TableSizes(table, level, hash, contents, m);
        var i := Cut(h, m);
        MaskedNone(table);
        Acquire(i, {});
        MaskedNone(table);
        TableSizes(table, level, hash, contents, m);
        var n := SearchBucket(key, i);
        if n < |table[i].items| {
          FoundItem(table, level, hash, contents, i, n);
          EraseHolds(table, level, hash, contents, i, n);
          ghost var k := key;
          assert (contents - {k}).Keys == contents.Keys - {k};
          table := table[i := Rehashed(table[i].items[..n] + table[i].items[n + 1..])];
          mySize := mySize - 1;
          contents := contents - {key};
          ok := true;
          break;
        }
        var race, now := CheckMaskRace(h, m);
        if race {
          HomeOfMask(table, level, hash, contents, h);
          m := now;
        } else {
          MissedItem(table, level, hash, contents, i, key);
          break;
        }
      }
    }

    /** mark_rehashed_levels: all pending buckets below the rehashed bucket `h` become empty ones. */
    method MarkRehashedLevels(h: nat)
      requires LowRehashed(table, level) && h < |table| && table[h].Rehashed?
      modifies `table
      ensures AllMarked(old(table), table, level, h)
      decreases |table| - h
    {
      hide Home, LowRehashed, OnlyUnder, AllMarked, Left, SegmentIndexOf, SegmentBase, Log2;
      ghost var t0 := table;
      LeftStart(t0, level, h);
      SegmentBound(t0, level, h);
      var s := SegmentIndexOf(h) + 1;
      while s < level
        invariant SegmentIndexOf(h) < s <= level && |table| == |t0| == Pow2(level)
        invariant OnlyUnder(t0, table, level, h) && Left(t0, table, level, h, s)
      {
        ChildOf(t0, level, h, s);
        var j := SegmentBase(s) + h;
        if table[j].Pending? {
          ghost var t := table;
          StillLow(t0, t, level, h, j);
          table := table[j := Rehashed([])];
          ghost var t1 := table;
          MarkRehashedLevels(j);
          MarkedSize(t1, table, level, j);
          LeftMark(t0, t, t1, table, level, h, s);
        } else {
          LeftSkip(t0, table, level, h, s);
        }
        s := s + 1;
      }
      LeftEnd(t0, table, level, h);
    }

    /** The loop of rehash over the items of a root bucket whose children have been marked. */
    method MoveItems(h: nat, ghost m0: map<K, V>)
      requires Moving(table, level, hash, contents, h, 0, m0)
      modifies `table
      ensures Holds(table, level, hash, contents) && |table| == |old(table)|
      ensures forall i {:trigger table[i]} :: 0 <= i < |table| ==> table[i].Rehashed? == old(table)[i].Rehashed?
    {
      hide Moving, Holds;
      ghost var m1 := m0;
      MovingSizes(table, level, hash, contents, h, 0, m1);
      var i := 0;
      while i < |table[h].items|
        invariant |table| == |old(table)| && h < |table| && table[h].Rehashed?
        invariant forall j {:trigger table[j]} :: 0 <= j < |table| ==> table[j].Rehashed? == old(table)[j].Rehashed?
        invariant Moving(table, level, hash, contents, h, i, m1)
        decreases |table[h].items| - i
      {
        var x := table[h].items[i];
        var q := Cut(hash(x.0), level);
        if q != h {
          MoveAway(table, level, hash, contents, h, i, m1);
          var list := table[h].items;
          table := table[h := Rehashed(list[..i] + list[i + 1..])][q := Rehashed([x] + table[q].items)];
        } else {
          MoveStay(table, level, hash, contents, h, i, m1);
          i := i + 1;
        }
        m1 := m1[x.0 := x.1];
      }
      MoveEnd(table, level, hash, contents, h, i, m1);
    }

    /** rehash: after the reservation the last segment is scanned, and every root of a pending bucket is
        emptied into the buckets below it. Afterwards no bucket of the whole table is pending. */
    method Rehash(sz: nat)
      requires Valid()
      requires mySize == 0 && sz > |table| ==> forall i {:trigger table[i]} :: 0 <= i < |table| ==> table[i].Rehashed?
      modifies `table, `level
      ensures Valid() && |table| >= sz && |table| >= |old(table)| && (sz <= |old(table)| ==> level == old(level))
      ensures forall i {:trigger table[i]} :: 0 <= i < |table| ==> table[i].Rehashed?
      ensures forall k {:trigger contents[k]} :: k in contents ==> HasItem(table, Cut(hash(k), level), k, contents[k])
    {
      hide Holds, Home, AllMarked;
      Reserve(sz);
      ghost var size, l := |table|, level;
      TableSizes(table, level, hash, contents, level);
      PowGrows(level - 1, level);
      var b := Pow2(level - 1);
      while b < Pow2(level)
        invariant Valid() && level == l && |table| == size == Pow2(level) && 1 <= Pow2(level - 1) <= b <= Pow2(level) && level >= 1
        invariant forall i {:trigger table[i]} :: Pow2(level - 1) <= i < b ==> table[i].Rehashed?
      {
        TableSizes(table, level, hash, contents, level);
        if table[b].Pending? {
          var h := FindRoot(b);
          ghost var t := table;
          MarkRehashedLevels(h);
          MoveStart(t, table, level, hash, contents, h);
          Unmarked(t, table, level, h, b);
          MoveItems(h, contents - Keys(t[h].items));
        }
        b := b + 1;
      }
      TableSizes(table, level, hash, contents, level);
      LastSegmentTells(table, level);
      forall k | k in contents ensures HasItem(table, Cut(hash(k), level), k, contents[k]) {
        CompleteAt(table, level, hash, contents, k);
      }
    }

    /** The first rehashed bucket below the pending bucket `b`. */
    method FindRoot(b: nat) returns (h: nat)
      requires Rooted(table, level) && b < |table| && table[b].Pending?
      ensures h < |table| && table[h].Rehashed? && h == Home(table, level, b)
    {
      hide Home;
      CutSmall(b, level);
      HomeByParents(table, level, b);
      h := b;
      while table[h].Pending?
        invariant h < |table| && RootOf(table, h) == Home(table, level, b)
        decreases h
      {
        assert table[0].Rehashed? && table[1].Rehashed?;
        h := Cut(h, Log2(h));
      }
    }

    /** reserve, as the constructors use it: the segments of an empty table come without pending buckets. */
    method Reserve(buckets: nat)
      requires Valid()
      requires mySize == 0 && buckets > |table| ==> forall i {:trigger table[i]} :: 0 <= i < |table| ==> table[i].Rehashed?
      modifies `table, `level
      ensures Valid() && |table| >= buckets && |table| >= |old(table)| && (buckets <= |old(table)| ==> level == old(level) && table == old(table))
      ensures mySize == 0 && buckets > |old(table)| ==> forall i {:trigger table[i]} :: 0 <= i < |table| ==> table[i].Rehashed?
    {
      hide Holds, Home;
      TableSizes(table, level, hash, contents, level);
      while buckets > Pow2(level)
        invariant Valid() && |table| == Pow2(level) && |table| >= |old(table)|
        invariant buckets <= |old(table)| ==> level == old(level) && table == old(table)
        invariant mySize == 0 && buckets > |old(table)| ==> forall i {:trigger table[i]} :: 0 <= i < |table| ==> table[i].Rehashed?
        decreases buckets - Pow2(level)
      {
        ghost var l := level;
        if mySize == 0 {
          EnableInitialSegment(level);
        } else {
          EnableSegment(level);
        }
        PowGrows(l, level);
        TableSizes(table, level, hash, contents, level);
      }
    }

    /** enable_segment on a table that never held an item. */
    method EnableInitialSegment(k: nat)
      requires Valid() && k == level && mySize == 0 && forall i {:trigger table[i]} :: 0 <= i < |table| ==> table[i].Rehashed?
      modifies `table, `level
      ensures Valid() && level == (if k >= FIRST_BLOCK then k + 1 else FIRST_BLOCK)
      ensures forall i {:trigger table[i]} :: 0 <= i < |table| ==> table[i].Rehashed?
    {
      hide Holds;
      ghost var t := table;
      GrownSize(table, level, hash, contents);
      if k >= FIRST_BLOCK {
        table := table + seq(Pow2(k), _ => Rehashed([]));
        level := k + 1;
      } else {
        table := table + seq(Pow2(FIRST_BLOCK) - 2, _ => Rehashed([]));
        level := FIRST_BLOCK;
      }
      InitialHolds(t, k, hash, contents, table, level);
    }
  }

  lemma {:induction false} UnchangedHome<K, V>(t: Table<K, V>, e: nat, c: nat, m: nat)
    requires Rooted(t, e) && 1 <= m <= e && Pow2(m) <= |t| && t[Cut(c, m)].Rehashed? && Cut(c, m) == Cut(c, e)
    ensures Home(t, e, c) == Cut(c, m)
  {
    LowHome(t, e, c);
  }

  /** A table that has been emptied by erases and then grows as if it were new: the buckets stay in order if
      and only if none of them was pending. This is all that Reserve and Rehash exclude. */
  lemma {:induction false} InitialSegmentsIff<K, V>(t: Table<K, V>, e: nat, t': Table<K, V>, l: nat)
    requires Rooted(t, e) && e < l && |t'| == Pow2(l) && t <= t'
    requires forall i {:trigger t'[i]} :: |t| <= i < |t'| ==> t'[i] == Rehashed([])
    ensures Rooted(t', l) <==> forall i {:trigger t[i]} :: 0 <= i < |t| ==> t[i].Rehashed?
  {
    hide Pow2, Parent;
    if Rooted(t', l) {
      forall i | 0 <= i < |t| ensures t[i].Rehashed? {
        ChildTells(t, e, t', l, i);
      }
    }
    if forall i {:trigger t[i]} :: 0 <= i < |t| ==> t[i].Rehashed? {
      forall i | 0 <= i < |t'| ensures t'[i].Rehashed? {
        assert i < |t| ==> t'[i] == t[i];
      }
      ParentsBelow(t');
      assert Rooted(t', l);
    }
  }

  lemma {:induction false} ChildTells<K, V>(t: Table<K, V>, e: nat, t': Table<K, V>, l: nat, i: nat)
    requires Rooted(t, e) && e < l && Rooted(t', l) && t <= t' && i < |t|
    requires forall i {:trigger t'[i]} :: |t| <= i < |t'| ==> t'[i] == Rehashed([])
    ensures t[i].Rehashed?
  {
    hide Pow2, Parent;
    AddBit(i, e);
    PowGrows(e + 1, l);
    var j := i + Pow2(e);
    assert t'[j].Rehashed? && t'[i] == t[i];
    assert t'[Parent(j)].Rehashed?;
  }

  lemma {:induction false} ParentsBelow<K, V>(t: Table<K, V>)
    ensures forall i {:trigger t[i]} :: 2 <= i < |t| ==> Parent(i) < i
  {
    forall i | 2 <= i < |t| ensures Parent(i) < i {
      var p := Parent(i);
    }
  }
}
