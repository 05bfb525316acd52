/** The serial core of the LRU cache: a map of reference-counted entries and the list of those that
    are not in use, most recently used first. */
module LruCache {
  import opened Collections

  /** `listed` tells whether the list iterator of the entry points into the list. */
  datatype Entry = Entry(refCounter: nat, listed: bool)

  datatype State<K> = State(entries: map<K, Entry>, unused: seq<K>)

  datatype Call<K> = Retrieve(key: K) | EndOfUsage(key: K)

  predicate IsNew<K>(s: State<K>, k: K) {
    k !in s.entries
  }

  function Without<K(==)>(l: seq<K>, k: K): seq<K> {
    if l == [] then [] else Without(l[..|l| - 1], k) + if l[|l| - 1] == k then [] else [l[|l| - 1]]
  }

  function Retrieved<K(==)>(s: State<K>, k: K): State<K> {
    if k !in s.entries then s.(entries := s.entries[k := Entry(1, false)])
    else
      var e := s.entries[k];
      State(s.entries[k := Entry(e.refCounter + 1, false)], if e.listed then Without(s.unused, k) else s.unused)
  }

  /** The entries at the end of the list make room for one more. */
  function Evicted<K>(s: State<K>, history: nat): State<K>
    decreases |s.unused|
  {
    if |s.unused| < history || s.unused == [] then s
    else
      var last := s.unused[|s.unused| - 1];
      Evicted(State(s.entries - {last}, s.unused[..|s.unused| - 1]), history)
  }

  function Ended<K>(s: State<K>, k: K, history: nat): State<K>
    requires k in s.entries && s.entries[k].refCounter > 0
  {
    var e := s.entries[k];
    if e.refCounter > 1 then s.(entries := s.entries[k := e.(refCounter := e.refCounter - 1)])
    else
      var r := Evicted(s.(entries := s.entries[k := e.(refCounter := 0)]), history);
      State(r.entries[k := Entry(0, true)], [k] + r.unused)
  }

  // ---- the invariant ----

  /** Every counter equals the number of handles; the list holds exactly the resident entries without
      handles, once each, and no more of them than the history may hold. */
  ghost predicate Inv<K(!new)>(s: State<K>, handles: multiset<K>, history: nat) {
    && (forall k {:trigger s.entries[k]} :: k in s.entries ==> s.entries[k].refCounter == handles[k])
    && (forall k {:trigger handles[k]} :: handles[k] > 0 ==> k in s.entries)
    && (forall k {:trigger k in s.unused} :: k in s.unused <==> k in s.entries && s.entries[k].refCounter == 0)
    && (forall k {:trigger s.entries[k]} :: k in s.entries ==> (s.entries[k].listed <==> s.entries[k].refCounter == 0))
    && NoDup(s.unused) && |s.unused| <= history
  }

  lemma {:induction false} WithoutItems<K(!new)>(l: seq<K>, k: K)
    requires NoDup(l)
    ensures NoDup(Without(l, k)) && |Without(l, k)| <= |l|
    ensures forall x {:trigger x in Without(l, k)} :: x in Without(l, k) <==> x in l && x != k
    ensures k in l ==> |Without(l, k)| == |l| - 1
    ensures k !in l ==> Without(l, k) == l
    decreases |l|
  {
    if l != [] {
      var init, x := l[..|l| - 1], l[|l| - 1];
      assert forall i {:trigger init[i]} :: 0 <= i < |init| ==> init[i] == l[i];
      assert l == init + [x];
      WithoutItems(init, k);
      assert x !in init;
      if x != k {
        Snoc(Without(init, k), x);
      } else {
        assert Without(init, k) + [] == Without(init, k);
      }
    }
  }

  lemma {:induction false} Snoc<K>(l: seq<K>, x: K)
    requires NoDup(l) && x !in l
    ensures NoDup(l + [x])
  {
  }

  lemma {:induction false} RetrievedInv<K(!new)>(s: State<K>, handles: multiset<K>, history: nat, k: K)
    requires Inv(s, handles, history)
    ensures Inv(Retrieved(s, k), handles + multiset{k}, history)
  {
    WithoutItems(s.unused, k);
  }

  ghost function Items<K>(l: seq<K>): set<K> {
    set x | x in l
  }

  lemma {:induction false} ItemsSnoc<K>(l: seq<K>, x: K)
    ensures Items(l + [x]) == Items(l) + {x}
  {
  }

  /** What eviction leaves: a prefix of the list, short enough, and the map without the rest. */
  lemma {:induction false} EvictedParts<K>(s: State<K>, history: nat)
    requires history >= 1
    ensures var r := Evicted(s, history); var n := if |s.unused| < history then |s.unused| else history - 1;
            r.unused == s.unused[..n] && r.entries == s.entries - Items(s.unused[n..])
    decreases |s.unused|
  {
    if |s.unused| < history || s.unused == [] {
      NothingEvicted(s);
    } else {
      var init, last, n := s.unused[..|s.unused| - 1], s.unused[|s.unused| - 1], history - 1;
      EvictedParts(State(s.entries - {last}, init), history);
      ItemsSnoc(init[n..], last);
      EvictedSlices(s.unused, n);
      if |init| < history {
        assert init[n..] == [] && Items(init[n..]) == {};
        assert init[..n] == init;
      }
      assert s.entries - {last} - Items(init[n..]) == s.entries - (Items(init[n..]) + {last});
    }
  }

  lemma {:induction false} EvictedSlices<K>(l: seq<K>, n: nat)
    requires n < |l|
    ensures var init := l[..|l| - 1]; l[n..] == init[n..] + [l[|l| - 1]] && init[..n] == l[..n]
  {
  }

  lemma {:induction false} NothingEvicted<K>(s: State<K>)
    ensures s.unused[..|s.unused|] == s.unused && s.entries - Items(s.unused[|s.unused|..]) == s.entries
  {
    assert s.unused[|s.unused|..] == [];
  }

  lemma {:induction false} EndedInv<K(!new)>(s: State<K>, handles: multiset<K>, history: nat, k: K)
    requires Inv(s, handles, history) && history >= 1 && k in s.entries && handles[k] > 0
    ensures s.entries[k].refCounter > 0 && Inv(Ended(s, k, history), handles - multiset{k}, history)
  {
    var e := s.entries[k];
    if e.refCounter == 1 {
      var s0 := s.(entries := s.entries[k := e.(refCounter := 0)]);
      var n := if |s.unused| < history then |s.unused| else history - 1;
      EvictedParts(s0, history);
      assert k !in s.unused;
      PrefixItems(s.unused, n);
      var r := Ended(s, k, history);
      assert r.unused == [k] + s.unused[..n];
      PushedNoDup(s.unused[..n], k);
      forall x ensures x in r.unused <==> x in r.entries && r.entries[x].refCounter == 0 {
        assert x in r.unused <==> x == k || x in s.unused[..n];
      }
    }
  }

  lemma {:induction false} PrefixItems<K(!new)>(l: seq<K>, n: nat)
    requires NoDup(l) && n <= |l|
    ensures NoDup(l[..n]) && forall x {:trigger x in l[..n]} {:trigger x in l[n..]} :: x in l ==> (x in l[..n] <==> x !in l[n..])
    ensures forall x {:trigger x in l[..n]} {:trigger x in l[n..]} :: x in l[..n] || x in l[n..] ==> x in l
  {
    var a, b := l[..n], l[n..];
    forall i, j | 0 <= i < |a| && 0 <= j < |b| ensures a[i] != b[j] {
      assert a[i] == l[i] && b[j] == l[n + j];
    }
    assert l == l[..n] + l[n..];
  }

  lemma {:induction false} PushedNoDup<K(!new)>(l: seq<K>, k: K)
    requires NoDup(l) && k !in l
    ensures NoDup([k] + l)
  {
    var r := [k] + l;
    forall i, j | 0 <= i < j < |r| ensures r[i] != r[j] {
      assert r[j] == l[j - 1] && l[j - 1] in l;
      if i > 0 {
        assert r[i] == l[i - 1];
      }
    }
  }

  // ---- whole runs ----

  /** The handles that are out after the calls `cs`. */
  function Handles<K>(cs: seq<Call<K>>): multiset<K> {
    if cs == [] then multiset{}
    else
      match cs[|cs| - 1]
      case Retrieve(k) => Handles(cs[..|cs| - 1]) + multiset{k}
      case EndOfUsage(k) => Handles(cs[..|cs| - 1]) - multiset{k}
  }

  /** Only handles that are out are given back. */
  predicate Fair<K(==)>(cs: seq<Call<K>>) {
    cs == [] || (Fair(cs[..|cs| - 1]) && (cs[|cs| - 1].EndOfUsage? ==> Handles(cs[..|cs| - 1])[cs[|cs| - 1].key] > 0))
  }

  ghost function Run<K(!new)>(cs: seq<Call<K>>, history: nat): (s: State<K>)
    requires Fair(cs) && history >= 1
    ensures Inv(s, Handles(cs), history)
  {
    if cs == [] then State(map[], [])
    else
      var s := Run(cs[..|cs| - 1], history);
      match cs[|cs| - 1]
      case Retrieve(k) =>
        RetrievedInv(s, Handles(cs[..|cs| - 1]), history, k);
        Retrieved(s, k)
      case EndOfUsage(k) =>
        EndedInv(s, Handles(cs[..|cs| - 1]), history, k);
        Ended(s, k, history)
  }

  /** When the last handle to `k` was given back: the position of the call, or -1. */
  function UnusedSince<K(==)>(cs: seq<Call<K>>, k: K): int {
    if cs == [] then -1
    else if cs[|cs| - 1] == EndOfUsage(k) then |cs| - 1
    else UnusedSince(cs[..|cs| - 1], k)
  }

  /** The list is in the order in which its entries went out of use, the latest first. */
  ghost predicate Latest<K>(l: seq<K>, cs: seq<Call<K>>) {
    forall i, j {:trigger l[i], l[j]} :: 0 <= i < j < |l| ==> UnusedSince(cs, l[i]) > UnusedSince(cs, l[j])
  }

  lemma {:induction false} LatestWithout<K(!new)>(l: seq<K>, cs: seq<Call<K>>, k: K)
    requires Latest(l, cs) && NoDup(l)
    ensures Latest(Without(l, k), cs)
    decreases |l|
  {
    if l != [] {
      var init, x := l[..|l| - 1], l[|l| - 1];
      assert forall i {:trigger init[i]} :: 0 <= i < |init| ==> init[i] == l[i];
      LatestWithout(init, cs, k);
      WithoutItems(init, k);
      var w := Without(init, k);
      forall i | 0 <= i < |w| ensures UnusedSince(cs, w[i]) > UnusedSince(cs, x) {
        assert w[i] in w;
        var j :| 0 <= j < |init| && init[j] == w[i];
      }
      assert w + [] == w;
    }
  }

  lemma {:induction false} SinceGrows<K(!new)>(cs: seq<Call<K>>, k: K)
    ensures -1 <= UnusedSince(cs, k) < |cs|
    decreases |cs|
  {
    if cs != [] {
      SinceGrows(cs[..|cs| - 1], k);
    }
  }

  /** In every reachable state the list is ordered by the time since when its entries are unused. */
  lemma {:induction false} RunLatest<K(!new)>(cs: seq<Call<K>>, history: nat)
    requires Fair(cs) && history >= 1
    ensures Latest(Run(cs, history).unused, cs)
    decreases |cs|
  {
    hide Inv, Latest, Retrieved, Ended, UnusedSince, Handles;
    if cs == [] {
      LatestNone(cs);
    } else {
      var init := cs[..|cs| - 1];
      RunLatest(init, history);
      var s := Run(init, history);
      if cs[|cs| - 1].Retrieve? {
        RetrievedLatest(s, cs, history);
      } else {
        EndedLast(s, cs, history);
      }
    }
  }

  lemma {:induction false} EndedLast<K(!new)>(s: State<K>, cs: seq<Call<K>>, history: nat)
    requires cs != [] && cs[|cs| - 1].EndOfUsage? && history >= 1 && Latest(s.unused, cs[..|cs| - 1])
    requires Inv(s, Handles(cs[..|cs| - 1]), history) && Handles(cs[..|cs| - 1])[cs[|cs| - 1].key] > 0
    ensures var k := cs[|cs| - 1].key;
            k in s.entries && s.entries[k].refCounter > 0 && Latest(Ended(s, k, history).unused, cs)
  {
    hide Inv, Latest, Ended, Handles, UnusedSince;
    var init, k := cs[..|cs| - 1], cs[|cs| - 1].key;
    EndedLatest(s, init, history, k);
    assert cs == init + [EndOfUsage(k)];
  }

  lemma {:induction false} LatestNone<K(!new)>(cs: seq<Call<K>>)
    ensures Latest([], cs)
  {
  }

  lemma {:induction false} RetrievedLatest<K(!new)>(s: State<K>, cs: seq<Call<K>>, history: nat)
    requires cs != [] && cs[|cs| - 1].Retrieve?
    requires Inv(s, Handles(cs[..|cs| - 1]), history) && Latest(s.unused, cs[..|cs| - 1])
    ensures Latest(Retrieved(s, cs[|cs| - 1].key).unused, cs)
  {
    hide Inv, Latest, Handles, UnusedSince;
    var init, k := cs[..|cs| - 1], cs[|cs| - 1].key;
    ListNoDup(s, Handles(init), history);
    LatestWithout(s.unused, init, k);
    LatestLater(Retrieved(s, k).unused, cs);
  }

  lemma {:induction false} ListNoDup<K(!new)>(s: State<K>, handles: multiset<K>, history: nat)
    requires Inv(s, handles, history)
    ensures NoDup(s.unused)
  {
  }

  /** A retrieval does not change since when anything is unused. */
  lemma {:induction false} LatestLater<K(!new)>(l: seq<K>, cs: seq<Call<K>>)
    requires cs != [] && cs[|cs| - 1].Retrieve? && Latest(l, cs[..|cs| - 1])
    ensures Latest(l, cs)
  {
    forall i, j | 0 <= i < j < |l| ensures UnusedSince(cs, l[i]) > UnusedSince(cs, l[j]) {
      assert UnusedSince(cs[..|cs| - 1], l[i]) > UnusedSince(cs[..|cs| - 1], l[j]);
    }
  }

  lemma {:induction false} EndedList<K(!new)>(s: State<K>, handles: multiset<K>, history: nat, k: K)
    requires Inv(s, handles, history) && history >= 1 && handles[k] > 0
    ensures k in s.entries && s.entries[k].refCounter > 0 && k !in s.unused
    ensures var l := Ended(s, k, history).unused; l == s.unused || exists n: nat :: n <= |s.unused| && l == [k] + s.unused[..n]
  {
    if s.entries[k].refCounter == 1 {
      EvictedParts(s.(entries := s.entries[k := s.entries[k].(refCounter := 0)]), history);
    }
  }

  lemma {:induction false} EndedLatest<K(!new)>(s: State<K>, cs: seq<Call<K>>, history: nat, k: K)
    requires Inv(s, Handles(cs), history) && history >= 1 && Latest(s.unused, cs) && Handles(cs)[k] > 0
    ensures k in s.entries && s.entries[k].refCounter > 0
    ensures Latest(Ended(s, k, history).unused, cs + [EndOfUsage(k)])
  {
    hide Inv, Ended;
    EndedList(s, Handles(cs), history, k);
    var l := Ended(s, k, history).unused;
    if l == s.unused {
      LatestEnds(l, cs, k);
    } else {
      var n: nat :| n <= |s.unused| && l == [k] + s.unused[..n];
      LatestPushed(s.unused, cs, k, n);
    }
  }

  lemma {:induction false} SinceEnds<K(!new)>(cs: seq<Call<K>>, k: K, x: K)
    ensures UnusedSince(cs + [EndOfUsage(k)], x) == if x == k then |cs| else UnusedSince(cs, x)
  {
    assert (cs + [EndOfUsage(k)])[..|cs|] == cs;
  }

  lemma {:induction false} LatestEnds<K(!new)>(l: seq<K>, cs: seq<Call<K>>, k: K)
    requires Latest(l, cs) && k !in l
    ensures Latest(l, cs + [EndOfUsage(k)])
  {
    forall i, j | 0 <= i < j < |l| ensures UnusedSince(cs + [EndOfUsage(k)], l[i]) > UnusedSince(cs + [EndOfUsage(k)], l[j]) {
      SinceEnds(cs, k, l[i]);
      SinceEnds(cs, k, l[j]);
    }
  }

  lemma {:induction false} LatestPushed<K(!new)>(l: seq<K>, cs: seq<Call<K>>, k: K, n: nat)
    requires Latest(l, cs) && k !in l && n <= |l|
    ensures Latest([k] + l[..n], cs + [EndOfUsage(k)])
  {
    var r := [k] + l[..n];
    forall i, j | 0 <= i < j < |r| ensures UnusedSince(cs + [EndOfUsage(k)], r[i]) > UnusedSince(cs + [EndOfUsage(k)], r[j]) {
      assert r[j] == l[j - 1];
      SinceEnds(cs, k, r[i]);
      SinceEnds(cs, k, r[j]);
      SinceGrows(cs, r[j]);
      assert i > 0 ==> r[i] == l[i - 1];
    }
  }

  /** An entry that is evicted has been unused for longer than every entry that stays in the list. */
  lemma {:induction false} EvictsLongestUnused<K(!new)>(cs: seq<Call<K>>, history: nat, k: K, x: K, y: K)
    requires Fair(cs) && history >= 1 && Handles(cs)[k] > 0
    requires var s := Run(cs, history);
             && k in s.entries && s.entries[k].refCounter > 0
             && x in s.entries && x !in Ended(s, k, history).entries
             && y in Ended(s, k, history).unused && y != k
    ensures Handles(cs)[x] == 0 && UnusedSince(cs, x) < UnusedSince(cs, y)
  {
    var s := Run(cs, history);
    RunLatest(cs, history);
    var s0 := s.(entries := s.entries[k := s.entries[k].(refCounter := 0)]);
    EvictedParts(s0, history);
    var n := if |s.unused| < history then |s.unused| else history - 1;
    assert x in s.unused[n..] && y in s.unused[..n];
    var i :| 0 <= i < n && s.unused[i] == y;
    var j :| n <= j < |s.unused| && s.unused[j] == x;
    assert s.unused[j] in s.unused;
  }

  /** What an end of usage leaves. */
  lemma {:induction false} EndedState<K(!new)>(s: State<K>, handles: multiset<K>, history: nat, k: K)
    requires Inv(s, handles, history) && history >= 1 && handles[k] > 0
    ensures k in s.entries && s.entries[k].refCounter == handles[k] && k !in s.unused
    ensures var r := Ended(s, k, history); var n := if |s.unused| < history then |s.unused| else history - 1;
            if handles[k] > 1 then
              r.unused == s.unused && r.entries == s.entries[k := Entry(handles[k] - 1, false)]
            else
              r.unused == [k] + s.unused[..n] && r.entries == (s.entries - Items(s.unused[n..]))[k := Entry(0, true)]
  {
    if handles[k] == 1 {
      var s0 := s.(entries := s.entries[k := s.entries[k].(refCounter := 0)]);
      var n := if |s.unused| < history then |s.unused| else history - 1;
      EvictedParts(s0, history);
      assert k !in Items(s.unused[n..]) by {
        PrefixItems(s.unused, n);
      }
    }
  }

  /** An end of usage changes nothing about the other entries that stay, and evicts an entry only if the
      list is full afterwards. An entry whose last handle is gone stays, at the head of the list; one with
      handles left stays off the list. */
  lemma {:induction false} EndedKeeps<K(!new)>(cs: seq<Call<K>>, history: nat, k: K)
    requires Fair(cs) && history >= 1 && Handles(cs)[k] > 0
    ensures var s := Run(cs, history);
            && k in s.entries && s.entries[k].refCounter > 0
            && var r := Ended(s, k, history);
            && (forall x {:trigger x in s.entries} :: x in s.entries && x !in r.entries ==>
                  |r.unused| == history && |s.unused| == history && x == s.unused[history - 1])
            && (forall x {:trigger r.entries[x]} :: x in r.entries && x != k ==> x in s.entries && r.entries[x] == s.entries[x])
            && k in r.entries
            && (if Handles(cs)[k] == 1 then r.unused != [] && r.unused[0] == k && r.entries[k] == Entry(0, true)
                else r.unused == s.unused && r.entries[k] == Entry(Handles(cs)[k] - 1, false))
  {
    hide Ended, Evicted;
    var s := Run(cs, history);
    EndedState(s, Handles(cs), history, k);
    if |s.unused| == history {
      assert s.unused[history - 1..] == [s.unused[history - 1]];
    } else {
      assert s.unused[|s.unused|..] == [];
    }
  }

  // ---- which entries are resident ----

  ghost function Names<K(!new)>(cs: seq<Call<K>>): set<K> {
    set c | c in cs :: c.key
  }

  /** The keys without handles that went out of use later than `x`. */
  ghost function Fresher<K(!new)>(cs: seq<Call<K>>, x: K): set<K> {
    set y | y in Names(cs) && Handles(cs)[y] == 0 && UnusedSince(cs, y) > UnusedSince(cs, x)
  }

  /** At no time since `x` went out of use were there as many of them as the history may hold. */
  ghost predicate Kept<K(!new)>(cs: seq<Call<K>>, x: K, history: nat) {
    forall t: nat {:trigger cs[..t]} :: UnusedSince(cs, x) < t <= |cs| ==> |Fresher(cs[..t], x)| < history
  }

  /** What one call does to the times and the handles of a key. */
  lemma {:induction false} OneCall<K(!new)>(cs: seq<Call<K>>, x: K)
    requires cs != []
    ensures var init, c := cs[..|cs| - 1], cs[|cs| - 1];
            && UnusedSince(cs, x) == (if c == EndOfUsage(x) then |init| else UnusedSince(init, x))
            && -1 <= UnusedSince(init, x) < |init| && -1 <= UnusedSince(cs, x)
            && (c.key != x ==> Handles(cs)[x] == Handles(init)[x])
            && (c == Retrieve(x) ==> Handles(cs)[x] == Handles(init)[x] + 1)
  {
    SinceGrows(cs[..|cs| - 1], x);
  }

  /** The keys in the list were given back; and a key without handles that went out of use later than
      one of them is in the list, too. */
  ghost predicate NewerStay<K(!new)>(l: seq<K>, cs: seq<Call<K>>) {
    && (forall x {:trigger x in l} :: x in l ==> UnusedSince(cs, x) >= 0)
    && (forall x, y {:trigger x in l, UnusedSince(cs, y)} ::
          x in l && Handles(cs)[y] == 0 && UnusedSince(cs, y) > UnusedSince(cs, x) ==> y in l)
  }

  lemma {:induction false} RunNewerStay<K(!new)>(cs: seq<Call<K>>, history: nat)
    requires Fair(cs) && history >= 1
    ensures NewerStay(Run(cs, history).unused, cs)
    decreases |cs|
  {
    hide Inv, Retrieved, Ended, NewerStay;
    if cs == [] {
      NewerNone(cs);
    } else {
      var init := cs[..|cs| - 1];
      RunNewerStay(init, history);
      RunLatest(init, history);
      if cs[|cs| - 1].Retrieve? {
        NewerRetrieved(cs, history);
      } else {
        NewerEnded(cs, history);
      }
    }
  }

  lemma {:induction false} NewerNone<K(!new)>(cs: seq<Call<K>>)
    ensures NewerStay([], cs)
  {
  }

  lemma {:induction false} NewerRetrieved<K(!new)>(cs: seq<Call<K>>, history: nat)
    requires cs != [] && cs[|cs| - 1].Retrieve? && Fair(cs) && history >= 1
    requires NewerStay(Run(cs[..|cs| - 1], history).unused, cs[..|cs| - 1])
    ensures NewerStay(Run(cs, history).unused, cs)
  {
    hide UnusedSince, Handles;
    var init, k := cs[..|cs| - 1], cs[|cs| - 1].key;
    var s, l := Run(init, history), Run(cs, history).unused;
    WithoutItems(s.unused, k);
    forall x, y | x in l && Handles(cs)[y] == 0 && UnusedSince(cs, y) > UnusedSince(cs, x) ensures y in l {
      OneCall(cs, x);
      OneCall(cs, y);
      assert x in s.unused && y in s.unused;
    }
    forall x | x in l ensures UnusedSince(cs, x) >= 0 {
      OneCall(cs, x);
      assert x in s.unused;
    }
  }

  lemma {:induction false} NewerEnded<K(!new)>(cs: seq<Call<K>>, history: nat)
    requires cs != [] && cs[|cs| - 1].EndOfUsage? && Fair(cs) && history >= 1
    requires NewerStay(Run(cs[..|cs| - 1], history).unused, cs[..|cs| - 1])
    requires Latest(Run(cs[..|cs| - 1], history).unused, cs[..|cs| - 1])
    ensures NewerStay(Run(cs, history).unused, cs)
  {
    hide UnusedSince, Handles, Ended, Inv;
    var init, k := cs[..|cs| - 1], cs[|cs| - 1].key;
    var s, l := Run(init, history), Run(cs, history).unused;
    EndedParts(cs, history);
    forall x | x in l ensures UnusedSince(cs, x) >= 0 {
      OneCall(cs, x);
      assert x == k || x in s.unused;
    }
    forall x, y | x in l && Handles(cs)[y] == 0 && UnusedSince(cs, y) > UnusedSince(cs, x) ensures y in l {
      OneCall(cs, x);
      OneCall(cs, y);
      OneCall(cs, k);
      if y != k && x != k {
        assert x in s.unused && y in s.unused;
        if l != s.unused {
          NewerAhead(s.unused, init, x, y, |l| - 1);
        }
      }
    }
  }

  /** What lies behind the keys kept went out of use earlier. */
  lemma {:induction false} NewerAhead<K(!new)>(l: seq<K>, cs: seq<Call<K>>, x: K, y: K, n: nat)
    requires Latest(l, cs) && n <= |l| && x in l[..n] && y in l && UnusedSince(cs, y) > UnusedSince(cs, x)
    ensures y in l[..n]
  {
    var i :| 0 <= i < n && l[..n][i] == x;
    var j :| 0 <= j < |l| && l[j] == y;
    assert l[i] == x;
    assert j < i ==> l[..n][j] == y;
  }

  /** The list after an end of usage. */
  lemma {:induction false} EndedParts<K(!new)>(cs: seq<Call<K>>, history: nat)
    requires cs != [] && cs[|cs| - 1].EndOfUsage? && Fair(cs) && history >= 1
    ensures var init, k := cs[..|cs| - 1], cs[|cs| - 1].key;
            var s, r := Run(init, history), Run(cs, history);
            var n := if |s.unused| < history then |s.unused| else history - 1;
            && k !in s.unused && Handles(cs)[k] == Handles(init)[k] - 1
            && if Handles(init)[k] > 1 then r.unused == s.unused && r.entries.Keys == s.entries.Keys
               else r.unused == [k] + s.unused[..n] && r.entries.Keys == s.entries.Keys - Items(s.unused[n..])
  {
    hide Ended, Inv;
    var init, k := cs[..|cs| - 1], cs[|cs| - 1].key;
    var s := Run(init, history);
    EndedState(s, Handles(init), history, k);
    var n := if |s.unused| < history then |s.unused| else history - 1;
    NotBehind(s.unused, k, n);
  }

  lemma {:induction false} NotBehind<K>(l: seq<K>, k: K, n: nat)
    requires k !in l && n <= |l|
    ensures k !in Items(l[n..])
  {
  }

  lemma {:induction false} ItemsSize<K(!new)>(l: seq<K>)
    ensures |Items(l)| <= |l| && (NoDup(l) ==> |Items(l)| == |l|)
    decreases |l|
  {
    if l == [] {
      assert Items(l) == {};
    } else {
      var init, x := l[..|l| - 1], l[|l| - 1];
      assert l == init + [x];
      ItemsSnoc(init, x);
      ItemsSize(init);
      assert forall i {:trigger init[i]} :: 0 <= i < |init| ==> init[i] == l[i];
      assert NoDup(l) ==> NoDup(init) && x !in init;
    }
  }

  lemma {:induction false} Subset<K>(a: set<K>, b: set<K>)
    requires a <= b
    ensures |a| <= |b|
  {
    assert b == a + (b - a);
  }

  lemma {:induction false} SinceNamed<K(!new)>(cs: seq<Call<K>>, k: K)
    requires UnusedSince(cs, k) >= 0
    ensures k in Names(cs)
    decreases |cs|
  {
    var c := cs[|cs| - 1];
    assert c in cs;
    if c != EndOfUsage(k) {
      SinceNamed(cs[..|cs| - 1], k);
      var d :| d in cs[..|cs| - 1] && d.key == k;
      assert d in cs;
    }
  }

  /** Before an entry of the list there are all the keys that went out of use later. */
  lemma {:induction false} ListedRank<K(!new)>(cs: seq<Call<K>>, history: nat, x: K)
    requires Fair(cs) && history >= 1 && x in Run(cs, history).unused
    ensures |Fresher(cs, x)| < history
  {
    hide UnusedSince, Handles;
    var l := Run(cs, history).unused;
    RunNewerStay(cs, history);
    RunLatest(cs, history);
    var i :| 0 <= i < |l| && l[i] == x;
    forall y | y in Fresher(cs, x) ensures y in Items(l[..i]) {
      assert y in l;
      var j :| 0 <= j < |l| && l[j] == y;
      assert j < i;
      assert l[..i][j] == y;
    }
    ItemsSize(l[..i]);
    Subset(Fresher(cs, x), Items(l[..i]));
  }

  /** An entry is evicted when the list is full of keys that went out of use later. */
  lemma {:induction false} EvictedRank<K(!new)>(cs: seq<Call<K>>, history: nat, x: K)
    requires cs != [] && cs[|cs| - 1].EndOfUsage? && Fair(cs) && history >= 1
    requires x in Run(cs[..|cs| - 1], history).entries && x !in Run(cs, history).entries
    ensures |Fresher(cs, x)| >= history
  {
    hide UnusedSince, Handles, Ended, Inv;
    var init, k := cs[..|cs| - 1], cs[|cs| - 1].key;
    var l := Run(cs, history).unused;
    EndedKeeps(init, history, k);
    ListNoDup(Run(cs, history), Handles(cs), history);
    forall y | y in Items(l) ensures y in Fresher(cs, x) {
      ListedIdle(Run(cs, history), Handles(cs), history, y);
      OneCall(cs, x);
      OneCall(cs, y);
      if y != k {
        EvictsLongestUnused(init, history, k, x, y);
      }
      SinceNamed(cs, y);
    }
    ItemsSize(l);
    Subset(Items(l), Fresher(cs, x));
  }

  lemma {:induction false} ListedIdle<K(!new)>(s: State<K>, handles: multiset<K>, history: nat, x: K)
    requires Inv(s, handles, history)
    ensures x in s.unused <==> x in s.entries && handles[x] == 0
    ensures handles[x] > 0 ==> x in s.entries
  {
  }

  lemma {:induction false} KeptStep<K(!new)>(cs: seq<Call<K>>, x: K, history: nat)
    requires cs != [] && cs[|cs| - 1].key != x
    ensures Kept(cs, x, history) <==> Kept(cs[..|cs| - 1], x, history) && |Fresher(cs, x)| < history
  {
    hide UnusedSince, Fresher;
    var init := cs[..|cs| - 1];
    OneCall(cs, x);
    assert cs[..|cs|] == cs;
    if Kept(cs, x, history) {
      forall t: nat | UnusedSince(init, x) < t <= |init| ensures |Fresher(init[..t], x)| < history {
        assert init[..t] == cs[..t];
      }
    }
    if Kept(init, x, history) && |Fresher(cs, x)| < history {
      forall t: nat | UnusedSince(cs, x) < t <= |cs| ensures |Fresher(cs[..t], x)| < history {
        if t < |cs| {
          assert init[..t] == cs[..t];
        }
      }
    }
  }

  /** A call on another key never brings an entry into the cache, and a retrieval drops none. */
  lemma {:induction false} OtherKey<K(!new)>(cs: seq<Call<K>>, history: nat, x: K)
    requires cs != [] && cs[|cs| - 1].key != x && Fair(cs) && history >= 1
    ensures x in Run(cs, history).entries ==> x in Run(cs[..|cs| - 1], history).entries
    ensures cs[|cs| - 1].Retrieve? && x in Run(cs[..|cs| - 1], history).entries ==> x in Run(cs, history).entries
  {
    hide UnusedSince, Handles, Ended, Inv;
    if cs[|cs| - 1].EndOfUsage? {
      EndedKeeps(cs[..|cs| - 1], history, cs[|cs| - 1].key);
    }
  }

  lemma {:induction false} IdleIff<K(!new)>(cs: seq<Call<K>>, history: nat, x: K)
    requires Fair(cs) && history >= 1 && Handles(cs)[x] == 0
    ensures x in Run(cs, history).entries <==> UnusedSince(cs, x) >= 0 && Kept(cs, x, history)
    decreases |cs|
  {
    hide Handles, UnusedSince, Inv, Ended, Retrieved, Kept, Fresher;
    if cs == [] {
      NoSince(cs, x);
    } else {
      var init, c := cs[..|cs| - 1], cs[|cs| - 1];
      OneCall(cs, x);
      if c.key != x {
        IdleIff(init, history, x);
        KeptStep(cs, x, history);
        OtherKey(cs, history, x);
        ListedIdle(Run(cs, history), Handles(cs), history, x);
        if x in Run(cs, history).entries {
          ListedRank(cs, history, x);
        } else if x in Run(init, history).entries {
          EvictedRank(cs, history, x);
        }
      } else {
        JustEnded(cs, history);
      }
    }
  }

  lemma {:induction false} NoSince<K(!new)>(cs: seq<Call<K>>, x: K)
    requires cs == []
    ensures UnusedSince(cs, x) == -1
  {
  }

  /** The entry whose last handle has just gone. */
  lemma {:induction false} JustEnded<K(!new)>(cs: seq<Call<K>>, history: nat)
    requires cs != [] && Fair(cs) && history >= 1 && Handles(cs)[cs[|cs| - 1].key] == 0
    ensures cs[|cs| - 1].EndOfUsage? && cs[|cs| - 1].key in Run(cs, history).entries
    ensures Kept(cs, cs[|cs| - 1].key, history)
  {
    hide Ended, UnusedSince, Inv, Handles, Fresher;
    var x := cs[|cs| - 1].key;
    OneCall(cs, x);
    EndedKeeps(cs[..|cs| - 1], history, x);
    assert cs[..|cs|] == cs;
    NoneFresher(cs, x);
  }

  lemma {:induction false} NoneFresher<K(!new)>(cs: seq<Call<K>>, x: K)
    requires UnusedSince(cs, x) == |cs| - 1
    ensures Fresher(cs, x) == {}
  {
    hide UnusedSince, Handles;
    forall y ensures y !in Fresher(cs, x) {
      SinceGrows(cs, y);
    }
  }

  /** After any run, an entry is resident if and only if it is in use, or went out of use and at no time
      since then had as many other keys gone out of use later, and stayed so, as the history may hold.
      All other retrievals need a new value. */
  lemma {:induction false} ResidentIff<K(!new)>(cs: seq<Call<K>>, history: nat, x: K)
    requires Fair(cs) && history >= 1
    ensures !IsNew(Run(cs, history), x) <==> Handles(cs)[x] > 0 || (UnusedSince(cs, x) >= 0 && Kept(cs, x, history))
  {
    hide Handles, UnusedSince, Inv, Kept;
    if Handles(cs)[x] > 0 {
      ListedIdle(Run(cs, history), Handles(cs), history, x);
    } else {
      IdleIff(cs, history, x);
    }
  }

  // ---- the cache object ----

  class ConcurrentLruCache<K(==)> {
    const historyItems: nat
    var mapStorage: map<K, Entry>
    var lruList: seq<K>

    ghost function Abs(): State<K>
      reads this
    {
      State(mapStorage, lruList)
    }

    constructor (historyItems: nat)
      requires historyItems >= 1
      ensures this.historyItems == historyItems && Abs() == State(map[], [])
    {
      this.historyItems, mapStorage, lruList := historyItems, map[], [];
    }

    method RemoveFromList(k: K)
      modifies `lruList
      ensures lruList == Without(old(lruList), k)
    {
      var r, i := [], 0;
      while i < |lruList|
        invariant i <= |lruList| && r == Without(lruList[..i], k)
      {
        assert lruList[..i + 1][..i] == lruList[..i];
        if lruList[i] != k {
          r := r + [lruList[i]];
        }
        i := i + 1;
      }
      assert lruList[..i] == lruList;
      lruList := r;
    }

    method RetrieveSerial(k: K) returns (isNewValueNeeded: bool)
      modifies `mapStorage, `lruList
      ensures Abs() == Retrieved(old(Abs()), k) && isNewValueNeeded == IsNew(old(Abs()), k)
    {
      isNewValueNeeded := false;
      if k !in mapStorage {
        mapStorage := mapStorage[k := Entry(0, false)];
        isNewValueNeeded := true;
      } else if mapStorage[k].listed {
        RemoveFromList(k);
        mapStorage := mapStorage[k := mapStorage[k].(listed := false)];
      }
      mapStorage := mapStorage[k := mapStorage[k].(refCounter := mapStorage[k].refCounter + 1)];
    }

    method SignalEndOfUsageSerial(k: K)
      requires k in mapStorage && mapStorage[k].refCounter > 0 && historyItems >= 1
      modifies `mapStorage, `lruList
      ensures Abs() == Ended(old(Abs()), k, historyItems)
    {
      mapStorage := mapStorage[k := mapStorage[k].(refCounter := mapStorage[k].refCounter - 1)];
      if mapStorage[k].refCounter == 0 {
        ghost var s := Abs();
        if |lruList| >= historyItems {
          var numberOfElementsToEvict := 1 + |lruList| - historyItems;
          var i := 0;
          while i < numberOfElementsToEvict
            invariant 0 <= i <= numberOfElementsToEvict && |lruList| == historyItems - 1 + (numberOfElementsToEvict - i)
            invariant Evicted(Abs(), historyItems) == Evicted(s, historyItems)
          {
            var toEvict := lruList[|lruList| - 1];
            lruList := lruList[..|lruList| - 1];
            mapStorage := mapStorage - {toEvict};
            i := i + 1;
          }
        }
        lruList := [k] + lruList;
        mapStorage := mapStorage[k := Entry(0, true)];
      }
    }
  }
}
