/** Masked hash codes: `h & (2^k - 1)` and the bits of `h`. */
module HashBits {

  function Pow2(k: nat): (p: nat)
    ensures p > 0
  {
    if k == 0 then 1 else 2 * Pow2(k - 1)
  }

  /** `h & (2^k - 1)`. */
  function Cut(h: nat, k: nat): (c: nat)
    ensures c < Pow2(k)
  {
    h % Pow2(k)
  }

  /** Bit `k` of `h`, as `h & (1 << k)` tests it. */
  predicate Bit(h: nat, k: nat) {
    (h / Pow2(k)) % 2 == 1
  }

  /** The position of the topmost bit. */
  function Log2(h: nat): (k: nat)
    requires h > 0
    ensures Pow2(k) <= h < Pow2(k + 1)
  {
    if h == 1 then 0 else 1 + Log2(h / 2)
  }

  lemma {:induction false} PowGrows(a: nat, b: nat)
    requires a <= b
    ensures Pow2(a) <= Pow2(b) && (a < b ==> 2 * Pow2(a) <= Pow2(b))
    decreases b
  {
    if a < b {
      PowGrows(a, b - 1);
    }
  }

  lemma {:induction false} LogOf(h: nat, k: nat)
    requires Pow2(k) <= h < Pow2(k + 1)
    ensures h > 0 && Log2(h) == k
  {
    var l := Log2(h);
    if l < k {
      PowGrows(l + 1, k);
    } else if k < l {
      PowGrows(k + 1, l);
    }
  }

  /** One more bit of the hash code either changes nothing or adds a power of two. */
  lemma {:induction false} CutStep(h: nat, k: nat)
    ensures Cut(h, k + 1) == Cut(h, k) + if Bit(h, k) then Pow2(k) else 0
  {
    var p := Pow2(k);
    var q, r := h / p, h % p;
    assert h == p * q + r;
    assert q == 2 * (q / 2) + q % 2;
    HalfQuotient(p, q, r);
  }

  lemma {:induction false} HalfQuotient(p: nat, q: nat, r: nat)
    requires p > 0 && r < p
    ensures (p * q + r) % (2 * p) == r + p * (q % 2)
  {
    var u := q / 2;
    var v := q % 2;
    assert q == 2 * u + v;
    assert p * q == (2 * p) * u + p * v by {
      assert p * (2 * u + v) == 2 * p * u + p * v;
    }
    var s := r + p * v;
    assert 0 <= s < 2 * p by {
      if v == 0 {
        assert p * v == 0;
      } else {
        assert v == 1 && p * v == p;
      }
    }
    ModUnique((2 * p) * u + s, 2 * p, u, s);
  }

  lemma {:induction false} MulApart(m: nat, a: nat, b: nat)
    requires a > b
    ensures m * a >= m * b + m
  {
    var d := a - b - 1;
    assert m * (b + 1 + d) == m * b + m + m * d;
  }

  lemma {:induction false} ModUnique(x: nat, m: nat, u: nat, s: nat)
    requires m > 0 && s < m && x == m * u + s
    ensures x % m == s
  {
    var q, r := x / m, x % m;
    assert x == m * q + r;
    if u > q {
      MulApart(m, u, q);
    } else if q > u {
      MulApart(m, q, u);
    }
  }

  lemma {:induction false} CutSmall(x: nat, k: nat)
    requires x < Pow2(k)
    ensures Cut(x, k) == x
  {
    ModUnique(x, Pow2(k), 0, x);
  }

  lemma {:induction false} CutMono(h: nat, k: nat, l: nat)
    requires k <= l
    ensures Cut(h, k) <= Cut(h, l)
    decreases l
  {
    if k < l {
      CutMono(h, k, l - 1);
      CutStep(h, l - 1);
    }
  }

  lemma {:induction false} PowAdd(a: nat, b: nat)
    ensures Pow2(a + b) == Pow2(a) * Pow2(b)
    decreases b
  {
    if b > 0 {
      PowAdd(a, b - 1);
      assert a + b - 1 == a + (b - 1);
      assert Pow2(a) * (2 * Pow2(b - 1)) == 2 * (Pow2(a) * Pow2(b - 1));
    }
  }

  lemma {:induction false} ModAdd(x: nat, m: nat, u: nat)
    requires m > 0
    ensures (x + m * u) % m == x % m
  {
    var q, r := x / m, x % m;
    assert x + m * u == m * (q + u) + r by {
      assert m * (q + u) == m * q + m * u;
    }
    ModUnique(x + m * u, m, q + u, r);
  }

  /** A longer mask hides nothing that a shorter one shows. */
  lemma {:induction false} CutCut(h: nat, k: nat, l: nat)
    requires k <= l
    ensures Cut(Cut(h, l), k) == Cut(h, k)
  {
    hide Pow2;
    PowAdd(k, l - k);
    ModMod(h, Pow2(k), Pow2(l - k));
  }

  lemma {:induction false} ModMod(h: nat, m: nat, u: nat)
    requires m > 0 && u > 0 && m * u > 0
    ensures (h % (m * u)) % m == h % m
  {
    var n := m * u;
    var q, r := h / n, h % n;
    assert h == n * q + r;
    MulAssoc(m, u, q);
    ModAdd(r, m, u * q);
  }

  lemma {:induction false} MulAssoc(a: nat, b: nat, c: nat)
    ensures a * b * c == a * (b * c)
  {
  }

  /** All masks between the topmost bit of a masked code and its mask give the same bucket. */
  lemma {:induction false} CutTop(h: nat, l: nat, j: nat)
    requires Cut(h, l) > 0 && Log2(Cut(h, l)) < j <= l
    ensures Cut(h, j) == Cut(h, l)
  {
    var i := Cut(h, l);
    CutCut(h, j, l);
    PowGrows(Log2(i) + 1, j);
    CutSmall(i, j);
  }

  /** Clearing the topmost bit. */
  function Parent(i: nat): (p: nat)
    requires i > 0
    ensures p < i
  {
    Cut(i, Log2(i))
  }

  lemma {:induction false} LogBelow(i: nat, l: nat)
    requires 0 < i < Pow2(l)
    ensures Log2(i) < l
  {
    if Log2(i) >= l {
      PowGrows(l, Log2(i));
    }
  }

  /** The parent of a masked code is the code masked up to below its topmost bit. */
  lemma {:induction false} ParentCut(h: nat, l: nat)
    requires Cut(h, l) > 0
    ensures Log2(Cut(h, l)) < l && Parent(Cut(h, l)) == Cut(h, Log2(Cut(h, l)))
  {
    LogBelow(Cut(h, l), l);
    CutCut(h, Log2(Cut(h, l)), l);
  }

  /** The parent of a code that has bit `k` as its topmost bit. */
  lemma {:induction false} ParentOfStep(h: nat, k: nat)
    requires Bit(h, k)
    ensures Cut(h, k + 1) == Cut(h, k) + Pow2(k) && Log2(Cut(h, k + 1)) == k && Parent(Cut(h, k + 1)) == Cut(h, k)
  {
    CutStep(h, k);
    LogOf(Cut(h, k + 1), k);
    CutCut(h, k, k + 1);
  }

  /** A bit on top of a masked code. */
  lemma {:induction false} AddBit(i: nat, s: nat)
    requires i < Pow2(s)
    ensures i + Pow2(s) < Pow2(s + 1) && Log2(i + Pow2(s)) == s && Parent(i + Pow2(s)) == i
  {
    LogOf(i + Pow2(s), s);
    ModUnique(i + Pow2(s), Pow2(s), 1, i);
  }

  // ---- the segments of the bucket array ----

  /** `__TBB_Log2(index | 1)`. */
  function SegmentIndexOf(index: nat): nat {
    Log2(index + (1 - index % 2))
  }

  /** `(1 << k) & ~1`. */
  function SegmentBase(k: nat): nat {
    Pow2(k) - Pow2(k) % 2
  }

  function SegmentSize(k: nat): nat {
    if k == 0 then 2 else Pow2(k)
  }

  /** Every index lies in exactly one segment, the one that SegmentIndexOf computes. */
  lemma {:induction false} SegmentOf(index: nat, k: nat)
    ensures SegmentIndexOf(index) == k <==> SegmentBase(k) <= index < SegmentBase(k) + SegmentSize(k)
  {
    var i := index + (1 - index % 2);
    var l := Log2(i);
    EvenPow(k);
    EvenPow(l);
    EvenPow(l + 1);
    if k > 0 && Pow2(k) <= index < Pow2(k + 1) {
      EvenPow(k + 1);
      assert Pow2(k + 1) == 2 * Pow2(k);
      LogOf(i, k);
    } else if k == 0 && index < 2 {
      assert i == 1;
    }
  }

  lemma {:induction false} EvenPow(k: nat)
    ensures k > 0 ==> Pow2(k) % 2 == 0
    ensures k == 0 ==> Pow2(k) == 1
  {
  }
}
