/** Powers of two, right shifts and sibling positions: the index arithmetic of the merkle engine. */
module Arith {
  function Pow2(k: nat): (p: nat)
    ensures p > 0
  {
    if k == 0 then 1 else 2 * Pow2(k - 1)
  }

  /** x >> k, for the non-negative values the engine shifts. */
  function Shr(x: nat, k: nat): nat {
    if k == 0 then x else Shr(x, k - 1) / 2
  }

  /** x ^ 1: the other position of the pair x belongs to. */
  function Sib(x: nat): nat {
    if x % 2 == 0 then x + 1 else x - 1
  }

  /** The smallest h with 2^h >= n, by halving. */
  function Log2(n: nat): nat {
    if n <= 1 then 0 else 1 + Log2((n + 1) / 2)
  }

  ghost predicate IsPow2(n: nat) {
    n == Pow2(Log2(n))
  }

  lemma Pow2Monotone(a: nat, b: nat)
    requires a <= b
    ensures Pow2(a) <= Pow2(b)
  {
    if a < b { Pow2Monotone(a, b - 1); }
  }

  lemma Log2Bounds(n: nat)
    requires n >= 1
    ensures n <= Pow2(Log2(n))
    ensures Log2(n) > 0 ==> Pow2(Log2(n) - 1) < n
  {
    if n > 1 { Log2Bounds((n + 1) / 2); }
  }

  lemma Log2Unique(n: nat, h: nat)
    requires n >= 1 && n <= Pow2(h) && (h > 0 ==> Pow2(h - 1) < n)
    ensures h == Log2(n)
  {
    Log2Bounds(n);
    if h < Log2(n) {
      Pow2Monotone(h, Log2(n) - 1);
    } else if Log2(n) < h {
      Pow2Monotone(Log2(n), h - 1);
    }
  }

  lemma {:induction false} Log2OfPow2(h: nat)
    ensures Log2(Pow2(h)) == h
  {
    if h > 0 { Pow2Monotone(h - 1, h); }
    Log2Unique(Pow2(h), h);
  }

  lemma {:induction false} Pow2Add(a: nat, b: nat)
    ensures Pow2(a) * Pow2(b) == Pow2(a + b)
  {
    if a > 0 {
      Pow2Add(a - 1, b);
      assert Pow2(a) * Pow2(b) == 2 * (Pow2(a - 1) * Pow2(b));
    }
  }

  lemma Halve(a: nat, p: nat, y: nat)
    ensures a * (2 * p) == 2 * (a * p)
    ensures (a * (2 * p) + y) / 2 == a * p + y / 2
  {
    assert a * (2 * p) == 2 * (a * p);
  }

  /** Shifting distributes over "subtree base plus local index" while the base stays whole. */
  lemma {:induction false} ShrSplit(a: nat, m: nat, x: nat, k: nat)
    requires k <= m
    ensures Shr(a * Pow2(m) + x, k) == a * Pow2(m - k) + Shr(x, k)
  {
    if k > 0 {
      ShrSplit(a, m, x, k - 1);
      Halve(a, Pow2(m - k), Shr(x, k - 1));
      assert Pow2(m - (k - 1)) == 2 * Pow2(m - k);
    }
  }

  lemma {:induction false} ShrAdd(x: nat, j: nat, k: nat)
    ensures Shr(Shr(x, j), k) == Shr(x, j + k)
  {
    if k > 0 { ShrAdd(x, j, k - 1); }
  }

  lemma {:induction false} ShrBound(x: nat, h: nat, k: nat)
    requires k <= h && x < Pow2(h)
    ensures Shr(x, k) < Pow2(h - k)
  {
    if k > 0 { ShrBound(x, h, k - 1); }
  }

  /** The sibling of a node below the root lies in the same level of the same tree. */
  lemma SibBound(x: nat, m: nat)
    requires m >= 1 && x < Pow2(m)
    ensures Sib(x) < Pow2(m)
  {
    var half := Pow2(m - 1);
    assert x == 2 * (x / 2) + x % 2 && x / 2 < half;
  }

  lemma ShrOne(x: nat)
    ensures Shr(x, 1) == x / 2
  {
    assert Shr(x, 0) == x;
  }

  lemma SibHalf(x: nat)
    ensures Sib(x) / 2 == x / 2
  {}

  lemma SibInvolution(x: nat)
    ensures Sib(Sib(x)) == x
  {}

  lemma SibOfEvenBase(e: nat, y: nat)
    requires e % 2 == 0
    ensures Sib(e + y) == e + Sib(y)
  {}

  /** Taking the sibling commutes with adding an even base. */
  lemma SibSplit(a: nat, m: nat, y: nat)
    requires m >= 1
    ensures Sib(a * Pow2(m) + y) == a * Pow2(m) + Sib(y)
  {
    Halve(a, Pow2(m - 1), 0);
    SibOfEvenBase(a * Pow2(m), y);
  }

  lemma MulStep(a: nat, b: nat, p: nat)
    requires a < b
    ensures a * p + p <= b * p
  {
    assert (b - a - 1) * p >= 0;
    assert b * p == a * p + p + (b - a - 1) * p;
  }

  lemma NextMultiple(a: nat, p: nat)
    ensures (a + 1) * p == a * p + p
  {}

  /** A quotient and a remainder below p determine each other. */
  lemma SplitUnique(a: nat, x: nat, b: nat, y: nat, p: nat)
    requires x < p && y < p && a * p + x == b * p + y
    ensures a == b && x == y
  {
    if a < b {
      MulStep(a, b, p);
    } else if b < a {
      MulStep(b, a, p);
    }
  }

  lemma QuotientIs(v: nat, m: nat, q: nat, r: nat)
    requires m > 0 && v == q * m + r && r < m
    ensures v / m == q
  {
    assert v == (v / m) * m + v % m;
    SplitUnique(q, r, v / m, v % m, m);
  }

  lemma Regroup(b: nat, q: nat, p: nat, r: nat)
    ensures b * (q * p + r) == q * (b * p) + b * r
  {}

  lemma Product(b: nat, p: nat, r: nat, low: nat)
    requires low < b && r < p
    ensures b * r + low < b * p
  {
    MulStep(r, p, b);
  }

  lemma DivTwiceBy(v: nat, b: nat, p: nat, m: nat, w: nat, low: nat, q: nat, r: nat)
    requires m == b * p && v == b * w + low && w == q * p + r && low < b && r < p
    ensures m > 0 && v / m == q
  {
    Regroup(b, q, p, r);
    Product(b, p, r, low);
    var rest := b * r + low;
    QuotientIs(v, m, q, rest);
  }

  /** Dividing twice is dividing by the product. */
  lemma DivTwice(v: nat, b: nat, p: nat)
    requires b > 0 && p > 0
    ensures b * p > 0 && v / b / p == v / (b * p)
  {
    var w := v / b;
    DivTwiceBy(v, b, p, b * p, w, v % b, w / p, w % p);
  }

  function Quot(x: nat, p: nat): nat
    requires p > 0
  {
    x / p
  }

  function Rem(x: nat, p: nat): (r: nat)
    requires p > 0
    ensures r < p
  {
    x % p
  }

  lemma QuotRem(x: nat, p: nat)
    requires p > 0
    ensures x == Quot(x, p) * p + Rem(x, p)
  {}

  lemma DivModSplit(a: nat, x: nat, p: nat)
    requires x < p
    ensures Quot(a * p + x, p) == a && Rem(a * p + x, p) == x
  {
    hide Quot, Rem;
    var s := a * p + x;
    QuotRem(s, p);
    SplitUnique(a, x, Quot(s, p), Rem(s, p), p);
  }

  /** The doubling loop of NextPowerOfTwo. */
  method NextPowerOfTwo(n: nat) returns (p: nat)
    ensures n >= 1 ==> p == Pow2(Log2(n))
    ensures n == 0 ==> p == 1
    ensures p >= n && (p > 1 ==> p / 2 < n)
  {
    p := 1;
    ghost var h := 0;
    while p < n
      invariant p == Pow2(h) && (h > 0 ==> Pow2(h - 1) < n)
      invariant n == 0 ==> h == 0
      decreases n - p
    {
      p := p * 2;
      h := h + 1;
    }
    if n >= 1 { Log2Unique(n, h); }
  }

  /** The counting loop of Log2Ceil; `1 << h` is Pow2(h). */
  method Log2Ceil(n: nat) returns (h: nat)
    ensures h == Log2(n)
    ensures n <= Pow2(h) && (h > 0 ==> Pow2(h - 1) < n)
  {
    h := 0;
    while Pow2(h) < n
      invariant h > 0 ==> Pow2(h - 1) < n
      decreases n - Pow2(h)
    {
      h := h + 1;
    }
    if n >= 1 { Log2Unique(n, h); }
  }
}
