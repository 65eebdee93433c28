/** Bit strings, most significant bit first, and the numbers they denote.
    They are the reference vocabulary for the base32 codec. */
module Bits {
  type Quintet = x: int | 0 <= x < 32

  function Pow2(k: nat): (p: nat)
    ensures p >= 1
  {
    if k == 0 then 1 else 2 * Pow2(k - 1)
  }

  /** The number a bit string denotes. */
  function Num(s: seq<bool>): (n: nat)
    ensures n < Pow2(|s|)
  {
    if s == [] then 0
    else 2 * Num(s[..|s| - 1]) + if s[|s| - 1] then 1 else 0
  }

  /** The low `k` bits of `n`. */
  function BitsOf(n: nat, k: nat): (s: seq<bool>)
    ensures |s| == k
  {
    if k == 0 then [] else BitsOf(n / 2, k - 1) + [n % 2 == 1]
  }

  function Zeros(k: nat): (s: seq<bool>)
    ensures |s| == k && forall i :: 0 <= i < k ==> !s[i]
  {
    seq(k, i => false)
  }

  lemma DoubleProduct(x: int, y: int)
    ensures x * (2 * y) == 2 * (x * y)
  {
  }

  lemma {:induction false} NumConcat(a: seq<bool>, b: seq<bool>)
    ensures Num(a + b) == Num(a) * Pow2(|b|) + Num(b)
  {
    if b == [] {
      assert a + b == a;
      assert Num(a) * 1 == Num(a);
    } else {
      var front := b[..|b| - 1];
      var bit := if b[|b| - 1] then 1 else 0;
      assert (a + b)[..|a + b| - 1] == a + front;
      NumConcat(a, front);
      DoubleProduct(Num(a), Pow2(|front|));
      assert Num(a + b) == 2 * Num(a + front) + bit;
      assert Num(b) == 2 * Num(front) + bit;
    }
  }

  lemma {:induction false} NumBitsOf(n: nat, k: nat)
    requires n < Pow2(k)
    ensures Num(BitsOf(n, k)) == n
  {
    if k > 0 {
      NumBitsOf(n / 2, k - 1);
      assert BitsOf(n, k)[..k - 1] == BitsOf(n / 2, k - 1);
    }
  }

  lemma {:induction false} BitsOfNum(s: seq<bool>)
    ensures BitsOf(Num(s), |s|) == s
  {
    if s != [] {
      var front := s[..|s| - 1];
      BitsOfNum(front);
      assert Num(s) / 2 == Num(front);
      assert BitsOf(Num(s), |s|) == BitsOf(Num(front), |s| - 1) + [s[|s| - 1]];
    }
  }

  lemma QuotientOf(n: nat, d: nat, q: nat, r: nat)
    requires r < d && n == q * d + r
    ensures n / d == q
  {
    assert n == d * (n / d) + n % d;
    Multiple(d, n / d - q, r - n % d);
  }

  lemma Multiple(d: int, e: int, x: int)
    requires d * e == x && -d < x < d
    ensures e == 0
  {
    assert e >= 1 ==> d * e >= d;
    assert e <= -1 ==> d * e <= -d;
  }

  lemma Halves(n: nat, p: nat)
    requires p > 0
    ensures n / 2 / p == n / (2 * p)
  {
    var q, r := n / 2 / p, n / 2 % p;
    assert n / 2 == q * p + r;
    assert n == q * (2 * p) + (2 * r + n % 2);
    QuotientOf(n, 2 * p, q, 2 * r + n % 2);
  }

  /** Bit `j` of `k`, from the highest. */
  lemma {:induction false} BitOf(n: nat, k: nat, j: nat)
    requires j < k
    ensures BitsOf(n, k)[j] <==> n / Pow2(k - 1 - j) % 2 == 1
  {
    if j < k - 1 {
      BitOf(n / 2, k - 1, j);
      Halves(n, Pow2(k - 2 - j));
    } else {
      assert Pow2(0) == 1;
    }
  }
}
