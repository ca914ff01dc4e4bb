/** Powers of two and bitwise operations on naturals, by recursion on the bits. */
module Bits {

  function Pow2(k: nat): (r: nat)
    ensures r >= 1
  {
    if k == 0 then 1 else 2 * Pow2(k - 1)
  }

  lemma {:induction false} Pow2Mono(a: nat, b: nat)
    requires a <= b
    ensures Pow2(a) <= Pow2(b)
    decreases b
  {
    if a < b { Pow2Mono(a, b - 1); }
  }

  /** Bitwise exclusive or. */
  function Xor(a: nat, b: nat): nat {
    if a == 0 && b == 0 then 0 else (a % 2 + b % 2) % 2 + 2 * Xor(a / 2, b / 2)
  }

  /** Bitwise and. */
  function And(a: nat, b: nat): nat {
    if a == 0 || b == 0 then 0 else (if a % 2 == 1 && b % 2 == 1 then 1 else 0) + 2 * And(a / 2, b / 2)
  }

  /** The k low bits of p are zero. */
  predicate Aligned(p: nat, k: nat)
    decreases k
  {
    k == 0 || (p % 2 == 0 && Aligned(p / 2, k - 1))
  }

  lemma HalfMod(p: nat, h: nat)
    requires h > 0
    ensures p % (2 * h) == 2 * (p / 2 % h) + p % 2
  {
    var q, r := p / 2 / h, p / 2 % h;
    assert p / 2 == q * h + r;
    assert q * (2 * h) == 2 * (q * h);
    ModUnique(p, 2 * h, q, 2 * r + p % 2);
  }

  /** The alignment test of the source: no bit of p below k is set. */
  lemma {:induction false} AlignedIsMask(p: nat, k: nat)
    ensures Aligned(p, k) <==> p % Pow2(k) == 0
    decreases k
  {
    if k > 0 {
      AlignedIsMask(p / 2, k - 1);
      HalfMod(p, Pow2(k - 1));
    }
  }

  lemma MulMono(a: nat, b: nat, d: nat)
    requires a < b
    ensures a * d + d <= b * d
  {
    assert (b - a - 1) * d >= 0;
    assert b * d == a * d + d + (b - a - 1) * d;
  }

  lemma ModUnique(p: nat, d: nat, q: nat, r: nat)
    requires d > 0 && r < d && p == q * d + r
    ensures p % d == r && p / d == q
  {
    var q' := p / d;
    assert p == q' * d + p % d;
    if q' < q { MulMono(q', q, d); }
    if q < q' { MulMono(q, q', d); }
  }

  lemma {:induction false} XorZero(a: nat)
    ensures Xor(a, 0) == a
  {
    if a > 0 { XorZero(a / 2); }
  }

  lemma {:induction false} AndSelf(a: nat)
    ensures And(a, a) == a
  {
    if a > 0 { AndSelf(a / 2); }
  }

  lemma HalveXor(p: nat, k: nat)
    requires k > 0 && p % 2 == 0
    ensures Xor(p, Pow2(k)) == 2 * Xor(p / 2, Pow2(k - 1))
  {
    assert Pow2(k) / 2 == Pow2(k - 1) && Pow2(k) % 2 == 0;
  }

  lemma {:induction false} AndCommutes(a: nat, b: nat)
    ensures And(a, b) == And(b, a)
  {
    if a != 0 && b != 0 { AndCommutes(a / 2, b / 2); }
  }

  lemma FlipLowBit(p: nat)
    ensures Xor(p, 1) == (if p % 2 == 0 then p + 1 else p - 1)
  {
    assert Xor(p, 1) == (p % 2 + 1) % 2 + 2 * Xor(p / 2, 0);
    XorZero(p / 2);
  }

  /** A number aligned beyond bit k has that bit clear, so setting it is adding it. */
  lemma {:induction false} AndAbove(p: nat, k: nat)
    requires Aligned(p, k + 1)
    ensures And(p + Pow2(k), p) == p && !Aligned(p + Pow2(k), k + 1) && Aligned(p + Pow2(k), k)
    decreases k
  {
    if k == 0 {
      AndSelf(p / 2);
    } else {
      AndAbove(p / 2, k - 1);
      assert (p + Pow2(k)) / 2 == p / 2 + Pow2(k - 1);
      assert Aligned(p + Pow2(k), k + 1) == Aligned((p + Pow2(k)) / 2, k);
    }
  }

  lemma {:induction false} AlignedLess(p: nat, k: nat)
    requires Aligned(p, k + 1)
    ensures Aligned(p, k)
    decreases k
  {
    if k > 0 { AlignedLess(p / 2, k - 1); }
  }

  lemma {:induction false} FlipUp(p: nat, k: nat)
    requires Aligned(p, k + 1)
    ensures Xor(p, Pow2(k)) == p + Pow2(k)
    decreases k
  {
    if k == 0 {
      FlipLowBit(p);
    } else {
      FlipUp(p / 2, k - 1);
      HalveXor(p, k);
    }
  }

  lemma {:induction false} FlipDown(p: nat, k: nat)
    requires Aligned(p, k) && !Aligned(p, k + 1)
    ensures p >= Pow2(k) && Xor(p, Pow2(k)) == p - Pow2(k) && Aligned(p - Pow2(k), k + 1)
    decreases k
  {
    if k == 0 {
      FlipLowBit(p);
    } else {
      FlipDown(p / 2, k - 1);
      HalveXor(p, k);
      assert (p - Pow2(k)) / 2 == p / 2 - Pow2(k - 1);
    }
  }

  /** Flipping bit k of a k-aligned number moves it by 2^k, to the other half of a block of order k + 1. */
  lemma FlipBit(p: nat, k: nat)
    requires Aligned(p, k)
    ensures Aligned(Xor(p, Pow2(k)), k)
    ensures Aligned(p, k + 1) ==> Xor(p, Pow2(k)) == p + Pow2(k)
    ensures !Aligned(p, k + 1) ==> p >= Pow2(k) && Xor(p, Pow2(k)) == p - Pow2(k) && Aligned(p - Pow2(k), k + 1)
  {
    if Aligned(p, k + 1) {
      FlipUp(p, k);
      AndAbove(p, k);
    } else {
      FlipDown(p, k);
      AlignedLess(p - Pow2(k), k);
    }
  }
}
