/** Bitwise arithmetic on natural numbers, as the C++ sources use it on fixed-width unsigned words.
    `And`, `Or` work bit by bit; the lemmas turn the masks of the sources into division and remainder. */
module Bits {

  function Pow2(k: nat): (p: nat)
    ensures p >= 1
  {
    if k == 0 then 1 else 2 * Pow2(k - 1)
  }

  function And(a: nat, b: nat): nat
    decreases a
  {
    if a == 0 || b == 0 then 0
    else 2 * And(a / 2, b / 2) + (if a % 2 == 1 && b % 2 == 1 then 1 else 0)
  }

  function Or(a: nat, b: nat): nat
    decreases a + b
  {
    if a == 0 then b
    else if b == 0 then a
    else 2 * Or(a / 2, b / 2) + (if a % 2 == 1 || b % 2 == 1 then 1 else 0)
  }

  /** Complement within a word of `width` bits. */
  function Not(width: nat, a: nat): nat
    requires a < Pow2(width)
  {
    Pow2(width) - 1 - a
  }

  /** The number formed by the low `k` bits. */
  function Low(v: nat, k: nat): (r: nat)
    ensures r <= v && r < Pow2(k)
    decreases k
  {
    if k == 0 then 0 else 2 * Low(v / 2, k - 1) + v % 2
  }

  lemma {:induction false} Pow2Add(a: nat, b: nat)
    ensures Pow2(a + b) == Pow2(a) * Pow2(b)
  {
    if a != 0 {
      Pow2Add(a - 1, b);
      assert Pow2(a + b) == 2 * Pow2(a - 1 + b);
    }
  }

  lemma Pow2Words()
    ensures Pow2(2) == 4 && Pow2(8) == 0x100 && Pow2(12) == 0x1000 && Pow2(16) == 0x1_0000
    ensures Pow2(24) == 0x100_0000 && Pow2(32) == 0x1_0000_0000
    ensures Pow2(56) == 0x100_0000_0000_0000 && Pow2(64) == 0x1_0000_0000_0000_0000
  {
    assert Pow2(4) == 16;
    Pow2Add(4, 4);
    Pow2Add(8, 4);
    Pow2Add(8, 8);
    Pow2Add(16, 8);
    Pow2Add(16, 16);
    Pow2Add(32, 24);
    Pow2Add(32, 32);
  }

  lemma {:induction false} Pow2Monotonic(a: nat, b: nat)
    requires a <= b
    ensures Pow2(a) <= Pow2(b)
  {
    if a != 0 { Pow2Monotonic(a - 1, b - 1); }
  }

  /** Quotient and remainder are determined by their defining equation. */
  lemma RemainderUnique(v: nat, d: nat, q: nat, r: nat)
    requires d > 0 && r < d && v == d * q + r
    ensures v % d == r && v / d == q
  {
    MultipleBeyond(d, v / d - q);
  }

  lemma MultipleBeyond(d: int, e: int)
    requires d > 0
    ensures e >= 1 ==> d * e >= d
    ensures e <= -1 ==> d * e <= -d
  {
    if e >= 1 {
      assert d * e == d + d * (e - 1);
    } else if e <= -1 {
      assert d * e == -d + d * (e + 1);
    }
  }

  /** The low bits are the remainder by a power of two. */
  lemma LowIsRemainder(v: nat, k: nat)
    ensures Low(v, k) == v % Pow2(k)
  {
    var q := HighPart(v, k);
    RemainderUnique(v, Pow2(k), q, Low(v, k));
  }

  lemma {:induction false} HighPart(v: nat, k: nat) returns (q: nat)
    ensures v == Pow2(k) * q + Low(v, k)
    decreases k
  {
    if k == 0 {
      q := v;
    } else {
      q := HighPart(v / 2, k - 1);
      assert Pow2(k) * q == 2 * (Pow2(k - 1) * q);
    }
  }

  /** A word shifted left by `k` has no low bits. */
  lemma {:induction false} LowOfShifted(c: nat, k: nat)
    ensures Low(Pow2(k) * c, k) == 0
    decreases k
  {
    if k != 0 {
      LowOfShifted(c, k - 1);
      assert Pow2(k) * c == 2 * (Pow2(k - 1) * c);
    }
  }

  lemma {:induction false} LowOfSmall(v: nat, k: nat)
    ensures Low(v, k) == v <==> v < Pow2(k)
    decreases k
  {
    if k != 0 { LowOfSmall(v / 2, k - 1); }
  }

  /** `v & (2^k - 1)` keeps the low `k` bits. */
  lemma {:induction false} AndLowMask(v: nat, k: nat)
    ensures And(v, Pow2(k) - 1) == Low(v, k)
    decreases k
  {
    if k != 0 && v != 0 {
      var m := Pow2(k) - 1;
      AndLowMask(v / 2, k - 1);
      assert m / 2 == Pow2(k - 1) - 1 && m % 2 == 1;
      assert And(v, m) == 2 * And(v / 2, m / 2) + v % 2;
    } else if v == 0 {
      assert Low(v, k) == 0;
    }
  }

  /** `v & ~(2^k - 1)` in a word of `n` bits clears the low `k` bits. */
  lemma AndHighMask(v: nat, k: nat, n: nat)
    requires k <= n && v < Pow2(n)
    ensures Pow2(k) - 1 < Pow2(n)
    ensures And(v, Not(n, Pow2(k) - 1)) == v - Low(v, k)
  {
    hide And, Low, Pow2;
    Pow2Monotonic(k, n);
    ClearLowBits(v, k, n);
    assert Not(n, Pow2(k) - 1) == Pow2(n) - Pow2(k);
  }

  lemma {:induction false} ClearLowBits(v: nat, k: nat, n: nat)
    requires k <= n && v < Pow2(n) && Pow2(k) <= Pow2(n)
    ensures And(v, Pow2(n) - Pow2(k)) == v - Low(v, k)
    decreases n
  {
    hide And, Low, Pow2;
    if k == 0 {
      ClearNothing(v, n);
    } else {
      HalveAll(v, k, n);
      ClearLowBits(v / 2, k - 1, n - 1);
      AndEven(v, Pow2(n - 1) - Pow2(k - 1));
    }
  }

  lemma ClearNothing(v: nat, n: nat)
    requires v < Pow2(n)
    ensures Pow2(0) == 1 && And(v, Pow2(n) - 1) == v == v - Low(v, 0)
  {
    AndLowMask(v, n);
    LowOfSmall(v, n);
    hide And;
  }

  lemma HalveAll(v: nat, k: nat, n: nat)
    requires 0 < k <= n
    ensures Pow2(n) == 2 * Pow2(n - 1) && Pow2(k) == 2 * Pow2(k - 1) && Low(v, k) == 2 * Low(v / 2, k - 1) + v % 2
  {
  }

  lemma AndEven(v: nat, half: nat)
    ensures And(v, 2 * half) == 2 * And(v / 2, half)
  {
    assert 2 * half / 2 == half && 2 * half % 2 == 0;
  }

  /** Two words with no common bits are combined by addition. */
  lemma {:induction false} OrDisjoint(a: nat, b: nat, k: nat)
    requires Low(a, k) == 0 && b < Pow2(k)
    ensures Or(a, b) == a + b
    decreases k
  {
    if a != 0 && b != 0 {
      OrDisjoint(a / 2, b / 2, k - 1);
    }
  }

  lemma {:induction false} OrBounds(a: nat, b: nat, n: nat)
    requires a < Pow2(n) && b < Pow2(n)
    ensures a <= Or(a, b) < Pow2(n) && b <= Or(a, b)
    decreases n
  {
    if a != 0 && b != 0 { OrBounds(a / 2, b / 2, n - 1); }
  }

  lemma {:induction false} OrLowBits(a: nat, b: nat, k: nat)
    requires Low(a, k) == 0
    ensures Low(Or(a, b), k) == Low(b, k)
    decreases k
  {
    if a != 0 && k != 0 {
      if b == 0 {
        assert Low(b, k) <= b;
      } else {
        OrLowBits(a / 2, b / 2, k - 1);
        var o := Or(a / 2, b / 2);
        assert Or(a, b) == 2 * o + b % 2;
        assert Or(a, b) / 2 == o;
      }
    }
  }

  /** Bit `k` of a word. */
  predicate Bit(v: nat, k: nat) {
    if k == 0 then v % 2 == 1 else Bit(v / 2, k - 1)
  }

  /** `v & (1 << k)` tests bit `k`. */
  lemma {:induction false} AndBit(v: nat, k: nat)
    ensures And(v, Pow2(k)) == if Bit(v, k) then Pow2(k) else 0
    decreases k
  {
    if v == 0 {
      NoBits(k);
    } else if k == 0 {
      assert And(v, 1) == 2 * And(v / 2, 0) + v % 2;
    } else {
      AndBit(v / 2, k - 1);
      assert Pow2(k) / 2 == Pow2(k - 1) && Pow2(k) % 2 == 0;
      assert And(v, Pow2(k)) == 2 * And(v / 2, Pow2(k - 1));
    }
  }

  lemma {:induction false} NoBits(k: nat)
    ensures !Bit(0, k)
  {
    if k != 0 { NoBits(k - 1); }
  }

  lemma {:induction false} BitPlusHigh(high: nat, low: nat, k: nat, n: nat)
    requires k < n
    ensures Bit(Pow2(n) * high + low, k) == Bit(low, k)
    decreases k
  {
    var v := Pow2(n) * high + low;
    assert v == 2 * (Pow2(n - 1) * high) + low;
    if k != 0 {
      BitPlusHigh(high, low / 2, k - 1, n - 1);
      assert v / 2 == Pow2(n - 1) * high + low / 2;
    }
  }

  ghost predicate IsPow2(v: nat) {
    exists k: nat :: v == Pow2(k)
  }

  /** The test `v & (v - 1) == 0` of a nonzero word recognises exactly the powers of two. */
  lemma {:induction false} PowerOfTwoTest(v: nat)
    requires v != 0
    ensures And(v, v - 1) == 0 <==> IsPow2(v)
    decreases v
  {
    if v == 1 {
      assert v == Pow2(0);
    } else if v % 2 == 1 {
      assert And(v, v - 1) == 2 * And(v / 2, v / 2);
      AndSelf(v / 2);
      forall k: nat ensures v != Pow2(k) {
        if k > 0 { assert Pow2(k) % 2 == 0; }
      }
    } else {
      PowerOfTwoTest(v / 2);
      HalvedPower(v);
      assert (v - 1) / 2 == v / 2 - 1;
      assert And(v, v - 1) == 2 * And(v / 2, v / 2 - 1);
    }
  }

  lemma HalvedPower(v: nat)
    requires v > 1 && v % 2 == 0
    ensures IsPow2(v) <==> IsPow2(v / 2)
  {
    if IsPow2(v / 2) {
      var k: nat :| v / 2 == Pow2(k);
      assert v == Pow2(k + 1);
    }
    if IsPow2(v) {
      var k: nat :| v == Pow2(k);
      assert k > 0;
      assert v / 2 == Pow2(k - 1);
    }
  }

  lemma {:induction false} AndSelf(v: nat)
    ensures And(v, v) == v
  {
    if v != 0 { AndSelf(v / 2); }
  }
}
