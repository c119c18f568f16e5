/** Powers of two and bitwise exclusive or on unsigned machine words. */
module Bits {

  const WORD: nat := 0x1_0000_0000_0000_0000

  type Byte = b: int | 0 <= b < 256

  function Pow2(n: nat): (p: nat)
    ensures p >= 1
  {
    if n == 0 then 1 else 2 * Pow2(n - 1)
  }

  /** Bit by bit exclusive or, least significant bit last. */
  function Xor(a: nat, b: nat): nat
    decreases a + b
  {
    if a == 0 && b == 0 then 0 else 2 * Xor(a / 2, b / 2) + (a % 2 + b % 2) % 2
  }

  lemma XorDigits(a: nat, b: nat)
    ensures var x := Xor(a, b); x / 2 == Xor(a / 2, b / 2) && x % 2 == (a % 2 + b % 2) % 2
  {
  }

  lemma XorFromDigits(a: nat, b: nat, x: nat)
    requires x / 2 == Xor(a / 2, b / 2) && x % 2 == (a % 2 + b % 2) % 2
    ensures x == Xor(a, b)
  {
    XorDigits(a, b);
  }

  lemma {:induction false} XorZero(a: nat)
    ensures Xor(a, 0) == a
  {
    if a != 0 {
      XorZero(a / 2);
      XorFromDigits(a, 0, a);
    }
  }

  lemma SumParity(x: nat, y: nat)
    requires x < 2 && y < 2
    ensures ((x + y) % 2 + y) % 2 == x
  {
  }

  lemma {:induction false} XorInverse(a: nat, b: nat)
    ensures Xor(Xor(a, b), b) == a
    decreases a + b
  {
    if a != 0 || b != 0 {
      XorInverse(a / 2, b / 2);
      XorDigits(a, b);
      var x := Xor(a, b);
      SumParity(a % 2, b % 2);
      assert a / 2 == Xor(x / 2, b / 2);
      XorFromDigits(x, b, a);
    }
  }

  /** Exclusive or of two n-bit words is an n-bit word. */
  lemma {:induction false} XorWidth(a: nat, b: nat, n: nat)
    requires a < Pow2(n) && b < Pow2(n)
    ensures Xor(a, b) < Pow2(n)
  {
    if n > 0 {
      XorWidth(a / 2, b / 2, n - 1);
      XorDigits(a, b);
    }
  }

  /** Binary digit n of a. */
  function Bit(a: nat, n: nat): nat {
    if n == 0 then a % 2 else Bit(a / 2, n - 1)
  }

  lemma MulMonotone(p: nat, x: int, y: int)
    requires x <= y
    ensures p * x <= p * y
  {
  }

  lemma DivDouble(a: nat, m: nat)
    requires m > 0
    ensures a / (2 * m) == (a / 2) / m
  {
    var q := (a / 2) / m;
    var r := (a / 2) % m;
    assert a / 2 == q * m + r;
    var r' := 2 * r + a % 2;
    assert a == q * (2 * m) + r' && 0 <= r' < 2 * m;
    QuotientUnique(a, 2 * m, q, r');
  }

  lemma QuotientUnique(a: nat, m: nat, q: nat, r: nat)
    requires m > 0 && a == q * m + r && r < m
    ensures a / m == q && a % m == r
  {
    var d := a / m - q;
    assert a == m * (a / m) + a % m;
    assert m * d == r - a % m by {
      assert m * (a / m) - q * m == m * d;
    }
    assert d >= 1 ==> m * d >= m;
    assert d <= -1 ==> m * d + m <= 0;
  }

  lemma {:induction false} BitIsQuotient(a: nat, n: nat)
    ensures Bit(a, n) == a / Pow2(n) % 2
  {
    if n > 0 {
      BitIsQuotient(a / 2, n - 1);
      DivDouble(a, Pow2(n - 1));
    }
  }

  // ----- Bitwise or, and shifting right -----

  function Or(a: nat, b: nat): nat
    decreases a + b
  {
    if a == 0 && b == 0 then 0 else 2 * Or(a / 2, b / 2) + if a % 2 == 1 || b % 2 == 1 then 1 else 0
  }

  /** One bit at a time. */
  function Shr(a: nat, k: nat): (r: nat)
    ensures r <= a
  {
    if k == 0 then a else Shr(a / 2, k - 1)
  }

  lemma {:induction false} ShrIsQuotient(a: nat, k: nat)
    ensures Shr(a, k) == a / Pow2(k)
  {
    if k > 0 {
      ShrIsQuotient(a / 2, k - 1);
      DivDouble(a, Pow2(k - 1));
    }
  }

  lemma {:induction false} OrBit(a: nat, b: nat, i: nat)
    ensures Bit(Or(a, b), i) == if Bit(a, i) == 1 || Bit(b, i) == 1 then 1 else 0
    decreases i
  {
    var x := Or(a, b);
    assert x / 2 == Or(a / 2, b / 2) && x % 2 == if a % 2 == 1 || b % 2 == 1 then 1 else 0;
    if i > 0 {
      OrBit(a / 2, b / 2, i - 1);
    }
  }

  lemma {:induction false} ShrBit(a: nat, k: nat, i: nat)
    ensures Bit(Shr(a, k), i) == Bit(a, i + k)
    decreases k
  {
    if k > 0 {
      ShrBit(a / 2, k - 1, i);
    }
  }

  /** Position of the highest set bit. */
  function HighBit(n: nat): nat
    requires n > 0
  {
    if n == 1 then 0 else 1 + HighBit(n / 2)
  }

  lemma {:induction false} HighBitBounds(n: nat)
    requires n > 0
    ensures Pow2(HighBit(n)) <= n < Pow2(HighBit(n) + 1) && Bit(n, HighBit(n)) == 1
  {
    if n > 1 {
      HighBitBounds(n / 2);
    }
  }

  lemma {:induction false} AllOnes(n: nat, m: nat)
    requires n < Pow2(m) && forall i :: 0 <= i < m ==> Bit(n, i) == 1
    ensures n == Pow2(m) - 1
  {
    if m > 0 {
      assert Bit(n, 0) == 1;
      forall i | 0 <= i < m - 1
        ensures Bit(n / 2, i) == 1
      {
        assert Bit(n, i + 1) == 1;
      }
      AllOnes(n / 2, m - 1);
    }
  }

  lemma {:induction false} OrWidth(a: nat, b: nat, n: nat)
    requires a < Pow2(n) && b < Pow2(n)
    ensures Or(a, b) < Pow2(n)
    decreases n
  {
    if n > 0 {
      OrWidth(a / 2, b / 2, n - 1);
    }
  }

  lemma XorOne(a: nat)
    ensures Xor(a, 1) == if a % 2 == 0 then a + 1 else a - 1
  {
    XorZero(a / 2);
  }

  lemma XorTwice(a: nat, b: nat, h: nat)
    requires b == 2 * h
    ensures Xor(a, b) == 2 * Xor(a / 2, h) + a % 2
  {
    hide Xor;
    XorDigits(a, b);
    assert b / 2 == h && b % 2 == 0;
  }

  lemma BitUp(a: nat, n: nat)
    requires n > 0
    ensures Bit(a, n) == Bit(a / 2, n - 1) && Pow2(n) == 2 * Pow2(n - 1)
  {
  }

  /** Exclusive or with a power of two flips that bit: it adds the power where the bit is clear,
      and takes it away where the bit is set. */
  lemma {:induction false} XorFlip(a: nat, n: nat)
    ensures Xor(a, Pow2(n)) == if Bit(a, n) == 0 then a + Pow2(n) else a - Pow2(n)
  {
    if n == 0 {
      XorOne(a);
    } else {
      hide Xor, Bit, Pow2;
      BitUp(a, n);
      XorTwice(a, Pow2(n), Pow2(n - 1));
      XorFlip(a / 2, n - 1);
    }
  }

  lemma {:induction false} Pow2Add(m: nat, n: nat)
    ensures Pow2(m + n) == Pow2(m) * Pow2(n)
  {
    if m > 0 {
      Pow2Add(m - 1, n);
      assert Pow2(m + n) == 2 * Pow2(m - 1 + n);
      assert 2 * (Pow2(m - 1) * Pow2(n)) == (2 * Pow2(m - 1)) * Pow2(n);
    }
  }

  /** The highest power of two that a machine word holds. */
  const TOP_POWER: nat := 0x8000_0000_0000_0000

  lemma WordSize()
    ensures Pow2(64) == WORD && Pow2(63) == TOP_POWER
  {
    assert Pow2(8) == 256;
    assert Pow2(64) == 2 * Pow2(63);
    hide Pow2;
    Pow2Add(8, 8);
    Pow2Add(16, 16);
    Pow2Add(32, 32);
  }

  lemma {:induction false} Pow2Increases(j: nat, k: nat)
    requires j <= k
    ensures Pow2(j) <= Pow2(k)
    ensures j < k ==> 2 * Pow2(j) <= Pow2(k)
  {
    if j < k {
      Pow2Increases(j, k - 1);
    }
  }
}
