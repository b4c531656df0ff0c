/** Two's complement bit operations on unbounded integers, and 32-bit words. */
module Bits {
  const TWO31 := 0x8000_0000
  const TWO32 := 0x1_0000_0000

  type Word = x: int | 0 <= x < 0x1_0000_0000

  function Pow2(n: nat): (r: int)
    ensures r > 0
  {
    if n == 0 then 1 else 2 * Pow2(n - 1)
  }

  lemma {:induction false} PowerSum(a: nat, b: nat)
    ensures Pow2(a) * Pow2(b) == Pow2(a + b)
  {
    if b == 0 {
    } else {
      PowerSum(a, b - 1);
      assert Pow2(a) * Pow2(b) == 2 * (Pow2(a) * Pow2(b - 1));
    }
  }

  /** Distance of a two's complement integer from having no bits beside its sign. */
  function Magnitude(a: int): nat {
    if a < 0 then -a - 1 else a
  }

  /** Exclusive or, bit by bit from the lowest; a negative integer has infinitely many leading ones. */
  function Xor(a: int, b: int): int
    decreases Magnitude(a) + Magnitude(b)
  {
    if -1 <= a <= 0 && -1 <= b <= 0 then (if a == b then 0 else -1)
    else 2 * Xor(a / 2, b / 2) + (a + b) % 2
  }

  lemma XorUnfolds(a: int, b: int)
    requires !(-1 <= a <= 0 && -1 <= b <= 0)
    ensures Xor(a, b) == 2 * Xor(a / 2, b / 2) + (a + b) % 2
  {
  }

  /** The recursive equation of Xor also holds where its definition does not recur. */
  lemma XorStep(a: int, b: int)
    ensures Xor(a, b) == 2 * Xor(a / 2, b / 2) + (a + b) % 2
  {
    if a == 0 && b == 0 {
      assert Xor(0, 0) == 0;
    } else if a == 0 && b == -1 {
      assert Xor(0, -1) == -1;
    } else if a == -1 && b == 0 {
      assert Xor(-1, 0) == -1;
    } else if a == -1 && b == -1 {
      assert Xor(-1, -1) == 0;
    } else {
      XorUnfolds(a, b);
    }
  }

  /** Operands that fit in w bits and a sign give a result that fits in w bits and a sign. */
  lemma {:induction false} XorRange(a: int, b: int, w: nat)
    requires -Pow2(w) <= a < Pow2(w) && -Pow2(w) <= b < Pow2(w)
    ensures -Pow2(w) <= Xor(a, b) < Pow2(w)
    ensures a >= 0 && b >= 0 ==> Xor(a, b) >= 0
    decreases w
  {
    if w == 0 {
    } else {
      XorStep(a, b);
      XorRange(a / 2, b / 2, w - 1);
    }
  }

  lemma TwiceAndBit(h: int, bit: int)
    requires 0 <= bit < 2
    ensures (2 * h + bit) / 2 == h && (2 * h + bit) % 2 == bit
  {
  }

  lemma XorParts(a: int, b: int)
    ensures Xor(a, b) / 2 == Xor(a / 2, b / 2) && Xor(a, b) % 2 == (a + b) % 2
  {
    XorStep(a, b);
    TwiceAndBit(Xor(a / 2, b / 2), (a + b) % 2);
  }

  lemma SameParity(a: int, b: int, c: int, d: int)
    requires a % 2 == c % 2 && b % 2 == d % 2
    ensures (a + b) % 2 == (c + d) % 2
  {
  }

  lemma HalvesAgree(x: int, y: int)
    requires x / 2 == y / 2 && x % 2 == y % 2
    ensures x == y
  {
  }

  lemma ModUnique(x: int, m: int, q: int, r: int)
    requires 0 <= r < m && x == q * m + r
    ensures x % m == r && x / m == q
  {
    var d := x / m - q;
    assert d * m == r - x % m by {
      assert (x / m) * m + x % m == x;
    }
    assert d == 0 by {
      assert d >= 1 ==> d * m >= m;
      assert d <= -1 ==> d * m <= -m;
    }
  }

  /** Halving and taking the low bit commute with keeping an even number of low values. */
  lemma ModHalf(a: int, m: int)
    requires m > 0
    ensures a % (2 * m) / 2 == a / 2 % m
    ensures a % (2 * m) % 2 == a % 2
  {
    var q, r := a / (2 * m), a % (2 * m);
    assert a == 2 * (q * m) + r;
    assert a / 2 == q * m + r / 2;
    ModUnique(a / 2, m, q, r / 2);
  }

  /** The low w bits of an exclusive or depend only on the low w bits of its operands. */
  lemma {:induction false} XorLow(a: int, b: int, w: nat)
    ensures Xor(a, b) % Pow2(w) == Xor(a % Pow2(w), b % Pow2(w))
    decreases w
  {
    if w == 0 {
    } else {
      var m := Pow2(w - 1);
      XorLow(a / 2, b / 2, w - 1);
      ModHalf(a, m);
      ModHalf(b, m);
      ModHalf(Xor(a, b), m);
      XorParts(a, b);
      XorParts(a % (2 * m), b % (2 * m));
      SameParity(a, b, a % (2 * m), b % (2 * m));
      HalvesAgree(Xor(a, b) % (2 * m), Xor(a % (2 * m), b % (2 * m)));
    }
  }

  /** Powers of two used by the cipher, evaluated. */
  lemma Powers()
    ensures Pow2(2) == 4 && Pow2(8) == 256 && Pow2(24) == 0x100_0000 && Pow2(32) == TWO32
  {
    assert Pow2(8) == 256;
    assert Pow2(16) == 0x1_0000;
    assert Pow2(24) == 0x100_0000;
  }

  function Wrap(x: int): Word {
    x % TWO32
  }

  lemma XorWrap(a: int, b: int)
    ensures Wrap(Xor(a, b)) == Xor(Wrap(a), Wrap(b))
  {
    Powers();
    XorLow(a, b, 32);
  }

  /** Words are compared modulo 2^32: a sum may be wrapped before or after its terms are. */
  lemma WrapOfSum(a: int, b: int, c: int, d: int)
    requires Wrap(a) == Wrap(c) && Wrap(b) == Wrap(d)
    ensures Wrap(a + b) == Wrap(c + d) && Wrap(a - b) == Wrap(c - d)
  {
    var i, j := a / TWO32 - c / TWO32, b / TWO32 - d / TWO32;
    assert a == c + i * TWO32 && b == d + j * TWO32;
    ModUnique(a + b, TWO32, (c + d) / TWO32 + i + j, Wrap(c + d));
    ModUnique(a - b, TWO32, (c - d) / TWO32 + i - j, Wrap(c - d));
  }
}
