/** Two's complement 64-bit arithmetic on mathematical integers: what Go's
    int64 operators +, -, <<, >>, | and & compute. */
module Int64 {
  const TWO63: int := 0x8000_0000_0000_0000
  const TWO64: int := 0x1_0000_0000_0000_0000

  predicate Fits(x: int) {
    -TWO63 <= x < TWO63
  }

  /** The int64 congruent to x: what an overflowing operation stores. */
  function Wrap(x: int): (r: int)
    ensures Fits(r)
    ensures Fits(x) ==> r == x
  {
    (x + TWO63) % TWO64 - TWO63
  }

  function Pow2(k: nat): (p: int)
    ensures p >= 1
  {
    if k == 0 then 1 else 2 * Pow2(k - 1)
  }

  function Shl(x: int, k: nat): int {
    Wrap(x * Pow2(k))
  }

  // Arithmetic shift: Dafny's division by a positive number rounds down.
  function Shr(x: int, k: nat): int {
    x / Pow2(k)
  }

  /** Distance to the nearest of the two fixed points of halving, 0 and -1. */
  function Size(a: int): nat {
    if a >= 0 then a else -a - 1
  }

  function Or(a: int, b: int): int
    decreases Size(a) + Size(b)
  {
    if Size(a) + Size(b) == 0 then (if a == -1 || b == -1 then -1 else 0)
    else 2 * Or(a / 2, b / 2) + (if a % 2 == 1 || b % 2 == 1 then 1 else 0)
  }

  function And(a: int, b: int): int
    decreases Size(a) + Size(b)
  {
    if Size(a) + Size(b) == 0 then (if a == -1 && b == -1 then -1 else 0)
    else 2 * And(a / 2, b / 2) + (if a % 2 == 1 && b % 2 == 1 then 1 else 0)
  }

  /** Bit i of the infinite two's complement expansion of a. */
  predicate Bit(a: int, i: nat)
    decreases i
  {
    if i == 0 then a % 2 == 1 else Bit(a / 2, i - 1)
  }

  /** One step of the recursion holds at the fixed points as well. */
  lemma Halve(a: int, b: int)
    ensures Or(a, b) / 2 == Or(a / 2, b / 2)
    ensures Or(a, b) % 2 == (if a % 2 == 1 || b % 2 == 1 then 1 else 0)
    ensures And(a, b) / 2 == And(a / 2, b / 2)
    ensures And(a, b) % 2 == (if a % 2 == 1 && b % 2 == 1 then 1 else 0)
  {
    if Size(a) + Size(b) == 0 {
      assert a / 2 == a && b / 2 == b;
    }
  }

  /** Or and And are the bitwise operations, bit by bit. */
  lemma {:induction false} BitwiseOps(a: int, b: int, i: nat)
    ensures Bit(Or(a, b), i) == (Bit(a, i) || Bit(b, i))
    ensures Bit(And(a, b), i) == (Bit(a, i) && Bit(b, i))
    decreases i
  {
    Halve(a, b);
    if i > 0 {
      BitwiseOps(a / 2, b / 2, i - 1);
    }
  }

  lemma DivModUnique(x: int, d: int, q: int, r: int)
    requires d > 0 && x == q * d + r && 0 <= r < d
    ensures x / d == q && x % d == r
  {
    var k := q - x / d;
    assert k * d == x % d - r;
    assert k >= 1 ==> k * d >= d;
    assert k <= -1 ==> k * d <= -d;
    assert k == 0;
  }

  lemma {:induction false} OrZero(a: int)
    ensures Or(a, 0) == a && Or(0, a) == a
    decreases Size(a)
  {
    if Size(a) > 0 {
      OrZero(a / 2);
    }
  }

  /** Joining a field below the lowest set bit is addition, for negative a too. */
  lemma {:induction false} OrDisjoint(c: int, b: int, k: nat)
    requires 0 <= b < Pow2(k)
    ensures Or(c * Pow2(k), b) == c * Pow2(k) + b
    decreases k
  {
    if k == 0 {
      OrZero(c);
    } else {
      var a, h := c * Pow2(k), c * Pow2(k - 1);
      assert a == 2 * h by {
        assert c * (2 * Pow2(k - 1)) == 2 * (c * Pow2(k - 1));
      }
      OrDisjoint(c, b / 2, k - 1);
      assert a / 2 == h && a % 2 == 0;
      if Size(a) + Size(b) == 0 {
        assert a == 0 && b == 0;
      }
    }
  }

  lemma {:induction false} AndZero(a: int)
    ensures And(a, 0) == 0
    decreases Size(a)
  {
    if Size(a) > 0 {
      AndZero(a / 2);
    }
  }

  lemma HalveMod(a: int, p: int)
    requires p > 0
    ensures a % (2 * p) == 2 * ((a / 2) % p) + a % 2
  {
    var q, r := (a / 2) / p, (a / 2) % p;
    assert a / 2 == q * p + r;
    assert q * (2 * p) == 2 * (q * p);
    DivModUnique(a, 2 * p, q, 2 * r + a % 2);
  }

  /** Masking with 2^k - 1 keeps the remainder modulo 2^k, for negative a too. */
  lemma {:induction false} AndMask(a: int, k: nat)
    ensures And(a, Pow2(k) - 1) == a % Pow2(k)
    decreases k
  {
    if k == 0 {
      AndZero(a);
    } else {
      var m := Pow2(k) - 1;
      AndMask(a / 2, k - 1);
      Halve(a, m);
      assert m / 2 == Pow2(k - 1) - 1 && m % 2 == 1;
      HalveMod(a, Pow2(k - 1));
    }
  }

  /** Wrapping early or late gives the same int64. */
  lemma WrapMulAdd(x: int, y: int, m: int, c: int)
    requires Wrap(x) == Wrap(y)
    ensures Wrap(x * m + c) == Wrap(y * m + c)
  {
    var k := (x + TWO63) / TWO64 - (y + TWO63) / TWO64;
    assert x - y == k * TWO64;
    var u, v := x * m + c + TWO63, y * m + c + TWO63;
    assert u - v == (k * m) * TWO64 by {
      assert (x - y) * m == k * TWO64 * m;
    }
    var q, r := v / TWO64, v % TWO64;
    assert u == (q + k * m) * TWO64 + r;
    DivModUnique(u, TWO64, q + k * m, r);
  }
}
