/**
 * Python's integer bit operators on non-negative ints, as the programs use them:
 * `x >> k` is floor division by 2^k, `x << k` multiplication by 2^k, `x & (2^k - 1)`
 * the remainder by 2^k, and `&`, `|` in general act bit by bit (BitAnd, BitOr).
 */
module Bits {
  function Pow2(k: nat): (p: nat)
    ensures p >= 1
  {
    if k == 0 then 1 else 2 * Pow2(k - 1)
  }

  /** `(x >> k) & 1 == 1` */
  predicate BitSet(x: nat, k: nat)
  {
    (x / Pow2(k)) % 2 == 1
  }

  /** `a | b` */
  function BitOr(a: nat, b: nat): nat
    decreases a + b
  {
    if a == 0 then b
    else if b == 0 then a
    else 2 * BitOr(a / 2, b / 2) + (if a % 2 == 1 || b % 2 == 1 then 1 else 0)
  }

  /** `a & b` */
  function BitAnd(a: nat, b: nat): nat
    decreases a + b
  {
    if a == 0 || b == 0 then 0
    else 2 * BitAnd(a / 2, b / 2) + (if a % 2 == 1 && b % 2 == 1 then 1 else 0)
  }

  /** `a | b` is at least each operand and at most their sum. */
  lemma {:induction false} OrBounds(a: nat, b: nat)
    ensures a <= BitOr(a, b) && b <= BitOr(a, b) <= a + b
    decreases a + b
  {
    if a != 0 && b != 0 {
      OrBounds(a / 2, b / 2);
    }
  }

  /** `a & b` is at most each operand. */
  lemma {:induction false} AndBounds(a: nat, b: nat)
    ensures BitAnd(a, b) <= a && BitAnd(a, b) <= b
    decreases a + b
  {
    if a != 0 && b != 0 {
      AndBounds(a / 2, b / 2);
    }
  }

  /** `x & ~(1 << k)`: bit k is clear afterwards, and a value whose bit k was clear is kept. */
  function ClearBit(x: nat, k: nat): (y: nat)
    ensures !BitSet(y, k) && y <= x
    ensures !BitSet(x, k) ==> y == x
  {
    if BitSet(x, k) then
      Pow2Clears(x, k);
      x - Pow2(k)
    else x
  }

  /** Subtracting 2^k from a value with bit k set clears that bit. */
  lemma Pow2Clears(x: nat, k: nat)
    requires BitSet(x, k)
    ensures x >= Pow2(k) && !BitSet(x - Pow2(k), k)
  {
    var m, q, r := Pow2(k), x / Pow2(k), x % Pow2(k);
    assert x == q * m + r;
    assert q >= 1;
    AtLeastOnce(q, m);
    assert x - m == (q - 1) * m + r;
    ModUnique(x - m, m, q - 1, r);
  }

  /** OR with a value below 2^k into a multiple of 2^k is addition: the fields are disjoint. */
  lemma {:induction false} OrDisjoint(a: nat, b: nat, k: nat)
    requires b < Pow2(k)
    ensures BitOr(a * Pow2(k), b) == a * Pow2(k) + b
    decreases k
  {
    if k > 0 && a != 0 && b != 0 {
      var h := a * Pow2(k - 1);
      assert a * Pow2(k) == 2 * h;
      assert (2 * h) / 2 == h && (2 * h) % 2 == 0;
      OrDisjoint(a, b / 2, k - 1);
    }
  }

  /** Doubling both operands doubles their OR. */
  lemma OrDouble(a: nat, b: nat)
    ensures BitOr(2 * a, 2 * b) == 2 * BitOr(a, b)
  {
    if a != 0 && b != 0 {
      assert (2 * a) / 2 == a && (2 * b) / 2 == b;
    }
  }

  /** AND with an even mask: the low bit is dropped. */
  lemma AndEvenMask(x: nat, m: nat)
    ensures BitAnd(x, 2 * m) == 2 * BitAnd(x / 2, m)
  {
    if x != 0 && m != 0 {
      assert (2 * m) / 2 == m && (2 * m) % 2 == 0;
    } else if x == 0 {
      assert x / 2 == 0;
    }
  }

  /** AND with 2^k - 1 leaves a value below 2^k unchanged. */
  lemma {:induction false} AndAllOnes(y: nat, k: nat)
    requires y < Pow2(k)
    ensures BitAnd(y, Pow2(k) - 1) == y
    decreases k
  {
    if k > 0 && y != 0 {
      var m := Pow2(k) - 1;
      assert m / 2 == Pow2(k - 1) - 1 && m % 2 == 1;
      AndAllOnes(y / 2, k - 1);
    }
  }

  /** x % (2 m) == 2 ((x / 2) % m) + x % 2 */
  lemma DivMod2(x: nat, m: nat)
    requires m >= 1
    ensures x % (2 * m) == 2 * ((x / 2) % m) + x % 2
  {
    var q, r := (x / 2) / m, (x / 2) % m;
    assert x == (x / 2) * 2 + x % 2;
    assert x / 2 == q * m + r;
    assert x == q * (2 * m) + (2 * r + x % 2);
    assert 0 <= 2 * r + x % 2 < 2 * m;
    ModUnique(x, 2 * m, q, 2 * r + x % 2);
  }

  /** The remainder determined by any decomposition x = q m + r with 0 <= r < m. */
  lemma ModUnique(x: int, m: int, q: int, r: int)
    requires m > 0 && x == q * m + r && 0 <= r < m
    ensures x % m == r && x / m == q
  {
    var q', r' := x / m, x % m;
    assert x == q' * m + r';
    if q' > q {
      AtLeastOnce(q' - q, m);
    } else if q' < q {
      AtLeastOnce(q - q', m);
    }
  }

  lemma AtLeastOnce(d: int, m: int)
    requires d >= 1 && m > 0
    ensures d * m >= m
  {
    assert d * m == m + (d - 1) * m;
  }
}
