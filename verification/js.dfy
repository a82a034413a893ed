/** The few pieces of JavaScript number semantics the simulator depends on.
    Numbers are modelled as unbounded integers; the int32 conversions used by
    the bitwise operators are written out explicitly. */
module Js {

  const Two31: int := 0x8000_0000
  const Two32: int := 0x1_0000_0000

  /** 2 to the power n, as in `Math.pow(2, n)`. */
  function Pow2(n: nat): (r: nat)
    ensures r >= 1
  {
    if n == 0 then 1 else 2 * Pow2(n - 1)
  }

  /** JavaScript's `a % m` for a positive modulus: the remainder of the
      division truncated toward zero, so it has the sign of the dividend. */
  function Rem(a: int, m: int): (r: int)
    requires m > 0
    ensures a >= 0 ==> 0 <= r < m
    ensures a < 0 ==> -m < r <= 0
    ensures (a - r) % m == 0
  {
    if a >= 0 then
      MultipleHasNoRemainder(a / m, m);
      assert a - a % m == m * (a / m);
      a % m
    else
      MultipleHasNoRemainder(-((-a) / m), m);
      assert a + (-a) % m == m * -((-a) / m);
      -((-a) % m)
  }

  /** A multiple of m leaves remainder 0. */
  lemma MultipleHasNoRemainder(k: int, m: int)
    requires m > 0
    ensures (m * k) % m == 0
  {
    var q, s := (m * k) / m, (m * k) % m;
    assert m * k == m * q + s;
    assert m * (k - q) == s;
    if k - q >= 1 {
      ProductAtLeast(m, k - q);
    } else if k - q <= -1 {
      ProductAtLeast(m, q - k);
    }
  }

  /** m * d >= m for positive m and d. */
  lemma ProductAtLeast(m: int, d: int)
    requires m > 0 && d >= 1
    ensures m * d >= m
  {
    if d > 1 {
      ProductAtLeast(m, d - 1);
      assert m * d == m * (d - 1) + m;
    }
  }

  /** On a non-negative dividend JavaScript's `%` is the mathematical remainder. */
  lemma RemOfNatural(a: int, m: int)
    requires a >= 0 && m > 0
    ensures Rem(a, m) == a % m
  {
  }

  /** The ToUint32 conversion: the residue modulo 2^32. */
  function ToUint32(x: int): (r: int)
    ensures 0 <= r < Two32
    ensures (x - r) % Two32 == 0
  {
    x % Two32
  }

  /** The ToInt32 conversion applied by every bitwise operator. */
  function ToInt32(x: int): (r: int)
    ensures -Two31 <= r < Two31
    ensures (x - r) % Two32 == 0
    ensures -Two31 <= x < Two31 ==> r == x
  {
    var u := ToUint32(x);
    if u >= Two31 then u - Two32 else u
  }

  /** Bitwise AND of two naturals, bit by bit from the least significant end. */
  function AndBits(a: nat, b: nat): (r: nat)
    ensures r <= a && r <= b
    decreases a
  {
    if a == 0 || b == 0 then 0
    else 2 * AndBits(a / 2, b / 2) + (if a % 2 == 1 && b % 2 == 1 then 1 else 0)
  }

  /** `a & b`: both operands converted to 32-bit words, then combined bit by bit. */
  function BitAnd(a: int, b: int): (r: int)
    ensures -Two31 <= r < Two31
    ensures 0 <= a < Two31 && 0 <= b < Two31 ==> 0 <= r <= a && r <= b
  {
    ToInt32(AndBits(ToUint32(a), ToUint32(b)))
  }

  /** Bit i of a natural number. */
  function Bit(x: nat, i: nat): nat
  {
    (x / Pow2(i)) % 2
  }

  /** Dividing by 2^(i+1) is halving, then dividing by 2^i. */
  lemma {:induction false} HalveFirst(x: nat, i: nat)
    ensures x / Pow2(i + 1) == (x / 2) / Pow2(i)
  {
    var p := Pow2(i);
    var s, t := (x / 2) / p, (x / 2) % p;
    assert x == 2 * (x / 2) + x % 2;
    assert x / 2 == p * s + t;
    assert x == (2 * p) * s + (2 * t + x % 2);
    DivisionIsUnique(x, 2 * p, s, 2 * t + x % 2);
  }

  /** The quotient is the only q with x == d * q + r and 0 <= r < d. */
  lemma DivisionIsUnique(x: int, d: int, q: int, r: int)
    requires d > 0 && x == d * q + r && 0 <= r < d
    ensures x / d == q
  {
    var q', r' := x / d, x % d;
    assert d * (q' - q) == r - r';
    if q' - q >= 1 {
      ProductAtLeast(d, q' - q);
    } else if q' - q <= -1 {
      ProductAtLeast(d, q - q');
    }
  }

  /** Bit i + 1 of x is bit i of x halved. */
  lemma BitOfHalf(x: nat, i: nat)
    ensures Bit(x, i + 1) == Bit(x / 2, i)
  {
    HalveFirst(x, i);
  }

  /** Halving the AND of two naturals drops its lowest bit. */
  lemma AndBitsHalf(a: nat, b: nat)
    ensures AndBits(a, b) / 2 == AndBits(a / 2, b / 2)
  {
    if a == 0 || b == 0 {
      assert a / 2 == 0 || b / 2 == 0;
    }
  }

  /** `AndBits` sets exactly the bits set in both operands. */
  lemma {:induction false} AndBitsIsBitwise(a: nat, b: nat, i: nat)
    ensures Bit(AndBits(a, b), i) == (if Bit(a, i) == 1 && Bit(b, i) == 1 then 1 else 0)
    decreases i
  {
    if i > 0 {
      BitOfHalf(AndBits(a, b), i - 1);
      BitOfHalf(a, i - 1);
      BitOfHalf(b, i - 1);
      AndBitsHalf(a, b);
      AndBitsIsBitwise(a / 2, b / 2, i - 1);
    }
  }

  /** A 32-bit word read back as a signed word converts to itself again. */
  lemma WordRoundTrip(u: int)
    requires 0 <= u < Two32
    ensures ToUint32(ToInt32(u)) == u
  {
  }

  /** `a & b` in full: bit i of the result's 32-bit word is set exactly when
      it is set in the 32-bit words of both operands. */
  lemma BitAndIsBitwise(a: int, b: int, i: nat)
    ensures var ua, ub := ToUint32(a), ToUint32(b);
      Bit(ToUint32(BitAnd(a, b)), i) == (if Bit(ua, i) == 1 && Bit(ub, i) == 1 then 1 else 0)
  {
    var ua, ub := ToUint32(a), ToUint32(b);
    WordRoundTrip(AndBits(ua, ub));
    AndBitsIsBitwise(ua, ub, i);
  }

  /** `~a`: every bit of the 32-bit word of `a` flipped, read back as a signed word. */
  function BitNot(a: int): (r: int)
    ensures r == -ToInt32(a) - 1
  {
    var u := ToUint32(a);
    var flipped := Two32 - 1 - u;
    assert ToUint32(flipped) == flipped;
    ToInt32(flipped)
  }

  /** `a << 1`: the 32-bit word of `a` doubled, the carry out of bit 31 lost. */
  function ShiftLeftOne(a: int): (r: int)
    ensures -Two31 <= r < Two31
    ensures (r - 2 * a) % Two32 == 0
    ensures -Two31 / 2 <= a < Two31 / 2 ==> r == 2 * a
  {
    var t := ToInt32(a);
    var r := ToInt32(2 * t);
    MultiplesCombine(r - 2 * t, a - t);
    r
  }

  /** x - 2y is a multiple of 2^32 when x and y are. */
  lemma MultiplesCombine(x: int, y: int)
    requires x % Two32 == 0 && y % Two32 == 0
    ensures (x - 2 * y) % Two32 == 0
  {
    var p, q := x / Two32, y / Two32;
    assert x - 2 * y == Two32 * (p - 2 * q);
    MultipleHasNoRemainder(p - 2 * q, Two32);
  }
}
