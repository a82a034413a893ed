/** Clocked registers and counters (the `Register` and `Counter` classes). */
module Registers {
  import opened Js

  /** A register of `bits` bits. Its published output always equals `value`:
      the output is only ever written, at the end of a clock edge, with the
      value just computed. `data` is the next-value input; `load`, `en`
      (increment enable) and `rst` are its control lines. */
  datatype Register = Register(value: int, load: bool, en: bool, rst: bool, data: int, bits: nat)

  /** A register as constructed: value and data 0, `load` and `rst` low. */
  function Make(en: bool, bits: nat): Register
  {
    Register(0, false, en, false, 0, bits)
  }

  /** A counter: a register whose `en` line is permanently high. */
  function MakeCounter(bits: nat): Register
  {
    Make(true, bits)
  }

  /** The value a clock edge computes: `load` is applied first, then `en`
      (increment modulo 2^bits, with JavaScript's `%`), then `rst`. */
  function Next(r: Register): int
  {
    var loaded := if r.load then r.data else r.value;
    var counted := if r.en then Rem(loaded + 1, Pow2(r.bits)) else loaded;
    if r.rst then 0 else counted
  }

  /** One clock edge. */
  function Tick(r: Register): (t: Register)
    ensures t == r.(value := t.value)
    ensures r.rst ==> t.value == 0
    ensures !r.load && !r.en && !r.rst ==> t.value == r.value
    ensures r.load && !r.en && !r.rst ==> t.value == r.data
    ensures !r.load && r.en && !r.rst && r.value >= 0 ==> t.value == (r.value + 1) % Pow2(r.bits)
    ensures r.load && r.en && !r.rst && r.data >= 0 ==> t.value == (r.data + 1) % Pow2(r.bits)
  {
    r.(value := Next(r))
  }

  /** The 3-bit sequence counter wraps from 7 back to 0. */
  lemma CounterWraps(data: int)
    ensures Tick(Register(7, false, true, false, data, 3)).value == 0
  {
    assert Pow2(3) == 8;
  }

  /** A register whose value and (when loading) data fit in its width keeps
      its value within the width. */
  lemma StaysInRange(r: Register)
    requires 0 <= r.value < Pow2(r.bits)
    requires r.load ==> 0 <= r.data < Pow2(r.bits)
    ensures 0 <= Tick(r).value < Pow2(r.bits)
  {
  }

  /** `k` consecutive clock edges. */
  function Ticks(r: Register, k: nat): Register
    decreases k
  {
    if k == 0 then r else Ticks(Tick(r), k - 1)
  }

  /** A free-running counter counts modulo 2^bits: after k edges it holds
      (value + k) mod 2^bits. */
  lemma {:induction false} CounterCounts(r: Register, k: nat)
    requires r.en && !r.load && !r.rst && 0 <= r.value < Pow2(r.bits)
    ensures Ticks(r, k).value == (r.value + k) % Pow2(r.bits)
    decreases k
  {
    var m := Pow2(r.bits);
    if k > 0 {
      var t := Tick(r);
      RemOfNatural(r.value + 1, m);
      assert t.value == (r.value + 1) % m;
      assert t == r.(value := t.value);
      CounterCounts(t, k - 1);
      ModuloShift(r.value + 1, k - 1, m);
    } else {
      SmallResidue(r.value, m);
    }
  }

  /** A value already below the modulus is its own residue. */
  lemma SmallResidue(x: int, m: int)
    requires 0 <= x < m
    ensures x % m == x
  {
    MultipleShift(x, 0, m);
  }

  /** ((x mod m) + k) mod m == (x + k) mod m. */
  lemma ModuloShift(x: int, k: nat, m: int)
    requires m > 0
    ensures (x % m + k) % m == (x + k) % m
  {
    var q := x / m;
    assert x == m * q + x % m;
    assert x + k == m * q + (x % m + k);
    MultipleShift(x % m + k, q, m);
  }

  /** Adding a multiple of m does not change the residue. */
  lemma MultipleShift(y: int, q: int, m: int)
    requires m > 0
    ensures (m * q + y) % m == y % m
  {
    var a, b := (m * q + y) / m, y / m;
    assert m * q + y == m * a + (m * q + y) % m;
    assert y == m * b + y % m;
    assert m * (q + b - a) == (m * q + y) % m - y % m;
    if q + b - a >= 1 {
      ProductAtLeast(m, q + b - a);
    } else if q + b - a <= -1 {
      ProductAtLeast(m, a - q - b);
    }
  }
}
