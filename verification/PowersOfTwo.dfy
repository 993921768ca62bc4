/** Powers of two as ring and BAR sizes, and ring positions under 16-bit counters. The source's
    test `x && !(x & (x - 1))` is written as the arithmetic predicate it decides. */
module PowersOfTwo {

  const FOUR_GIB: nat := 0x1_0000_0000

  predicate PowerOfTwo(n: nat) {
    n == 1 || (n > 1 && n % 2 == 0 && PowerOfTwo(n / 2))
  }

  function Pow2(k: nat): nat {
    if k == 0 then 1 else 2 * Pow2(k - 1)
  }

  /** How often a smaller power of two goes into `Pow2(k)`. */
  lemma {:induction false} Quotient(size: nat, k: nat) returns (m: nat)
    requires PowerOfTwo(size) && size <= Pow2(k)
    ensures Pow2(k) == size * m
  {
    if size == 1 {
      m := Pow2(k);
    } else {
      m := Quotient(size / 2, k - 1);
    }
  }

  lemma {:induction false} AddMultiple(r: nat, s: nat, q: nat)
    requires s > 0
    ensures (r + s * q) % s == r % s
  {
    if q == 0 {
    } else {
      AddMultiple(r, s, q - 1);
      assert r + s * q == (r + s * (q - 1)) + s;
      AddOne(r + s * (q - 1), s);
    }
  }

  lemma AddOne(x: nat, s: nat)
    requires s > 0
    ensures (x + s) % s == x % s
  {
    var q, r := x / s, x % s;
    assert x + s == s * (q + 1) + r;
    UniqueMod(x + s, s, q + 1, r);
  }

  lemma UniqueMod(x: nat, s: nat, q: nat, r: nat)
    requires s > 0 && x == s * q + r && r < s
    ensures x % s == r
  {
    var p, t := x / s, x % s;
    Distribute(s, p, q);
    if p != q {
      AtLeast(s, if p > q then p - q else q - p);
    }
  }

  lemma Distribute(s: int, p: int, q: int)
    ensures s * (p - q) == s * p - s * q && s * (q - p) == s * q - s * p
  {}

  lemma AtLeast(s: nat, d: nat)
    requires s > 0 && d > 0
    ensures s * d >= s
  {}

  /** A power-of-two ring size divides 2^16, so a wrapping 16-bit counter and the unbounded
      count it stands for name the same ring slot. */
  lemma SlotOfWrapped(count: nat, size: nat)
    requires PowerOfTwo(size) && size <= 0x1_0000
    ensures count % 0x1_0000 % size == count % size
  {
    assert Pow2(16) == 0x1_0000 by { assert Pow2(8) == 256; assert Pow2(12) == 4096; }
    var m := Quotient(size, 16);
    var q, r := count / 0x1_0000, count % 0x1_0000;
    assert count == r + size * (m * q);
    AddMultiple(r, size, m * q);
  }
}
