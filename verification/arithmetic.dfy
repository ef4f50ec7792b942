/** Remainders, and masks of powers of two. */
module Arithmetic {

  lemma {:induction false} RemainderIs(n: int, d: int, q: int, r: int)
    requires 0 <= r < d && n == q * d + r
    ensures n % d == r
  {
    var x := q - n / d;
    assert x * d == n % d - r by { assert n == n / d * d + n % d; }
    if x >= 1 { AtLeastOnce(x, d); } else if x <= -1 { AtLeastOnce(-x, d); }
  }

  lemma {:induction false} AtLeastOnce(x: int, d: int)
    requires x >= 1 && d > 0
    ensures x * d >= d && -x * d <= -d
  {
    assert (x - 1) * d >= 0;
  }

  /** The remainder of a position that may have passed the end once. */
  lemma {:induction false} WrapsOnce(i: nat, d: nat)
    requires i < 2 * d
    ensures i % d == if i < d then i else i - d
  {
    RemainderIs(i, d, if i < d then 0 else 1, if i < d then i else i - d);
  }

  predicate PowerOfTwo(n: nat) { n == 1 || (n > 0 && n % 2 == 0 && PowerOfTwo(n / 2)) }

  /** The bits that two numbers have in common. */
  function BitAnd(a: nat, b: nat): nat {
    if a == 0 || b == 0 then 0 else 2 * BitAnd(a / 2, b / 2) + if a % 2 == 1 && b % 2 == 1 then 1 else 0
  }

  /** To mask a number with `size - 1` is to take its remainder, for a power of two. */
  lemma {:induction false} MaskIsRemainder(n: nat, size: nat)
    requires PowerOfTwo(size)
    ensures BitAnd(n, size - 1) == n % size
  {
    if size > 1 {
      MaskIsRemainder(n / 2, size / 2);
      assert (size - 1) / 2 == size / 2 - 1 && (size - 1) % 2 == 1;
      HalfRemainder(n, size / 2);
    }
  }

  lemma {:induction false} HalfRemainder(n: nat, half: nat)
    requires half > 0
    ensures n % (2 * half) == 2 * (n / 2 % half) + n % 2
  {
    var q, r := n / 2 / half, n / 2 % half;
    assert n / 2 == q * half + r;
    assert n == q * (2 * half) + (2 * r + n % 2);
    RemainderIs(n, 2 * half, q, 2 * r + n % 2);
  }

  lemma {:induction false} SixteenTimes(n: nat)
    requires PowerOfTwo(n)
    ensures PowerOfTwo(16 * n)
  {
    assert PowerOfTwo(2 * n);
    assert PowerOfTwo(4 * n);
    assert PowerOfTwo(8 * n);
  }

  /** A power of two divides the greater ones. */
  lemma {:induction false} Divides(a: nat, b: nat)
    requires PowerOfTwo(a) && PowerOfTwo(b) && a <= b
    ensures b % a == 0
  {
    if a > 1 {
      Divides(a / 2, b / 2);
      var k := b / 2 / (a / 2);
      assert b / 2 == k * (a / 2);
      assert b == k * a + 0;
      RemainderIs(b, a, k, 0);
    }
  }

  /** The remainder by a double: the same, or half a turn further. */
  lemma {:induction false} DoubleRemainder(n: nat, d: nat)
    requires d > 0
    ensures n % (2 * d) == n % d || n % (2 * d) == n % d + d
  {
    var q, r := n / (2 * d), n % (2 * d);
    assert n == q * (2 * d) + r;
    if r < d {
      assert n == (2 * q) * d + r;
      RemainderIs(n, d, 2 * q, r);
    } else {
      assert n == (2 * q + 1) * d + (r - d);
      RemainderIs(n, d, 2 * q + 1, r - d);
    }
  }
}
