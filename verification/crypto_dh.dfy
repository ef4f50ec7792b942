/** The key exchange of the crypto library: products and powers modulo the
    largest 64-bit prime, in 64-bit arithmetic that wraps. */
module CryptoDh {
  import opened Basics

  const WORD: nat := 0x1_0000_0000_0000_0000

  /** The biggest prime below 2^64. */
  const P: nat := 0xffff_ffff_ffff_ffc5

  /** The base of the exchange. */
  const G: nat := 5

  type Word64 = x: nat | x < WORD

  // 64-bit arithmetic wraps around.

  function Add(a: Word64, b: Word64): Word64 { (a + b) % WORD }

  function Sub(a: Word64, b: Word64): Word64 { (a - b) % WORD }

  function Double(a: Word64): Word64 { a * 2 % WORD }

  function Power(a: int, b: nat): int {
    if b == 0 then 1 else a * Power(a, b - 1)
  }

  /** Equal modulo P. */
  ghost predicate Same(x: int, y: int) { exists k: int :: x == y + k * P }

  // ------------------------------------------------------------- congruence

  lemma {:induction false} SameBy(x: int, y: int, k: int)
    requires x == y + k * P
    ensures Same(x, y)
  {
  }

  lemma {:induction false} SameRefl(x: int)
    ensures Same(x, x)
  {
    SameBy(x, x, 0);
  }

  lemma {:induction false} SameSym(x: int, y: int)
    requires Same(x, y)
    ensures Same(y, x)
  {
    var k :| x == y + k * P;
    SameBy(y, x, -k);
  }

  lemma {:induction false} SameTrans(x: int, y: int, z: int)
    requires Same(x, y) && Same(y, z)
    ensures Same(x, z)
  {
    var j :| x == y + j * P;
    var k :| y == z + k * P;
    assert j * P + k * P == (j + k) * P;
    SameBy(x, z, j + k);
  }

  lemma {:induction false} SameAdd(x: int, y: int, z: int)
    requires Same(x, y)
    ensures Same(x + z, y + z) && Same(z + x, z + y)
  {
    var k :| x == y + k * P;
    SameBy(x + z, y + z, k);
  }

  lemma {:induction false} SameTimes(x: int, y: int, z: int)
    requires Same(x, y)
    ensures Same(x * z, y * z) && Same(z * x, z * y)
  {
    var k :| x == y + k * P;
    Distribute(y, k, z);
    SameBy(x * z, y * z, k * z);
    assert z * x == x * z && z * y == y * z;
  }

  lemma {:induction false} Distribute(y: int, k: int, z: int)
    ensures (y + k * P) * z == y * z + (k * z) * P
  {
    assert (k * P) * z == (k * z) * P;
  }

  /** Reduced numbers that are equal modulo P are equal. */
  lemma {:induction false} SameReduced(x: int, y: int)
    requires Same(x, y) && 0 <= x < P && 0 <= y < P
    ensures x == y
  {
    var k :| x == y + k * P;
    assert k == 0;
  }

  lemma {:induction false} SameMod(x: int)
    ensures Same(x % P, x)
  {
    assert x == x / P * P + x % P;
    SameBy(x % P, x, -(x / P));
  }

  lemma {:induction false} ModOf(x: int, y: int)
    requires Same(x, y) && 0 <= x < P
    ensures x == y % P
  {
    SameMod(y);
    SameSym(y % P, y);
    SameTrans(x, y, y % P);
    SameReduced(x, y % P);
  }

  // ----------------------------------------------------------------- powers

  lemma {:induction false} PowerAdd(a: int, b: nat, c: nat)
    ensures Power(a, b + c) == Power(a, b) * Power(a, c)
  {
    if b > 0 {
      PowerAdd(a, b - 1, c);
      assert a * (Power(a, b - 1) * Power(a, c)) == a * Power(a, b - 1) * Power(a, c);
    }
  }

  lemma {:induction false} PowerPower(a: int, b: nat, c: nat)
    ensures Power(Power(a, b), c) == Power(a, b * c)
  {
    if c > 0 {
      PowerPower(a, b, c - 1);
      assert b * c == b + b * (c - 1);
      PowerAdd(a, b, b * (c - 1));
    }
  }

  lemma {:induction false} PowerSame(x: int, y: int, b: nat)
    requires Same(x, y)
    ensures Same(Power(x, b), Power(y, b))
  {
    if b == 0 {
      SameRefl(1);
    } else {
      PowerSame(x, y, b - 1);
      SameTimes(Power(x, b - 1), Power(y, b - 1), x);
      SameTimes(x, y, Power(y, b - 1));
      SameTrans(x * Power(x, b - 1), x * Power(y, b - 1), y * Power(y, b - 1));
    }
  }

  lemma {:induction false} PowerTimes(x: int, y: int, b: nat)
    ensures Power(x * y, b) == Power(x, b) * Power(y, b)
  {
    if b > 0 {
      PowerTimes(x, y, b - 1);
      Rearrange(x, y, Power(x, b - 1), Power(y, b - 1));
    }
  }

  lemma {:induction false} Rearrange(x: int, y: int, u: int, v: int)
    ensures (x * y) * (u * v) == (x * u) * (y * v)
  {
    assert (x * y) * (u * v) == x * (y * (u * v));
    assert y * (u * v) == u * (y * v);
    assert x * (u * (y * v)) == (x * u) * (y * v);
  }

  lemma {:induction false} PowerOne(b: nat)
    ensures Power(1, b) == 1
  {
    if b > 0 { PowerOne(b - 1); }
  }

  // ----------------------------------------------------------- the program

  /** Adding `a` to `m` modulo P without overflow. */
  lemma {:induction false} AddStep(m: Word64, a: Word64)
    requires m < P && a <= P
    ensures var t := Sub(P, a);
            var r := if m >= t then Sub(m, t) else Add(m, a);
            r < P && Same(r, m + a)
  {
    var t := P - a;
    assert Sub(P, a) == t;
    if m >= t {
      SameBy(m - t, m + a, -1);
    } else {
      SameRefl(m + a);
    }
  }

  /** Doubling `a` modulo P; the product itself may wrap. */
  lemma {:induction false} DoubleStep(a: Word64)
    requires a <= P
    ensures var r := if a >= Sub(P, a) then Sub(Double(a), P) else Double(a);
            r <= P && Same(r, 2 * a)
  {
    assert Sub(P, a) == P - a;
    if a >= P - a {
      assert Sub(Double(a), P) == 2 * a - P;
      SameBy(2 * a - P, 2 * a, -1);
    } else {
      SameRefl(2 * a);
    }
  }

  /** One round of the product: the lowest bit of `b` is used up. */
  lemma {:induction false} ProductStep(m: int, m': int, a: int, a': int, b: nat, goal: int)
    requires Same(m + a * b, goal) && Same(a', 2 * a)
    requires if b % 2 == 1 then Same(m', m + a) else m' == m
    ensures Same(m' + a' * (b / 2), goal)
  {
    var h := b / 2;
    SameTimes(a', 2 * a, h);
    SameAdd(a' * h, 2 * a * h, m');
    if b % 2 == 1 {
      SameAdd(m', m + a, 2 * a * h);
      SameTrans(m' + a' * h, m' + 2 * a * h, m + a + 2 * a * h);
      assert m + a + 2 * a * h == m + a * (2 * h + 1);
      SameTrans(m' + a' * h, m + a * b, goal);
    } else {
      assert 2 * a * h == a * (2 * h);
      SameTrans(m' + a' * h, m + a * b, goal);
    }
  }

  /** The product modulo P, bit by bit. */
  method MulModP(a: Word64, b: Word64) returns (m: Word64)
    requires a <= P
    ensures m == a * b % P
  {
    m := 0;
    var x: Word64, y: Word64 := a, b;
    SameRefl(0 + a * b);
    while y != 0
      invariant m < P && x <= P
      invariant Same(m + x * y, a * b)
      decreases y
    {
      ghost var m0, x0 := m, x;
      AddStep(m, x);
      DoubleStep(x);
      if y % 2 == 1 {
        var t := Sub(P, x);
        if m >= t {
          m := Sub(m, t);
        } else {
          m := Add(m, x);
        }
      }
      if x >= Sub(P, x) {
        x := Sub(Double(x), P);
      } else {
        x := Double(x);
      }
      ProductStep(m0, m, x0, x, y, a * b);
      y := y / 2;
    }
    ModOf(m, a * b);
  }

  /** The power modulo P by squaring.  It is reduced, but for `P` to the power one. */
  method PowModP(a: Word64, b: Word64) returns (r: Word64)
    requires a <= P && b >= 1
    ensures r == if a == P && b == 1 then P else Power(a, b) % P
    decreases b
  {
    if b == 1 {
      assert Power(a, 1) == a * Power(a, 0) == a;
      return a;
    }
    var t := PowModP(a, b / 2);
    ghost var half := Power(a, b / 2);
    HalfPower(a, b / 2, t);
    var s := MulModP(t, t);
    SquareSame(t, half, s);
    assert PowerOf(a, b, half) by { PowerAdd(a, b / 2, b / 2); PowerHalves(a, b); }
    r := s;
    if b % 2 == 1 {
      r := MulModP(r, a);
      SameTimes(s, half * half, a);
      SameMod(s * a);
      SameTrans(r, s * a, half * half * a);
      ModOf(r, half * half * a);
    } else {
      ModOf(r, half * half);
    }
  }

  ghost predicate PowerOf(a: int, b: nat, half: int) {
    Power(a, b) == if b % 2 == 1 then half * half * a else half * half
  }

  lemma {:induction false} PowerHalves(a: int, b: nat)
    ensures PowerOf(a, b, Power(a, b / 2))
  {
    var h := b / 2;
    PowerAdd(a, h, h);
    if b % 2 == 1 {
      assert b == (h + h) + 1;
      PowerAdd(a, h + h, 1);
      assert Power(a, 1) == a * Power(a, 0) == a;
    } else {
      assert b == h + h;
    }
  }

  lemma {:induction false} HalfPower(a: int, b: nat, t: int)
    requires b >= 1 && t == if a == P && b == 1 then P else Power(a, b) % P
    ensures Same(t, Power(a, b)) && 0 <= t <= P
  {
    if a == P && b == 1 {
      assert Power(a, 1) == a * Power(a, 0) == P;
      SameRefl(P);
    } else {
      SameMod(Power(a, b));
    }
  }

  lemma {:induction false} SquareSame(t: int, half: int, s: int)
    requires Same(t, half) && s == t * t % P
    ensures Same(s, half * half)
  {
    SameMod(t * t);
    SameTimes(t, half, t);
    SameTimes(t, half, half);
    SameTrans(t * t, half * t, half * half);
    SameTrans(s, t * t, half * half);
  }

  /** powmodp: the base is reduced first, unless it is P itself. */
  method PowerModP(a: Word64, b: Word64) returns (r: Word64)
    requires b >= 1
    ensures r == PowerModPOf(a, b) && (r == Power(a, b) % P <==> !(a == P && b == 1))
  {
    var x := a;
    if x > P {
      x := x % P;
    }
    r := PowModP(x, b);
    SameMod(a);
    if a > P {
      PowerSame(x, a, b);
      SameMod(Power(x, b));
      SameTrans(r, Power(x, b), Power(a, b));
      ModOf(r, Power(a, b));
    }
  }

  /** What powmodp computes: the power modulo P, with one exception. */
  function PowerModPOf(a: Word64, b: Word64): (r: Word64) {
    if a == P && b == 1 then P else Power(a, b) % P
  }

  // --------------------------------------------------------- the exchange

  /** dhexchange and dhsecret: zero is refused. */
  function Exchange(x: Word64): Option<Word64> { if x == 0 then None else Some(PowerModPOf(G, x)) }

  function Secret(x: Word64, y: Word64): Option<Word64> {
    if x == 0 || y == 0 then None else Some(PowerModPOf(x, y))
  }

  method DhExchange(x: Word64) returns (r: Option<Word64>)
    ensures r == Exchange(x)
  {
    if x == 0 {
      return None;
    }
    var e := PowerModP(G, x);
    return Some(e);
  }

  method DhSecret(x: Word64, y: Word64) returns (r: Option<Word64>)
    ensures r == Secret(x, y)
  {
    if x == 0 || y == 0 {
      return None;
    }
    var e := PowerModP(x, y);
    return Some(e);
  }

  /** The inverse of the base modulo P. */
  const G_INVERSE: nat := 7378697629483820623

  /** No power of the base is zero modulo P. */
  lemma {:induction false} NeverZero(x: nat)
    ensures Power(G, x) % P != 0
  {
    if Power(G, x) % P == 0 {
      SameMod(Power(G, x));
      SameSym(0, Power(G, x));
      SameTimes(Power(G, x), 0, Power(G_INVERSE, x));
      PowerTimes(G, G_INVERSE, x);
      SameBy(G * G_INVERSE, 1, 2);
      PowerSame(G * G_INVERSE, 1, x);
      PowerOne(x);
      SameSym(Power(G * G_INVERSE, x), 1);
      SameTrans(1, Power(G * G_INVERSE, x), 0);
      SameReduced(1, 0);
    }
  }

  /** Both sides of an exchange come to the same secret, and neither is refused. */
  lemma {:induction false} SidesAgree(x: Word64, y: Word64)
    requires x != 0 && y != 0
    ensures Exchange(x).Some? && Exchange(y).Some?
    ensures Secret(Exchange(x).value, y).Some?
    ensures Secret(Exchange(x).value, y) == Secret(Exchange(y).value, x)
  {
    NeverZero(x);
    NeverZero(y);
    SecretIs(x, y);
    SecretIs(y, x);
    assert x * y == y * x;
  }

  lemma {:induction false} SecretIs(x: Word64, y: Word64)
    requires x != 0 && y != 0
    ensures Exchange(x) == Some(Power(G, x) % P)
    ensures Power(G, x) % P != 0 && Secret(Power(G, x) % P, y) == Some(Power(G, x * y) % P)
  {
    NeverZero(x);
    var a := Power(G, x) % P;
    SameMod(Power(G, x));
    PowerSame(a, Power(G, x), y);
    PowerPower(G, x, y);
    SameMod(Power(a, y));
    SameTrans(Power(a, y) % P, Power(a, y), Power(G, x * y));
    ModOf(Power(a, y) % P, Power(G, x * y));
  }
}
