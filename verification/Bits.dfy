/** The C operator & on unsigned values, and what a mask does. */
module Bits {
  function BitAnd(a: nat, b: nat): nat {
    if a == 0 || b == 0 then 0
    else (if a % 2 == 1 && b % 2 == 1 then 1 else 0) + 2 * BitAnd(a / 2, b / 2)
  }

  /** Bit by bit: the lowest bit is set where it is in both, and so on for the rest. */
  lemma BitAndIs(a: nat, b: nat)
    ensures BitAnd(a, b) % 2 == (if a % 2 == 1 && b % 2 == 1 then 1 else 0)
    ensures BitAnd(a, b) / 2 == BitAnd(a / 2, b / 2)
  {
  }

  /** 1 << n */
  function Pow2(n: nat): (r: nat)
    ensures r > 0
  {
    if n == 0 then 1 else 2 * Pow2(n - 1)
  }

  /** The low n bits are the remainder modulo 2 to the n. */
  lemma {:induction false} MaskIsRemainder(a: nat, n: nat)
    ensures BitAnd(a, Pow2(n) - 1) == a % Pow2(n)
  {
    if n == 0 {
      assert BitAnd(a, Pow2(n) - 1) == 0;
    } else {
      var p := Pow2(n - 1);
      MaskIsRemainder(a / 2, n - 1);
      MaskDoubled(a, p);
      assert Pow2(n) == 2 * p;
    }
  }

  lemma MaskDoubled(a: nat, p: nat)
    requires p > 0 && BitAnd(a / 2, p - 1) == a / 2 % p
    ensures BitAnd(a, 2 * p - 1) == a % (2 * p)
  {
    hide BitAnd;
    var b: nat := 2 * p - 1;
    OddHalf(p);
    BitAndStep(a, b);
    DoubleRemainder(a, p);
  }

  lemma BitAndStep(a: nat, b: nat)
    requires b % 2 == 1
    ensures BitAnd(a, b) == a % 2 + 2 * BitAnd(a / 2, b / 2)
  {
  }

  lemma OddHalf(p: nat)
    requires p > 0
    ensures (2 * p - 1) / 2 == p - 1 && (2 * p - 1) % 2 == 1
  {
  }

  lemma DoubleRemainder(a: nat, p: nat)
    requires p > 0
    ensures a % (2 * p) == a % 2 + 2 * (a / 2 % p)
  {
    var q, r, m := a / 2 / p, a / 2 % p, 2 * p;
    assert a == q * m + (a % 2 + 2 * r) by {
      assert a / 2 == q * p + r;
      assert q * m == 2 * (q * p);
    }
    RemainderIs(a, m, q, a % 2 + 2 * r);
  }

  lemma RemainderIs(a: nat, m: nat, q: nat, r: nat)
    requires a == q * m + r && r < m
    ensures a % m == r
  {
    assert a == a / m * m + a % m;
    assert (q - a / m) * m == a % m - r;
    SmallMultiple(q - a / m, m);
  }

  lemma SmallMultiple(x: int, m: int)
    requires 0 - m < x * m < m
    ensures x == 0
  {
    AtLeast(x, m);
    AtLeast(0 - x, m);
  }

  lemma AtLeast(x: int, m: int)
    requires m >= 0
    ensures x > 0 ==> x * m >= m
  {
    if x > 0 {
      assert (x - 1) * m >= 0;
    }
  }
}
