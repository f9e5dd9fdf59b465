/** Facts about division and remainder by a positive divisor, positions in a ring, and sizes of sets. */
module Arith {

  lemma MulMonotone(m: int, k: int)
    requires m > 0 && k >= 1
    ensures m * k >= m
  {
    assert m * k == m + m * (k - 1);
    assert m * (k - 1) >= 0;
  }

  /** The only multiple of m strictly between -m and m is zero. */
  lemma SmallMultiple(m: int, k: int)
    requires m > 0 && -m < m * k < m
    ensures k == 0
  {
    if k >= 1 {
      MulMonotone(m, k);
      assert false;
    } else if k <= -1 {
      assert m * k == -(m * -k);
      MulMonotone(m, -k);
      assert false;
    }
  }

  /** If a and r differ by a multiple of m and r is in range, then r is the remainder of a. */
  lemma ModUnique(m: int, a: int, r: int, q: int)
    requires m > 0 && 0 <= r < m && a == m * q + r
    ensures a % m == r && a / m == q
  {
    var k := a / m;
    var d := a % m;
    assert a == m * k + d;
    assert m * (k - q) == m * k - m * q == r - d;
    SmallMultiple(m, k - q);
  }

  lemma {:induction false} SubsetSize<T>(a: set<T>, b: set<T>)
    requires a <= b
    ensures |a| <= |b|
  {
    if a != {} {
      var x :| x in a;
      SubsetSize(a - {x}, b - {x});
    }
  }

  // --------------------------------------------------------------------- positions in a ring

  /**
   x & (m - 1) for a power of two m, and x % m in general.  Written without the remainder operator,
   so that proofs about rings use the lemmas below and nothing else.
   */
  function Wrap(x: int, m: nat): (r: nat)
    requires m > 0
    ensures r < m
    decreases if x < 0 then -x else if x < m then 0 else x
  {
    if x < 0 then Wrap(x + m, m) else if x < m then x else Wrap(x - m, m)
  }

  lemma WrapIsMod(x: int, m: nat)
    requires m > 0
    ensures Wrap(x, m) == x % m
  {
    var q := WrapQuotient(x, m);
    ModUnique(m, x, Wrap(x, m), q);
  }

  lemma {:induction false} WrapQuotient(x: int, m: nat) returns (q: int)
    requires m > 0
    ensures x == m * q + Wrap(x, m)
    decreases if x < 0 then -x else if x < m then 0 else x
  {
    if x < 0 {
      var p := WrapQuotient(x + m, m);
      q := p - 1;
      assert m * (p - 1) == m * p - m;
    } else if x < m {
      q := 0;
    } else {
      var p := WrapQuotient(x - m, m);
      q := p + 1;
      assert m * (p + 1) == m * p + m;
    }
  }

  lemma WrapPeriod(x: int, m: nat)
    requires m > 0
    ensures Wrap(x + m, m) == Wrap(x, m)
  {
  }

  /** Moving along the ring in two stages. */
  lemma {:induction false} WrapShift(a: int, b: int, m: nat)
    requires m > 0
    ensures Wrap(Wrap(a, m) + b, m) == Wrap(a + b, m)
    decreases if a < 0 then -a else if a < m then 0 else a
  {
    if a < 0 {
      WrapShift(a + m, b, m);
      WrapPeriod(a + b, m);
    } else if a >= m {
      WrapShift(a - m, b, m);
      WrapPeriod(a - m + b, m);
    }
  }

  /** Fewer than m steps lead to another position. */
  lemma {:induction false} WrapDistinct(a: int, b: int, m: nat)
    requires m > 0 && a < b < a + m
    ensures Wrap(a, m) != Wrap(b, m)
    decreases if a < 0 then -a else if a < m then 0 else a
  {
    if a < 0 {
      WrapDistinct(a + m, b + m, m);
      WrapPeriod(b, m);
    } else if a >= m {
      WrapDistinct(a - m, b - m, m);
      WrapPeriod(b - m, m);
    }
  }
}
