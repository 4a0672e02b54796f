/** Powers of two, the arithmetic of quotients, and the bits of a number. */
module Numbers {

  function Pow2(k: nat): (p: nat)
    ensures p >= 1
  {
    if k == 0 then 1 else 2 * Pow2(k - 1)
  }

  lemma MultipleIsFar(m: int, k: int)
    requires m >= 0
    ensures k >= 1 ==> m * k >= m
    ensures k <= -1 ==> m * k <= -m
  {
    if k >= 1 {
      assert m * k == m + m * (k - 1);
    } else if k <= -1 {
      assert m * k == -m + m * (k + 1);
    }
  }

  lemma QuotientOfSum(a: nat, r: nat, m: nat)
    requires r < m
    ensures (a * m + r) / m == a
  {
    var q := (a * m + r) / m;
    assert m * (a - q) == (a * m + r) % m - r;
    MultipleIsFar(m, a - q);
  }

  lemma RemainderOfSum(a: nat, r: nat, m: nat)
    requires r < m
    ensures (a * m + r) % m == r
  {
    QuotientOfSum(a, r, m);
    assert (a * m + r) % m == a * m + r - m * ((a * m + r) / m);
  }

  lemma DivideTwice(n: nat, m: nat)
    requires m > 0
    ensures n / (2 * m) == n / 2 / m
  {
    var q := n / 2 / m;
    var r := n / 2 % m;
    assert n / 2 == q * m + r by { assert m * q == q * m; }
    assert n == q * (2 * m) + (2 * r + n % 2) by { assert q * (2 * m) == 2 * (q * m); }
    QuotientOfSum(q, 2 * r + n % 2, 2 * m);
  }

  /** Bit i, counted from the least significant one. */
  predicate BitAt(n: nat, i: nat) {
    n / Pow2(i) % 2 == 1
  }

  lemma FirstBit(n: nat)
    ensures BitAt(n, 0) <==> n % 2 == 1
  {
    assert Pow2(0) == 1;
  }

  lemma NextBit(n: nat, i: nat)
    ensures BitAt(n, i + 1) == BitAt(n / 2, i)
  {
    assert Pow2(i + 1) == 2 * Pow2(i);
    DivideTwice(n, Pow2(i));
  }
}
