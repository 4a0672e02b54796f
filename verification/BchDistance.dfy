/** How far apart the format words are, and the version words: a reader can tell
    which one was meant even when some of its modules are wrong. */
module BchDistance {
  import opened Numbers
  import opened Bch

  // ----- bits of a product -----

  lemma {:induction false} XorBit(a: nat, b: nat, i: nat)
    ensures BitAt(Xor(a, b), i) == (BitAt(a, i) != BitAt(b, i))
    decreases i
  {
    XorStep(a, b);
    if i == 0 {
      FirstBit(a);
      FirstBit(b);
      FirstBit(Xor(a, b));
    } else {
      NextBit(a, i - 1);
      NextBit(b, i - 1);
      NextBit(Xor(a, b), i - 1);
      XorBit(a / 2, b / 2, i - 1);
    }
  }

  /** Bit i, false below position 0. */
  predicate Tap(g: nat, i: int) {
    i >= 0 && BitAt(g, i)
  }

  lemma ZeroBits(i: int)
    ensures !Tap(0, i)
  {
    if i >= 0 { assert 0 / Pow2(i) == 0; }
  }

  lemma DoubleBit(m: nat, i: int)
    ensures Tap(2 * m, i) == Tap(m, i - 1)
  {
    if i == 0 { FirstBit(2 * m); } else if i > 0 { NextBit(2 * m, i - 1); }
  }

  predicate Odd(a: bool, b: bool) {
    a != b
  }

  /** One more term of the sum behind a bit of the product. */
  lemma ClmulBit(q: nat, g: nat, i: int)
    ensures Tap(Clmul(q, g), i) == Odd(q % 2 == 1 && Tap(g, i), Tap(Clmul(q / 2, g), i - 1))
  {
    ClmulStep(q, g);
    var rest := Clmul(q / 2, g);
    hide Clmul, Xor, BitAt;
    if i >= 0 { XorBit(if q % 2 == 1 then g else 0, 2 * rest, i); }
    ZeroBits(i);
    DoubleBit(rest, i);
  }

  /** The low six bits of a number. */
  datatype Row = Row(a: bool, b: bool, c: bool, d: bool, e: bool, f: bool) {
    predicate Zero() { !a && !b && !c && !d && !e && !f }
  }

  predicate IsOdd(q: nat) {
    q % 2 == 1
  }

  function RowOf(q: nat): Row {
    Row(IsOdd(q), IsOdd(q / 2), IsOdd(q / 2 / 2), IsOdd(q / 2 / 2 / 2), IsOdd(q / 2 / 2 / 2 / 2),
        IsOdd(q / 2 / 2 / 2 / 2 / 2))
  }

  lemma RowIsZero(q: nat)
    requires q < 64
    ensures RowOf(q).Zero() <==> q == 0
    ensures q < 32 ==> !RowOf(q).f
    ensures q / 2 / 2 / 2 / 2 / 2 / 2 == 0
  {}

  /** Bit i of the multiple of g by the number with these bits. */
  predicate RowBit(r: Row, g: nat, i: int) {
    Odd(r.a && Tap(g, i), Odd(r.b && Tap(g, i - 1), Odd(r.c && Tap(g, i - 2),
      Odd(r.d && Tap(g, i - 3), Odd(r.e && Tap(g, i - 4), r.f && Tap(g, i - 5))))))
  }

  lemma ClmulBits(q: nat, g: nat, i: int)
    requires q < 64
    ensures Tap(Clmul(q, g), i) == RowBit(RowOf(q), g, i)
  {
    RowIsZero(q);
    hide Clmul, Tap, Odd;
    var q1 := q / 2;
    var q2 := q1 / 2;
    var q3 := q2 / 2;
    var q4 := q3 / 2;
    var q5 := q4 / 2;
    ClmulBit(q, g, i);
    ClmulBit(q1, g, i - 1);
    ClmulBit(q2, g, i - 2);
    ClmulBit(q3, g, i - 3);
    ClmulBit(q4, g, i - 4);
    LastBit(q5, g, i - 5);
  }

  lemma LastBit(q: nat, g: nat, i: int)
    requires q / 2 == 0
    ensures Tap(Clmul(q, g), i) == (IsOdd(q) && Tap(g, i))
  {
    ClmulBit(q, g, i);
    ClmulOfZero(g);
    ZeroBits(i - 1);
  }

  // ----- counting -----

  /** The number of one bits. */
  function Ones(n: nat): nat {
    if n == 0 then 0 else n % 2 + Ones(n / 2)
  }

  function Unit(b: bool): nat {
    if b then 1 else 0
  }

  /** The one bits among the first k. */
  function OnesBelow(n: nat, k: nat): nat {
    if k == 0 then 0 else OnesBelow(n, k - 1) + Unit(Tap(n, k - 1))
  }

  lemma {:induction false} OnesBelowShift(n: nat, k: nat)
    requires k > 0
    ensures OnesBelow(n, k) == n % 2 + OnesBelow(n / 2, k - 1)
  {
    hide BitAt;
    if k == 1 {
      FirstBit(n);
    } else {
      OnesBelowShift(n, k - 1);
      NextBit(n, k - 2);
    }
  }

  lemma {:induction false} OnesByBits(n: nat, k: nat)
    requires n < Pow2(k)
    ensures Ones(n) == OnesBelow(n, k)
    decreases k
  {
    if k > 0 {
      OnesBelowShift(n, k);
      OnesByBits(n / 2, k - 1);
    }
  }

  lemma {:induction false} OnesOfXor(a: nat, b: nat)
    ensures Ones(Xor(a, b)) <= Ones(a) + Ones(b)
    decreases a + b
  {
    XorStep(a, b);
    if a > 0 || b > 0 { OnesOfXor(a / 2, b / 2); }
  }

  // ----- the two generators -----

  lemma PowersOfTwo()
    ensures Pow2(0) == 1 && Pow2(1) == 2 && Pow2(2) == 4 && Pow2(3) == 8 && Pow2(4) == 16
    ensures Pow2(5) == 32 && Pow2(6) == 64 && Pow2(7) == 128 && Pow2(8) == 256 && Pow2(9) == 512
    ensures Pow2(10) == 1024 && Pow2(11) == 2048 && Pow2(12) == 4096 && Pow2(13) == 8192
  {
    assert Pow2(5) == 32 && Pow2(10) == 1024;
  }

  lemma {:induction false} NoBitsAbove(n: nat, k: nat, i: nat)
    requires n < Pow2(k) && k <= i
    ensures !BitAt(n, i)
    decreases k
  {
    if k == 0 {
      ZeroBits(i);
    } else {
      NextBit(n, i - 1);
      NoBitsAbove(n / 2, k - 1, i - 1);
    }
  }

  predicate FormatTap(i: int) {
    i == 0 || i == 1 || i == 2 || i == 4 || i == 5 || i == 8 || i == 10
  }

  lemma FormatTaps(i: int)
    ensures Tap(G15, i) == FormatTap(i)
  {
    PowersOfTwo();
    if i > 10 { NoBitsAbove(G15, 11, i); }
    hide Pow2;
    if i == 0 {} else if i == 1 {} else if i == 2 {} else if i == 3 {} else if i == 4 {} else if i == 5 {}
    else if i == 6 {} else if i == 7 {} else if i == 8 {} else if i == 9 {} else if i == 10 {} else {}
  }

  predicate VersionTap(i: int) {
    i == 0 || i == 2 || i == 5 || i == 8 || i == 9 || i == 10 || i == 11 || i == 12
  }

  lemma VersionTaps(i: int)
    ensures Tap(G18, i) == VersionTap(i)
  {
    PowersOfTwo();
    if i > 12 { NoBitsAbove(G18, 13, i); }
    hide Pow2;
    if i == 0 {} else if i == 1 {} else if i == 2 {} else if i == 3 {} else if i == 4 {} else if i == 5 {}
    else if i == 6 {} else if i == 7 {} else if i == 8 {} else if i == 9 {} else if i == 10 {} else if i == 11 {}
    else if i == 12 {} else {}
  }

  /** The two generators and the format mask, bit by bit. */
  lemma GeneratorBits(i: nat)
    ensures BitAt(G15, i) <==> i in {0, 1, 2, 4, 5, 8, 10}
    ensures BitAt(G18, i) <==> i in {0, 2, 5, 8, 9, 10, 11, 12}
    ensures BitAt(G15_MASK, i) <==> i in {1, 4, 10, 12, 14}
  {
    hide BitAt;
    FormatTaps(i);
    VersionTaps(i);
    MaskBits(i);
  }

  lemma MaskBits(i: nat)
    ensures BitAt(G15_MASK, i) <==> i == 1 || i == 4 || i == 10 || i == 12 || i == 14
  {
    PowersOfTwo();
    assert Pow2(14) == 0x4000 && Pow2(15) == 0x8000;
    if i > 14 { NoBitsAbove(G15_MASK, 15, i); }
    hide Pow2;
    if i == 0 {} else if i == 1 {} else if i == 2 {} else if i == 3 {} else if i == 4 {} else if i == 5 {}
    else if i == 6 {} else if i == 7 {} else if i == 8 {} else if i == 9 {} else if i == 10 {} else if i == 11 {}
    else if i == 12 {} else if i == 13 {} else if i == 14 {} else {}
  }

  // ----- weights of the nonzero multiples -----

  /** The one bits among the first k of the multiple. */
  function RowCount(r: Row, g: nat, k: nat): nat {
    if k == 0 then 0 else RowCount(r, g, k - 1) + Unit(RowBit(r, g, k - 1))
  }

  lemma {:induction false} CountsAgree(q: nat, g: nat, k: nat)
    requires q < 64
    ensures OnesBelow(Clmul(q, g), k) == RowCount(RowOf(q), g, k)
  {
    hide Clmul, Tap, RowBit, RowOf;
    if k > 0 {
      ClmulBits(q, g, k - 1);
      CountsAgree(q, g, k - 1);
    }
  }

  lemma ThreeMore(r: Row, g: nat, k: nat)
    ensures RowCount(r, g, k + 3)
         == RowCount(r, g, k) + Unit(RowBit(r, g, k)) + Unit(RowBit(r, g, k + 1)) + Unit(RowBit(r, g, k + 2))
  {
    hide RowBit;
    assert RowCount(r, g, k + 1) == RowCount(r, g, k) + Unit(RowBit(r, g, k));
    assert RowCount(r, g, k + 2) == RowCount(r, g, k + 1) + Unit(RowBit(r, g, k + 1));
  }

  predicate FormatBit(r: Row, i: int) {
    Odd(r.a && FormatTap(i), Odd(r.b && FormatTap(i - 1), Odd(r.c && FormatTap(i - 2),
      Odd(r.d && FormatTap(i - 3), r.e && FormatTap(i - 4)))))
  }

  lemma FormatRow(r: Row, i: int)
    requires !r.f
    ensures RowBit(r, G15, i) == FormatBit(r, i)
  {
    hide Tap, FormatTap;
    FormatTaps(i);
    FormatTaps(i - 1);
    FormatTaps(i - 2);
    FormatTaps(i - 3);
    FormatTaps(i - 4);
  }

  lemma FormatThree(r: Row, k: nat)
    requires !r.f
    ensures RowCount(r, G15, k + 3) == RowCount(r, G15, k)
              + Unit(FormatBit(r, k)) + Unit(FormatBit(r, k + 1)) + Unit(FormatBit(r, k + 2))
  {
    ThreeMore(r, G15, k);
    hide RowBit, RowCount, FormatBit;
    FormatRow(r, k);
    FormatRow(r, k + 1);
    FormatRow(r, k + 2);
  }

  /** The ones among bits k, k + 1 and k + 2, bit by bit. */
  function FormatPart(r: Row, k: nat): nat {
    if k == 0 then Unit(r.a) + Unit(Odd(r.a, r.b)) + Unit(Odd(r.a, Odd(r.b, r.c)))
    else if k == 3 then Unit(Odd(r.b, Odd(r.c, r.d))) + Unit(Odd(r.a, Odd(r.c, Odd(r.d, r.e)))) + Unit(Odd(r.a, Odd(r.b, Odd(r.d, r.e))))
    else if k == 6 then Unit(Odd(r.b, Odd(r.c, r.e))) + Unit(Odd(r.c, r.d)) + Unit(Odd(r.a, Odd(r.d, r.e)))
    else if k == 9 then Unit(Odd(r.b, r.e)) + Unit(Odd(r.a, r.c)) + Unit(Odd(r.b, r.d))
    else Unit(Odd(r.c, r.e)) + Unit(r.d) + Unit(r.e)
  }

  lemma FormatPartIs(r: Row, k: nat)
    requires k in {0, 3, 6, 9, 12}
    ensures FormatPart(r, k) == Unit(FormatBit(r, k)) + Unit(FormatBit(r, k + 1)) + Unit(FormatBit(r, k + 2))
  {}

  /** The ones below bit 3 * m. */
  function FormatSum(r: Row, m: nat): nat {
    if m == 0 then 0 else FormatSum(r, m - 1) + FormatPart(r, 3 * (m - 1))
  }

  lemma {:induction false} FormatSums(r: Row, m: nat)
    requires !r.f && m <= 5
    ensures RowCount(r, G15, 3 * m) == FormatSum(r, m)
  {
    hide FormatPart, FormatBit, RowBit;
    if m == 0 {
      NoneYet(r, G15);
    } else {
      hide RowCount;
      FormatSums(r, m - 1);
      FormatThree(r, 3 * (m - 1));
      FormatPartIs(r, 3 * (m - 1));
    }
  }

  lemma FormatSumIsHeavy(r: Row)
    requires !r.f && !r.Zero()
    ensures FormatSum(r, 5) >= 7
  {
    hide FormatPart;
    assert FormatSum(r, 1) == FormatSum(r, 0) + FormatPart(r, 0);
    assert FormatSum(r, 2) == FormatSum(r, 1) + FormatPart(r, 3);
    assert FormatSum(r, 3) == FormatSum(r, 2) + FormatPart(r, 6);
    assert FormatSum(r, 4) == FormatSum(r, 3) + FormatPart(r, 9);
    assert FormatSum(r, 5) == FormatSum(r, 4) + FormatPart(r, 12);
    FormatPartsAreHeavy(r);
  }

  lemma FormatPartsAreHeavy(r: Row)
    requires !r.f && !r.Zero()
    ensures FormatPart(r, 0) + FormatPart(r, 3) + FormatPart(r, 6) + FormatPart(r, 9) + FormatPart(r, 12) >= 7
  {}

  /** Every nonzero combination of the five shifted generators has seven ones. */
  lemma FormatWeight(r: Row)
    requires !r.f && !r.Zero()
    ensures RowCount(r, G15, 15) >= 7
  {
    hide RowCount, FormatSum;
    FormatSums(r, 5);
    FormatSumIsHeavy(r);
  }

  lemma NoneYet(r: Row, g: nat)
    ensures RowCount(r, g, 0) == 0
  {}

  predicate VersionBit(r: Row, i: int) {
    Odd(r.a && VersionTap(i), Odd(r.b && VersionTap(i - 1), Odd(r.c && VersionTap(i - 2),
      Odd(r.d && VersionTap(i - 3), Odd(r.e && VersionTap(i - 4), r.f && VersionTap(i - 5))))))
  }

  lemma VersionRow(r: Row, i: int)
    ensures RowBit(r, G18, i) == VersionBit(r, i)
  {
    hide Tap, VersionTap;
    VersionTaps(i);
    VersionTaps(i - 1);
    VersionTaps(i - 2);
    VersionTaps(i - 3);
    VersionTaps(i - 4);
    VersionTaps(i - 5);
  }

  lemma VersionThree(r: Row, k: nat)
    ensures RowCount(r, G18, k + 3) == RowCount(r, G18, k)
              + Unit(VersionBit(r, k)) + Unit(VersionBit(r, k + 1)) + Unit(VersionBit(r, k + 2))
  {
    ThreeMore(r, G18, k);
    hide RowBit, RowCount, VersionBit;
    VersionRow(r, k);
    VersionRow(r, k + 1);
    VersionRow(r, k + 2);
  }

  /** The ones among bits k, k + 1 and k + 2, bit by bit. */
  function VersionPart(r: Row, k: nat): nat {
    if k == 0 then Unit(r.a) + Unit(r.b) + Unit(Odd(r.a, r.c))
    else if k == 3 then Unit(Odd(r.b, r.d)) + Unit(Odd(r.c, r.e)) + Unit(Odd(r.a, Odd(r.d, r.f)))
    else if k == 6 then Unit(Odd(r.b, r.e)) + Unit(Odd(r.c, r.f)) + Unit(Odd(r.a, r.d))
    else if k == 9 then Unit(Odd(r.a, Odd(r.b, r.e))) + Unit(Odd(r.a, Odd(r.b, Odd(r.c, r.f)))) + Unit(Odd(r.a, Odd(r.b, Odd(r.c, r.d))))
    else if k == 12 then Unit(Odd(r.a, Odd(r.b, Odd(r.c, Odd(r.d, r.e))))) + Unit(Odd(r.b, Odd(r.c, Odd(r.d, Odd(r.e, r.f))))) + Unit(Odd(r.c, Odd(r.d, Odd(r.e, r.f))))
    else Unit(Odd(r.d, Odd(r.e, r.f))) + Unit(Odd(r.e, r.f)) + Unit(r.f)
  }

  lemma VersionPartIs(r: Row, k: nat)
    requires k in {0, 3, 6, 9, 12, 15}
    ensures VersionPart(r, k) == Unit(VersionBit(r, k)) + Unit(VersionBit(r, k + 1)) + Unit(VersionBit(r, k + 2))
  {}

  /** The ones below bit 3 * m. */
  function VersionSum(r: Row, m: nat): nat {
    if m == 0 then 0 else VersionSum(r, m - 1) + VersionPart(r, 3 * (m - 1))
  }

  lemma {:induction false} VersionSums(r: Row, m: nat)
    requires m <= 6
    ensures RowCount(r, G18, 3 * m) == VersionSum(r, m)
  {
    hide VersionPart, VersionBit, RowBit;
    if m == 0 {
      NoneYet(r, G18);
    } else {
      hide RowCount;
      VersionSums(r, m - 1);
      VersionThree(r, 3 * (m - 1));
      VersionPartIs(r, 3 * (m - 1));
    }
  }

  lemma VersionSumIsHeavy(r: Row)
    requires !r.Zero()
    ensures VersionSum(r, 6) >= 8
  {
    hide VersionPart;
    assert VersionSum(r, 1) == VersionSum(r, 0) + VersionPart(r, 0);
    assert VersionSum(r, 2) == VersionSum(r, 1) + VersionPart(r, 3);
    assert VersionSum(r, 3) == VersionSum(r, 2) + VersionPart(r, 6);
    assert VersionSum(r, 4) == VersionSum(r, 3) + VersionPart(r, 9);
    assert VersionSum(r, 5) == VersionSum(r, 4) + VersionPart(r, 12);
    assert VersionSum(r, 6) == VersionSum(r, 5) + VersionPart(r, 15);
    VersionPartsAreHeavy(r);
  }

  lemma VersionPartsAreHeavy(r: Row)
    requires !r.Zero()
    ensures VersionPart(r, 0) + VersionPart(r, 3) + VersionPart(r, 6) + VersionPart(r, 9) + VersionPart(r, 12) + VersionPart(r, 15) >= 8
  {}

  /** Every nonzero combination of the six shifted generators has eight ones. */
  lemma VersionWeight(r: Row)
    requires !r.Zero()
    ensures RowCount(r, G18, 18) >= 8
  {
    hide RowCount, VersionSum;
    VersionSums(r, 6);
    VersionSumIsHeavy(r);
  }

  // ----- distances -----

  lemma XorIsZero(a: nat, b: nat)
    ensures Xor(a, b) == 0 <==> a == b
  {
    hide Xor;
    XorSelf(a);
    XorSelf(b);
    XorAssoc(a, b, b);
    XorZero(a);
    XorZero(b);
  }

  /** The word of a nonzero payload is a nonzero multiple by a number as short as
      the payload. */
  lemma WordMultiple(payload: nat, bits: nat, checkBits: nat, g: nat) returns (q: nat)
    requires g > 0 && Digits(g) == checkBits + 1 && 0 < payload < Pow2(bits)
    ensures Word(payload, checkBits, g) == Clmul(q, g) && 0 < q < Pow2(bits)
    ensures Word(payload, checkBits, g) < Pow2(bits + checkBits)
  {
    hide Xor, Clmul, Digits, Remainder, Pow2;
    WordIsCodeword(payload, checkBits, g);
    var w := Word(payload, checkBits, g);
    q :| w == Clmul(q, g);
    WordIsShort(payload, bits, checkBits, g);
    DigitsBound(w, bits + checkBits);
    ClmulOfZero(g);
    ZeroQuotient(Pow2(checkBits));
    ClmulDigits(q, g);
    DigitsBound(q, bits);
  }

  lemma ZeroQuotient(m: nat)
    requires m > 0
    ensures 0 / m == 0
  {}

  lemma WordIsShort(payload: nat, bits: nat, checkBits: nat, g: nat)
    requires g > 0 && Digits(g) == checkBits + 1 && payload < Pow2(bits)
    ensures Word(payload, checkBits, g) < Pow2(bits + checkBits)
  {
    hide Xor, Clmul, Digits, Remainder, Pow2;
    var shifted := payload * Pow2(checkBits);
    var q := RemainderDivides(shifted, g);
    DigitsBound(Remainder(shifted, g), checkBits);
    Pow2Sum(bits, checkBits);
    TopBlock(payload, Pow2(bits), Pow2(checkBits));
  }

  lemma TopBlock(a: nat, b: nat, m: nat)
    requires a < b
    ensures a * m + m <= b * m
  {
    assert (b - a - 1) * m >= 0;
    assert b * m == a * m + m + (b - a - 1) * m;
  }

  lemma {:induction false} Pow2Sum(a: nat, b: nat)
    ensures Pow2(a + b) == Pow2(a) * Pow2(b)
  {
    if a > 0 {
      Pow2Sum(a - 1, b);
      assert Pow2(a) * Pow2(b) == 2 * (Pow2(a - 1) * Pow2(b));
    }
  }

  lemma XorBelow(a: nat, b: nat, bits: nat)
    requires a < Pow2(bits) && b < Pow2(bits)
    ensures Xor(a, b) < Pow2(bits)
  {
    hide Xor, Digits;
    DigitsBound(a, bits);
    DigitsBound(b, bits);
    XorShort(a, b, bits);
    DigitsBound(Xor(a, b), bits);
  }

  /** Two different format words differ in at least seven of their 15 bits. */
  lemma FormatDistance(a: nat, b: nat)
    requires a < 32 && b < 32 && a != b
    ensures Ones(Xor(Word(a, 10, G15), Word(b, 10, G15))) >= 7
  {
    GeneratorLengths();
    PowersOfTwo();
    hide Xor, Clmul, Digits, Remainder, Pow2, Word, Ones, RowCount, RowOf;
    WordsAreLinear(a, b, 10, G15);
    XorIsZero(a, b);
    XorBelow(a, b, 5);
    var q := WordMultiple(Xor(a, b), 5, 10, G15);
    RowIsZero(q);
    OnesByBits(Clmul(q, G15), 15);
    CountsAgree(q, G15, 15);
    FormatWeight(RowOf(q));
  }

  /** Two different version words differ in at least eight of their 18 bits. */
  lemma VersionDistance(a: nat, b: nat)
    requires a < 64 && b < 64 && a != b
    ensures Ones(Xor(Word(a, 12, G18), Word(b, 12, G18))) >= 8
  {
    GeneratorLengths();
    PowersOfTwo();
    hide Xor, Clmul, Digits, Remainder, Pow2, Word, Ones, RowCount, RowOf;
    WordsAreLinear(a, b, 12, G18);
    XorIsZero(a, b);
    XorBelow(a, b, 6);
    var q := WordMultiple(Xor(a, b), 6, 12, G18);
    RowIsZero(q);
    OnesByBits(Clmul(q, G18), 18);
    CountsAgree(q, G18, 18);
    VersionWeight(RowOf(q));
  }

  /** The differences of a received word to two others bound their difference. */
  lemma Triangle(r: nat, u: nat, v: nat)
    ensures Ones(Xor(u, v)) <= Ones(Xor(r, u)) + Ones(Xor(r, v))
  {
    hide Xor;
    XorExchange(r, u, r, v);
    XorSelf(r);
    XorZero(Xor(u, v));
    OnesOfXor(Xor(r, u), Xor(r, v));
  }

  /** Three wrong modules in one copy of the format word leave its payload, and
      with it level and mask, determined. */
  lemma FormatIsCorrectable(received: nat, a: nat, b: nat)
    requires a < 32 && b < 32
    requires Ones(Xor(received, Xor(Word(a, 10, G15), G15_MASK))) <= 3
    requires Ones(Xor(received, Xor(Word(b, 10, G15), G15_MASK))) <= 3
    ensures a == b
  {
    hide Xor, Word, Ones;
    var u, v := Word(a, 10, G15), Word(b, 10, G15);
    Triangle(received, Xor(u, G15_MASK), Xor(v, G15_MASK));
    XorExchange(u, G15_MASK, v, G15_MASK);
    XorSelf(G15_MASK);
    XorZero(Xor(u, v));
    if a != b { FormatDistance(a, b); }
  }

  /** The same for the version word. */
  lemma VersionIsCorrectable(received: nat, a: nat, b: nat)
    requires a < 64 && b < 64
    requires Ones(Xor(received, Word(a, 12, G18))) <= 3 && Ones(Xor(received, Word(b, 12, G18))) <= 3
    ensures a == b
  {
    hide Xor, Word, Ones;
    Triangle(received, Word(a, 12, G18), Word(b, 12, G18));
    if a != b { VersionDistance(a, b); }
  }
}
