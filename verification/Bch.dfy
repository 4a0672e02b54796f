/** BCH codes of the format and version information.  Numbers are the unsigned
    32-bit patterns behind JavaScript's bitwise operators; bit k is the
    coefficient of x^k of a polynomial over GF(2). */
module Bch {
  import opened Numbers

  // ----- bit patterns -----

  function Xor(a: nat, b: nat): nat {
    if a == 0 && b == 0 then 0
    else 2 * Xor(a / 2, b / 2) + (if a % 2 != b % 2 then 1 else 0)
  }

  function Or(a: nat, b: nat): nat {
    if a == 0 && b == 0 then 0
    else 2 * Or(a / 2, b / 2) + (if a % 2 == 1 || b % 2 == 1 then 1 else 0)
  }

  /** Position of the highest set bit, counted from 1; 0 for 0. */
  function Digits(d: nat): nat {
    if d == 0 then 0 else 1 + Digits(d / 2)
  }

  /** The product of polynomials over GF(2). */
  function Clmul(q: nat, g: nat): nat {
    if q == 0 then 0 else Xor(if q % 2 == 1 then g else 0, 2 * Clmul(q / 2, g))
  }

  lemma {:induction false} XorZero(a: nat)
    ensures Xor(a, 0) == a && Xor(0, a) == a
  {
    if a > 0 { XorZero(a / 2); }
  }

  lemma {:induction false} XorSelf(a: nat)
    ensures Xor(a, a) == 0
  {
    if a > 0 { XorSelf(a / 2); }
  }

  lemma {:induction false} XorComm(a: nat, b: nat)
    ensures Xor(a, b) == Xor(b, a)
    decreases a + b
  {
    if a > 0 || b > 0 { XorComm(a / 2, b / 2); }
  }

  lemma XorStep(a: nat, b: nat)
    ensures Xor(a, b) / 2 == Xor(a / 2, b / 2)
    ensures Xor(a, b) % 2 == if a % 2 != b % 2 then 1 else 0
  {}

  lemma {:induction false} XorAssoc(a: nat, b: nat, c: nat)
    ensures Xor(Xor(a, b), c) == Xor(a, Xor(b, c))
    decreases a + b + c
  {
    if a > 0 || b > 0 || c > 0 {
      XorAssoc(a / 2, b / 2, c / 2);
      XorStep(a, b);
      XorStep(b, c);
      XorStep(Xor(a, b), c);
      XorStep(a, Xor(b, c));
    }
  }

  lemma XorExchange(a: nat, b: nat, c: nat, d: nat)
    ensures Xor(Xor(a, b), Xor(c, d)) == Xor(Xor(a, c), Xor(b, d))
  {
    hide Xor;
    XorAssoc(a, b, Xor(c, d));
    XorAssoc(b, c, d);
    XorComm(b, c);
    XorAssoc(c, b, d);
    XorAssoc(a, c, Xor(b, d));
  }

  lemma {:induction false} DigitsBound(d: nat, k: nat)
    ensures Digits(d) <= k <==> d < Pow2(k)
    decreases k
  {
    if k > 0 && d > 0 { DigitsBound(d / 2, k - 1); }
  }

  /** Equal highest bits cancel. */
  lemma {:induction false} XorCancelsTop(a: nat, b: nat)
    requires Digits(a) == Digits(b) > 0
    ensures Digits(Xor(a, b)) < Digits(a)
  {
    XorStep(a, b);
    if Digits(a) > 1 { XorCancelsTop(a / 2, b / 2); }
  }

  /** A higher bit on one side survives. */
  lemma {:induction false} XorKeepsTop(a: nat, b: nat)
    requires Digits(a) < Digits(b)
    ensures Digits(Xor(a, b)) == Digits(b)
    decreases b
  {
    XorStep(a, b);
    if a == 0 {
      XorZero(b);
    } else {
      XorKeepsTop(a / 2, b / 2);
    }
  }

  lemma {:induction false} DigitsShift(g: nat, s: nat)
    requires g > 0
    ensures g * Pow2(s) > 0 && Digits(g * Pow2(s)) == Digits(g) + s
  {
    if s > 0 {
      DigitsShift(g, s - 1);
      assert g * Pow2(s) == 2 * (g * Pow2(s - 1));
    }
  }

  // ----- the carry-less product -----

  lemma XorDouble(a: nat, b: nat)
    ensures Xor(2 * a, 2 * b) == 2 * Xor(a, b)
  {
    XorStep(2 * a, 2 * b);
  }

  lemma {:induction false} ClmulLinear(q: nat, r: nat, g: nat)
    ensures Clmul(Xor(q, r), g) == Xor(Clmul(q, g), Clmul(r, g))
    decreases q + r
  {
    if q == 0 {
      XorZero(r);
      XorZero(Clmul(r, g));
    } else if r == 0 {
      XorZero(q);
      XorZero(Clmul(q, g));
    } else {
      ClmulLinear(q / 2, r / 2, g);
      XorStep(q, r);
      var x := if q % 2 == 1 then g else 0;
      var y := if r % 2 == 1 then g else 0;
      var u, v := Clmul(q / 2, g), Clmul(r / 2, g);
      ClmulStep(q, g);
      ClmulStep(r, g);
      ClmulStep(Xor(q, r), g);
      hide Clmul, Xor;
      XorSelf(g);
      XorZero(g);
      XorZero(0);
      XorDouble(u, v);
      XorExchange(x, 2 * u, y, 2 * v);
    }
  }

  lemma ClmulStep(q: nat, g: nat)
    ensures Clmul(q, g) == Xor(if q % 2 == 1 then g else 0, 2 * Clmul(q / 2, g))
  {}

  lemma ClmulEven(q: nat, g: nat)
    requires q > 0
    ensures Clmul(2 * q, g) == 2 * Clmul(q, g)
  {
    ClmulStep(2 * q, g);
    hide Clmul, Xor;
    XorZero(2 * Clmul(q, g));
  }

  lemma {:induction false} ClmulPow2(s: nat, g: nat)
    ensures Clmul(Pow2(s), g) == g * Pow2(s)
  {
    if s == 0 {
      assert Clmul(0, g) == 0;
      XorZero(g);
    } else {
      hide Clmul, Xor;
      ClmulPow2(s - 1, g);
      ClmulEven(Pow2(s - 1), g);
      DoubleProduct(g, Pow2(s - 1));
    }
  }

  lemma DoubleProduct(g: nat, m: nat)
    ensures g * (2 * m) == 2 * (g * m)
  {}

  /** Degrees add: a nonzero multiple of g is at least as long as g. */
  lemma {:induction false} ClmulDigits(q: nat, g: nat)
    requires q > 0 && g > 0
    ensures Digits(Clmul(q, g)) == Digits(q) + Digits(g) - 1
  {
    if q == 1 {
      assert Clmul(0, g) == 0;
      XorZero(g);
    } else {
      ClmulDigits(q / 2, g);
      var rest := 2 * Clmul(q / 2, g);
      assert Digits(rest) == Digits(q / 2) + Digits(g);
      if q % 2 == 1 {
        XorKeepsTop(g, rest);
      } else {
        XorZero(rest);
      }
    }
  }

  // ----- the remainder -----

  /** Eliminate the highest bit until the value is shorter than g. */
  ghost function Remainder(d: nat, g: nat): nat
    requires g > 0
    decreases Digits(d)
  {
    if Digits(d) < Digits(g) then d
    else
      var d' := Xor(d, g * Pow2(Digits(d) - Digits(g)));
      EliminationShrinks(d, g);
      Remainder(d', g)
  }

  lemma EliminationShrinks(d: nat, g: nat)
    requires g > 0 && Digits(d) >= Digits(g)
    ensures Digits(Xor(d, g * Pow2(Digits(d) - Digits(g)))) < Digits(d)
  {
    DigitsShift(g, Digits(d) - Digits(g));
    XorCancelsTop(d, g * Pow2(Digits(d) - Digits(g)));
  }

  lemma {:induction false} RemainderDivides(d: nat, g: nat) returns (q: nat)
    requires g > 0
    ensures Xor(d, Remainder(d, g)) == Clmul(q, g)
    ensures Digits(Remainder(d, g)) < Digits(g)
    decreases Digits(d)
  {
    if Digits(d) < Digits(g) {
      q := 0;
      XorSelf(d);
    } else {
      var s := Digits(d) - Digits(g);
      var d' := Xor(d, g * Pow2(s));
      EliminationShrinks(d, g);
      var q' := RemainderDivides(d', g);
      q := Xor(q', Pow2(s));
      ClmulLinear(q', Pow2(s), g);
      ClmulPow2(s, g);
      var m, r := g * Pow2(s), Remainder(d', g);
      hide Xor, Clmul, Remainder;
      XorAssoc(d, m, r);
      XorComm(m, r);
      XorAssoc(d, r, m);
      XorAssoc(Xor(d, r), m, m);
      XorSelf(m);
      XorZero(Xor(d, r));
    }
  }

  /** Only one value shorter than g completes d to a multiple of g. */
  lemma RemainderUnique(d: nat, g: nat, r: nat, q: nat)
    requires g > 0 && Digits(r) < Digits(g) && Xor(d, r) == Clmul(q, g)
    ensures r == Remainder(d, g)
  {
    var q' := RemainderDivides(d, g);
    var r' := Remainder(d, g);
    hide Xor, Clmul, Remainder, Digits;
    ClmulLinear(q, q', g);
    XorExchange(d, r, d, r');
    XorSelf(d);
    XorZero(Xor(r, r'));
    assert Xor(r, r') == Clmul(Xor(q, q'), g);
    XorShort(r, r', Digits(g) - 1);
    if Xor(q, q') > 0 {
      ClmulDigits(Xor(q, q'), g);
      DigitsPositive(Xor(q, q'));
    } else {
      ClmulOfZero(g);
      XorAssoc(r, r', r');
      XorSelf(r');
      XorZero(r);
      XorZero(r');
    }
  }

  lemma ClmulOfZero(g: nat)
    ensures Clmul(0, g) == 0
  {}

  lemma DigitsPositive(d: nat)
    requires d > 0
    ensures Digits(d) > 0
  {}

  lemma {:induction false} XorShort(a: nat, b: nat, k: nat)
    requires Digits(a) <= k && Digits(b) <= k
    ensures Digits(Xor(a, b)) <= k
    decreases k
  {
    XorStep(a, b);
    if k > 0 { XorShort(a / 2, b / 2, k - 1); }
  }

  /** Disjoint bits: or, exclusive or and sum coincide, and both parts can be
      read back. */
  lemma {:induction false} OrIsXor(high: nat, low: nat, k: nat)
    requires low < Pow2(k)
    ensures Or(high * Pow2(k), low) == Xor(high * Pow2(k), low) == high * Pow2(k) + low
    decreases k
  {
    if k == 0 {
      OrZero(high);
      XorZero(high);
    } else {
      var h := high * Pow2(k - 1);
      assert high * Pow2(k) == 2 * h;
      OrIsXor(high, low / 2, k - 1);
      XorStep(2 * h, low);
    }
  }

  lemma {:induction false} OrZero(a: nat)
    ensures Or(a, 0) == a
  {
    if a > 0 { OrZero(a / 2); }
  }

  // ----- the program -----

  const G15: nat := 0x537
  const G18: nat := 0x1F25
  const G15_MASK: nat := 0x5412

  lemma GeneratorLengths()
    ensures Digits(G15) == 11 && Digits(G18) == 13
  {}

  /** getBCHDigit terminates for every pattern. */
  method GetBCHDigit(data: nat) returns (digit: nat)
    ensures digit == Digits(data)
  {
    digit := 0;
    var rest := data;
    while rest != 0
      invariant digit + Digits(rest) == Digits(data)
    {
      digit := digit + 1;
      rest := rest / 2;
    }
  }

  /** The elimination loop shared by the two encoders. */
  method Eliminate(start: nat, g: nat) returns (d: nat)
    requires g > 0
    ensures d == Remainder(start, g) && Digits(d) < Digits(g)
  {
    hide Xor, Digits;
    d := start;
    while true
      invariant Remainder(d, g) == Remainder(start, g)
      decreases Digits(d)
    {
      var a := GetBCHDigit(d);
      var b := GetBCHDigit(g);
      if a < b { break; }
      EliminationShrinks(d, g);
      d := Xor(d, g * Pow2(a - b));
    }
  }

  /** The unmasked word: payload above, check bits below. */
  ghost function Word(payload: nat, checkBits: nat, g: nat): nat
    requires g > 0
  {
    var shifted := payload * Pow2(checkBits);
    shifted + Remainder(shifted, g)
  }

  /** The payload sits above the check bits and the word is a multiple of g. */
  lemma WordIsCodeword(payload: nat, checkBits: nat, g: nat)
    requires g > 0 && Digits(g) == checkBits + 1
    ensures exists q :: Word(payload, checkBits, g) == Clmul(q, g)
    ensures Word(payload, checkBits, g) / Pow2(checkBits) == payload
  {
    hide Xor, Clmul, Digits, Remainder, Pow2;
    var shifted := payload * Pow2(checkBits);
    var q := RemainderDivides(shifted, g);
    var r := Remainder(shifted, g);
    DigitsBound(r, checkBits);
    OrIsXor(payload, r, checkBits);
    QuotientOfSum(payload, r, Pow2(checkBits));
  }

  /** Words are closed under exclusive or, because the remainder is unique. */
  lemma WordsAreLinear(a: nat, b: nat, checkBits: nat, g: nat)
    requires g > 0 && Digits(g) == checkBits + 1
    ensures Word(Xor(a, b), checkBits, g) == Xor(Word(a, checkBits, g), Word(b, checkBits, g))
  {
    hide Xor, Clmul, Digits, Remainder, Pow2;
    var m := Pow2(checkBits);
    var ra, rb := Remainder(a * m, g), Remainder(b * m, g);
    var qa := RemainderDivides(a * m, g);
    var qb := RemainderDivides(b * m, g);
    DigitsBound(ra, checkBits);
    DigitsBound(rb, checkBits);
    OrIsXor(a, ra, checkBits);
    OrIsXor(b, rb, checkBits);
    XorExchange(a * m, ra, b * m, rb);
    XorShift(a, b, checkBits);
    XorShort(ra, rb, checkBits);
    DigitsBound(Xor(ra, rb), checkBits);
    OrIsXor(Xor(a, b), Xor(ra, rb), checkBits);
    ClmulLinear(qa, qb, g);
    RemainderUnique(Xor(a, b) * m, g, Xor(ra, rb), Xor(qa, qb));
  }

  lemma {:induction false} XorShift(a: nat, b: nat, k: nat)
    ensures Xor(a * Pow2(k), b * Pow2(k)) == Xor(a, b) * Pow2(k)
  {
    if k > 0 {
      XorShift(a, b, k - 1);
      XorDouble(a * Pow2(k - 1), b * Pow2(k - 1));
      DoubleProducts(a, b, Xor(a, b), Pow2(k - 1));
    }
  }

  lemma DoubleProducts(a: nat, b: nat, c: nat, m: nat)
    ensures a * (2 * m) == 2 * (a * m) && b * (2 * m) == 2 * (b * m) && c * (2 * m) == 2 * (c * m)
  {}

  /** getBCHTypeInfo, on every 32-bit argument; the shift drops all but the low
      22 bits of it. */
  method GetBCHTypeInfo(data: int) returns (bits: nat)
    ensures bits == Xor(Word(data % 0x40_0000, 10, G15), G15_MASK)
  {
    hide Xor, Clmul, Digits, Remainder;
    GeneratorLengths();
    var shifted := data * 0x400 % 0x1_0000_0000;
    assert shifted == data % 0x40_0000 * 0x400;
    assert Pow2(10) == 0x400;
    hide Pow2;
    var d := Eliminate(shifted, G15);
    DigitsBound(d, 10);
    OrIsXor(data % 0x40_0000, d, 10);
    bits := Xor(Or(shifted, d), G15_MASK);
  }

  /** getBCHTypeNumber, on every 32-bit argument. */
  method GetBCHTypeNumber(data: int) returns (bits: nat)
    ensures bits == Word(data % 0x10_0000, 12, G18)
  {
    hide Xor, Clmul, Digits, Remainder;
    GeneratorLengths();
    var shifted := data * 0x1000 % 0x1_0000_0000;
    assert shifted == data % 0x10_0000 * 0x1000;
    assert Pow2(12) == 0x1000;
    hide Pow2;
    var d := Eliminate(shifted, G18);
    DigitsBound(d, 12);
    OrIsXor(data % 0x10_0000, d, 12);
    bits := Or(shifted, d);
  }

  /** The format word of a 5-bit payload has 15 bits and gives the payload back. */
  lemma FormatReadBack(data: nat)
    requires data < 32
    ensures var bits := Xor(Word(data, 10, G15), G15_MASK);
            bits < Pow2(15) && Xor(bits, G15_MASK) / Pow2(10) == data
  {
    hide Xor, Clmul, Digits, Remainder, Pow2;
    GeneratorLengths();
    WordIsCodeword(data, 10, G15);
    var w := Word(data, 10, G15);
    XorAssoc(w, G15_MASK, G15_MASK);
    XorSelf(G15_MASK);
    XorZero(w);
    PowersUsed();
    DigitsBound(w, 15);
    DigitsBound(G15_MASK, 15);
    XorShort(w, G15_MASK, 15);
    DigitsBound(Xor(w, G15_MASK), 15);
  }

  lemma PowersUsed()
    ensures Pow2(10) == 0x400 && Pow2(12) == 0x1000 && Pow2(15) == 0x8000 && Pow2(18) == 0x4_0000
  {
    assert Pow2(5) == 32 && Pow2(10) == 0x400 && Pow2(12) == 0x1000 && Pow2(15) == 0x8000;
  }
}
