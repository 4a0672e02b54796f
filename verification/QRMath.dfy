/** Arithmetic in GF(2^8), the field behind the check bytes of a QR symbol.
    A byte is a polynomial over GF(2) of degree below 8, reduced modulo
    x^8 + x^4 + x^3 + x^2 + 1.  The reference definition of multiplication is
    shift-and-xor; the program multiplies through log and exp tables. */
module QRMath {
  import opened Wrappers

  // ----- reference definition: shift and xor -----

  /** Addition of polynomials over GF(2) is exclusive or. */
  function Add(a: bv8, b: bv8): bv8 {
    a ^ b
  }

  /** Multiplication by x. */
  function Double(a: bv8): bv8 {
    if a & 0x80 != 0 then (a << 1) ^ 0x1D else a << 1
  }

  /** The sum of Double^k(a) over the set bits k among the low `bits` bits of b. */
  function MulBits(a: bv8, b: bv8, bits: nat): bv8
    decreases bits
  {
    if bits == 0 then 0
    else Add(if b & 1 != 0 then a else 0, MulBits(Double(a), b >> 1, bits - 1))
  }

  function Mul(a: bv8, b: bv8): bv8 {
    MulBits(a, b, 8)
  }

  /** The n-th power of x. */
  function Pow(n: nat): bv8 {
    if n == 0 then 1 else Double(Pow(n - 1))
  }

  // ----- the additive group -----

  lemma AddZero(a: bv8)
    ensures Add(a, 0) == a && Add(0, a) == a
  {}

  lemma AddSelf(a: bv8)
    ensures Add(a, a) == 0
  {}

  lemma AddComm(a: bv8, b: bv8)
    ensures Add(a, b) == Add(b, a)
  {}

  lemma AddAssoc(a: bv8, b: bv8, c: bv8)
    ensures Add(Add(a, b), c) == Add(a, Add(b, c))
  {}

  /** Exchange of the two middle terms of a sum of four. */
  lemma AddExchange(a: bv8, b: bv8, c: bv8, d: bv8)
    ensures Add(Add(a, b), Add(c, d)) == Add(Add(a, c), Add(b, d))
  {
    hide Add;
    AddAssoc(a, b, Add(c, d));
    AddAssoc(b, c, d);
    AddComm(b, c);
    AddAssoc(c, b, d);
    AddAssoc(a, c, Add(b, d));
  }

  lemma AddCancel(a: bv8, b: bv8)
    ensures Add(a, b) == 0 <==> a == b
  {}

  // ----- bit facts -----

  /** Double without its case distinction: the overflowing bit is folded back. */
  lemma DoubleFolded(a: bv8)
    ensures Double(a) == (a << 1) ^ ((a & 0x80) >> 7) ^ ((a & 0x80) >> 5) ^ ((a & 0x80) >> 4) ^ ((a & 0x80) >> 3)
  {}

  lemma FoldedLinear(a: bv8, b: bv8)
    ensures ((a ^ b) << 1) ^ (((a ^ b) & 0x80) >> 7) ^ (((a ^ b) & 0x80) >> 5) ^ (((a ^ b) & 0x80) >> 4) ^ (((a ^ b) & 0x80) >> 3)
         == ((a << 1) ^ ((a & 0x80) >> 7) ^ ((a & 0x80) >> 5) ^ ((a & 0x80) >> 4) ^ ((a & 0x80) >> 3))
            ^ ((b << 1) ^ ((b & 0x80) >> 7) ^ ((b & 0x80) >> 5) ^ ((b & 0x80) >> 4) ^ ((b & 0x80) >> 3))
  {}

  lemma DoubleLinear(a: bv8, b: bv8)
    ensures Double(Add(a, b)) == Add(Double(a), Double(b))
  {
    hide Double;
    DoubleFolded(a);
    DoubleFolded(b);
    DoubleFolded(a ^ b);
    FoldedLinear(a, b);
  }

  lemma LowBitXor(b: bv8, c: bv8)
    ensures (Add(b, c) & 1 != 0) == ((b & 1 != 0) != (c & 1 != 0))
    ensures Add(b, c) >> 1 == Add(b >> 1, c >> 1)
  {}

  // ----- linearity of the product -----

  lemma {:induction false} MulBitsLinearLeft(a: bv8, c: bv8, b: bv8, bits: nat)
    ensures MulBits(Add(a, c), b, bits) == Add(MulBits(a, b, bits), MulBits(c, b, bits))
    decreases bits
  {
    AddZero(0);
    hide Double, Add;
    if bits > 0 {
      DoubleLinear(a, c);
      MulBitsLinearLeft(Double(a), Double(c), b >> 1, bits - 1);
      AddExchange(if b & 1 != 0 then a else 0, if b & 1 != 0 then c else 0,
                  MulBits(Double(a), b >> 1, bits - 1), MulBits(Double(c), b >> 1, bits - 1));
    }
  }

  lemma {:induction false} MulBitsLinearRight(a: bv8, b: bv8, c: bv8, bits: nat)
    ensures MulBits(a, Add(b, c), bits) == Add(MulBits(a, b, bits), MulBits(a, c, bits))
    decreases bits
  {
    hide Double, Add;
    AddZero(0);
    if bits > 0 {
      LowBitXor(b, c);
      MulBitsLinearRight(Double(a), b >> 1, c >> 1, bits - 1);
      var x := if b & 1 != 0 then a else 0;
      var y := if c & 1 != 0 then a else 0;
      assert Add(x, y) == (if Add(b, c) & 1 != 0 then a else 0) by {
        AddZero(a);
        AddSelf(a);
      }
      AddExchange(x, y, MulBits(Double(a), b >> 1, bits - 1), MulBits(Double(a), c >> 1, bits - 1));
    }
  }

  lemma {:induction false} MulBitsDouble(a: bv8, b: bv8, bits: nat)
    ensures MulBits(Double(a), b, bits) == Double(MulBits(a, b, bits))
    decreases bits
  {
    assert Double(0) == 0;
    hide Double, Add;
    if bits > 0 {
      MulBitsDouble(Double(a), b >> 1, bits - 1);
      DoubleLinear(if b & 1 != 0 then a else 0, MulBits(Double(a), b >> 1, bits - 1));
    }
  }

  lemma {:induction false} MulBitsZero(a: bv8, bits: nat)
    ensures MulBits(a, 0, bits) == 0
    decreases bits
  {
    if bits > 0 {
      MulBitsZero(Double(a), bits - 1);
    }
  }

  lemma {:induction false} MulBitsZeroLeft(b: bv8, bits: nat)
    ensures MulBits(0, b, bits) == 0
    decreases bits
  {
    if bits > 0 {
      MulBitsZeroLeft(b >> 1, bits - 1);
    }
  }

  lemma ShiftAgain(b: bv8, bits: nat)
    requires 0 < bits < 8
    ensures (b >> 1) >> (bits - 1) == b >> bits
  {
    if bits == 1 {} else if bits == 2 {} else if bits == 3 {} else if bits == 4 {}
    else if bits == 5 {} else if bits == 6 {} else {}
  }

  /** Leading zero bits of b contribute nothing. */
  lemma {:induction false} MulBitsShort(a: bv8, b: bv8, bits: nat)
    requires bits < 8 && b >> bits == 0
    ensures MulBits(a, b, bits) == MulBits(a, b, bits + 1)
    decreases bits
  {
    AddZero(0);
    hide Double, Add;
    if bits > 0 {
      ShiftAgain(b, bits);
      MulBitsShort(Double(a), b >> 1, bits - 1);
    }
  }

  lemma MulBitsStep(a: bv8, b: bv8, rest: bv8, odd: bool, bits: nat)
    requires bits > 0 && b >> 1 == rest && (b & 1 != 0) == odd
    ensures MulBits(a, b, bits) == if odd then Add(a, MulBits(Double(a), rest, bits - 1))
                                   else MulBits(Double(a), rest, bits - 1)
  {
    AddZero(MulBits(Double(a), rest, bits - 1));
    hide Double, Add;
  }

  lemma EighthDouble(a: bv8)
    ensures var d2 := Double(Double(a));
            var d4 := Double(Double(d2));
            Double(Double(Double(Double(d4)))) == Add(a, Add(d2, Add(Double(d2), d4)))
  {
  }

  /** Reduction at work: x^8 + x^4 + x^3 + x^2 + 1 annihilates every byte. */
  lemma ReductionPolynomial(a: bv8)
    ensures Mul(a, 0x1D) == Double(Mul(a, 0x80))
  {
    EighthDouble(a);
    hide Double, Add, MulBits;
    var d1 := Double(a);
    var d2 := Double(d1);
    var d3 := Double(d2);
    var d4 := Double(d3);
    var d5 := Double(d4);
    var d6 := Double(d5);
    var d7 := Double(d6);
    assert MulBits(a, 0x80, 8) == d7 by {
      MulBitsStep(a, 0x80, 0x40, false, 8);
      MulBitsStep(d1, 0x40, 0x20, false, 7);
      MulBitsStep(d2, 0x20, 0x10, false, 6);
      MulBitsStep(d3, 0x10, 0x08, false, 5);
      MulBitsStep(d4, 0x08, 0x04, false, 4);
      MulBitsStep(d5, 0x04, 0x02, false, 3);
      MulBitsStep(d6, 0x02, 0x01, false, 2);
      MulBitsStep(d7, 0x01, 0, true, 1);
      MulBitsZero(Double(d7), 0);
      AddZero(d7);
    }
    assert MulBits(a, 0x1D, 8) == Add(a, Add(d2, Add(d3, d4))) by {
      MulBitsStep(a, 0x1D, 0x0E, true, 8);
      MulBitsStep(d1, 0x0E, 0x07, false, 7);
      MulBitsStep(d2, 0x07, 0x03, true, 6);
      MulBitsStep(d3, 0x03, 0x01, true, 5);
      MulBitsStep(d4, 0x01, 0, true, 4);
      MulBitsZero(d5, 3);
      AddZero(d4);
    }
  }

  lemma SplitTop(b: bv8)
    ensures var low := b & 0x7F;
            && (low << 1) >> 1 == low && (low << 1) & 1 == 0 && low >> 7 == 0
            && b == Add(low, b & 0x80)
  {}

  lemma DoubleSplit(b: bv8)
    ensures var shifted := (b & 0x7F) << 1;
            if b & 0x80 != 0 then b & 0x80 == 0x80 && Double(b) == Add(shifted, 0x1D)
            else Double(b) == Add(shifted, 0)
  {}

  lemma MulDoubleRight(a: bv8, b: bv8)
    ensures Mul(a, Double(b)) == Double(Mul(a, b))
  {
    SplitTop(b);
    DoubleSplit(b);
    assert Double(0) == 0;
    hide Double, Add, MulBits;
    var low := b & 0x7F;
    assert Mul(a, low << 1) == Double(Mul(a, low)) by {
      MulBitsStep(a, low << 1, low, false, 8);
      MulBitsShort(Double(a), low, 7);
      MulBitsDouble(a, low, 8);
    }
    if b & 0x80 != 0 {
      ReductionPolynomial(a);
      MulSplit(a, low, 0x80, low << 1, 0x1D);
    } else {
      MulBitsZero(a, 8);
      MulSplit(a, low, 0, low << 1, 0);
    }
  }

  lemma MulSplit(a: bv8, low: bv8, top: bv8, shifted: bv8, carry: bv8)
    requires Mul(a, shifted) == Double(Mul(a, low)) && Mul(a, carry) == Double(Mul(a, top))
    ensures Mul(a, Add(shifted, carry)) == Double(Mul(a, Add(low, top)))
  {
    hide Double, Add, MulBits;
    MulBitsLinearRight(a, low, top, 8);
    MulBitsLinearRight(a, shifted, carry, 8);
    DoubleLinear(Mul(a, low), Mul(a, top));
  }

  lemma MulOne(a: bv8)
    ensures Mul(a, 1) == a
  {
    hide Double, Add;
    MulBitsStep(a, 1, 0, true, 8);
    MulBitsZero(Double(a), 7);
    AddZero(a);
  }

  lemma MulZero(a: bv8)
    ensures Mul(a, 0) == 0 && Mul(0, a) == 0
  {
    MulBitsZero(a, 8);
    MulBitsZeroLeft(a, 8);
  }

  // ----- powers of x -----

  /** Exponents add under the product. */
  lemma {:induction false} PowSum(i: nat, j: nat)
    ensures Mul(Pow(i), Pow(j)) == Pow(i + j)
  {
    hide Double, Mul;
    if j == 0 {
      MulOne(Pow(i));
    } else {
      PowSum(i, j - 1);
      MulDoubleRight(Pow(i), Pow(j - 1));
    }
  }

  lemma PowTwice(n: nat, v: bv8, square: bv8)
    requires Pow(n) == v && Mul(v, v) == square
    ensures Pow(2 * n) == square
  {
    PowSum(n, n);
  }

  /** The powers that decide the order of x: 255 = 3 * 5 * 17. */
  lemma PowValues()
    ensures Pow(15) != 1 && Pow(51) != 1 && Pow(85) != 1 && Pow(255) == 1
  {
    assert Pow(4) == 0x10 && Pow(8) == 0x1D;
    assert Pow(12) == 0xCD && Pow(15) == 0x26;
    assert Pow(17) == 0x98;
    PowTwice(17, 0x98, 0x4E);
    PowSum(34, 17);
    PowSum(34, 51);
    PowTwice(85, 0xD6, 0xD7);
    PowSum(170, 85);
  }

  lemma {:induction false} PowCycles(d: nat, q: nat, r: nat)
    requires Pow(d) == 1
    ensures Pow(d * q + r) == Pow(r)
    decreases q
  {
    hide Pow, Mul;
    if q > 0 {
      PowCycles(d, q - 1, r);
      PowSum(d * (q - 1) + r, d);
      MulOne(Pow(d * (q - 1) + r));
      assert d * (q - 1) + r + d == d * q + r;
    }
  }

  lemma PowMod(n: nat)
    ensures Pow(n) == Pow(n % 255)
  {
    PowValues();
    PowCycles(255, n / 255, n % 255);
  }

  lemma SmallDivisors(d: nat)
    requires 0 < d < 16 && 255 % d == 0
    ensures d in {1, 3, 5, 15}
  {}

  lemma DivisorsOf255(d: nat)
    requires 0 < d < 255 && 255 % d == 0
    ensures d in {1, 3, 5, 15, 17, 51, 85}
  {
    var e := 255 / d;
    assert d * e == 255;
    if d < 16 {
      SmallDivisors(d);
    } else {
      assert e < 16;
      assert 255 % e == 0 by { assert 255 == e * d + 0; }
      SmallDivisors(e);
    }
  }

  /** No exponent strictly between 0 and 255 returns to 1. */
  lemma NoShorterPeriod(d: nat)
    requires 0 < d < 255
    ensures Pow(d) != 1
    decreases d
  {
    hide Pow, Mul;
    PowValues();
    PowIsOneAtZero();
    if 255 % d > 0 {
      NoShorterPeriod(255 % d);
      if Pow(d) == 1 { PowCycles(d, 255 / d, 255 % d); }
    } else {
      DivisorsOf255(d);
      var multiple := if d in {3, 51} then 51 else if d == 15 then 15 else 85;
      if Pow(d) == 1 { PowCycles(d, multiple / d, 0); }
    }
  }

  lemma PowIsOneAtZero()
    ensures Pow(0) == 1
  {}

  lemma PowNonZero(n: nat)
    ensures Pow(n) != 0
  {
    hide Pow, Mul;
    PowMod(n);
    PowSum(n % 255, 255 - n % 255);
    PowValues();
    MulZero(Pow(255 - n % 255));
  }

  lemma PowIncreasing(i: nat, j: nat)
    requires i < j < 255
    ensures Pow(i) != Pow(j)
  {
    hide Pow, Mul;
    PowSum(i, 255 - i);
    PowSum(j, 255 - i);
    PowMod(255 + j - i);
    PowValues();
    assert (255 + j - i) % 255 == j - i;
    NoShorterPeriod(j - i);
  }

  /** The first 255 powers are pairwise distinct. */
  lemma PowInjective(i: nat, j: nat)
    requires i < 255 && j < 255 && Pow(i) == Pow(j)
    ensures i == j
  {
    if i < j {
      PowIncreasing(i, j);
    } else if j < i {
      PowIncreasing(j, i);
    }
  }

  // ----- discrete logarithm -----

  /** A byte as the JavaScript number it is. */
  function Num(b: bv8): (n: int)
    ensures 0 <= n < 256
  {
    b as int
  }

  lemma NumInjective(a: bv8, b: bv8)
    requires Num(a) == Num(b)
    ensures a == b
  {}

  lemma NumZero(a: bv8)
    ensures Num(a) == 0 <==> a == 0
  {
    if Num(a) == 0 { NumInjective(a, 0); }
  }

  ghost function PowersBelow(n: nat): set<int> {
    set i | 0 <= i < n :: Num(Pow(i))
  }

  lemma {:induction false} PowersCount(n: nat)
    requires n <= 255
    ensures |PowersBelow(n)| == n
  {
    hide Pow, Num;
    if n == 0 {
      assert PowersBelow(0) == {};
    } else {
      PowersCount(n - 1);
      var last := Num(Pow(n - 1));
      if last in PowersBelow(n - 1) {
        var i :| 0 <= i < n - 1 && Num(Pow(i)) == last;
        NumInjective(Pow(i), Pow(n - 1));
        PowInjective(i, n - 1);
        assert false;
      }
      assert PowersBelow(n) == PowersBelow(n - 1) + {last};
    }
  }

  ghost function Range(n: nat): set<int> {
    if n == 0 then {} else Range(n - 1) + {n as int}
  }

  lemma {:induction false} RangeCount(n: nat)
    ensures |Range(n)| == n
    ensures forall i: int :: i in Range(n) <==> 1 <= i <= n
  {
    if n > 0 {
      RangeCount(n - 1);
    }
  }

  lemma SubsetOfEqualSize<T>(a: set<T>, b: set<T>)
    requires a <= b && |a| == |b|
    ensures a == b
  {
    assert b == a + (b - a);
    assert |b - a| == 0;
  }

  /** Every nonzero byte is a power of x: x generates the multiplicative group. */
  lemma LogExists(a: bv8)
    requires a != 0
    ensures exists i: nat :: i < 255 && Pow(i) == a
  {
    hide Pow, Num;
    PowersCount(255);
    RangeCount(255);
    forall i: nat | i < 255 ensures 1 <= Num(Pow(i)) <= 255 {
      PowNonZero(i);
      NumZero(Pow(i));
    }
    SubsetOfEqualSize(PowersBelow(255), Range(255));
    NumZero(a);
    assert Num(a) in Range(255);
    var i :| 0 <= i < 255 && Num(Pow(i)) == Num(a);
    NumInjective(Pow(i), a);
  }

  ghost function Log(a: bv8): (i: nat)
    requires a != 0
    ensures i < 255 && Pow(i) == a
  {
    LogExists(a);
    var i: nat :| i < 255 && Pow(i) == a;
    i
  }

  // ----- the field -----

  /** For nonzero bytes the exponent form is the shift-and-xor product. */
  lemma MulByLogs(a: bv8, b: bv8)
    requires a != 0 && b != 0
    ensures Mul(a, b) == Pow(Log(a) + Log(b)) && Mul(a, b) != 0
  {
    hide Pow, Mul;
    PowSum(Log(a), Log(b));
    PowNonZero(Log(a) + Log(b));
  }

  lemma MulComm(a: bv8, b: bv8)
    ensures Mul(a, b) == Mul(b, a)
  {
    hide Pow, Mul;
    if a == 0 || b == 0 {
      MulZero(a);
      MulZero(b);
    } else {
      MulByLogs(a, b);
      MulByLogs(b, a);
    }
  }

  lemma MulAssoc(a: bv8, b: bv8, c: bv8)
    ensures Mul(Mul(a, b), c) == Mul(a, Mul(b, c))
  {
    hide Pow, Mul;
    if a == 0 || b == 0 || c == 0 {
      MulZero(a);
      MulZero(b);
      MulZero(c);
      MulZero(Mul(a, b));
      MulZero(Mul(b, c));
    } else {
      PowSum(Log(a), Log(b));
      PowSum(Log(b), Log(c));
      PowSum(Log(a) + Log(b), Log(c));
      PowSum(Log(a), Log(b) + Log(c));
    }
  }

  lemma MulDistributes(a: bv8, b: bv8, c: bv8)
    ensures Mul(a, Add(b, c)) == Add(Mul(a, b), Mul(a, c))
    ensures Mul(Add(a, b), c) == Add(Mul(a, c), Mul(b, c))
  {
    MulBitsLinearRight(a, b, c, 8);
    MulBitsLinearLeft(a, b, c, 8);
  }

  lemma NoZeroDivisors(a: bv8, b: bv8)
    ensures Mul(a, b) == 0 <==> a == 0 || b == 0
  {
    hide Pow, Mul;
    MulZero(a);
    MulZero(b);
    if a != 0 && b != 0 { MulByLogs(a, b); }
  }

  // ----- the tables -----

  /** The exponent n reduced to the cycle of 255 powers, negative n included. */
  function PowZ(n: int): bv8 {
    Pow(n % 255)
  }

  /** The recurrence that fills the exponent table. */
  lemma TableRecurrence(i: nat)
    requires i >= 8
    ensures Pow(i) == Pow(i - 4) ^ Pow(i - 5) ^ Pow(i - 6) ^ Pow(i - 8)
  {
    var a := Pow(i - 8);
    EighthDouble(a);
    PowSteps(i - 8);
    PowSteps(i - 4);
    hide Pow, Double;
    XorOrder(a, Pow(i - 6), Pow(i - 5), Pow(i - 4));
  }

  lemma PowSteps(i: nat)
    ensures Pow(i + 1) == Double(Pow(i))
    ensures Pow(i + 2) == Double(Double(Pow(i)))
    ensures Pow(i + 3) == Double(Double(Double(Pow(i))))
    ensures Pow(i + 4) == Double(Double(Double(Double(Pow(i)))))
  {
    hide Double;
    assert Pow(i + 1) == Double(Pow(i));
    assert Pow(i + 2) == Double(Pow(i + 1));
    assert Pow(i + 3) == Double(Pow(i + 2));
    assert Pow(i + 4) == Double(Pow(i + 3));
  }

  lemma XorOrder(a: bv8, b: bv8, c: bv8, d: bv8)
    ensures Add(a, Add(b, Add(c, d))) == d ^ c ^ b ^ a
  {}

  /** EXP_TABLE and LOG_TABLE.  Slot 0 of LOG_TABLE is never assigned, so it
      holds JavaScript's undefined, modelled as None; so is a number that has
      become NaN and a table entry looked up under it. */
  class Tables {
    const expTable: array<bv8>
    const logTable: array<Option<int>>

    ghost predicate Valid()
      reads expTable, logTable
    {
      && expTable.Length == 256
      && logTable.Length == 256
      && (forall i | 0 <= i < 256 :: expTable[i] == Pow(i))
      && (forall i | 0 <= i < 255 :: logTable[Num(Pow(i))] == Some(i))
      && logTable[0] == None
    }

    constructor ()
      ensures Valid() && fresh(expTable) && fresh(logTable)
    {
      expTable := new bv8[256](_ => 0);
      logTable := new Option<int>[256](_ => None);
      new;
      FillExp();
      FillLog();
    }

    method FillExp()
      requires expTable.Length == 256
      modifies expTable
      ensures forall i | 0 <= i < 256 :: expTable[i] == Pow(i)
    {
      expTable[0] := 1;
      for i := 1 to 8
        invariant forall j | 0 <= j < i :: expTable[j] == Pow(j)
      {
        FirstPowers(i);
        expTable[i] := 1 << i;
      }
      for i := 8 to 256
        invariant forall j | 0 <= j < i :: expTable[j] == Pow(j)
      {
        TableRecurrence(i);
        expTable[i] := expTable[i - 4] ^ expTable[i - 5] ^ expTable[i - 6] ^ expTable[i - 8];
      }
    }

    method FillLog()
      requires expTable.Length == 256 && logTable.Length == 256
      requires forall i | 0 <= i < 256 :: expTable[i] == Pow(i)
      requires forall i | 0 <= i < 256 :: logTable[i] == None
      requires expTable as object != logTable
      modifies logTable
      ensures forall i | 0 <= i < 255 :: logTable[Num(Pow(i))] == Some(i)
      ensures logTable[0] == None
    {
      hide Pow, Num;
      for i := 0 to 255
        invariant forall j | 0 <= j < i :: logTable[Num(Pow(j))] == Some(j)
        invariant logTable[0] == None
      {
        PowNonZero(i);
        NumZero(Pow(i));
        forall j | 0 <= j < i ensures Num(Pow(j)) != Num(Pow(i)) {
          PowIncreasing(j, i);
          if Num(Pow(j)) == Num(Pow(i)) { NumInjective(Pow(j), Pow(i)); }
        }
        logTable[Num(expTable[i])] := Some(i);
      }
    }

    /** glog throws on 0, answers undefined on undefined, and otherwise gives
        the discrete logarithm. */
    method Glog(n: Option<bv8>) returns (r: Result<Option<int>>)
      requires Valid()
      ensures n == None ==> r == Ok(None)
      ensures n.Some? && n.value == 0 ==> r == Thrown
      ensures n.Some? && n.value != 0 ==> r == Ok(Some(Log(n.value)))
    {
      match n {
        case None => r := Ok(None);
        case Some(v) =>
          if v < 1 {
            r := Thrown;
          } else {
            hide Pow, Num;
            r := Ok(logTable[Num(v)]);
            assert logTable[Num(Pow(Log(v)))] == Some(Log(v));
          }
      }
    }

    /** gexp ends on every integer and has period 255. */
    method Gexp(n: Option<int>) returns (r: Option<bv8>)
      requires Valid()
      ensures r == if n.Some? then Some(PowZ(n.value)) else None
    {
      if n.None? { return None; }
      hide Pow;
      var m := n.value;
      while m < 0
        invariant m % 255 == n.value % 255
        decreases -m
      {
        m := m + 255;
      }
      while m >= 256
        invariant 0 <= m && m % 255 == n.value % 255
        decreases m
      {
        m := m - 255;
      }
      PowMod(m);
      r := Some(expTable[m]);
    }
  }

  lemma FirstPowers(i: nat)
    requires 1 <= i < 8
    ensures Pow(i) == 1 << i
  {
    assert Pow(1) == 2 && Pow(2) == 4 && Pow(3) == 8 && Pow(4) == 16;
    assert Pow(5) == 32 && Pow(6) == 64 && Pow(7) == 128;
    if i == 1 {} else if i == 2 {} else if i == 3 {} else if i == 4 {}
    else if i == 5 {} else if i == 6 {} else {}
  }

  /** Multiplication through the tables is the shift-and-xor product. */
  lemma TableProduct(a: bv8, b: bv8)
    requires a != 0 && b != 0
    ensures PowZ(Log(a) + Log(b)) == Mul(a, b)
  {
    hide Pow, Mul;
    MulByLogs(a, b);
    PowMod(Log(a) + Log(b));
  }

  /** gexp and glog undo each other. */
  lemma LogOfPow(n: int)
    ensures PowZ(n) != 0 && Log(PowZ(n)) == n % 255
  {
    hide Pow;
    PowNonZero(n % 255);
    PowInjective(Log(PowZ(n)), n % 255);
  }
}
