/** The Reed-Solomon code of the QR symbol: what the generator polynomial and
    the long division of the encoder are for. */
module ReedSolomon {
  import opened QRMath
  import opened Polynomials

  // ----- long division -----

  /** The byte c with Mul(b, c) == a. */
  ghost function Ratio(a: bv8, b: bv8): (c: bv8)
    requires b != 0
  {
    if a == 0 then 0 else PowZ(Log(a) - Log(b))
  }

  lemma RatioIsQuotient(a: bv8, b: bv8)
    requires b != 0
    ensures Mul(Ratio(a, b), b) == a
  {
    hide Pow, Mul;
    if a == 0 {
      MulZero(b);
    } else {
      var n := Log(a) - Log(b);
      PowSum(n % 255, Log(b));
      PowMod(n % 255 + Log(b));
      assert (n % 255 + Log(b)) % 255 == Log(a);
    }
  }

  /** One step of long division: clear the leading coefficient and drop it. */
  ghost function Reduce(p: Poly, e: Poly): (r: Poly)
    requires |p| >= |e| >= 1 && e[0] != 0
    ensures |r| == |p| - 1
  {
    Sum(p, Scale(Ratio(p[0], e[0]), e) + Zeros(|p| - |e|))[1..]
  }

  /** The remainder, padded to the |e| - 1 coefficients below the divisor. */
  ghost function Remainder(p: Poly, e: Poly): (r: Poly)
    requires |e| >= 1 && e[0] != 0
    ensures |r| == |e| - 1
    decreases |p|
  {
    if |p| < |e| then Zeros(|e| - 1 - |p|) + p
    else Remainder(Reduce(p, e), e)
  }

  ghost function Quotient(p: Poly, e: Poly): (q: Poly)
    requires |e| >= 1 && e[0] != 0
    ensures |q| == if |p| < |e| then 0 else |p| - |e| + 1
    decreases |p|
  {
    if |p| < |e| then []
    else [Ratio(p[0], e[0])] + Quotient(Reduce(p, e), e)
  }

  /** Division with remainder: p = q * e + r with r shorter than e. */
  lemma {:induction false} DivisionIdentity(p: Poly, e: Poly)
    requires |p| >= |e| - 1 && |e| >= 1 && e[0] != 0
    ensures p == Sum(Product(Quotient(p, e), e), Zeros(|p| - |e| + 1) + Remainder(p, e))
    decreases |p|
  {
    hide Add, Mul, Ratio;
    if |p| < |e| {
      var right := Sum(Zeros(|e| - 1), Zeros(0) + Remainder(p, e));
      forall i | 0 <= i < |p| ensures p[i] == right[i] { AddZero(p[i]); }
      assert p == right;
    } else {
      var c := Ratio(p[0], e[0]);
      var r := Reduce(p, e);
      var q := Quotient(r, e);
      DivisionIdentity(r, e);
      assert ([c] + q)[1..] == q;
      var right := Sum(Product([c] + q, e), Zeros(|p| - |e| + 1) + Remainder(p, e));
      forall i | 0 <= i < |p| ensures p[i] == right[i] {
        DivisionStepAt(p, e, i);
      }
      assert p == right;
    }
  }

  lemma ProductConsAt(c: bv8, q: Poly, e: Poly, i: nat)
    requires |e| >= 1 && i < |q| + |e|
    ensures Product([c] + q, e)[i]
         == Add((Scale(c, e) + Zeros(|q|))[i], ([0] + Product(q, e))[i])
  {
    hide Add, Mul;
    assert ([c] + q)[1..] == q;
  }

  lemma DivisionUnfold(p: Poly, e: Poly)
    requires |p| >= |e| >= 1 && e[0] != 0
    ensures Quotient(p, e) == [Ratio(p[0], e[0])] + Quotient(Reduce(p, e), e)
    ensures Remainder(p, e) == Remainder(Reduce(p, e), e)
    ensures Reduce(p, e) == Sum(p, Scale(Ratio(p[0], e[0]), e) + Zeros(|p| - |e|))[1..]
  {
    hide Add, Mul, Ratio;
  }

  lemma DivisionStepAt(p: Poly, e: Poly, i: nat)
    requires |p| >= |e| >= 1 && e[0] != 0 && i < |p|
    requires var r := Reduce(p, e);
             r == Sum(Product(Quotient(r, e), e), Zeros(|r| - |e| + 1) + Remainder(r, e))
    ensures p[i] == Add(Product(Quotient(p, e), e)[i], (Zeros(|p| - |e| + 1) + Remainder(p, e))[i])
  {
    hide Add, Mul, Ratio, Reduce, Quotient, Remainder, Product, Zeros, Sum, Scale;
    DivisionUnfold(p, e);
    var c := Ratio(p[0], e[0]);
    var r := Reduce(p, e);
    var q := Quotient(r, e);
    var low := Zeros(|r| - |e| + 1) + Remainder(r, e);
    ProductConsAt(c, q, e, i);
    RatioIsQuotient(p[0], e[0]);
    assert Zeros(|p| - |e| + 1) + Remainder(r, e) == [0] + low;
    StepAt(p, Scale(c, e) + Zeros(|p| - |e|), Product(q, e), low, i);
  }

  /** If p + sub is zero at its head and t + low below it, then p is
      sub + (x-shifted t) + low at every position. */
  lemma StepAt(p: Poly, sub: Poly, t: Poly, low: Poly, i: nat)
    requires |p| == |sub| == |t| + 1 == |low| + 1 && i < |p|
    requires p[0] == sub[0] && Sum(p, sub)[1..] == Sum(t, low)
    ensures p[i] == Add(Add(sub[i], ([0] + t)[i]), ([0] + low)[i])
  {
    hide Add;
    if i == 0 {
      AddZero(sub[0]);
    } else {
      assert Sum(p, sub)[1..][i - 1] == Add(p[i], sub[i]);
      SolveForFirst(p[i], sub[i], t[i - 1], low[i - 1]);
    }
  }

  lemma SolveForFirst(a: bv8, b: bv8, t: bv8, z: bv8)
    requires Add(a, b) == Add(t, z)
    ensures a == Add(Add(b, t), z)
  {
    hide Add;
    AddAssoc(a, b, b);
    AddSelf(b);
    AddZero(a);
    AddComm(Add(t, z), b);
    AddAssoc(b, t, z);
  }

  // ----- leading zeros do not matter to the division -----

  function Strip(p: Poly): (s: Poly) {
    if p != [] && p[0] == 0 then Strip(p[1..]) else p
  }

  lemma {:induction false} StripShape(p: Poly)
    ensures |Strip(p)| <= |p| && p == Zeros(|p| - |Strip(p)|) + Strip(p)
    ensures Strip(p) == [] || Strip(p)[0] != 0
  {
    if p != [] && p[0] == 0 {
      StripShape(p[1..]);
      assert p == [p[0]] + p[1..];
      assert Zeros(|p| - |Strip(p)|) == [0] + Zeros(|p| - 1 - |Strip(p)|);
    }
  }

  lemma RemainderLeadingZero(p: Poly, e: Poly)
    requires |e| >= 1 && e[0] != 0 && p != [] && p[0] == 0
    ensures Remainder(p, e) == Remainder(p[1..], e)
  {
    hide Add, Mul, Remainder;
    if |p| >= |e| {
      var r := Reduce(p, e);
      forall i | 0 <= i < |r| ensures r[i] == p[1..][i] {
        if i + 1 < |e| { MulZero(e[i + 1]); }
        AddZero(p[i + 1]);
      }
      assert r == p[1..];
      RemainderUnfold(p, e);
    } else {
      RemainderUnfold(p, e);
      RemainderUnfold(p[1..], e);
      assert Zeros(|e| - |p|) + p[1..] == Zeros(|e| - 1 - |p|) + p;
    }
  }

  lemma RemainderUnfold(p: Poly, e: Poly)
    requires |e| >= 1 && e[0] != 0
    ensures |p| < |e| ==> Remainder(p, e) == Zeros(|e| - 1 - |p|) + p
    ensures |p| >= |e| ==> Remainder(p, e) == Remainder(Reduce(p, e), e)
  {}

  lemma {:induction false} RemainderStrip(p: Poly, e: Poly)
    requires |e| >= 1 && e[0] != 0
    ensures Remainder(Strip(p), e) == Remainder(p, e)
  {
    hide Add, Mul, Remainder;
    if p != [] && p[0] == 0 {
      RemainderLeadingZero(p, e);
      RemainderStrip(p[1..], e);
    }
  }

  // ----- the generator polynomial -----

  /** The product of (x - Pow(i)) for i < n. */
  function Generator(n: nat): (g: Poly)
    ensures |g| == n + 1
  {
    if n == 0 then [1] else Product(Generator(n - 1), [1, Pow(n - 1)])
  }

  lemma {:induction false} GeneratorMonic(n: nat)
    ensures Generator(n)[0] == 1
  {
    hide Add, Mul, Pow;
    if n > 0 {
      var g := Generator(n - 1);
      GeneratorMonic(n - 1);
      MulOne(1);
      AddZero(1);
      assert Generator(n)[0] == Add(Mul(g[0], 1), 0);
    }
  }

  lemma {:induction false} GeneratorRoots(n: nat, j: nat)
    requires j < n
    ensures EvalAt(Generator(n), j) == 0
  {
    hide Add, Mul, Pow;
    var g, f := Generator(n - 1), [1, Pow(n - 1)];
    EvalProduct(g, f, j);
    if j == n - 1 {
      LinearFactorRoot(n - 1);
      MulZero(EvalAt(g, j));
    } else {
      GeneratorRoots(n - 1, j);
      MulZero(EvalAt(f, j));
    }
  }

  lemma LinearFactorRoot(j: nat)
    ensures EvalAt([1, Pow(j)], j) == 0
  {
    hide Add, Mul, Pow;
    var f := [1, Pow(j)];
    assert f[1..] == [Pow(j)] && [Pow(j)][1..] == [];
    assert Pow(j * 0) == 1 by { PowIsOneAtZero(); }
    assert EvalAt([Pow(j)], j) == Add(Mul(Pow(j), Pow(j * 0)), EvalAt([], j));
    assert j * (|f| - 1) == j;
    assert EvalAt(f, j) == Add(Mul(1, Pow(j)), EvalAt([Pow(j)], j));
    MulOne(Pow(j));
    MulComm(1, Pow(j));
    AddZero(Pow(j));
    AddSelf(Pow(j));
  }

  // ----- few nonzero coefficients cannot vanish at many powers -----

  ghost function Weight(p: Poly): nat {
    if p == [] then 0 else (if p[0] != 0 then 1 else 0) + Weight(p[1..])
  }

  ghost predicate VanishesBelow(p: Poly, n: nat) {
    forall j: nat | j < n :: EvalAt(p, j) == 0
  }

  lemma {:induction false} WeightZero(p: Poly)
    ensures Weight(p) == 0 <==> p == Zeros(|p|)
  {
    if p != [] {
      WeightZero(p[1..]);
      assert p == [p[0]] + p[1..];
      assert Zeros(|p|)[1..] == Zeros(|p| - 1);
    }
  }

  lemma {:induction false} WeightMonotone(q: Poly, p: Poly)
    requires |q| == |p| && forall i | 0 <= i < |p| :: p[i] == 0 ==> q[i] == 0
    ensures Weight(q) <= Weight(p)
    ensures (exists i :: 0 <= i < |p| && p[i] != 0 && q[i] == 0) ==> Weight(q) < Weight(p)
  {
    if p != [] {
      WeightMonotone(q[1..], p[1..]);
      if t :| 0 <= t < |p| && p[t] != 0 && q[t] == 0 {
        if t > 0 { assert p[1..][t - 1] != 0 && q[1..][t - 1] == 0; }
      }
    }
  }

  /** Each coefficient multiplied by the difference between its own locator,
      the power of x at its position, and the locator x0. */
  ghost function Twist(p: Poly, x0: bv8): (t: Poly)
    ensures |t| == |p|
    ensures forall i | 0 <= i < |p| :: t[i] == Mul(p[i], Add(Pow(|p| - 1 - i), x0))
  {
    seq(|p|, i requires 0 <= i < |p| => Mul(p[i], Add(Pow(|p| - 1 - i), x0)))
  }

  lemma {:induction false} EvalTwist(p: Poly, x0: bv8, j: nat)
    ensures EvalAt(Twist(p, x0), j) == Add(EvalAt(p, j + 1), Mul(x0, EvalAt(p, j)))
  {
    hide Add, Mul, Pow;
    if p == [] {
      MulZero(x0);
      AddZero(0);
    } else {
      assert Twist(p, x0)[1..] == Twist(p[1..], x0);
      EvalTwist(p[1..], x0, j);
      var m := |p| - 1;
      var c, w := p[0], Pow(j * m);
      TwistTerm(c, j, m, x0);
      var u, v := Mul(c, Pow((j + 1) * m)), Mul(x0, Mul(c, w));
      AddExchange(u, v, EvalAt(p[1..], j + 1), Mul(x0, EvalAt(p[1..], j)));
      Distribute(Mul(c, w), EvalAt(p[1..], j), x0);
    }
  }

  lemma TwistTerm(c: bv8, j: nat, m: nat, x0: bv8)
    ensures Mul(Mul(c, Add(Pow(m), x0)), Pow(j * m))
         == Add(Mul(c, Pow((j + 1) * m)), Mul(x0, Mul(c, Pow(j * m))))
  {
    hide Add, Mul, Pow;
    var w := Pow(j * m);
    Distribute(Pow(m), x0, c);
    Distribute(Mul(c, Pow(m)), Mul(c, x0), w);
    MulAssoc(c, Pow(m), w);
    PowSum(m, j * m);
    assert m + j * m == (j + 1) * m;
    MulComm(c, x0);
    MulAssoc(x0, c, w);
  }

  /** A polynomial of length at most 255 with at most n nonzero coefficients
      that vanishes at the first n powers of x is zero. */
  lemma {:induction false} SparseVanishing(p: Poly, n: nat)
    requires |p| <= 255 && Weight(p) <= n && VanishesBelow(p, n)
    ensures p == Zeros(|p|)
    decreases n
  {
    hide Add, Mul, Pow, Weight, EvalAt;
    WeightZero(p);
    if p != Zeros(|p|) {
      var t :| 0 <= t < |p| && p[t] != 0;
      var x0 := Pow(|p| - 1 - t);
      var q := Twist(p, x0);
      forall i | 0 <= i < |p| ensures q[i] == 0 <==> p[i] == 0 || i == t {
        LocatorsDiffer(|p| - 1 - i, |p| - 1 - t);
        NoZeroDivisors(p[i], Add(Pow(|p| - 1 - i), x0));
      }
      WeightMonotone(q, p);
      forall j: nat | j < n - 1 ensures EvalAt(q, j) == 0 {
        EvalTwist(p, x0, j);
        MulZero(x0);
        AddZero(0);
      }
      SparseVanishing(q, n - 1);
      SingleTerm(p, t);
    }
  }

  lemma LocatorsDiffer(a: nat, b: nat)
    requires a < 255 && b < 255
    ensures Add(Pow(a), Pow(b)) == 0 <==> a == b
  {
    hide Add, Pow;
    AddCancel(Pow(a), Pow(b));
    if Pow(a) == Pow(b) { PowInjective(a, b); }
  }

  /** A single nonzero coefficient is its own value at Pow(0). */
  lemma {:induction false} SingleTerm(p: Poly, t: nat)
    requires t < |p| && forall i | 0 <= i < |p| && i != t :: p[i] == 0
    ensures EvalAt(p, 0) == p[t]
  {
    hide Add, Mul, Pow;
    var m := |p| - 1;
    assert Pow(0 * m) == 1 by { PowIsOneAtZero(); }
    MulOne(p[0]);
    AddZero(p[t]);
    if t == 0 {
      assert p[1..] == Zeros(m);
      EvalZeros(m, 0);
    } else {
      SingleTerm(p[1..], t - 1);
    }
  }

  /** No coefficient of the generator is zero as long as its degree stays below
      the order of x, so the logarithms the program takes of them exist. */
  lemma GeneratorCoefficientsNonZero(n: nat, k: nat)
    requires n <= 254 && k <= n
    ensures Generator(n)[k] != 0
  {
    hide Generator, EvalAt, Weight;
    var g := Generator(n);
    if g[k] == 0 {
      WeightWithHole(g, k);
      forall j: nat | j < n ensures EvalAt(g, j) == 0 { GeneratorRoots(n, j); }
      SparseVanishing(g, n);
      GeneratorMonic(n);
    }
  }

  lemma {:induction false} WeightBound(p: Poly)
    ensures Weight(p) <= |p|
  {
    if p != [] { WeightBound(p[1..]); }
  }

  lemma {:induction false} WeightWithHole(p: Poly, k: nat)
    requires k < |p| && p[k] == 0
    ensures Weight(p) < |p|
  {
    WeightBound(p[1..]);
    if k > 0 { WeightWithHole(p[1..], k - 1); }
  }

  /** At degree 255 the generator has become x^255 + 1: it has zero coefficients. */
  lemma GeneratorOfFullDegree()
    ensures Generator(255)[1] == 0
  {
    hide Generator, EvalAt, Weight, Add, Mul, Pow;
    var g := Generator(255);
    var tail := g[1..];
    var shifted := tail[254 := Add(tail[254], 1)];
    forall j: nat | j < 255 ensures EvalAt(shifted, j) == 0 {
      GeneratorRoots(255, j);
      GeneratorMonic(255);
      FullDegreeTail(g, j);
    }
    WeightBound(shifted);
    SparseVanishing(shifted, 255);
    assert shifted[0] == g[1];
  }

  lemma FullDegreeTail(g: Poly, j: nat)
    requires |g| == 256 && g[0] == 1 && EvalAt(g, j) == 0
    ensures var tail := g[1..];
            EvalAt(tail[254 := Add(tail[254], 1)], j) == 0
  {
    hide Add, Mul, Pow;
    var tail := g[1..];
    var unit := Zeros(254) + [1];
    assert tail[254 := Add(tail[254], 1)] == Sum(tail, unit) by {
      forall i | 0 <= i < 254 ensures tail[i] == Add(tail[i], 0) { AddZero(tail[i]); }
    }
    EvalSum(tail, unit, j);
    EvalLeadingZeros(254, [1], j);
    assert EvalAt([1], j) == 1 by {
      assert Pow(j * 0) == 1 by { PowIsOneAtZero(); }
      assert [1][1..] == [];
      MulOne(1);
      AddZero(1);
    }
    assert Pow(j * 255) == 1 by { PowMod(j * 255); PowIsOneAtZero(); }
    MulOne(1);
    AddComm(EvalAt(tail, j), 1);
  }

  // ----- the systematic codeword -----

  ghost function CheckBytes(data: Poly, n: nat): (check: Poly)
    ensures |check| == n
  {
    GeneratorMonic(n);
    Remainder(data + Zeros(n), Generator(n))
  }

  ghost function Codeword(data: Poly, n: nat): (word: Poly)
    ensures |word| == |data| + n
  {
    data + CheckBytes(data, n)
  }

  /** Data followed by its check bytes is a multiple of the generator. */
  lemma CodewordDivisible(data: Poly, n: nat)
    ensures exists q :: Codeword(data, n) == Product(q, Generator(n))
  {
    hide Add, Generator, Remainder, Product;
    GeneratorMonic(n);
    var g := Generator(n);
    var padded := data + Zeros(n);
    var q := Quotient(padded, g);
    DivisionIdentity(padded, g);
    var check := CheckBytes(data, n);
    var right := Product(q, g);
    forall i | 0 <= i < |padded| ensures Codeword(data, n)[i] == right[i] {
      var c := (Zeros(|data|) + check)[i];
      assert padded[i] == Add(right[i], c);
      AddAssoc(right[i], c, c);
      AddSelf(c);
      AddZero(right[i]);
      AddZero(padded[i]);
      AddComm(0, c);
      AddZero(c);
    }
    assert Codeword(data, n) == right;
  }

  lemma CodewordVanishes(data: Poly, n: nat)
    ensures VanishesBelow(Codeword(data, n), n)
  {
    hide Generator, EvalAt, Product, Codeword, Mul;
    CodewordDivisible(data, n);
    var q :| Codeword(data, n) == Product(q, Generator(n));
    forall j: nat | j < n ensures EvalAt(Codeword(data, n), j) == 0 {
      EvalProduct(q, Generator(n), j);
      GeneratorRoots(n, j);
      MulZero(EvalAt(q, j));
    }
  }

  lemma SumVanishes(u: Poly, v: Poly, n: nat)
    requires |u| == |v| && VanishesBelow(u, n) && VanishesBelow(v, n)
    ensures VanishesBelow(Sum(u, v), n)
  {
    hide Add, EvalAt;
    forall j: nat | j < n ensures EvalAt(Sum(u, v), j) == 0 {
      EvalSum(u, v, j);
      AddZero(0);
    }
  }

  lemma SumZeroMeansEqual(u: Poly, v: Poly)
    requires |u| == |v| && Sum(u, v) == Zeros(|u|)
    ensures u == v
  {
    hide Add;
    forall i | 0 <= i < |u| ensures u[i] == v[i] {
      assert Sum(u, v)[i] == 0;
      AddCancel(u[i], v[i]);
    }
  }

  /** The check bytes are the only n bytes that complete the data to a word
      vanishing at the first n powers of x. */
  lemma CheckBytesUnique(data: Poly, n: nat, check: Poly)
    requires n <= 255 && |check| == n && VanishesBelow(data + check, n)
    ensures check == CheckBytes(data, n)
  {
    hide Add, EvalAt, CheckBytes;
    CodewordVanishes(data, n);
    var other := CheckBytes(data, n);
    var u, v := data + check, data + other;
    SumVanishes(u, v, n);
    var d := Sum(check, other);
    forall i | 0 <= i < |data| ensures Sum(u, v)[i] == 0 { AddSelf(data[i]); }
    assert Sum(u, v) == Zeros(|data|) + d;
    forall j: nat | j < n ensures EvalAt(d, j) == 0 {
      assert EvalAt(Sum(u, v), j) == 0;
      EvalLeadingZeros(|data|, d, j);
    }
    WeightBound(d);
    SparseVanishing(d, n);
    SumZeroMeansEqual(check, other);
  }

  // ----- what the code is for -----

  /** The number of positions at which two words differ. */
  ghost function Distance(u: Poly, v: Poly): nat
    requires |u| == |v|
  {
    Weight(Sum(u, v))
  }

  /** Two different words of one code differ in more than n positions: n check
      bytes detect every pattern of up to n wrong bytes. */
  lemma MinimumDistance(u: Poly, v: Poly, n: nat)
    requires |u| == |v| <= 255 && VanishesBelow(u, n) && VanishesBelow(v, n) && u != v
    ensures Distance(u, v) > n
  {
    hide Add, EvalAt, Weight;
    SumVanishes(u, v, n);
    if Distance(u, v) <= n {
      SparseVanishing(Sum(u, v), n);
      SumZeroMeansEqual(u, v);
    }
  }

  lemma {:induction false} WeightOfSum(a: Poly, b: Poly)
    requires |a| == |b|
    ensures Weight(Sum(a, b)) <= Weight(a) + Weight(b)
  {
    hide Add;
    if a != [] {
      WeightOfSum(a[1..], b[1..]);
      assert Sum(a, b)[1..] == Sum(a[1..], b[1..]);
      AddZero(0);
    }
  }

  /** A received word within n/2 errors of a codeword determines it. */
  lemma CorrectionIsUnambiguous(received: Poly, u: Poly, v: Poly, n: nat)
    requires |received| == |u| == |v| <= 255
    requires VanishesBelow(u, n) && VanishesBelow(v, n)
    requires 2 * Distance(received, u) <= n && 2 * Distance(received, v) <= n
    ensures u == v
  {
    hide Add, EvalAt, Weight;
    var a, b := Sum(received, u), Sum(received, v);
    WeightOfSum(a, b);
    forall i | 0 <= i < |u| ensures Sum(a, b)[i] == Sum(u, v)[i] {
      AddExchange(received[i], u[i], received[i], v[i]);
      AddSelf(received[i]);
      AddZero(Add(u[i], v[i]));
    }
    assert Sum(a, b) == Sum(u, v);
    if u != v { MinimumDistance(u, v, n); }
  }
}
