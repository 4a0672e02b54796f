/** QRPolynomial: coefficients as the program keeps them, highest degree first,
    with JavaScript's undefined (None) in slots that were never assigned.
    Every method computes through the log and exp tables. */
module QRPolynomial {
  import opened Wrappers
  import opened QRMath
  import opened Polynomials
  import opened ReedSolomon

  type Coef = Option<bv8>

  datatype QRPoly = QRPoly(num: seq<Coef>)

  /** The number an exclusive or reads from a slot: undefined counts as 0. */
  function Value(c: Coef): bv8 {
    if c.Some? then c.value else 0
  }

  function Values(num: seq<Coef>): (p: Poly)
    ensures |p| == |num| && forall i | 0 <= i < |num| :: p[i] == Value(num[i])
  {
    seq(|num|, i requires 0 <= i < |num| => Value(num[i]))
  }

  function Known(p: Poly): (num: seq<Coef>)
    ensures |num| == |p| && forall i | 0 <= i < |p| :: num[i] == Some(p[i])
  {
    seq(|p|, i requires 0 <= i < |p| => Some(p[i]))
  }

  function Unset(n: nat): (num: seq<Coef>)
    ensures |num| == n && forall i | 0 <= i < n :: num[i] == None
  {
    seq(n, _ => None)
  }

  /** What the constructor keeps of its argument: leading zeros go, a leading
      undefined stays because it does not equal 0. */
  function DropZeros(num: seq<Coef>): seq<Coef> {
    if num != [] && num[0] == Some(0) then DropZeros(num[1..]) else num
  }

  lemma {:induction false} DropZerosShape(num: seq<Coef>) returns (k: nat)
    ensures k <= |num| && DropZeros(num) == num[k..]
    ensures forall i | 0 <= i < k :: num[i] == Some(0)
    ensures num[k..] != [] ==> num[k] != Some(0)
  {
    if num != [] && num[0] == Some(0) {
      var k' := DropZerosShape(num[1..]);
      k := k' + 1;
      assert num[1..][k'..] == num[k..];
      forall i | 0 <= i < k ensures num[i] == Some(0) {
        if i > 0 { assert num[i] == num[1..][i - 1]; }
      }
    } else {
      k := 0;
    }
  }

  lemma {:induction false} DropZerosOfKnown(p: Poly)
    ensures DropZeros(Known(p)) == Known(Strip(p))
  {
    if p != [] && p[0] == 0 {
      assert Known(p)[1..] == Known(p[1..]);
      DropZerosOfKnown(p[1..]);
    }
  }

  /** The constructor. */
  method Make(num: seq<Coef>, shift: nat) returns (p: QRPoly)
    ensures p.num == DropZeros(num) + Unset(shift)
  {
    var offset := 0;
    while offset < |num| && num[offset] == Some(0)
      invariant offset <= |num| && DropZeros(num) == DropZeros(num[offset..])
    {
      assert num[offset..][1..] == num[offset + 1..];
      offset := offset + 1;
    }
    assert DropZeros(num) == num[offset..];
    var cells := new Coef[|num| - offset + shift](_ => None);
    for i := 0 to |num| - offset
      invariant cells[..i] == num[offset..offset + i]
      invariant forall k | i <= k < cells.Length :: cells[k] == None
    {
      cells[i] := num[i + offset];
    }
    p := QRPoly(cells[..]);
  }

  /** gexp(glog(x) + glog(y)): the field product unless a zero throws. */
  method Term(t: Tables, x: Coef, y: Coef) returns (r: Result<Coef>)
    requires t.Valid()
    ensures r == Thrown <==> x == Some(0) || y == Some(0)
    ensures r.Ok? ==> Value(r.value) == Mul(Value(x), Value(y))
  {
    hide Mul, Pow;
    var a := t.Glog(x);
    if a.Thrown? { return Thrown; }
    var b := t.Glog(y);
    if b.Thrown? { return Thrown; }
    if a.value.Some? && b.value.Some? {
      TableProduct(x.value, y.value);
      var v := t.Gexp(Some(a.value.value + b.value.value));
      r := Ok(v);
    } else {
      MulZero(Value(x));
      MulZero(Value(y));
      var v := t.Gexp(None);
      r := Ok(v);
    }
  }

  /** x ^= y on one slot. */
  function Xor(x: Coef, y: Coef): Coef {
    Some(Add(Value(x), Value(y)))
  }

  ghost predicate AllSet(num: seq<Coef>) {
    forall i | 0 <= i < |num| :: num[i].Some?
  }

  lemma AllSetIsKnown(num: seq<Coef>)
    requires AllSet(num)
    ensures num == Known(Values(num))
  {}

  /** The rows of the schoolbook product that are complete, padded with zeros. */
  ghost function Rows(p: Poly, e: Poly, i: nat): (s: Poly)
    requires |e| >= 1 && i <= |p|
    ensures |s| == |p| + |e| - 1
  {
    Product(p[..i], e) + Zeros(|p| - i)
  }

  lemma RowsStep(p: Poly, e: Poly, i: nat, k: nat)
    requires |e| >= 1 && i < |p| && k < |p| + |e| - 1
    ensures Rows(p, e, i + 1)[k]
         == if i <= k < i + |e| then Add(Rows(p, e, i)[k], Mul(p[i], e[k - i])) else Rows(p, e, i)[k]
  {
    hide Add, Mul, Product;
    assert p[..i + 1] == p[..i] + [p[i]];
    ProductSnoc(p[..i], p[i], e);
    AddZero(Rows(p, e, i)[k]);
  }

  /** The cells after i rows: the partial product, unset beyond it. */
  ghost predicate Accumulated(cells: seq<Coef>, a: Poly, b: Poly, i: nat) {
    && i <= |a| && |cells| == |a| + |b| - 1
    && if b == [] || i == 0 then cells == Unset(|cells|)
       else Values(cells) == Rows(a, b, i) && forall k | 0 <= k < i + |b| - 1 :: cells[k].Some?
  }

  /** The cells with x * e added from position i on. */
  ghost predicate RowAdded(before: seq<Coef>, after: seq<Coef>, x: bv8, e: Poly, i: nat) {
    && |after| == |before| && i + |e| <= |before|
    && (forall k | i <= k < i + |e| :: after[k] == Some(Add(Value(before[k]), Mul(x, e[k - i]))))
    && (forall k | 0 <= k < |before| && !(i <= k < i + |e|) :: after[k] == before[k])
  }

  lemma AccumulateRow(before: seq<Coef>, after: seq<Coef>, a: Poly, b: Poly, i: nat)
    requires i < |a| && Accumulated(before, a, b, i) && RowAdded(before, after, a[i], b, i)
    ensures Accumulated(after, a, b, i + 1)
  {
    hide Mul, Add, Product;
    if b == [] {
      assert after == before;
    } else {
      assert i == 0 ==> Values(before) == Rows(a, b, 0) by { RowsAtStart(a, b); }
      forall k | 0 <= k < |after| ensures Value(after[k]) == Rows(a, b, i + 1)[k] {
        RowsStep(a, b, i, k);
      }
      assert Values(after) == Rows(a, b, i + 1);
    }
  }

  lemma RowsAtStart(a: Poly, b: Poly)
    requires b != []
    ensures Rows(a, b, 0) == Zeros(|a| + |b| - 1)
  {}

  /** All rows are in: stripping leaves the stripped product. */
  lemma ProductComplete(cells: seq<Coef>, a: Poly, b: Poly)
    requires Accumulated(cells, a, b, |a|)
    ensures a != [] && b != [] ==> DropZeros(cells) == Known(Strip(Product(a, b)))
    ensures a == [] || b == [] ==> DropZeros(cells) == cells == Unset(|a| + |b| - 1)
  {
    if a != [] && b != [] {
      assert a[..|a|] == a;
      assert Rows(a, b, |a|) == Product(a, b);
      AllSetIsKnown(cells);
      DropZerosOfKnown(Product(a, b));
    }
  }

  /** The inner loop of multiply: add the multiple of e by one coefficient. */
  method AddRow(t: Tables, x: Coef, e: seq<Coef>, i: nat, cells: array<Coef>) returns (thrown: bool)
    requires t.Valid() && cells as object != t.expTable && cells as object != t.logTable
    requires i + |e| <= cells.Length
    modifies cells
    ensures t.Valid()
    ensures thrown <==> e != [] && (x == Some(0) || Some(0) in e)
    ensures !thrown ==> RowAdded(old(cells[..]), cells[..], Value(x), Values(e), i)
  {
    hide Mul, Add, Pow, Num;
    for j := 0 to |e|
      invariant t.Valid()
      invariant j > 0 ==> x != Some(0) && Some(0) !in e[..j]
      invariant forall k | i <= k < i + j ::
          cells[k] == Some(Add(old(Value(cells[k])), Mul(Value(x), Value(e[k - i]))))
      invariant forall k | 0 <= k < cells.Length && !(i <= k < i + j) :: cells[k] == old(cells[k])
    {
      var v := Term(t, x, e[j]);
      if v.Thrown? { return true; }
      cells[i + j] := Xor(cells[i + j], v.value);
    }
    return false;
  }

  /** multiply: throws exactly when it meets a zero coefficient (or both lengths
      are 0), and otherwise yields the polynomial product with its leading
      zeros stripped. */
  method Multiply(t: Tables, p: QRPoly, e: QRPoly) returns (r: Result<QRPoly>)
    requires t.Valid()
    ensures r == Thrown <==>
              || (p.num == [] && e.num == [])
              || (p.num != [] && e.num != [] && (Some(0) in p.num || Some(0) in e.num))
    ensures r.Ok? && p.num != [] && e.num != [] ==>
              r.value.num == Known(Strip(Product(Values(p.num), Values(e.num))))
    ensures r.Ok? && (p.num == [] || e.num == []) ==>
              r.value.num == Unset(|p.num| + |e.num| - 1)
  {
    hide Mul, Add, Pow, Num, Product, Rows;
    if |p.num| + |e.num| == 0 { return Thrown; }
    ghost var a, b := Values(p.num), Values(e.num);
    var cells := new Coef[|p.num| + |e.num| - 1](_ => None);
    for i := 0 to |p.num|
      invariant t.Valid()
      invariant e.num != [] ==> Some(0) !in p.num[..i] && (i > 0 ==> Some(0) !in e.num)
      invariant Accumulated(cells[..], a, b, i)
    {
      ghost var before := cells[..];
      var thrown := AddRow(t, p.num[i], e.num, i, cells);
      if thrown { return Thrown; }
      AccumulateRow(before, cells[..], a, b, i);
    }
    ProductComplete(cells[..], a, b);
    var result := Make(cells[..], 0);
    r := Ok(result);
  }

  // ----- mod -----

  ghost predicate Stripped(num: seq<Coef>) {
    num == [] || num[0] != Some(0)
  }

  /** x * c for the byte c whose logarithm is the difference of two others. */
  lemma ShiftedLog(x: bv8, a: bv8, b: bv8)
    requires x != 0 && a != 0 && b != 0
    ensures PowZ(Log(x) + (Log(a) - Log(b))) == Mul(Ratio(a, b), x)
  {
    hide Mul, Pow;
    var n := Log(a) - Log(b);
    PowSum(n % 255, Log(x));
    PowMod(n % 255 + Log(x));
    assert (n % 255 + Log(x)) % 255 == (Log(x) + n) % 255;
  }

  /** glog of the two leading coefficients: NaN (None) when the dividend's is
      unset and so counts as zero. */
  ghost predicate RatioLog(ratio: Option<int>, a: bv8, b: bv8) {
    b != 0 && ratio == if a == 0 then None else Some(Log(a) - Log(b))
  }

  /** One coefficient of the multiple that mod subtracts. */
  method ScaledTerm(t: Tables, x: Coef, ratio: Option<int>, ghost a: bv8, ghost b: bv8) returns (r: Result<Coef>)
    requires t.Valid() && RatioLog(ratio, a, b)
    ensures r == Thrown <==> x == Some(0)
    ensures r.Ok? ==> Value(r.value) == Mul(Ratio(a, b), Value(x))
  {
    hide Mul, Pow;
    var g := t.Glog(x);
    if g.Thrown? { return Thrown; }
    if g.value.Some? && ratio.Some? {
      ShiftedLog(x.value, a, b);
      var v := t.Gexp(Some(g.value.value + ratio.value));
      r := Ok(v);
    } else {
      MulZero(Ratio(a, b));
      MulZero(Value(x));
      var v := t.Gexp(None);
      r := Ok(v);
    }
  }

  /** What mod makes of the dividend before it recurs. */
  ghost predicate Subtracted(p: seq<Coef>, cells: seq<Coef>, e: seq<Coef>, c: bv8) {
    && |cells| == |p| >= |e|
    && (forall k | 0 <= k < |e| :: cells[k] == Some(Add(Value(p[k]), Mul(c, Value(e[k])))))
    && (forall k | |e| <= k < |p| :: cells[k] == p[k])
  }

  lemma SubtractedIsReduction(p: seq<Coef>, cells: seq<Coef>, e: seq<Coef>, k: nat)
    requires p != [] && e != [] && Value(e[0]) != 0
    requires Subtracted(p, cells, e, Ratio(Value(p[0]), Value(e[0])))
    requires k <= |cells| && (forall i | 0 <= i < k :: cells[i] == Some(0))
    requires cells[k..] != [] ==> cells[k] != Some(0)
    ensures k >= 1
    ensures Remainder(Values(cells[k..]), Values(e)) == Remainder(Values(p), Values(e))
  {
    hide Add, Mul, Ratio, Remainder;
    var a, b := Values(p), Values(e);
    RatioIsQuotient(a[0], b[0]);
    AddSelf(a[0]);
    assert cells[0] == Some(0);
    var scaled := Scale(Ratio(a[0], b[0]), b) + Zeros(|a| - |b|);
    forall i | 0 <= i < |a| ensures Values(cells)[i] == Add(a[i], scaled[i]) {
      AddZero(a[i]);
    }
    assert Values(cells) == Sum(a, scaled);
    DivisionUnfold(a, b);
    RemainderSkipsZeros(Values(cells)[1..], b, k - 1);
    assert Values(cells)[1..][k - 1..] == Values(cells[k..]);
  }

  lemma {:induction false} RemainderSkipsZeros(p: Poly, e: Poly, k: nat)
    requires |e| >= 1 && e[0] != 0 && k <= |p| && forall i | 0 <= i < k :: p[i] == 0
    ensures Remainder(p[k..], e) == Remainder(p, e)
    decreases k
  {
    hide Remainder;
    if k == 0 {
      assert p[0..] == p;
    } else {
      RemainderLeadingZero(p, e);
      RemainderSkipsZeros(p[1..], e, k - 1);
      assert p[1..][k - 1..] == p[k..];
    }
  }

  /** The two loops of mod: copy the dividend, then subtract the multiple of
      the divisor that clears its leading coefficient. */
  method SubtractMultiple(t: Tables, p: seq<Coef>, e: seq<Coef>, ratio: Option<int>, ghost a: bv8, ghost b: bv8)
    returns (r: Result<seq<Coef>>)
    requires t.Valid() && |p| >= |e| && RatioLog(ratio, a, b)
    ensures r == Thrown <==> Some(0) in e
    ensures r.Ok? ==> Subtracted(p, r.value, e, Ratio(a, b))
  {
    hide Mul, Add, Pow, Num, Ratio;
    ghost var c := Ratio(a, b);
    var cells := new Coef[|p|](_ => None);
    for i := 0 to |p|
      invariant t.Valid()
      invariant cells[..i] == p[..i]
    {
      cells[i] := p[i];
    }
    for i := 0 to |e|
      invariant t.Valid()
      invariant Some(0) !in e[..i]
      invariant forall k | 0 <= k < i :: cells[k] == Some(Add(Value(p[k]), Mul(c, Value(e[k]))))
      invariant forall k | i <= k < |p| :: cells[k] == p[k]
    {
      var v := ScaledTerm(t, e[i], ratio, a, b);
      if v.Thrown? { return Thrown; }
      cells[i] := Xor(cells[i], v.value);
    }
    r := Ok(cells[..]);
  }

  /** mod: the true remainder of long division.  It throws exactly when a
      division step meets a zero coefficient of the divisor.  The dividend is
      as the constructor leaves it; the divisor's leading coefficient must be
      set, as otherwise the recursion of the program never ends. */
  method Mod(t: Tables, p: QRPoly, e: QRPoly) returns (r: Result<QRPoly>)
    requires t.Valid()
    requires e.num != [] && e.num[0].Some?
    requires Stripped(p.num)
    ensures r == Thrown <==> |p.num| >= |e.num| && Some(0) in e.num
    ensures r.Ok? ==> |r.value.num| < |e.num|
    ensures r.Ok? && Value(e.num[0]) != 0 ==>
              Zeros(|e.num| - 1 - |r.value.num|) + Values(r.value.num)
              == Remainder(Values(p.num), Values(e.num))
    decreases |p.num|
  {
    hide Mul, Add, Pow, Num, Ratio, Remainder;
    if |p.num| - |e.num| < 0 {
      if Value(e.num[0]) != 0 { RemainderUnfold(Values(p.num), Values(e.num)); }
      return Ok(p);
    }
    var a := t.Glog(p.num[0]);
    var b := t.Glog(e.num[0]);
    if b.Thrown? { return Thrown; }
    var ratio := if a.value.Some? then Some(a.value.value - b.value.value) else None;

    var cells := SubtractMultiple(t, p.num, e.num, ratio, Value(p.num[0]), Value(e.num[0]));
    if cells.Thrown? { return Thrown; }
    var next := Make(cells.value, 0);
    ghost var k := DropZerosShape(cells.value);
    assert next.num == cells.value[k..];
    SubtractedIsReduction(p.num, cells.value, e.num, k);
    r := Mod(t, next, e);
  }

  // ----- the generator -----

  /** getErrorCorrectPolynomial succeeds exactly up to 255 check bytes (a
      negative count runs no iteration) and yields the product of (x - Pow(i)). */
  method GetErrorCorrectPolynomial(t: Tables, errorCorrectLength: int) returns (r: Result<QRPoly>)
    requires t.Valid()
    ensures r.Ok? <==> errorCorrectLength <= 255
    ensures r.Ok? ==> r.value.num == Known(Generator(if errorCorrectLength < 0 then 0 else errorCorrectLength))
  {
    hide Mul, Add, Pow, Num, Product;
    var a := Make([Some(1)], 0);
    assert a.num == Known(Generator(0));
    if errorCorrectLength <= 0 { return Ok(a); }
    for i := 0 to errorCorrectLength
      invariant i <= 255 && a.num == Known(Generator(i))
    {
      var x := t.Gexp(Some(i));
      var factor := Make([Some(1), x], 0);
      PowNonZero(i % 255);
      PowMod(i);
      assert factor.num == Known([1, Pow(i)]);
      var next := Multiply(t, a, factor);
      GeneratorStep(i);
      if next.Thrown? {
        return Thrown;
      }
      a := next.value;
    }
    r := Ok(a);
  }

  lemma GeneratorStep(i: nat)
    requires i <= 255
    ensures Known([1, Pow(i)]) == [Some(1), Some(Pow(i))] && Pow(i) != 0
    ensures Values(Known(Generator(i))) == Generator(i) && Values(Known([1, Pow(i)])) == [1, Pow(i)]
    ensures Some(0) in Known(Generator(i)) <==> i == 255
    ensures Strip(Product(Generator(i), [1, Pow(i)])) == Generator(i + 1)
  {
    hide Mul, Add, Pow, Product;
    PowNonZero(i);
    var g := Generator(i);
    if i == 255 {
      GeneratorOfFullDegree();
      assert Known(g)[1] == Some(0);
    } else {
      forall k | 0 <= k < |g| ensures Known(g)[k] != Some(0) {
        GeneratorCoefficientsNonZero(i, k);
      }
    }
    GeneratorMonic(i + 1);
  }
}
