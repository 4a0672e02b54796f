/** Polynomials over GF(2^8), highest degree first, as plain mathematics:
    sum, product, evaluation at powers of x, long division. */
module Polynomials {
  import opened QRMath

  type Poly = seq<bv8>

  function Zeros(n: nat): (z: Poly)
    ensures |z| == n && forall i | 0 <= i < n :: z[i] == 0
  {
    seq(n, _ => 0)
  }

  function Sum(p: Poly, q: Poly): (s: Poly)
    requires |p| == |q|
    ensures |s| == |p| && forall i | 0 <= i < |p| :: s[i] == Add(p[i], q[i])
  {
    seq(|p|, i requires 0 <= i < |p| => Add(p[i], q[i]))
  }

  function Scale(c: bv8, p: Poly): (s: Poly)
    ensures |s| == |p| && forall i | 0 <= i < |p| :: s[i] == Mul(c, p[i])
  {
    seq(|p|, i requires 0 <= i < |p| => Mul(c, p[i]))
  }

  function Product(q: Poly, e: Poly): (p: Poly)
    requires |e| >= 1
    ensures |p| == |q| + |e| - 1
  {
    if q == [] then Zeros(|e| - 1)
    else Sum(Scale(q[0], e) + Zeros(|q| - 1), [0] + Product(q[1..], e))
  }

  /** The value of p at Pow(j). */
  function EvalAt(p: Poly, j: nat): bv8 {
    if p == [] then 0
    else Add(Mul(p[0], Pow(j * (|p| - 1))), EvalAt(p[1..], j))
  }

  // ----- evaluation is a ring homomorphism -----

  lemma {:induction false} EvalZeros(n: nat, j: nat)
    ensures EvalAt(Zeros(n), j) == 0
  {
    hide Add, Mul, Pow;
    if n > 0 {
      assert Zeros(n)[1..] == Zeros(n - 1);
      EvalZeros(n - 1, j);
      MulZero(Pow(j * (n - 1)));
      AddZero(0);
    }
  }

  lemma {:induction false} EvalLeadingZeros(n: nat, p: Poly, j: nat)
    ensures EvalAt(Zeros(n) + p, j) == EvalAt(p, j)
  {
    hide Add, Mul, Pow;
    if n == 0 {
      assert Zeros(0) + p == p;
    } else {
      var z := Zeros(n) + p;
      assert z[1..] == Zeros(n - 1) + p;
      EvalLeadingZeros(n - 1, p, j);
      MulZero(Pow(j * (|z| - 1)));
      AddZero(EvalAt(p, j));
    }
  }

  lemma {:induction false} EvalSum(p: Poly, q: Poly, j: nat)
    requires |p| == |q|
    ensures EvalAt(Sum(p, q), j) == Add(EvalAt(p, j), EvalAt(q, j))
  {
    hide Add, Mul, Pow;
    if p == [] {
      AddZero(0);
    } else {
      assert Sum(p, q)[1..] == Sum(p[1..], q[1..]);
      EvalSum(p[1..], q[1..], j);
      var w := Pow(j * (|p| - 1));
      Distribute(p[0], q[0], w);
      AddExchange(Mul(p[0], w), Mul(q[0], w), EvalAt(p[1..], j), EvalAt(q[1..], j));
    }
  }

  lemma Distribute(a: bv8, b: bv8, c: bv8)
    ensures Mul(Add(a, b), c) == Add(Mul(a, c), Mul(b, c))
    ensures Mul(c, Add(a, b)) == Add(Mul(c, a), Mul(c, b))
  {
    hide Add, Mul;
    MulDistributes(a, b, c);
    MulDistributes(c, a, b);
  }

  lemma {:induction false} EvalScale(c: bv8, p: Poly, j: nat)
    ensures EvalAt(Scale(c, p), j) == Mul(c, EvalAt(p, j))
  {
    hide Add, Mul, Pow;
    if p == [] {
      MulZero(c);
    } else {
      assert Scale(c, p)[1..] == Scale(c, p[1..]);
      EvalScale(c, p[1..], j);
      MulAssoc(c, p[0], Pow(j * (|p| - 1)));
      Distribute(Mul(p[0], Pow(j * (|p| - 1))), EvalAt(p[1..], j), c);
    }
  }

  lemma {:induction false} EvalTrailingZeros(p: Poly, k: nat, j: nat)
    ensures EvalAt(p + Zeros(k), j) == Mul(EvalAt(p, j), Pow(j * k))
  {
    hide Add, Mul, Pow;
    if p == [] {
      assert p + Zeros(k) == Zeros(k);
      EvalZeros(k, j);
      MulZero(Pow(j * k));
    } else {
      assert (p + Zeros(k))[1..] == p[1..] + Zeros(k);
      EvalTrailingZeros(p[1..], k, j);
      var m := |p| - 1;
      assert j * (m + k) == j * m + j * k;
      PowSum(j * m, j * k);
      MulAssoc(p[0], Pow(j * m), Pow(j * k));
      Distribute(Mul(p[0], Pow(j * m)), EvalAt(p[1..], j), Pow(j * k));
    }
  }

  lemma {:induction false} EvalProduct(q: Poly, e: Poly, j: nat)
    requires |e| >= 1
    ensures EvalAt(Product(q, e), j) == Mul(EvalAt(q, j), EvalAt(e, j))
  {
    hide Add, Mul, Pow;
    if q == [] {
      EvalZeros(|e| - 1, j);
      MulZero(EvalAt(e, j));
    } else {
      var rest := Product(q[1..], e);
      EvalProduct(q[1..], e, j);
      assert [0] + rest == Zeros(1) + rest;
      EvalLeadingZeros(1, rest, j);
      EvalTrailingZeros(Scale(q[0], e), |q| - 1, j);
      EvalScale(q[0], e, j);
      EvalSum(Scale(q[0], e) + Zeros(|q| - 1), [0] + rest, j);
      var w := Pow(j * (|q| - 1));
      var v := EvalAt(e, j);
      MulAssoc(q[0], v, w);
      MulComm(v, w);
      MulAssoc(q[0], w, v);
      Distribute(Mul(q[0], w), EvalAt(q[1..], j), v);
    }
  }

  // ----- the product, built from its last factor coefficient -----

  /** Product is linear in one more trailing coefficient of the first factor,
      which is the order in which the program accumulates it. */
  lemma {:induction false} ProductSnoc(q: Poly, d: bv8, e: Poly)
    requires |e| >= 1
    ensures Product(q + [d], e) == Sum(Product(q, e) + [0], Zeros(|q|) + Scale(d, e))
  {
    hide Add, Mul;
    var right := Sum(Product(q, e) + [0], Zeros(|q|) + Scale(d, e));
    if q == [] {
      assert (q + [d])[1..] == [];
      forall i | 0 <= i < |right| ensures Product(q + [d], e)[i] == right[i] {
        AddZero(Mul(d, e[i]));
      }
    } else {
      var tail := q[1..];
      assert (q + [d])[1..] == tail + [d];
      ProductSnoc(tail, d, e);
      var head := Scale(q[0], e) + Zeros(|q|);
      assert Product(q + [d], e) == Sum(head, [0] + Product(tail + [d], e));
      forall i | 0 <= i < |right| ensures Product(q + [d], e)[i] == right[i] {
        ProductSnocAt(q, d, e, i);
      }
    }
  }

  lemma ProductSnocAt(q: Poly, d: bv8, e: Poly, i: nat)
    requires |e| >= 1 && |q| >= 1 && i < |q| + |e|
    requires Product(q[1..] + [d], e)
          == Sum(Product(q[1..], e) + [0], Zeros(|q| - 1) + Scale(d, e))
    ensures Product(q + [d], e)[i]
         == Sum(Product(q, e) + [0], Zeros(|q|) + Scale(d, e))[i]
  {
    hide Add, Mul;
    var tail := q[1..];
    assert (q + [d])[1..] == tail + [d];
    var head := Scale(q[0], e) + Zeros(|q|);
    var head' := Scale(q[0], e) + Zeros(|q| - 1);
    var a := head[i];
    var b := if i == 0 then 0 else (Product(tail, e) + [0])[i - 1];
    var c := (Zeros(|q|) + Scale(d, e))[i];
    AddAssoc(a, b, c);
    AddZero(0);
    if i == 0 {
      assert Product(q + [d], e)[0] == Add(a, 0);
    } else {
      assert (Zeros(|q| - 1) + Scale(d, e))[i - 1] == c;
      assert Product(q + [d], e)[i] == Add(a, Add(b, c));
    }
    if i < |q| + |e| - 1 {
      assert Product(q, e)[i] == Add(head'[i], ([0] + Product(tail, e))[i]);
    }
  }
}
