/** Facts about products and quotients of natural numbers. */
module Arithmetic {

  /** a * b, by repeated addition. */
  ghost function Times(a: nat, b: nat): nat {
    if a == 0 then 0 else b + Times(a - 1, b)
  }

  lemma {:induction false} TimesIsProduct(a: nat, b: nat)
    ensures Times(a, b) == a * b
  {
    if a != 0 {
      TimesIsProduct(a - 1, b);
      assert (a - 1) * b + b == a * b;
    }
  }

  lemma MulMonotonic(a: nat, b: nat, c: nat)
    requires a <= b
    ensures a * c <= b * c
  {
  }

  lemma Distribute(a: nat, b: nat, c: nat)
    ensures (a + b) * c == a * c + b * c
  {
  }

  lemma Associate(a: nat, b: nat, c: nat)
    ensures (a * b) * c == a * (b * c)
  {
  }

  lemma DivUnique(a: nat, b: nat, p: nat)
    requires 0 < b
    requires p * b <= a < p * b + b
    ensures a / b == p
  {
    var q := a / b;
    assert q * b <= a < q * b + b;
    if q < p {
      MulMonotonic(q + 1, p, b);
    } else if p < q {
      MulMonotonic(p + 1, q, b);
    }
  }

  lemma DivInterval(a: nat, b: nat, p: nat)
    requires 0 < b
    ensures a / b == p <==> p * b <= a < p * b + b
  {
    if p * b <= a < p * b + b {
      DivUnique(a, b, p);
    }
  }

  lemma DivShift(a: nat, b: nat, d: nat)
    requires 0 < b
    requires d * b <= a
    ensures (a - d * b) / b == a / b - d
  {
    var q := a / b;
    if q < d {
      MulMonotonic(q + 1, d, b);
      assert false;
    }
    assert (q - d) * b == q * b - d * b;
    DivUnique(a - d * b, b, q - d);
  }

  lemma DivBounds(a: nat, b: nat)
    requires 0 < b
    ensures (a / b) * b <= a < (a / b) * b + b
  {
  }

  lemma DivDiv(a: nat, b: nat, c: nat)
    requires 0 < b && 0 < c
    ensures 0 < b * c
    ensures (a / b) / c == a / (b * c)
  {
    var q := a / b;
    var p := q / c;
    DivBounds(a, b);
    DivBounds(q, c);
    SwapProduct(b, c);
    BetweenMultiples(a, q, b, c, p, b * c);
    DivUnique(a, b * c, p);
  }

  lemma BetweenMultiples(a: nat, q: nat, b: nat, c: nat, p: nat, product: nat)
    requires q * b <= a < q * b + b && p * c <= q < p * c + c && product == b * c
    ensures p * product <= a < p * product + product
  {
    MulMonotonic(p * c, q, b);
    MulMonotonic(q + 1, p * c + c, b);
    Associate(p, c, b);
    Distribute(p * c, c, b);
    Distribute(q, 1, b);
    SwapProduct(c, b);
  }

  lemma SwapProduct(a: nat, b: nat)
    ensures a * b == b * a
    ensures 0 < a && 0 < b ==> 0 < a * b
  {
  }

  lemma DivModUnique(b: nat, p: nat, r: nat)
    requires r < b
    ensures (p * b + r) / b == p && (p * b + r) % b == r
  {
    DivUnique(p * b + r, b, p);
  }
}
