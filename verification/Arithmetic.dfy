/** Facts about products, quotients and remainders that the solver does not find by itself. */
module Arithmetic {

  lemma MulAtLeast(d: int, b: int)
    requires b >= 0
    ensures d >= 1 ==> d * b >= b
    ensures d <= -1 ==> d * b <= -b
  {
    if d >= 1 {
      assert d * b == (d - 1) * b + b;
    } else if d <= -1 {
      assert d * b == (d + 1) * b - b;
    }
  }

  lemma {:induction false} DivModUnique(x: int, b: nat, q: int, r: nat)
    requires b >= 1 && x == q * b + r && r < b
    ensures x / b == q && x % b == r
  {
    var d := q - x / b;
    assert d * b == q * b - (x / b) * b;
    MulAtLeast(d, b);
  }

  /** Among `k * b + 1, ..., k * b + b` only the last is a multiple of `b`. */
  lemma MultipleInRange(k: nat, b: nat, d: nat)
    requires 1 <= d <= b
    ensures (k * b + d) % b == 0 <==> d == b
  {
    if d == b {
      assert k * b + d == (k + 1) * b + 0;
      DivModUnique(k * b + d, b, k + 1, 0);
    } else {
      DivModUnique(k * b + d, b, k, d);
    }
  }

  lemma MulMono(a: int, b: int, c: nat)
    requires a <= b
    ensures a * c <= b * c
  {
    assert b * c - a * c == (b - a) * c;
  }

  lemma MulStrict(a: int, b: int, c: nat)
    requires a < b && c >= 1
    ensures a * c < b * c
  {
    MulMono(1, b - a, c);
    assert b * c - a * c == (b - a) * c;
  }

  lemma DivBounds(a: nat, b: nat)
    requires b >= 1
    ensures (a / b) * b <= a < (a / b) * b + b
  {
  }

  /** Division is adjoint to multiplication: the rule for bounds on quotients. */
  lemma DivAtLeast(a: nat, b: nat, q: nat)
    requires b >= 1
    ensures q <= a / b <==> q * b <= a
  {
    DivBounds(a, b);
    if q <= a / b {
      MulMono(q, a / b, b);
    } else {
      MulMono(a / b + 1, q, b);
      assert (a / b + 1) * b == (a / b) * b + b;
    }
  }

  lemma DivMono(a: nat, b: nat, c: nat)
    requires a <= b && c >= 1
    ensures a / c <= b / c
  {
    DivBounds(a, c);
    DivAtLeast(b, c, a / c);
  }

  lemma CancelFactor(a: int, b: int, c: nat)
    requires c >= 1 && a * c < b * c
    ensures a < b
  {
    if b <= a {
      MulMono(b, a, c);
    }
  }
}
