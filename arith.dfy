/** Facts about multiplication and integer division used by the offset and coordinate proofs. */
module Arith {

  lemma MulLe(a: int, b: int, c: int)
    requires a <= b && 0 <= c
    ensures a * c <= b * c
  {
    assert b * c - a * c == (b - a) * c;
  }

  lemma MulMono(a: nat, b: nat, c: nat, d: nat)
    requires a <= b && c <= d
    ensures a * c <= b * d
  {
    MulLe(a, b, c);
    assert b * c <= b * d by {
      assert c * b <= d * b by {
        MulLe(c, d, b);
      }
    }
  }

  /** A strict inequality between two multiples of a positive number holds between the factors. */
  lemma MulCancelLt(a: int, b: int, d: int)
    requires 0 < d && a * d < b * d
    ensures a < b
  {
    if b <= a {
      MulLe(b, a, d);
    }
  }

  lemma DivMono(a: int, b: int, d: int)
    requires 0 <= a <= b && 0 < d
    ensures a / d <= b / d
  {
    var qa, qb := a / d, b / d;
    assert qa * d <= a;
    assert b < (qb + 1) * d;
    MulCancelLt(qa, qb + 1, d);
  }

  lemma MulDivCancel(d: int, a: int)
    requires 0 < d
    ensures (d * a) / d == a
  {
    var q, r := (d * a) / d, (d * a) % d;
    assert d * a == d * q + r && 0 <= r < d;
    assert (a - q) * d == r;
    if a - q >= 1 {
      MulLe(1, a - q, d);
    } else if a - q <= -1 {
      MulLe(a - q, -1, d);
    }
  }
}
