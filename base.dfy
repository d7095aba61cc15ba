/** Small shared vocabulary: Go's nil-able values become Option. */
module Base {

  /** A value that may be absent (Go's nil pointer, nil slice or missing map entry). */
  datatype Option<+T> = None | Some(value: T)

  /** Go's `int64` range. */
  const MinInt64: int := -0x8000_0000_0000_0000
  const MaxInt64: int := 0x7FFF_FFFF_FFFF_FFFF

  /** Go's integer division, which truncates toward zero (Dafny's `/` is Euclidean). */
  function GoDiv(a: int, b: int): (q: int)
    requires b != 0
    ensures b > 0 && a >= 0 ==> q == a / b
    ensures Abs(q * b) <= Abs(a) < Abs(q * b) + Abs(b)
    ensures q != 0 ==> (q > 0 <==> (a > 0) == (b > 0))
  {
    var q := if (a < 0) == (b < 0) then Abs(a) / Abs(b) else -(Abs(a) / Abs(b));
    TruncatedQuotient(a, b, q);
    TruncatedSign(a, b, q);
    q
  }

  /** The truncated quotient leaves a remainder smaller than the divisor in magnitude. */
  lemma TruncatedQuotient(a: int, b: int, q: int)
    requires b != 0
    requires q == if (a < 0) == (b < 0) then Abs(a) / Abs(b) else -(Abs(a) / Abs(b))
    ensures Abs(q * b) <= Abs(a) < Abs(q * b) + Abs(b)
  {
    NatDivBounds(Abs(a), Abs(b));
    AbsProduct(q, b);
    assert Abs(q) == Abs(a) / Abs(b);
  }

  /** A non-zero truncated quotient is positive exactly when the operands agree in sign. */
  lemma TruncatedSign(a: int, b: int, q: int)
    requires b != 0
    requires q == if (a < 0) == (b < 0) then Abs(a) / Abs(b) else -(Abs(a) / Abs(b))
    ensures q != 0 ==> (q > 0 <==> (a > 0) == (b > 0))
  {
    var q0 := Abs(a) / Abs(b);
    assert q0 >= 0 by { NatDivBounds(Abs(a), Abs(b)); }
    if a == 0 {
      assert q0 == 0 by { NatDivBounds(Abs(a), Abs(b)); }
    } else if (a < 0) == (b < 0) {
      assert (a > 0) == (b > 0);
      assert q == q0;
    } else {
      assert (a > 0) != (b > 0);
      assert q == -q0;
    }
  }

  lemma NatDivBounds(x: nat, y: nat)
    requires y > 0
    ensures (x / y) * y <= x < (x / y) * y + y
    ensures x == 0 ==> x / y == 0
    ensures x / y >= 0
  {
  }

  lemma AbsProduct(x: int, y: int)
    ensures Abs(x * y) == Abs(x) * Abs(y)
  {
    if x < 0 && y < 0 {
      assert x * y == (-x) * (-y);
    } else if x < 0 {
      assert -(x * y) == (-x) * y;
    } else if y < 0 {
      assert -(x * y) == x * (-y);
    }
  }

  function Abs(a: int): nat { if a < 0 then -a else a }
}
