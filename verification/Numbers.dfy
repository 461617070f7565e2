/** Exact integer arithmetic: what Python computes on ints of any size, and the
    64-bit window that the compiled program may represent. */
module Numbers {
  const INT64_MIN: int := -0x8000_0000_0000_0000
  const INT64_MAX: int := 0x7FFF_FFFF_FFFF_FFFF

  type int64 = n: int | -0x8000_0000_0000_0000 <= n <= 0x7FFF_FFFF_FFFF_FFFF

  predicate FitsInt64(n: int) {
    INT64_MIN <= n <= INT64_MAX
  }

  function Abs(n: int): nat {
    if n < 0 then -n else n
  }

  function Power(base: int, exponent: nat): int {
    if exponent == 0 then 1 else base * Power(base, exponent - 1)
  }

  /** Python's `//`: the quotient rounded toward negative infinity. */
  function FloorDiv(a: int, b: int): int
    requires b != 0
  {
    if b > 0 then a / b else (-a) / (-b)
  }

  /** Python's `%`: the remainder that goes with FloorDiv. */
  function FloorMod(a: int, b: int): int
    requires b != 0
  {
    a - b * FloorDiv(a, b)
  }

  /** C++'s `/`: the quotient rounded toward zero. */
  function TruncDiv(a: int, b: int): int
    requires b != 0
  {
    if (a < 0) == (b < 0) then Abs(a) / Abs(b) else -(Abs(a) / Abs(b))
  }

  /** C++'s `%`: the remainder that goes with TruncDiv. */
  function TruncMod(a: int, b: int): int
    requires b != 0
  {
    a - b * TruncDiv(a, b)
  }

  /** The quotient and remainder of Python's division are the only pair whose
      remainder lies between zero and the divisor, on the divisor's side. */
  lemma FloorDivIsUnique(a: int, b: int, q: int, r: int)
    requires b != 0
    ensures (a == b * q + r && (if b > 0 then 0 <= r < b else b < r <= 0))
       <==> (q == FloorDiv(a, b) && r == FloorMod(a, b))
  {
    var q', r' := FloorDiv(a, b), FloorMod(a, b);
    assert if b > 0 then 0 <= r' < b else b < r' <= 0 by {
      if b < 0 {
        assert -a == (-b) * ((-a) / (-b)) + (-a) % (-b);
        assert b * ((-a) / (-b)) == -((-b) * ((-a) / (-b)));
      }
    }
    if a == b * q + r && (if b > 0 then 0 <= r < b else b < r <= 0) {
      assert b * (q - q') == r' - r by {
        assert b * (q - q') == b * q - b * q';
      }
      MultipleInsideDivisor(b, q - q');
    }
  }

  lemma MultipleInsideDivisor(b: int, k: int)
    requires b != 0
    ensures k != 0 ==> Abs(b * k) >= Abs(b)
  {
    if k >= 1 {
      assert b * k == b + b * (k - 1);
      if b > 0 { assert b * (k - 1) >= 0; } else { assert b * (k - 1) <= 0; }
    } else if k <= -1 {
      assert b * k == -b + b * (k + 1);
      if b > 0 { assert b * (k + 1) <= 0; } else { assert b * (k + 1) >= 0; }
    }
  }

  lemma TruncModMagnitude(a: int, b: int)
    requires b != 0
    ensures Abs(TruncMod(a, b)) < Abs(b)
    ensures TruncMod(a, b) == 0 || ((TruncMod(a, b) < 0) == (a < 0))
  {
    var m, d: int := Abs(a), Abs(b);
    var q: int := m / d;
    assert m == d * q + m % d && 0 <= m % d < d;
    SignsOfProduct(b, q);
  }

  lemma SignsOfProduct(b: int, q: int)
    ensures b * q == if b < 0 then -(Abs(b) * q) else Abs(b) * q
    ensures b * (-q) == if b < 0 then Abs(b) * q else -(Abs(b) * q)
  {
  }

  lemma MulMonotone(a: int, b: int, c: int)
    requires a <= b && 0 <= c
    ensures a * c <= b * c
  {
    assert (b - a) * c >= 0;
  }

  lemma {:induction false} PowerAdds(base: int, m: nat, n: nat)
    ensures Power(base, m + n) == Power(base, m) * Power(base, n)
  {
    if m > 0 {
      PowerAdds(base, m - 1, n);
      MulAssociates(base, Power(base, m - 1), Power(base, n));
    }
  }

  lemma {:induction false} PowerOfSquare(base: int, n: nat)
    ensures Power(base * base, n) == Power(base, 2 * n)
  {
    if n > 0 {
      PowerOfSquare(base, n - 1);
      var p := Power(base, 2 * (n - 1));
      assert Power(base, 2 * n - 1) == base * p;
      assert Power(base, 2 * n) == base * (base * p);
      MulAssociates(base, base, p);
    }
  }

  lemma MulAssociates(a: int, b: int, c: int)
    ensures a * (b * c) == (a * b) * c
  {
  }

  lemma {:induction false} PowerAtLeastBase(base: int, n: nat)
    requires base >= 1
    ensures Power(base, n) >= 1
    ensures n >= 1 ==> Power(base, n) >= base
  {
    if n > 0 {
      PowerAtLeastBase(base, n - 1);
      MulMonotone(1, Power(base, n - 1), base);
      assert Power(base, n - 1) * base == base * Power(base, n - 1);
    }
  }

  lemma EvenPowerIsPositive(base: int, n: nat)
    requires base != 0 && n % 2 == 0
    ensures Power(base, n) >= 1
  {
    PowerOfSquare(base, n / 2);
    assert base * base >= 1;
    PowerAtLeastBase(base * base, n / 2);
  }
}
