/** runtime/cythonpp/int_.h: Python's int as a tagged 64-bit value whose
    operations trap instead of wrapping. */
module IntRuntime {
  import opened Numbers

  /** runtime/cythonpp/numeric_tag.h: the rank of the value actually held. */
  datatype NumericTag = BoolTag | IntTag | FloatTag

  /** A runtime call either returns or ends the process through py::fail. */
  datatype Run<+T> = Done(value: T) | Trap

  datatype IntValue = IntValue(raw: int64, tag: NumericTag)

  function Plain(raw: int64): IntValue {
    IntValue(raw, IntTag)
  }

  function BoolToInt(b: bool): IntValue {
    IntValue(if b then 1 else 0, BoolTag)
  }

  /** __builtin_*_overflow followed by the single-argument constructor. */
  function Checked(n: int): (r: Run<IntValue>)
    ensures r.Done? <==> FitsInt64(n)
    ensures r.Done? ==> r.value.raw == n && r.value.tag == IntTag
  {
    if FitsInt64(n) then Done(Plain(n)) else Trap
  }

  function Add(a: IntValue, b: IntValue): Run<IntValue> { Checked(a.raw + b.raw) }

  function Sub(a: IntValue, b: IntValue): Run<IntValue> { Checked(a.raw - b.raw) }

  function Mul(a: IntValue, b: IntValue): Run<IntValue> { Checked(a.raw * b.raw) }

  function Neg(a: IntValue): Run<IntValue> { Checked(0 - a.raw) }

  function Pos(a: IntValue): IntValue { Plain(a.raw) }

  function FloorDivide(a: IntValue, b: IntValue): Run<IntValue> {
    if b.raw == 0 then Trap
    else if a.raw == INT64_MIN && b.raw == -1 then Trap
    else
      var quotient := TruncDiv(a.raw, b.raw);
      var remainder := TruncMod(a.raw, b.raw);
      Checked(if remainder != 0 && (remainder < 0) != (b.raw < 0) then quotient - 1 else quotient)
  }

  function Modulo(a: IntValue, b: IntValue): Run<IntValue> {
    if b.raw == 0 then Trap
    else if a.raw == INT64_MIN && b.raw == -1 then Done(Plain(0))
    else
      var remainder := TruncMod(a.raw, b.raw);
      Checked(if remainder != 0 && (remainder < 0) != (b.raw < 0) then remainder + b.raw else remainder)
  }

  /** `//` on 64-bit values is Python's floor division; it traps exactly on a
      zero divisor and on the one quotient that leaves the 64-bit window. */
  lemma FloorDivideIsPythons(a: IntValue, b: IntValue)
    ensures b.raw == 0 ==> FloorDivide(a, b) == Trap
    ensures b.raw != 0 ==> FloorDivide(a, b) == Checked(FloorDiv(a.raw, b.raw))
  {
    if b.raw != 0 {
      var q, r := TruncDiv(a.raw, b.raw), TruncMod(a.raw, b.raw);
      TruncModMagnitude(a.raw, b.raw);
      if r != 0 && (r < 0) != (b.raw < 0) {
        assert b.raw * (q - 1) == b.raw * q - b.raw;
        FloorDivIsUnique(a.raw, b.raw, q - 1, r + b.raw);
      } else {
        FloorDivIsUnique(a.raw, b.raw, q, r);
      }
      if a.raw == INT64_MIN && b.raw == -1 {
        assert FloorDiv(a.raw, b.raw) == INT64_MAX + 1;
      }
    }
  }

  /** `%` is Python's modulo, has the divisor's sign, and traps only on zero. */
  lemma ModuloIsPythons(a: IntValue, b: IntValue)
    ensures b.raw == 0 ==> Modulo(a, b) == Trap
    ensures b.raw != 0 ==> FitsInt64(FloorMod(a.raw, b.raw))
    ensures b.raw != 0 ==> Modulo(a, b) == Done(Plain(FloorMod(a.raw, b.raw)))
  {
    if b.raw != 0 {
      var q, r := TruncDiv(a.raw, b.raw), TruncMod(a.raw, b.raw);
      TruncModMagnitude(a.raw, b.raw);
      if r != 0 && (r < 0) != (b.raw < 0) {
        assert b.raw * (q - 1) == b.raw * q - b.raw;
        FloorDivIsUnique(a.raw, b.raw, q - 1, r + b.raw);
      } else {
        FloorDivIsUnique(a.raw, b.raw, q, r);
      }
    }
  }

  /** What `**` must deliver: the exact power, or a trap when it does not fit. */
  function PowerOf(base: IntValue, exponent: IntValue): (r: Run<IntValue>) {
    if exponent.raw < 0 then Trap else Checked(Power(base.raw, exponent.raw))
  }

  /** A factor that does not fit makes the final power not fit: what is still to be
      multiplied in is an even power, so it can neither shrink the value nor flip its sign. */
  lemma OverflowIsFinal(product: int, factor: int, rest: nat)
    requires factor != 0 && rest % 2 == 0
    requires !FitsInt64(product)
    ensures !FitsInt64(product * Power(factor, rest))
  {
    EvenPowerIsPositive(factor, rest);
    var m := Power(factor, rest);
    assert product * m == product + product * (m - 1);
    if product > 0 { assert product * (m - 1) >= 0; } else { assert product * (m - 1) <= 0; }
  }

  /** No square lies in the gap at exactly 2^63, so an overflowing square is strictly
      larger and even a result of -1 times it leaves the 64-bit window. */
  lemma SquareOverflowIsFinal(result: int, factor: int, rest: nat)
    requires result != 0 && rest >= 1
    requires !FitsInt64(factor * factor)
    ensures !FitsInt64(result * Power(factor * factor, rest))
  {
    var square, m := factor * factor, Power(factor * factor, rest);
    SquareSkipsTheGap(factor);
    PowerAtLeastBase(square, rest);
    assert m > INT64_MAX + 1;
    if result >= 1 {
      MulMonotone(1, result, m);
    } else {
      MulMonotone(result, -1, m);
    }
  }

  lemma SquareSkipsTheGap(factor: int)
    ensures factor * factor <= INT64_MAX || factor * factor > INT64_MAX + 1
  {
    var root := Abs(factor);
    assert factor * factor == root * root;
    if root <= 3037000499 {
      MulMonotone(root, 3037000499, root);
      MulMonotone(root, 3037000499, 3037000499);
      assert root * 3037000499 == 3037000499 * root;
    } else {
      MulMonotone(3037000500, root, root);
      MulMonotone(3037000500, root, 3037000500);
      assert root * 3037000500 == 3037000500 * root;
    }
  }

  /** Squaring loop of py::pow: exact, and it traps exactly when the power itself
      leaves 64 bits, never on an intermediate square or product. */
  method Pow(base: IntValue, exponent: IntValue) returns (r: Run<IntValue>)
    ensures r == PowerOf(base, exponent)
  {
    if exponent.raw < 0 {
      return Trap;
    }
    var result := Plain(1);
    var factor := base;
    var remaining: int := exponent.raw;
    while remaining > 0
      invariant 0 <= remaining
      invariant result.tag == IntTag
      invariant result.raw * Power(factor.raw, remaining) == Power(base.raw, exponent.raw)
      invariant result.raw == 0 ==> factor.raw == 0
    {
      ghost var whole: nat := remaining;
      if remaining % 2 != 0 {
        TakeFactor(result.raw, factor.raw, whole);
        var product := Mul(result, factor);
        if product.Trap? {
          if factor.raw != 0 { OverflowIsFinal(result.raw * factor.raw, factor.raw, whole - 1); }
          return Trap;
        }
        if result.raw != 0 && factor.raw != 0 { ProductNonZero(result.raw, factor.raw); }
        result := product.value;
      }
      remaining := remaining / 2;
      PowerOfSquare(factor.raw, remaining);
      if remaining > 0 {
        var square := Mul(factor, factor);
        if square.Trap? {
          SquareOverflowIsFinal(result.raw, factor.raw, remaining);
          return Trap;
        }
        factor := square.value;
      }
    }
    r := Done(result);
  }

  lemma TakeFactor(result: int, factor: int, n: nat)
    requires n >= 1
    ensures result * Power(factor, n) == result * factor * Power(factor, n - 1)
  {
    assert result * (factor * Power(factor, n - 1)) == result * factor * Power(factor, n - 1);
  }

  lemma ProductNonZero(a: int, b: int)
    requires a != 0 && b != 0
    ensures a * b != 0
  {
  }
}
