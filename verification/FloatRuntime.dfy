/** runtime/cythonpp/float_.h: a float-declared slot holds a bool, an int or a real
    float, and its operations follow the rank actually held. */
module FloatRuntime {
  import opened Numbers
  import opened IntRuntime

  /** An IEEE-754 double. `negative` is the sign bit, which zero carries too. */
  datatype Double = NaN | NegInf | PosInf | Fin(value: real, negative: bool) {
    predicate IsZero() {
      Fin? && value == 0.0
    }

    function Negated(): Double {
      match this
      case NaN => NaN
      case NegInf => PosInf
      case PosInf => NegInf
      case Fin(v, n) => Fin(-v, !n)
    }
  }

  const TWO_TO_53: int := 0x20_0000_0000_0000

  /** The double operations of the platform, which the compiled program and CPython
      share. Nothing is assumed of them beyond Faithful. */
  datatype FloatOps = FloatOps(
    add: (Double, Double) -> Double,
    sub: (Double, Double) -> Double,
    mul: (Double, Double) -> Double,
    div: (Double, Double) -> Double,
    floorOfQuotient: (Double, Double) -> Double,
    mod: (Double, Double) -> Double,
    pow: (Double, Double) -> Double,
    ofInt: int -> Double,
    parse: string -> Double)
  {
    /** Conversion from int rounds: it is exact up to 2^53 and keeps the order. */
    ghost predicate Faithful() {
      && (forall i :: Abs(i) <= TWO_TO_53 ==> ofInt(i) == Fin(i as real, i < 0))
      && (forall i, j :: i <= j ==> ofInt(i).Fin? && ofInt(j).Fin? && ofInt(i).value <= ofInt(j).value)
    }
  }

  lemma ConversionKeepsZero(ops: FloatOps, i: int)
    requires ops.Faithful()
    ensures ops.ofInt(i).IsZero() <==> i == 0
  {
    assert ops.ofInt(1) == Fin(1.0, false);
    assert ops.ofInt(-1) == Fin(-1.0, true);
    assert i >= 1 ==> ops.ofInt(1).value <= ops.ofInt(i).value;
    assert i <= -1 ==> ops.ofInt(i).value <= ops.ofInt(-1).value;
  }

  datatype FloatValue = FloatValue(tag: NumericTag, intValue: int64, doubleValue: Double) {
    predicate IsIntegral() {
      tag != FloatTag
    }

    /** raw(): the held value as a double, converting when it is integral. */
    function Raw(ops: FloatOps): Double {
      if tag == FloatTag then doubleValue else ops.ofInt(intValue)
    }

    function AsInt(): IntValue
      requires IsIntegral()
    {
      IntValue(intValue, tag)
    }
  }

  const ZERO: Double := Fin(0.0, false)

  function Real(d: Double): FloatValue {
    FloatValue(FloatTag, 0, d)
  }

  function IntToFloat(v: IntValue): FloatValue {
    FloatValue(v.tag, v.raw, ZERO)
  }

  function BoolToFloat(b: bool): FloatValue {
    FloatValue(BoolTag, if b then 1 else 0, ZERO)
  }

  predicate Truthy(v: FloatValue) {
    if v.IsIntegral() then v.intValue != 0 else !v.doubleValue.IsZero()
  }

  /** The binary operators whose result rank follows the ranks held. */
  datatype Arith = AddOp | SubOp | MulOp | FloorDivOp | ModOp

  function IntArith(op: Arith, a: IntValue, b: IntValue): Run<IntValue> {
    match op
    case AddOp => Add(a, b)
    case SubOp => Sub(a, b)
    case MulOp => Mul(a, b)
    case FloorDivOp => FloorDivide(a, b)
    case ModOp => Modulo(a, b)
  }

  function DoubleArith(ops: FloatOps, op: Arith, x: Double, y: Double): Run<FloatValue> {
    match op
    case AddOp => Done(Real(ops.add(x, y)))
    case SubOp => Done(Real(ops.sub(x, y)))
    case MulOp => Done(Real(ops.mul(x, y)))
    case FloorDivOp => if y.IsZero() then Trap else Done(Real(ops.floorOfQuotient(x, y)))
    case ModOp => if y.IsZero() then Trap else Done(Real(ops.mod(x, y)))
  }

  function Retag(r: Run<IntValue>): Run<FloatValue> {
    match r
    case Done(v) => Done(IntToFloat(v))
    case Trap => Trap
  }

  function ArithFloatFloat(ops: FloatOps, op: Arith, a: FloatValue, b: FloatValue): Run<FloatValue> {
    if a.IsIntegral() && b.IsIntegral() then Retag(IntArith(op, a.AsInt(), b.AsInt()))
    else DoubleArith(ops, op, a.Raw(ops), b.Raw(ops))
  }

  function ArithFloatInt(ops: FloatOps, op: Arith, a: FloatValue, b: IntValue): Run<FloatValue> {
    if a.IsIntegral() then Retag(IntArith(op, a.AsInt(), b))
    else DoubleArith(ops, op, a.Raw(ops), ops.ofInt(b.raw))
  }

  function ArithIntFloat(ops: FloatOps, op: Arith, a: IntValue, b: FloatValue): Run<FloatValue> {
    if b.IsIntegral() then Retag(IntArith(op, a, b.AsInt()))
    else DoubleArith(ops, op, ops.ofInt(a.raw), b.Raw(ops))
  }

  function TrueDivide(ops: FloatOps, x: Double, y: Double): Run<FloatValue> {
    if y.IsZero() then Trap else Done(Real(ops.div(x, y)))
  }

  function NegFloat(a: FloatValue): Run<FloatValue> {
    if a.IsIntegral() then Retag(Neg(a.AsInt())) else Done(Real(a.doubleValue.Negated()))
  }

  function PosFloat(a: FloatValue): FloatValue {
    if a.IsIntegral() then IntToFloat(Pos(a.AsInt())) else Real(a.doubleValue)
  }

  function PowFloat(ops: FloatOps, base: FloatValue, exponent: IntValue): Run<FloatValue> {
    if exponent.raw < 0 then Trap
    else if base.IsIntegral() then Retag(PowerOf(base.AsInt(), exponent))
    else Done(Real(ops.pow(base.Raw(ops), ops.ofInt(exponent.raw))))
  }
}
