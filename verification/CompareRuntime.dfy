/** runtime/cythonpp/compare.h: exact comparison between 64-bit ints and doubles,
    and the six operators built from it. */
module CompareRuntime {
  import opened Numbers
  import opened IntRuntime
  import opened FloatRuntime

  /** The four-way result: -1, 0, 1, and 2 for a NaN on either side. */
  datatype Order = Before | Same | After | Unordered {
    function Flipped(): Order {
      match this
      case Before => After
      case After => Before
      case _ => this
    }
  }

  datatype CompareOp = LtOp | LeOp | GtOp | GeOp | EqOp | NeOp {
    predicate Holds(order: Order) {
      match this
      case LtOp => order == Before
      case LeOp => order == Before || order == Same
      case GtOp => order == After
      case GeOp => order == After || order == Same
      case EqOp => order == Same
      case NeOp => order != Same
    }

    /** The operator that asks the same question with the operands exchanged. */
    function Mirrored(): CompareOp {
      match this
      case LtOp => GtOp
      case LeOp => GeOp
      case GtOp => LtOp
      case GeOp => LeOp
      case _ => this
    }
  }

  function Compare3(x: int, y: int): Order {
    if x < y then Before else if x > y then After else Same
  }

  /** Mathematical order on the extended reals; zero's sign bit is not looked at. */
  function TrueOrder(x: Double, y: Double): Order {
    if x.NaN? || y.NaN? then Unordered
    else if x.Fin? && y.Fin? then
      if x.value < y.value then Before else if x.value > y.value then After else Same
    else Compare3(Infinity(x), Infinity(y))
  }

  function Infinity(x: Double): int {
    if x.NegInf? then -1 else if x.PosInf? then 1 else 0
  }

  /** The value a float-declared slot stands for, with no rounding. */
  function Exact(f: FloatValue): Double {
    if f.IsIntegral() then ExactInt(f.intValue) else f.doubleValue
  }

  function ExactInt(i: int): Double {
    Fin(i as real, i < 0)
  }

  function Bit(b: bool): int {
    if b then 1 else 0
  }

  const TWO_TO_63: real := 9223372036854775808.0

  function CompareInt64AndDouble(i: int64, d: Double): Order {
    if d.NaN? then Unordered
    else if d.PosInf? || (d.Fin? && d.value >= TWO_TO_63) then Before
    else if d.NegInf? || (d.Fin? && d.value < -TWO_TO_63) then After
    else
      var floor := d.value.Floor;
      if i < floor then Before
      else if i > floor then After
      else if d.value > floor as real then Before
      else Same
  }

  function CompareInt64AndFloat(i: int64, f: FloatValue): Order {
    if f.IsIntegral() then Compare3(i, f.intValue) else CompareInt64AndDouble(i, f.doubleValue)
  }

  function CompareFloatAndFloat(a: FloatValue, b: FloatValue): Order {
    if a.IsIntegral() && b.IsIntegral() then Compare3(a.intValue, b.intValue)
    else if a.IsIntegral() then CompareInt64AndFloat(a.intValue, b)
    else if b.IsIntegral() then CompareInt64AndFloat(b.intValue, a).Flipped()
    else
      var x, y := a.doubleValue, b.doubleValue;
      TrueOrder(x, y)
  }

  /** Taking the floor first loses nothing: the result is the mathematical order,
      with infinities and NaN in their places, and no int is ever rounded. */
  lemma CompareInt64AndDoubleIsExact(i: int64, d: Double)
    ensures CompareInt64AndDouble(i, d) == TrueOrder(ExactInt(i), d)
  {
    if d.Fin? {
      var floor := d.value.Floor;
      assert floor as real <= d.value < (floor + 1) as real;
      assert i < floor ==> i + 1 <= floor;
      assert i > floor ==> i >= floor + 1;
    }
  }

  lemma CompareInt64AndFloatIsExact(i: int64, f: FloatValue)
    ensures CompareInt64AndFloat(i, f) == TrueOrder(ExactInt(i), Exact(f))
  {
    if !f.IsIntegral() {
      CompareInt64AndDoubleIsExact(i, f.doubleValue);
    }
  }

  /** Whatever each side holds, comparison is by exact value. */
  lemma CompareFloatAndFloatIsExact(a: FloatValue, b: FloatValue)
    ensures CompareFloatAndFloat(a, b) == TrueOrder(Exact(a), Exact(b))
  {
    if a.IsIntegral() && !b.IsIntegral() {
      CompareInt64AndFloatIsExact(a.intValue, b);
    } else if !a.IsIntegral() && b.IsIntegral() {
      CompareInt64AndFloatIsExact(b.intValue, a);
    }
  }

  predicate AtMost(a: FloatValue, b: FloatValue) {
    var order := CompareFloatAndFloat(a, b);
    order == Before || order == Same
  }

  /** Over every mix of ranks the comparison is antisymmetric, and transitive as long
      as no NaN takes part. */
  lemma ComparisonIsAnOrder(a: FloatValue, b: FloatValue, c: FloatValue)
    ensures CompareFloatAndFloat(b, a) == CompareFloatAndFloat(a, b).Flipped()
    ensures CompareFloatAndFloat(a, b) == Unordered <==> Exact(a).NaN? || Exact(b).NaN?
    ensures AtMost(a, b) && AtMost(b, c) ==> AtMost(a, c)
    ensures AtMost(a, b) && AtMost(b, c) && CompareFloatAndFloat(a, c) == Same
        ==> CompareFloatAndFloat(a, b) == Same && CompareFloatAndFloat(b, c) == Same
  {
    CompareFloatAndFloatIsExact(a, b);
    CompareFloatAndFloatIsExact(b, a);
    CompareFloatAndFloatIsExact(b, c);
    CompareFloatAndFloatIsExact(a, c);
  }

  /** The operators with an int on the left, and their mirror image. */
  predicate IntFloat(op: CompareOp, a: IntValue, b: FloatValue) {
    op.Holds(CompareInt64AndFloat(a.raw, b))
  }

  predicate FloatInt(op: CompareOp, a: FloatValue, b: IntValue) {
    var c := CompareInt64AndFloat(b.raw, a);
    match op
    case LtOp => c == After
    case LeOp => c == After || c == Same
    case GtOp => c == Before
    case GeOp => c == Before || c == Same
    case EqOp => c == Same
    case NeOp => c != Same
  }

  predicate FloatFloat(op: CompareOp, a: FloatValue, b: FloatValue) {
    op.Holds(CompareFloatAndFloat(a, b))
  }

  /** The template over `.raw()` with a bool on one side: the bool becomes a double and
      so does an integral slot, which here can round but not change the answer. */
  predicate BoolFloat(ops: FloatOps, op: CompareOp, a: bool, b: FloatValue) {
    op.Holds(TrueOrder(ExactInt(Bit(a)), b.Raw(ops)))
  }

  predicate FloatBool(ops: FloatOps, op: CompareOp, a: FloatValue, b: bool) {
    op.Holds(TrueOrder(a.Raw(ops), ExactInt(Bit(b))))
  }

  /** Every overload, in both operand orders, answers from the same exact order. */
  lemma OperatorsAgree(ops: FloatOps, op: CompareOp, i: IntValue, b: bool, f: FloatValue, g: FloatValue)
    requires ops.Faithful()
    ensures IntFloat(op, i, f) <==> op.Holds(TrueOrder(ExactInt(i.raw), Exact(f)))
    ensures FloatInt(op, f, i) <==> op.Holds(TrueOrder(Exact(f), ExactInt(i.raw)))
    ensures FloatInt(op, f, i) <==> IntFloat(op.Mirrored(), i, f)
    ensures FloatFloat(op, f, g) <==> op.Holds(TrueOrder(Exact(f), Exact(g)))
    ensures FloatFloat(op, f, g) <==> FloatFloat(op.Mirrored(), g, f)
    ensures BoolFloat(ops, op, b, f) <==> op.Holds(TrueOrder(ExactInt(Bit(b)), Exact(f)))
    ensures FloatBool(ops, op, f, b) <==> op.Holds(TrueOrder(Exact(f), ExactInt(Bit(b))))
  {
    CompareInt64AndFloatIsExact(i.raw, f);
    CompareFloatAndFloatIsExact(f, g);
    CompareFloatAndFloatIsExact(g, f);
    ComparisonIsAnOrder(f, g, f);
    if f.IsIntegral() {
      RoundingKeepsBoolOrder(ops, f.intValue, b);
    }
  }

  lemma RoundingKeepsBoolOrder(ops: FloatOps, i: int, b: bool)
    requires ops.Faithful()
    ensures TrueOrder(ops.ofInt(i), ExactInt(Bit(b))) == TrueOrder(ExactInt(i), ExactInt(Bit(b)))
    ensures TrueOrder(ExactInt(Bit(b)), ops.ofInt(i)) == TrueOrder(ExactInt(Bit(b)), ExactInt(i))
  {
    assert ops.ofInt(2) == Fin(2.0, false) && ops.ofInt(-1) == Fin(-1.0, true);
    assert ops.ofInt(0) == Fin(0.0, false) && ops.ofInt(1) == Fin(1.0, false);
    assert i >= 2 ==> ops.ofInt(2).value <= ops.ofInt(i).value;
    assert i <= -1 ==> ops.ofInt(i).value <= ops.ofInt(-1).value;
  }
}
