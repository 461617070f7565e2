/** The values of the scalar slice: what Python computes on them (sections 6.5 to 6.11
    of the Python Language Reference), what the runtime library computes on their C++
    representations, and why the two agree. */
module Values {
  import opened Options
  import opened Numbers
  import opened IntRuntime
  import opened FloatRuntime
  import opened CompareRuntime
  import opened StrRuntime

  // ---------- Python ----------

  datatype Value = PyNone | PyBool(b: bool) | PyInt(i: int) | PyFloat(d: Double) | PyStr(text: seq<Scalar>) {
    predicate IsIntegral() {
      PyBool? || PyInt?
    }

    predicate IsNumber() {
      IsIntegral() || PyFloat?
    }

    function AsInt(): int
      requires IsIntegral()
    {
      if PyBool? then Bit(b) else i
    }

    function AsDouble(ops: FloatOps): Double
      requires IsNumber()
    {
      if PyFloat? then d else ops.ofInt(AsInt())
    }

    function AsExact(): Double
      requires IsNumber()
    {
      if PyFloat? then d else ExactInt(AsInt())
    }

    predicate Truthy() {
      match this
      case PyNone => false
      case PyBool(b) => b
      case PyInt(i) => i != 0
      case PyFloat(d) => !d.IsZero()
      case PyStr(text) => text != []
    }
  }

  /** How a run can end early. Two failures CPython does not have: Overflow64 marks an int
      result the 64-bit runtime refuses to represent, and Shadowed a call that the emitter
      takes for the builtin print or len, the module having its own. Outside marks results for which
      the runtime does not follow CPython's own algorithm. */
  datatype Failure =
    | ZeroDivision
    | Overflow64
    | TypeMismatch
    | UnboundLocal(name: string)
    | UnboundGlobal(name: string)
    | UndefinedFunction(name: string)
    | Shadowed(name: string)
    | Outside
    | OutOfFuel

  datatype Result<+T> = Got(value: T) | Raised(failure: Failure)

  datatype BinaryOp = Plus | Minus | Times | Slash | DoubleSlash | Percent | DoubleStar | OtherBinary

  datatype UnaryOp = UnaryMinus | UnaryPlus | Not | Tilde

  /** An int result: exact, or with `cap` set only while it fits 64 bits. */
  function IntResult(cap: bool, n: int): Result<Value> {
    if cap && !FitsInt64(n) then Raised(Overflow64) else Got(PyInt(n))
  }

  function IntBinary(ops: FloatOps, cap: bool, op: BinaryOp, a: int, b: int): Result<Value> {
    match op
    case Plus => IntResult(cap, a + b)
    case Minus => IntResult(cap, a - b)
    case Times => IntResult(cap, a * b)
    case DoubleSlash => if b == 0 then Raised(ZeroDivision) else IntResult(cap, FloorDiv(a, b))
    case Percent => if b == 0 then Raised(ZeroDivision) else IntResult(cap, FloorMod(a, b))
    case DoubleStar => if b < 0 then Raised(Outside) else IntResult(cap, Power(a, b))
    case Slash =>
      if b == 0 then Raised(ZeroDivision)
      else if Abs(a) > TWO_TO_53 || Abs(b) > TWO_TO_53 then Raised(Outside)
      else Got(PyFloat(ops.div(ops.ofInt(a), ops.ofInt(b))))
    case OtherBinary => Raised(TypeMismatch)
  }

  function RealBinary(ops: FloatOps, op: BinaryOp, x: Double, y: Double): Result<Value> {
    match op
    case Plus => Got(PyFloat(ops.add(x, y)))
    case Minus => Got(PyFloat(ops.sub(x, y)))
    case Times => Got(PyFloat(ops.mul(x, y)))
    case Slash => if y.IsZero() then Raised(ZeroDivision) else Got(PyFloat(ops.div(x, y)))
    case DoubleSlash => if y.IsZero() then Raised(ZeroDivision) else Raised(Outside)
    case Percent => if y.IsZero() then Raised(ZeroDivision) else Got(PyFloat(ops.mod(x, y)))
    case DoubleStar => Raised(Outside)
    case OtherBinary => Raised(TypeMismatch)
  }

  function PyBinary(ops: FloatOps, cap: bool, op: BinaryOp, a: Value, b: Value): Result<Value> {
    if a.IsIntegral() && b.IsIntegral() then IntBinary(ops, cap, op, a.AsInt(), b.AsInt())
    else if a.IsNumber() && b.IsNumber() then RealBinary(ops, op, a.AsDouble(ops), b.AsDouble(ops))
    else if op == Plus && a.PyStr? && b.PyStr? then Got(PyStr(a.text + b.text))
    else if op == Times && a.PyStr? && b.IsIntegral() then Got(PyStr(Repeat(a.text, b.AsInt())))
    else if op == Times && a.IsIntegral() && b.PyStr? then Got(PyStr(Repeat(b.text, a.AsInt())))
    else Raised(TypeMismatch)
  }

  function PyUnary(cap: bool, op: UnaryOp, a: Value): Result<Value> {
    match op
    case Not => Got(PyBool(!a.Truthy()))
    case UnaryMinus =>
      if a.IsIntegral() then IntResult(cap, -a.AsInt())
      else if a.PyFloat? then Got(PyFloat(a.d.Negated()))
      else Raised(TypeMismatch)
    case UnaryPlus =>
      if a.IsIntegral() then Got(PyInt(a.AsInt()))
      else if a.PyFloat? then Got(a)
      else Raised(TypeMismatch)
    case Tilde => Raised(TypeMismatch)
  }

  predicate TextCompare(op: CompareOp, a: seq<int>, b: seq<int>) {
    match op
    case LtOp => LexLess(a, b)
    case LeOp => !LexLess(b, a)
    case GtOp => LexLess(b, a)
    case GeOp => !LexLess(a, b)
    case EqOp => a == b
    case NeOp => a != b
  }

  function PyCompare(op: CompareOp, a: Value, b: Value): Result<bool> {
    if a.IsNumber() && b.IsNumber() then Got(op.Holds(TrueOrder(a.AsExact(), b.AsExact())))
    else if a.PyStr? && b.PyStr? then Got(TextCompare(op, a.text, b.text))
    else if op == EqOp then Got(a == b)
    else if op == NeOp then Got(a != b)
    else Raised(TypeMismatch)
  }

  /** One printed value: the text's shape, with numerals left as the numbers they denote. */
  datatype Printed = BoolText(b: bool) | IntText(i: int) | FloatText(d: Double) | StrText(bytes: seq<Byte>) | NoneText

  function PyPrinted(v: Value): Printed {
    match v
    case PyNone => NoneText
    case PyBool(b) => BoolText(b)
    case PyInt(i) => IntText(i)
    case PyFloat(d) => FloatText(d)
    case PyStr(text) => StrText(Encode(text))
  }

  // ---------- C++ ----------

  /** The C++ classes of the runtime, which are also the emitter's scalar types. */
  datatype Kind = BoolKind | IntKind | FloatKind | StrKind | NoneKind

  datatype CppValue =
    | CppNone
    | CppBool(b: bool)
    | CppInt(i: IntValue)
    | CppFloat(f: FloatValue)
    | CppStr(bytes: seq<Byte>)
  {
    function Class(): Kind {
      match this
      case CppNone => NoneKind
      case CppBool(_) => BoolKind
      case CppInt(_) => IntKind
      case CppFloat(_) => FloatKind
      case CppStr(_) => StrKind
    }

    /** py::truthy, chosen by overload. */
    predicate Truthy() {
      match this
      case CppNone => false
      case CppBool(b) => b
      case CppInt(i) => i.raw != 0
      case CppFloat(f) => FloatRuntime.Truthy(f)
      case CppStr(bytes) => bytes != []
    }
  }

  /** A step of the compiled program. IllFormed: the emitted file would not compile, or
      its behaviour is undefined. Exhausted: the machine that runs it is out of fuel. */
  datatype CppResult<+T> = Ok(value: T) | Trapped | IllFormed | Exhausted

  /** A declaration without initializer default-constructs. */
  function DefaultOf(k: Kind): CppValue {
    match k
    case BoolKind => CppBool(false)
    case IntKind => CppInt(Plain(0))
    case FloatKind => CppFloat(Real(ZERO))
    case StrKind => CppStr([])
    case NoneKind => CppNone
  }

  function OfInt(r: Run<IntValue>): CppResult<CppValue> {
    match r
    case Done(v) => Ok(CppInt(v))
    case Trap => Trapped
  }

  function OfFloat(r: Run<FloatValue>): CppResult<CppValue> {
    match r
    case Done(v) => Ok(CppFloat(v))
    case Trap => Trapped
  }

  function ArithOf(op: BinaryOp): Arith
    requires op != Slash && op != DoubleStar && op != OtherBinary
  {
    match op
    case Plus => AddOp
    case Minus => SubOp
    case Times => MulOp
    case DoubleSlash => FloorDivOp
    case Percent => ModOp
  }

  function CppDivide(ops: FloatOps, a: CppValue, b: CppValue): CppResult<CppValue> {
    match (a, b)
    case (CppInt(x), CppInt(y)) => OfFloat(TrueDivide(ops, ops.ofInt(x.raw), ops.ofInt(y.raw)))
    case (CppFloat(x), CppFloat(y)) => OfFloat(TrueDivide(ops, x.Raw(ops), y.Raw(ops)))
    case (CppFloat(x), CppInt(y)) => OfFloat(TrueDivide(ops, x.Raw(ops), ops.ofInt(y.raw)))
    case (CppInt(x), CppFloat(y)) => OfFloat(TrueDivide(ops, ops.ofInt(x.raw), y.Raw(ops)))
    case _ => IllFormed
  }

  function CppArith(ops: FloatOps, op: Arith, a: CppValue, b: CppValue): CppResult<CppValue> {
    match (a, b)
    case (CppInt(x), CppInt(y)) => OfInt(IntArith(op, x, y))
    case (CppFloat(x), CppFloat(y)) => OfFloat(ArithFloatFloat(ops, op, x, y))
    case (CppFloat(x), CppInt(y)) => OfFloat(ArithFloatInt(ops, op, x, y))
    case (CppInt(x), CppFloat(y)) => OfFloat(ArithIntFloat(ops, op, x, y))
    case (CppStr(s), CppStr(t)) => if op == AddOp then Ok(CppStr(s + t)) else IllFormed
    case (CppStr(s), CppInt(n)) => if op == MulOp then Ok(CppStr(Repeat(s, n.raw))) else IllFormed
    case (CppInt(n), CppStr(s)) => if op == MulOp then Ok(CppStr(Repeat(s, n.raw))) else IllFormed
    case _ => IllFormed
  }

  function CppPower(ops: FloatOps, a: CppValue, b: CppValue): CppResult<CppValue> {
    match (a, b)
    case (CppInt(x), CppInt(y)) => OfInt(PowerOf(x, y))
    case (CppFloat(x), CppInt(y)) => OfFloat(PowFloat(ops, x, y))
    case _ => IllFormed
  }

  function CppBinary(ops: FloatOps, op: BinaryOp, a: CppValue, b: CppValue): CppResult<CppValue> {
    match op
    case Slash => CppDivide(ops, a, b)
    case DoubleStar => CppPower(ops, a, b)
    case OtherBinary => IllFormed
    case _ => CppArith(ops, ArithOf(op), a, b)
  }

  function CppUnary(op: UnaryOp, a: CppValue): CppResult<CppValue> {
    match op
    case Not => Ok(CppBool(!a.Truthy()))
    case UnaryMinus =>
      (match a
       case CppInt(x) => OfInt(Neg(x))
       case CppFloat(x) => OfFloat(NegFloat(x))
       case _ => IllFormed)
    case UnaryPlus =>
      (match a
       case CppInt(x) => Ok(CppInt(Pos(x)))
       case CppFloat(x) => Ok(CppFloat(PosFloat(x)))
       case _ => IllFormed)
    case Tilde => IllFormed
  }

  /** bool_ and int_ share the template over raw(). */
  predicate RawCompare(op: CompareOp, x: int, y: int) {
    match op
    case LtOp => x < y
    case LeOp => x <= y
    case GtOp => x > y
    case GeOp => x >= y
    case EqOp => x == y
    case NeOp => x != y
  }

  function CppCompare(ops: FloatOps, op: CompareOp, a: CppValue, b: CppValue): CppResult<bool> {
    match (a, b)
    case (CppBool(x), CppBool(y)) => Ok(RawCompare(op, Bit(x), Bit(y)))
    case (CppBool(x), CppInt(y)) => Ok(RawCompare(op, Bit(x), y.raw))
    case (CppInt(x), CppBool(y)) => Ok(RawCompare(op, x.raw, Bit(y)))
    case (CppInt(x), CppInt(y)) => Ok(RawCompare(op, x.raw, y.raw))
    case (CppBool(x), CppFloat(y)) => Ok(BoolFloat(ops, op, x, y))
    case (CppFloat(x), CppBool(y)) => Ok(FloatBool(ops, op, x, y))
    case (CppInt(x), CppFloat(y)) => Ok(IntFloat(op, x, y))
    case (CppFloat(x), CppInt(y)) => Ok(FloatInt(op, x, y))
    case (CppFloat(x), CppFloat(y)) => Ok(FloatFloat(op, x, y))
    case (CppStr(s), CppStr(t)) => Ok(TextCompare(op, s, t))
    case _ => IllFormed
  }

  /** py::to_int and py::to_float. */
  function CppToInt(a: CppValue): CppResult<CppValue> {
    match a
    case CppBool(b) => Ok(CppInt(BoolToInt(b)))
    case CppInt(_) => Ok(a)
    case _ => IllFormed
  }

  function CppToFloat(a: CppValue): CppResult<CppValue> {
    match a
    case CppBool(b) => Ok(CppFloat(BoolToFloat(b)))
    case CppInt(i) => Ok(CppFloat(IntToFloat(i)))
    case CppFloat(_) => Ok(a)
    case _ => IllFormed
  }

  function TaggedText(raw: int, tag: NumericTag): Printed {
    if tag == BoolTag then BoolText(raw != 0) else IntText(raw)
  }

  /** print_one, chosen by overload and then by tag. */
  function CppPrinted(a: CppValue): Printed {
    match a
    case CppNone => NoneText
    case CppBool(b) => BoolText(b)
    case CppInt(i) => TaggedText(i.raw, i.tag)
    case CppFloat(f) => if f.IsIntegral() then TaggedText(f.intValue, f.tag) else FloatText(f.doubleValue)
    case CppStr(bytes) => StrText(bytes)
  }

  // ---------- Representation ----------

  /** The Python object a tagged integral payload stands for. */
  function Tagged(raw: int, tag: NumericTag): Value {
    if tag == BoolTag then PyBool(raw != 0) else PyInt(raw)
  }

  /** The C++ value holds exactly this Python object, whatever its own class. */
  predicate Represents(c: CppValue, v: Value) {
    match c
    case CppNone => v == PyNone
    case CppBool(b) => v == PyBool(b)
    case CppInt(i) => i.tag != FloatTag && (i.tag == BoolTag ==> 0 <= i.raw <= 1) && v == Tagged(i.raw, i.tag)
    case CppFloat(f) =>
      if f.IsIntegral() then (f.tag == BoolTag ==> 0 <= f.intValue <= 1) && v == Tagged(f.intValue, f.tag)
      else v == PyFloat(f.doubleValue)
    case CppStr(bytes) => v.PyStr? && bytes == Encode(v.text)
  }

  /** A C++ outcome for a Python outcome. Ints that leave 64 bits and zero divisors
      trap; results outside the slice are not compared. */
  ghost predicate Matches(c: CppResult<CppValue>, r: Result<Value>, k: Kind) {
    match r
    case Got(v) => c.Ok? && Represents(c.value, v) && c.value.Class() == k
    case Raised(ZeroDivision) => c.Trapped?
    case Raised(Overflow64) => c.Trapped?
    case Raised(failure) => failure == Outside
  }

  /** The operand widening the emitter inserts: a bool operand of an operation that does
      not itself give a bool. */
  function WidenOperand(a: CppValue, k: Kind): CppValue {
    if a.CppBool? && k != BoolKind then CppInt(BoolToInt(a.b)) else a
  }

  /** The static type of a binary operation, None where the checker reports. */
  function BinaryKind(op: BinaryOp, a: Kind, b: Kind): (k: Option<Kind>) {
    if a.NoneKind? || b.NoneKind? || op == OtherBinary then None
    else if a.StrKind? && op == Percent then Some(StrKind)
    else if a.StrKind? && b.StrKind? then (if op == Plus then Some(StrKind) else None)
    else if a.StrKind? || b.StrKind? then
      (if op == Times && !a.FloatKind? && !b.FloatKind? then Some(StrKind) else None)
    else if op == Slash || a.FloatKind? || b.FloatKind? then Some(FloatKind)
    else Some(IntKind)
  }

  lemma WideningKeepsTheObject(a: CppValue, v: Value, k: Kind)
    requires Represents(a, v)
    ensures Represents(WidenOperand(a, k), v)
    ensures k != BoolKind ==> !WidenOperand(a, k).CppBool?
  {
  }

  /** Conversion into a wider slot keeps the object: `x: float = 1` still holds the int 1. */
  lemma ConversionKeepsTheObject(a: CppValue, v: Value)
    requires Represents(a, v)
    ensures a.CppBool? || a.CppInt? ==> CppToInt(a).Ok? && Represents(CppToInt(a).value, v)
    ensures a.CppBool? || a.CppInt? || a.CppFloat? ==> CppToFloat(a).Ok? && Represents(CppToFloat(a).value, v)
  {
  }

  lemma TruthAgrees(a: CppValue, v: Value)
    requires Represents(a, v)
    ensures a.Truthy() <==> v.Truthy()
  {
    if a.CppStr? && v.text != [] {
      assert EncodeOne(v.text[0]) != [];
    }
  }

  lemma PrintingAgrees(a: CppValue, v: Value)
    requires Represents(a, v)
    ensures CppPrinted(a) == PyPrinted(v)
  {
  }

  lemma IntArithAgrees(ops: FloatOps, op: BinaryOp, x: IntValue, y: IntValue)
    requires op != Slash && op != DoubleStar && op != OtherBinary
    ensures var r := IntArith(ArithOf(op), x, y);
      r.Done? ==> r.value.tag == IntTag && IntBinary(ops, true, op, x.raw, y.raw) == Got(PyInt(r.value.raw))
    ensures IntArith(ArithOf(op), x, y).Trap? ==>
      IntBinary(ops, true, op, x.raw, y.raw) in {Raised(ZeroDivision), Raised(Overflow64)}
  {
    FloorDivideIsPythons(x, y);
    ModuloIsPythons(x, y);
  }

  /** The number an operand enters double arithmetic with. */
  function RawDouble(ops: FloatOps, a: CppValue): Double
    requires a.CppInt? || a.CppFloat?
  {
    if a.CppInt? then ops.ofInt(a.i.raw) else a.f.Raw(ops)
  }

  /** The integral payload of an operand that holds an int or a bool. */
  function RawInt(a: CppValue): IntValue
    requires a.CppInt? || (a.CppFloat? && a.f.IsIntegral())
  {
    if a.CppInt? then a.i else a.f.AsInt()
  }

  lemma PayloadAgrees(ops: FloatOps, a: CppValue, v: Value)
    requires Represents(a, v) && (a.CppInt? || a.CppFloat?)
    ensures v.IsNumber() && RawDouble(ops, a) == v.AsDouble(ops)
    ensures v.IsIntegral() <==> a.CppInt? || a.f.IsIntegral()
    ensures v.IsIntegral() ==> RawInt(a).raw == v.AsInt()
  {
  }

  lemma ArithAgrees(ops: FloatOps, op: BinaryOp, a: CppValue, b: CppValue, v: Value, w: Value)
    requires op != Slash && op != DoubleStar && op != OtherBinary
    requires Represents(a, v) && Represents(b, w)
    requires (a.CppInt? || a.CppFloat?) && (b.CppInt? || b.CppFloat?)
    ensures Matches(CppArith(ops, ArithOf(op), a, b), PyBinary(ops, true, op, v, w),
                    if a.CppFloat? || b.CppFloat? then FloatKind else IntKind)
  {
    PayloadAgrees(ops, a, v);
    PayloadAgrees(ops, b, w);
    if v.IsIntegral() && w.IsIntegral() {
      var x, y := RawInt(a), RawInt(b);
      IntArithAgrees(ops, op, x, y);
      var r := IntArith(ArithOf(op), x, y);
      assert CppArith(ops, ArithOf(op), a, b) == if a.CppFloat? || b.CppFloat? then OfFloat(Retag(r)) else OfInt(r);
    } else {
      var r := DoubleArith(ops, ArithOf(op), RawDouble(ops, a), RawDouble(ops, b));
      assert CppArith(ops, ArithOf(op), a, b) == OfFloat(r);
      DoubleArithAgrees(ops, op, RawDouble(ops, a), RawDouble(ops, b));
    }
  }

  lemma DoubleArithAgrees(ops: FloatOps, op: BinaryOp, x: Double, y: Double)
    requires op != Slash && op != DoubleStar && op != OtherBinary
    ensures Matches(OfFloat(DoubleArith(ops, ArithOf(op), x, y)), RealBinary(ops, op, x, y), FloatKind)
  {
  }

  lemma DivideAgrees(ops: FloatOps, a: CppValue, b: CppValue, v: Value, w: Value)
    requires ops.Faithful()
    requires Represents(a, v) && Represents(b, w)
    requires (a.CppInt? || a.CppFloat?) && (b.CppInt? || b.CppFloat?)
    ensures Matches(CppDivide(ops, a, b), PyBinary(ops, true, Slash, v, w), FloatKind)
  {
    PayloadAgrees(ops, a, v);
    PayloadAgrees(ops, b, w);
    assert CppDivide(ops, a, b) == OfFloat(TrueDivide(ops, RawDouble(ops, a), RawDouble(ops, b)));
    if w.IsIntegral() {
      ConversionKeepsZero(ops, w.AsInt());
    }
  }

  lemma TextAddAgrees(ops: FloatOps, a: CppValue, b: CppValue, v: Value, w: Value)
    requires Represents(a, v) && Represents(b, w) && a.CppStr? && b.CppStr?
    ensures Matches(CppArith(ops, AddOp, a, b), PyBinary(ops, true, Plus, v, w), StrKind)
  {
    EncodeAdds(v.text, w.text);
    assert PyBinary(ops, true, Plus, v, w) == Got(PyStr(v.text + w.text));
  }

  lemma TextRepeatAgrees(ops: FloatOps, a: CppValue, b: CppValue, v: Value, w: Value)
    requires Represents(a, v) && Represents(b, w) && a.CppStr? && b.CppInt?
    ensures Matches(CppArith(ops, MulOp, a, b), PyBinary(ops, true, Times, v, w), StrKind)
    ensures Matches(CppArith(ops, MulOp, b, a), PyBinary(ops, true, Times, w, v), StrKind)
  {
    EncodeRepeats(v.text, b.i.raw);
    assert w.AsInt() == b.i.raw;
    assert PyBinary(ops, true, Times, v, w) == Got(PyStr(Repeat(v.text, b.i.raw)));
    assert PyBinary(ops, true, Times, w, v) == Got(PyStr(Repeat(v.text, b.i.raw)));
  }

  lemma PowerAgrees(ops: FloatOps, a: CppValue, b: CppValue, v: Value, w: Value)
    requires Represents(a, v) && Represents(b, w) && (a.CppInt? || a.CppFloat?)
    requires b.CppInt? && w.PyInt? && w.i >= 0
    ensures Matches(CppPower(ops, a, b), PyBinary(ops, true, DoubleStar, v, w), a.Class())
  {
    PayloadAgrees(ops, a, v);
    if v.IsIntegral() {
      assert CppPower(ops, a, b)
           == if a.CppInt? then OfInt(PowerOf(a.i, b.i)) else OfFloat(Retag(PowerOf(RawInt(a), b.i)));
    }
  }

  /** Every binary operation of the slice, over every mix of static class and held rank:
      the runtime call represents Python's result, and traps exactly when Python's exact
      int result leaves 64 bits or the divisor is zero. */
  lemma BinaryAgrees(ops: FloatOps, op: BinaryOp, a: CppValue, b: CppValue, v: Value, w: Value, k: Kind)
    requires ops.Faithful()
    requires Represents(a, v) && Represents(b, w)
    requires BinaryKind(op, a.Class(), b.Class()) == Some(k)
    requires !(op == Percent && a.CppStr?)
    requires op == DoubleStar ==> b.CppInt? && w.PyInt? && w.i >= 0
    ensures Matches(CppBinary(ops, op, WidenOperand(a, k), WidenOperand(b, k)), PyBinary(ops, true, op, v, w), k)
  {
    var x, y := WidenOperand(a, k), WidenOperand(b, k);
    WideningKeepsTheObject(a, v, k);
    WideningKeepsTheObject(b, w, k);
    if x.CppStr? && y.CppStr? {
      TextAddAgrees(ops, x, y, v, w);
    } else if x.CppStr? {
      TextRepeatAgrees(ops, x, y, v, w);
    } else if y.CppStr? {
      TextRepeatAgrees(ops, y, x, w, v);
    } else if op == Slash {
      DivideAgrees(ops, x, y, v, w);
    } else if op == DoubleStar {
      PowerAgrees(ops, x, y, v, w);
    } else {
      ArithAgrees(ops, op, x, y, v, w);
    }
  }

  /** Unary minus, plus and `not`: `-True` and `+True` are ints, and minus traps only on -2^63. */
  lemma UnaryAgrees(op: UnaryOp, a: CppValue, v: Value, k: Kind)
    requires Represents(a, v)
    requires if op == Not then k == BoolKind else op != Tilde && SignKind(a.Class()) == Some(k)
    ensures Matches(CppUnary(op, if op == Not then a else WidenOperand(a, k)), PyUnary(true, op, v), k)
  {
    if op == Not {
      TruthAgrees(a, v);
    } else {
      WideningKeepsTheObject(a, v, k);
      SignAgrees(op, WidenOperand(a, k), v);
    }
  }

  /** The static type of a signed operand. */
  function SignKind(k: Kind): Option<Kind> {
    match k
    case BoolKind => Some(IntKind)
    case IntKind => Some(IntKind)
    case FloatKind => Some(FloatKind)
    case _ => None
  }

  lemma SignAgrees(op: UnaryOp, a: CppValue, v: Value)
    requires Represents(a, v) && (a.CppInt? || a.CppFloat?)
    requires op == UnaryMinus || op == UnaryPlus
    ensures Matches(CppUnary(op, a), PyUnary(true, op, v), a.Class())
  {
    if a.CppInt? || a.f.IsIntegral() {
      var n := RawInt(a);
      assert v.AsInt() == n.raw;
      if op == UnaryPlus {
        assert CppUnary(op, a) == Ok(if a.CppInt? then CppInt(Plain(n.raw)) else CppFloat(IntToFloat(Plain(n.raw))));
      }
    }
  }

  predicate Comparable(a: Kind, b: Kind) {
    (IsTower(a) && IsTower(b)) || (a.StrKind? && b.StrKind?)
  }

  predicate IsTower(k: Kind) {
    k.BoolKind? || k.IntKind? || k.FloatKind?
  }

  /** Every comparison the emitter admits compiles and answers as Python does. */
  lemma CompareAgrees(ops: FloatOps, op: CompareOp, a: CppValue, b: CppValue, v: Value, w: Value)
    requires ops.Faithful()
    requires Represents(a, v) && Represents(b, w)
    requires Comparable(a.Class(), b.Class())
    ensures CppCompare(ops, op, a, b).Ok?
    ensures PyCompare(op, v, w) == Got(CppCompare(ops, op, a, b).value)
  {
    if a.CppStr? {
      ByteOrderIsCodePointOrder(v.text, w.text);
      ByteOrderIsCodePointOrder(w.text, v.text);
    } else {
      TowerCompareAgrees(ops, op, a, b, v, w);
    }
  }

  /** The exact number an operand of a comparison stands for. */
  function ExactOf(a: CppValue): Double
    requires IsTower(a.Class())
  {
    match a
    case CppBool(b) => ExactInt(Bit(b))
    case CppInt(i) => ExactInt(i.raw)
    case CppFloat(f) => Exact(f)
  }

  lemma ExactAgrees(a: CppValue, v: Value)
    requires Represents(a, v) && IsTower(a.Class())
    ensures v.IsNumber() && v.AsExact() == ExactOf(a)
  {
  }

  lemma RawCompareAgrees(op: CompareOp, x: int, y: int)
    ensures RawCompare(op, x, y) <==> op.Holds(TrueOrder(ExactInt(x), ExactInt(y)))
  {
  }

  lemma TowerCompareAgrees(ops: FloatOps, op: CompareOp, a: CppValue, b: CppValue, v: Value, w: Value)
    requires ops.Faithful()
    requires Represents(a, v) && Represents(b, w)
    requires IsTower(a.Class()) && IsTower(b.Class())
    ensures CppCompare(ops, op, a, b) == Ok(op.Holds(TrueOrder(ExactOf(a), ExactOf(b))))
    ensures PyCompare(op, v, w) == Got(op.Holds(TrueOrder(ExactOf(a), ExactOf(b))))
  {
    ExactAgrees(a, v);
    ExactAgrees(b, w);
    if a.CppFloat? {
      if b.CppFloat? {
        OperatorsAgree(ops, op, Plain(0), false, a.f, b.f);
      } else if b.CppInt? {
        OperatorsAgree(ops, op, b.i, false, a.f, a.f);
      } else {
        OperatorsAgree(ops, op, Plain(0), b.b, a.f, a.f);
      }
    } else if b.CppFloat? {
      if a.CppInt? {
        OperatorsAgree(ops, op, a.i, false, b.f, b.f);
      } else {
        OperatorsAgree(ops, op, Plain(0), a.b, b.f, b.f);
      }
    } else {
      RawCompareAgrees(op, if a.CppInt? then a.i.raw else Bit(a.b), if b.CppInt? then b.i.raw else Bit(b.b));
    }
  }
}
