/** The compiled program does what Python does: every run of an accepted scope is matched
    by the run of its C++, with the same output, the same variables and the same outcome. */
module Simulation {
  import opened Options
  import opened Numbers
  import opened IntRuntime
  import opened StrRuntime
  import opened FloatRuntime
  import opened CompareRuntime
  import opened Values
  import opened Syntax
  import opened Literals
  import opened PythonMachine
  import opened DefiniteAssignment
  import opened CppMachine
  import opened Lowering
  import opened ReturnPaths

  // ---------- What the checker has established ----------

  /** Every expression has a scalar type, returns fit the annotation as mypy requires, and
      every assigned name has a slot. */
  predicate BlockTyped(site: Site, body: seq<Stmt>)
    decreases body, 0
  {
    body == [] || (StmtTyped(site, body[0]) && BlockTyped(site, body[1..]))
  }

  predicate StmtTyped(site: Site, s: Stmt)
    decreases s, 0
  {
    match s
    case ExprStmt(e) => TypeOf(site.types, e).Some?
    case Assign(target, value) => TypeOf(site.types, value).Some? && (target.NameTarget? ==> target.id in site.slots)
    case AnnAssign(target, _, initial) =>
      (initial.Some? ==> TypeOf(site.types, initial.value).Some?) && (target.NameTarget? ==> target.id in site.slots)
    case Return(result) =>
      if result.Some? then TypeOf(site.types, result.value).Some? else site.result == NoneKind
    case If(cond, body, orelse) => TypeOf(site.types, cond).Some? && BlockTyped(site, body) && BlockTyped(site, orelse)
    case While(cond, body, orelse) =>
      TypeOf(site.types, cond).Some? && BlockTyped(site, body) && BlockTyped(site, orelse)
    case _ => true
  }

  // ---------- The two programs ----------

  /** A Python program and its C++ side by side, seen from one scope. `localTypes` gives the
      checker's types for the names local to each function. */
  datatype World = World(ctx: Ctx, cpp: CppCtx, types: Types, localTypes: map<string, map<string, Kind>>)

  function FunctionSite(types: Types, locals: map<string, Kind>, result: Kind): Site {
    Site(Types(types.globals, locals, types.functions), locals, result, 0, false)
  }

  /** `cf` is what the emitter writes for `f`: its parameters, one declaration per other
      local name, its body, and a final `return py::none;` where the result is None. */
  ghost predicate FunctionLinked(
      types: Types, locals: map<string, Kind>, f: Function, sig: Signature, cf: CppFunction) {
    && |f.params| == |sig.params|
    && (forall i, j :: 0 <= i < j < |f.params| ==> f.params[i] != f.params[j])
    && Ids(cf.params) == f.params
    && (forall i :: 0 <= i < |sig.params| ==> cf.params[i].1 == sig.params[i])
    && cf.result == sig.result
    && locals.Keys == LocalNames(f)
    && (forall i :: 0 <= i < |f.params| ==> locals[f.params[i]] == sig.params[i])
    && cf.locals == (map id | id in locals && id !in f.params :: locals[id])
    && WellPlaced(f.body, false, true)
    && (sig.result != NoneKind ==> AlwaysReturns(FunctionSite(types, locals, sig.result).types, f.body))
    && BlockTyped(FunctionSite(types, locals, sig.result), f.body)
    && var body := LowerBlock(FunctionSite(types, locals, sig.result), f.body);
       body.Some? && cf.body == body.value + Tail(sig.result)
  }

  /** Every function has its C++ beside it. A print of the module's own is no function of
      the Python side here: its calls are emitted as calls of the builtin, and it is as the
      emitter has it that the module is followed. */
  ghost predicate Linked(w: World) {
    && w.ctx.ops == w.cpp.ops && w.ctx.ops.Faithful() && w.ctx.cap && FunctionsChecked(w.ctx)
    && w.types.functions.Keys == w.cpp.functions.Keys == w.localTypes.Keys
    && w.ctx.functions.Keys == w.types.functions.Keys - {"print"}
    && forall id {:trigger LinkedAt(w, id)} :: LinkedAt(w, id)
  }

  ghost predicate LinkedAt(w: World, id: string) {
    id in w.ctx.functions && id in w.types.functions && id in w.cpp.functions && id in w.localTypes ==>
      FunctionLinked(w.types, w.localTypes[id], w.ctx.functions[id], w.types.functions[id], w.cpp.functions[id])
  }

  predicate ScopeFits(w: World) {
    match w.ctx.scope
    case ModuleScope => w.types.locals == map[]
    case FunctionScope(names) => w.types.locals.Keys == names
  }

  predicate SiteFits(w: World, site: Site) {
    && ScopeFits(w)
    && site.types == w.types
    && site.slots == (if w.ctx.scope.ModuleScope? then w.types.globals else w.types.locals)
    && (site.hasElse ==> site.depth > 0)
  }

  // ---------- The two states ----------

  predicate StoreFits(kinds: map<string, Kind>, store: map<string, Value>, cppStore: map<string, CppValue>) {
    && (forall id :: id in kinds ==> id in cppStore && cppStore[id].Class() == kinds[id])
    && (forall id :: id in store ==> id in kinds && Represents(cppStore[id], store[id]))
  }

  /** Every declared C++ variable has its class, and each name Python has bound is held by
      its variable. A name Python has not bound may hold any default. */
  predicate Matched(w: World, st: State, cst: CppState) {
    && st.output == cst.output
    && StoreFits(w.types.globals, st.globals, cst.globals)
    && StoreFits(w.types.locals, st.locals, cst.locals)
    && cst.locals.Keys == w.types.locals.Keys
    && (w.ctx.scope.ModuleScope? ==> st.locals == map[])
  }

  // ---------- The two outcomes ----------

  /** Runs the comparison does not speak about: an unbound name, and results for which the
      runtime does not follow CPython's own algorithm. A name unbound in its own scope is
      at least one the checker knows there. */
  predicate Excluded(w: World, failure: Failure) {
    match failure
    case UnboundLocal(name) => name in w.types.globals || name in w.types.locals
    case UnboundGlobal(name) => name in w.types.globals
    case UndefinedFunction(_) => true
    case Shadowed(_) => true
    case Outside => true
    case _ => false
  }

  /** How the compiled program ends for each of Python's failures. */
  predicate StopsFor(why: CppResult<()>, failure: Failure) {
    match failure
    case ZeroDivision => why.Trapped?
    case Overflow64 => why.Trapped?
    case OutOfFuel => why.Exhausted?
    case _ => false
  }

  predicate ExprMatches(w: World, r: Evaluated<Value>, c: CppEvaluated<CppValue>, k: Kind) {
    match r.result
    case Got(v) => c.result.Ok? && Represents(c.result.value, v) && c.result.value.Class() == k && c.output == r.output
    case Raised(f) => Excluded(w, f) || (!c.result.Ok? && StopsFor(Why(c.result), f) && c.output == r.output)
  }

  predicate AllRepresent(cs: seq<CppValue>, vs: seq<Value>) {
    |cs| == |vs| && forall i :: 0 <= i < |cs| ==> Represents(cs[i], vs[i])
  }

  predicate ArgsMatch(w: World, r: Evaluated<seq<Value>>, c: CppEvaluated<seq<CppValue>>) {
    match r.result
    case Got(vs) => c.result.Ok? && AllRepresent(c.result.value, vs) && c.output == r.output
    case Raised(f) => Excluded(w, f) || (!c.result.Ok? && StopsFor(Why(c.result), f) && c.output == r.output)
  }

  /** The flag of the enclosing loop is raised by a break out of it, and by nothing else. */
  function FlagsAfter(site: Site, flags: seq<(nat, bool)>, outcome: Outcome): seq<(nat, bool)> {
    if outcome.Broke? && site.hasElse && site.depth > 0 then RaiseFlag(flags, site.depth - 1) else flags
  }

  predicate FlagsReady(site: Site, flags: seq<(nat, bool)>) {
    site.hasElse && site.depth > 0 ==> FindFlag(flags, site.depth - 1).Some?
  }

  predicate OutcomeMatches(w: World, o: Outcome, c: CppOutcome, result: Kind) {
    match o
    case Normal => c.CppNormal?
    case Broke => c.CppBroke?
    case Continued => c.CppContinued?
    case Returned(v) => c.CppReturned? && Represents(c.value, v) && c.value.Class() == result
    case Failed(f) => Excluded(w, f) || (c.CppStopped? && StopsFor(c.why, f))
  }

  predicate RunMatches(w: World, site: Site, x: Executed, c: CppExecuted, flags: seq<(nat, bool)>) {
    && OutcomeMatches(w, x.outcome, c.outcome, site.result)
    && (if x.outcome.Failed? then Excluded(w, x.outcome.failure) || c.state.output == x.state.output
        else Matched(w, x.state, c.state) && c.state.flags == flags)
  }

  // ---------- Expressions ----------

  lemma LiteralSimulates(w: World, st: State, cst: CppState, fuel: nat, lit: Literal)
    requires w.ctx.ops == w.cpp.ops && w.ctx.cap && Matched(w, st, cst)
    requires TypeOf(w.types, Const(lit)).Some? && LowerExpr(w.types, Const(lit), false).Some?
    ensures ExprMatches(w, Eval(fuel, w.ctx, st, Const(lit)),
                        CppEval(fuel, w.cpp, cst, LowerExpr(w.types, Const(lit), false).value),
                        TypeOf(w.types, Const(lit)).value)
  {
    if lit.IntLit? {
      IntLiteralSimulates(lit.lexeme);
    }
  }

  /** The digits the emitter writes for an int literal below 2^63 denote Python's value. */
  lemma IntLiteralSimulates(lexeme: string)
    requires Translatable(lexeme) && IntegerValue(lexeme) <= INT64_MAX
    ensures IsIntegerLexeme(lexeme) && 0 <= IntegerValue(lexeme)
    ensures IntLiteralValue(WithoutUnderscores(lexeme)) == Ok(CppInt(Plain(IntegerValue(lexeme))))
  {
    EmittedDigitsKeepTheValue(lexeme);
    TranslatableIsPythonDecimal(lexeme);
    DecimalIsAnInteger(lexeme);
  }

  /** The value of an operand after the widening the emitter writes around it. */
  lemma OperandSimulates(w: World, st: State, cst: CppState, fuel: nat, e: Expr, k: Kind)
    requires TypeOf(w.types, e).Some? && LowerOperand(w.types, e, k).Some?
    requires LowerExpr(w.types, e, false).Some?
    requires ExprMatches(w, Eval(fuel, w.ctx, st, e),
                         CppEval(fuel, w.cpp, cst, LowerExpr(w.types, e, false).value),
                         TypeOf(w.types, e).value)
    ensures var r, c := Eval(fuel, w.ctx, st, e), CppEval(fuel, w.cpp, cst, LowerExpr(w.types, e, false).value);
      var d := CppEval(fuel, w.cpp, cst, LowerOperand(w.types, e, k).value);
      d.output == c.output && (r.result.Got? ==> d.result == Ok(WidenOperand(c.result.value, k)))
      && (r.result.Raised? && !Excluded(w, r.result.failure) ==> d.result == c.result)
  {
    hide Eval, TypeOf, Excluded, StopsFor, Represents;
  }

  lemma ConversionRuns(fuel: nat, cpp: CppCtx, cst: CppState, x: CppExpr)
    ensures var c := CppEval(fuel, cpp, cst, x);
      && CppEval(fuel, cpp, cst, ToInt(x))
        == (if !c.result.Ok? then c else CppEvaluated(CppToInt(c.result.value), c.output))
      && CppEval(fuel, cpp, cst, ToFloat(x))
        == (if !c.result.Ok? then c else CppEvaluated(CppToFloat(c.result.value), c.output))
  {
  }

  lemma WidenedSimulates(w: World, st: State, cst: CppState, fuel: nat, e: Expr, target: Kind)
    requires TypeOf(w.types, e).Some? && LowerWidened(w.types, e, target).Some?
    requires LowerExpr(w.types, e, false).Some?
    requires ExprMatches(w, Eval(fuel, w.ctx, st, e),
                         CppEval(fuel, w.cpp, cst, LowerExpr(w.types, e, false).value),
                         TypeOf(w.types, e).value)
    ensures ExprMatches(w, Eval(fuel, w.ctx, st, e),
                        CppEval(fuel, w.cpp, cst, LowerWidened(w.types, e, target).value), target)
  {
    hide Eval, CppEval, TypeOf, LowerExpr, Excluded, StopsFor, Represents;
    var r, x := Eval(fuel, w.ctx, st, e), LowerExpr(w.types, e, false).value;
    var c := CppEval(fuel, w.cpp, cst, x);
    ConversionRuns(fuel, w.cpp, cst, x);
    if r.result.Got? {
      ConversionKeepsTheObject(c.result.value, r.result.value);
    }
    var lowered := LowerWidened(w.types, e, target).value;
    if TypeOf(w.types, e).value != target {
      if target == IntKind {
        assert lowered == ToInt(x);
      } else {
        assert lowered == ToFloat(x);
      }
    } else {
      assert lowered == x;
    }
  }

  lemma {:induction false} ExprSimulates(w: World, st: State, cst: CppState, fuel: nat, e: Expr)
    requires Linked(w) && ScopeFits(w) && Matched(w, st, cst)
    requires TypeOf(w.types, e).Some? && LowerExpr(w.types, e, false).Some?
    ensures ExprMatches(w, Eval(fuel, w.ctx, st, e),
                        CppEval(fuel, w.cpp, cst, LowerExpr(w.types, e, false).value),
                        TypeOf(w.types, e).value)
    decreases fuel, e, 2
  {
    match e
    case Const(lit) => LiteralSimulates(w, st, cst, fuel, lit);
    case Name(id) =>
    case Unary(op, operand) => UnarySimulates(w, st, cst, fuel, e);
    case Binary(_, _, _) => BinarySimulates(w, st, cst, fuel, e);
    case Compare(_, _) => CompareSimulates(w, st, cst, fuel, e);
    case BoolOp(_, _) => BoolSimulates(w, st, cst, fuel, e);
    case Call(_, _) => CallSimulates(w, st, cst, fuel, e);
    case OtherExpr =>
  }

  lemma {:induction false} UnarySimulates(w: World, st: State, cst: CppState, fuel: nat, e: Expr)
    requires Linked(w) && ScopeFits(w) && Matched(w, st, cst)
    requires e.Unary? && TypeOf(w.types, e).Some? && LowerExpr(w.types, e, false).Some?
    ensures ExprMatches(w, Eval(fuel, w.ctx, st, e),
                        CppEval(fuel, w.cpp, cst, LowerExpr(w.types, e, false).value),
                        TypeOf(w.types, e).value)
    decreases fuel, e, 1
  {
    var k := TypeOf(w.types, e).value;
    ExprSimulates(w, st, cst, fuel, e.operand);
    OperandSimulates(w, st, cst, fuel, e.operand, k);
    var r := Eval(fuel, w.ctx, st, e.operand);
    var c := CppEval(fuel, w.cpp, cst, LowerExpr(w.types, e.operand, false).value);
    if r.result.Got? {
      UnaryAgrees(e.uop, c.result.value, r.result.value, k);
    }
  }

  lemma {:induction false} BinarySimulates(w: World, st: State, cst: CppState, fuel: nat, e: Expr)
    requires Linked(w) && ScopeFits(w) && Matched(w, st, cst)
    requires e.Binary? && TypeOf(w.types, e).Some? && LowerExpr(w.types, e, false).Some?
    ensures ExprMatches(w, Eval(fuel, w.ctx, st, e),
                        CppEval(fuel, w.cpp, cst, LowerExpr(w.types, e, false).value),
                        TypeOf(w.types, e).value)
    decreases fuel, e, 1
  {
    var k := TypeOf(w.types, e).value;
    var x, y := LowerOperand(w.types, e.left, k).value, LowerOperand(w.types, e.right, k).value;
    assert LowerExpr(w.types, e, false).value == BinaryCall(e.bop, x, y);
    ExprSimulates(w, st, cst, fuel, e.left);
    OperandSimulates(w, st, cst, fuel, e.left, k);
    var r := Eval(fuel, w.ctx, st, e.left);
    var c := CppEval(fuel, w.cpp, cst, LowerExpr(w.types, e.left, false).value);
    if r.result.Got? {
      RightSimulates(w, st.(output := r.output), cst.(output := c.output), fuel, e, r.result.value, c.result.value);
    }
  }

  /** The rest of a binary operation once its left operand has the value `v`. */
  lemma {:induction false} RightSimulates(w: World, st: State, cst: CppState, fuel: nat, e: Expr, v: Value, c: CppValue)
    requires Linked(w) && ScopeFits(w) && Matched(w, st, cst)
    requires e.Binary? && TypeOf(w.types, e).Some? && LowerExpr(w.types, e, false).Some?
    requires Represents(c, v) && c.Class() == TypeOf(w.types, e.left).value
    ensures var k := TypeOf(w.types, e).value;
      var r, d := Eval(fuel, w.ctx, st, e.right), CppEval(fuel, w.cpp, cst, LowerOperand(w.types, e.right, k).value);
      ExprMatches(w, if r.result.Raised? then r
                     else Evaluated(PyBinary(w.ctx.ops, w.ctx.cap, e.bop, v, r.result.value), r.output),
                  if !d.result.Ok? then d
                  else CppEvaluated(CppBinary(w.cpp.ops, e.bop, WidenOperand(c, k), d.result.value), d.output), k)
    decreases fuel, e, 0
  {
    var k := TypeOf(w.types, e).value;
    ExprSimulates(w, st, cst, fuel, e.right);
    OperandSimulates(w, st, cst, fuel, e.right, k);
    var r := Eval(fuel, w.ctx, st, e.right);
    var d := CppEval(fuel, w.cpp, cst, LowerExpr(w.types, e.right, false).value);
    if r.result.Got? {
      if e.bop == DoubleStar {
        ExponentIsNatural(w, st, cst, fuel, e.right);
      }
      BinaryAgrees(w.ctx.ops, e.bop, c, d.result.value, v, r.result.value, k);
    }
  }

  lemma ExponentIsNatural(w: World, st: State, cst: CppState, fuel: nat, e: Expr)
    requires e.Const? && e.lit.IntLit? && LowerExpr(w.types, e, false).Some? && TypeOf(w.types, e).Some?
    ensures var r := Eval(fuel, w.ctx, st, e).result;
      r.Got? && r.value.PyInt? && r.value.i >= 0
    ensures var c := CppEval(fuel, w.cpp, cst, LowerExpr(w.types, e, false).value).result;
      c.Ok? ==> c.value.CppInt?
  {
    IntLiteralSimulates(e.lit.lexeme);
  }

  lemma {:induction false} CompareSimulates(w: World, st: State, cst: CppState, fuel: nat, e: Expr)
    requires Linked(w) && ScopeFits(w) && Matched(w, st, cst)
    requires e.Compare? && TypeOf(w.types, e).Some? && LowerExpr(w.types, e, false).Some?
    ensures ExprMatches(w, Eval(fuel, w.ctx, st, e),
                        CppEval(fuel, w.cpp, cst, LowerExpr(w.types, e, false).value),
                        TypeOf(w.types, e).value)
    decreases fuel, e, 1
  {
    ExprSimulates(w, st, cst, fuel, e.first);
    var r := Eval(fuel, w.ctx, st, e.first);
    var c := CppEval(fuel, w.cpp, cst, LowerExpr(w.types, e.first, false).value);
    if r.result.Got? {
      var st', cst' := st.(output := r.output), cst.(output := c.output);
      LinksSimulate(w, st', cst', fuel, r.result.value, c.result.value, TypeOf(w.types, e.first).value, e.rest);
      if e.rest.more.NoLinks? {
        var links := LowerLinks(w.types, e.rest).value;
        assert CppEvalLinks(fuel, w.cpp, cst', c.result.value, links)
            == CppEval(fuel, w.cpp, cst,
                CompareCall(links.op, LowerExpr(w.types, e.first, false).value, links.operand));
      }
    }
  }

  /** The lambda evaluates operands exactly where Python does, and stops at the same link. */
  lemma {:induction false} LinksSimulate(
      w: World, st: State, cst: CppState, fuel: nat, left: Value, cppLeft: CppValue, k: Kind, rest: Links)
    requires Linked(w) && ScopeFits(w) && Matched(w, st, cst)
    requires rest.Link? && LinksTyped(w.types, rest) && ChainSupported(rest) && ChainComparable(w.types, Some(k), rest)
    requires LowerLinks(w.types, rest).Some?
    requires Represents(cppLeft, left) && cppLeft.Class() == k
    ensures ExprMatches(w, EvalLinks(fuel, w.ctx, st, left, rest),
                        CppEvalLinks(fuel, w.cpp, cst, cppLeft, LowerLinks(w.types, rest).value), BoolKind)
    decreases fuel, rest, 1
  {
    ExprSimulates(w, st, cst, fuel, rest.operand);
    var r := Eval(fuel, w.ctx, st, rest.operand);
    var c := CppEval(fuel, w.cpp, cst, LowerExpr(w.types, rest.operand, false).value);
    if r.result.Got? {
      CompareAgrees(w.ctx.ops, rest.op.value, cppLeft, c.result.value, left, r.result.value);
      if rest.more.Link? {
        LinksSimulate(w, st.(output := r.output), cst.(output := c.output), fuel, r.result.value, c.result.value,
                      TypeOf(w.types, rest.operand).value, rest.more);
      }
    }
  }

  lemma {:induction false} BoolSimulates(w: World, st: State, cst: CppState, fuel: nat, e: Expr)
    requires Linked(w) && ScopeFits(w) && Matched(w, st, cst)
    requires e.BoolOp? && TypeOf(w.types, e).Some? && LowerExpr(w.types, e, false).Some?
    ensures ExprMatches(w, Eval(fuel, w.ctx, st, e),
                        CppEval(fuel, w.cpp, cst, LowerExpr(w.types, e, false).value),
                        TypeOf(w.types, e).value)
    decreases fuel, e, 1
  {
    var x, y := e.values[0], e.values[1];
    assert e.values[1..] == [y];
    assert TypeOf(w.types, x) == TypeOf(w.types, y) == TypeOf(w.types, e);
    ExprSimulates(w, st, cst, fuel, x);
    var r := Eval(fuel, w.ctx, st, x);
    var c := CppEval(fuel, w.cpp, cst, LowerExpr(w.types, x, false).value);
    if r.result.Got? {
      TruthAgrees(c.result.value, r.result.value);
      var st', cst' := st.(output := r.output), cst.(output := c.output);
      ExprSimulates(w, st', cst', fuel, y);
    }
    assert e.values == [x, y];
    LogicSimulates(w, st, cst, fuel, e.isAnd, x, y, TypeOf(w.types, x).value);
  }

  /** `and`/`or` in terms of their two operands. */
  lemma LogicSimulates(w: World, st: State, cst: CppState, fuel: nat, isAnd: bool, x: Expr, y: Expr, k: Kind)
    requires LowerExpr(w.types, x, false).Some? && LowerExpr(w.types, y, false).Some?
    requires ExprMatches(w, Eval(fuel, w.ctx, st, x), CppEval(fuel, w.cpp, cst, LowerExpr(w.types, x, false).value), k)
    requires var r := Eval(fuel, w.ctx, st, x);
      var c := CppEval(fuel, w.cpp, cst, LowerExpr(w.types, x, false).value);
      r.result.Got? ==> c.result.value.Truthy() == r.result.value.Truthy()
    requires var r := Eval(fuel, w.ctx, st, x);
      var c := CppEval(fuel, w.cpp, cst, LowerExpr(w.types, x, false).value);
      r.result.Got? ==>
      ExprMatches(w, Eval(fuel, w.ctx, st.(output := r.output), y),
                  CppEval(fuel, w.cpp, cst.(output := c.output), LowerExpr(w.types, y, false).value), k)
    ensures ExprMatches(w, EvalBool(fuel, w.ctx, st, isAnd, [x, y]),
                        CppEval(fuel, w.cpp, cst, LogicCall(isAnd, LowerExpr(w.types, x, false).value,
                                                            LowerExpr(w.types, y, false).value)), k)
  {
    var r := Eval(fuel, w.ctx, st, x);
    assert [x, y][1..] == [y];
    if r.result.Got? {
      var st' := st.(output := r.output);
      assert EvalBool(fuel, w.ctx, st', isAnd, [y]) == Eval(fuel, w.ctx, st', y);
    }
  }

  // ---------- Calls ----------

  /** An argument's value in front of the ones after it. */
  function Consed<T>(r: Evaluated<T>, more: Evaluated<seq<T>>): Evaluated<seq<T>> {
    if r.result.Raised? then Evaluated(Raised(r.result.failure), r.output)
    else if more.result.Raised? then more
    else Evaluated(Got([r.result.value] + more.result.value), more.output)
  }

  function CppConsed<T>(r: CppEvaluated<T>, more: CppEvaluated<seq<T>>): CppEvaluated<seq<T>> {
    if !r.result.Ok? then CppEvaluated(Stop(Why(r.result)), r.output)
    else if !more.result.Ok? then more
    else CppEvaluated(Ok([r.result.value] + more.result.value), more.output)
  }

  lemma EvalArgsStep(fuel: nat, ctx: Ctx, st: State, es: seq<Expr>)
    requires es != []
    ensures var r := Eval(fuel, ctx, st, es[0]);
      EvalArgs(fuel, ctx, st, es) == Consed(r, EvalArgs(fuel, ctx, st.(output := r.output), es[1..]))
  {
  }

  lemma CppEvalArgsStep(fuel: nat, ctx: CppCtx, st: CppState, xs: seq<CppExpr>)
    requires xs != []
    ensures var r := CppEval(fuel, ctx, st, xs[0]);
      CppEvalArgs(fuel, ctx, st, xs) == CppConsed(r, CppEvalArgs(fuel, ctx, st.(output := r.output), xs[1..]))
  {
  }

  lemma ConsedMatch(
      w: World, r: Evaluated<Value>, c: CppEvaluated<CppValue>, k: Kind, more: Evaluated<seq<Value>>,
      cppMore: CppEvaluated<seq<CppValue>>)
    requires ExprMatches(w, r, c, k) && (r.result.Got? ==> ArgsMatch(w, more, cppMore))
    ensures ArgsMatch(w, Consed(r, more), CppConsed(c, cppMore))
    ensures Consed(r, more).result.Got? ==>
      r.result.Got? && more.result.Got? && CppConsed(c, cppMore).result.value[0].Class() == k
      && CppConsed(c, cppMore).result.value[1..] == cppMore.result.value
  {
  }

  lemma {:induction false} AllSimulate(w: World, st: State, cst: CppState, fuel: nat, es: seq<Expr>)
    requires Linked(w) && ScopeFits(w) && Matched(w, st, cst)
    requires AllTyped(w.types, es) && LowerAll(w.types, es).Some?
    ensures var r, c := EvalArgs(fuel, w.ctx, st, es), CppEvalArgs(fuel, w.cpp, cst, LowerAll(w.types, es).value);
      ArgsMatch(w, r, c)
      && (r.result.Got? ==> forall i :: 0 <= i < |es| ==> Some(c.result.value[i].Class()) == TypeOf(w.types, es[i]))
    decreases fuel, es, 1
  {
    if es != [] {
      ExprSimulates(w, st, cst, fuel, es[0]);
      var xs := LowerAll(w.types, es).value;
      assert xs[0] == LowerExpr(w.types, es[0], false).value && xs[1..] == LowerAll(w.types, es[1..]).value;
      var r, c := Eval(fuel, w.ctx, st, es[0]), CppEval(fuel, w.cpp, cst, xs[0]);
      var st', cst' := st.(output := r.output), cst.(output := c.output);
      EvalArgsStep(fuel, w.ctx, st, es);
      CppEvalArgsStep(fuel, w.cpp, cst, xs);
      if r.result.Got? {
        AllSimulate(w, st', cst', fuel, es[1..]);
      }
      ConsedMatch(w, r, c, TypeOf(w.types, es[0]).value,
          EvalArgs(fuel, w.ctx, st', es[1..]), CppEvalArgs(fuel, w.cpp, cst', xs[1..]));
    }
  }

  lemma {:induction false} ArgsSimulate(w: World, st: State, cst: CppState, fuel: nat, es: seq<Expr>, params: seq<Kind>)
    requires Linked(w) && ScopeFits(w) && Matched(w, st, cst)
    requires |es| == |params| && AllTyped(w.types, es) && LowerArgs(w.types, es, params).Some?
    ensures var c := CppEvalArgs(fuel, w.cpp, cst, LowerArgs(w.types, es, params).value);
      ArgsMatch(w, EvalArgs(fuel, w.ctx, st, es), c)
      && (EvalArgs(fuel, w.ctx, st, es).result.Got?
          ==> forall i :: 0 <= i < |params| ==> c.result.value[i].Class() == params[i])
    decreases fuel, es, 1
  {
    if es != [] {
      ExprSimulates(w, st, cst, fuel, es[0]);
      WidenedSimulates(w, st, cst, fuel, es[0], params[0]);
      var xs := LowerArgs(w.types, es, params).value;
      assert xs[0] == LowerWidened(w.types, es[0], params[0]).value;
      assert xs[1..] == LowerArgs(w.types, es[1..], params[1..]).value;
      var r, c := Eval(fuel, w.ctx, st, es[0]), CppEval(fuel, w.cpp, cst, xs[0]);
      if r.result.Got? {
        ArgsSimulate(w, st.(output := r.output), cst.(output := c.output), fuel, es[1..], params[1..]);
      }
    }
  }

  lemma {:induction false} CallSimulates(w: World, st: State, cst: CppState, fuel: nat, e: Expr)
    requires Linked(w) && ScopeFits(w) && Matched(w, st, cst)
    requires e.Call? && TypeOf(w.types, e).Some? && LowerExpr(w.types, e, false).Some?
    ensures ExprMatches(w, Eval(fuel, w.ctx, st, e),
                        CppEval(fuel, w.cpp, cst, LowerExpr(w.types, e, false).value),
                        TypeOf(w.types, e).value)
    decreases fuel, e, 1
  {
    CallIsLowered(w.types, e);
    CalleeResolves(w, st, cst, e.callee);
    if e.callee == "len" {
      LenCallSimulates(w, st, cst, fuel, e.args, TypeOf(w.types, e).value);
    } else {
      UserCallSimulates(w, st, cst, fuel, e.callee, e.args);
      CallsAreEvaluated(fuel, w.ctx, st, e, w.cpp, cst,
          LowerArgs(w.types, e.args, w.types.functions[e.callee].params).value);
    }
  }

  /** What a well-typed call's name stands for. */
  lemma CalleeResolves(w: World, st: State, cst: CppState, id: string)
    requires Linked(w) && ScopeFits(w) && Matched(w, st, cst) && id !in w.types.locals && id !in w.types.globals
    ensures !IsLocal(w.ctx, id)
    ensures IsBuiltin(id) ==> Resolve(w.ctx, st, id).Got?
    ensures id == "print" || (id == "len" && id !in w.types.functions) ==> Resolve(w.ctx, st, id) == Got(Builtin)
    ensures !IsBuiltin(id) && id in w.types.functions ==>
      Resolve(w.ctx, st, id)
        == if id in st.defined then Got(Own(w.ctx.functions[id])) else Raised(UndefinedFunction(id))
  {
  }

  lemma CallsAreEvaluated(fuel: nat, ctx: Ctx, st: State, e: Expr, cpp: CppCtx, cst: CppState, xs: seq<CppExpr>)
    requires e.Call?
    ensures Eval(fuel, ctx, st, e) == EvalCall(fuel, ctx, st, e.callee, e.args)
    ensures CppEval(fuel, cpp, cst, UserCall(e.callee, xs)) == CppEvalCall(fuel, cpp, cst, e.callee, xs)
  {
  }

  lemma {:induction false} LenCallSimulates(w: World, st: State, cst: CppState, fuel: nat, args: seq<Expr>, k: Kind)
    requires Linked(w) && ScopeFits(w) && Matched(w, st, cst)
    requires AllTyped(w.types, args) && LowerAll(w.types, args).Some?
    requires Resolve(w.ctx, st, "len").Got?
    requires "len" !in w.types.functions ==>
      && |args| == 1 && TypeOf(w.types, args[0]) == Some(StrKind) && k == IntKind
      && Resolve(w.ctx, st, "len") == Got(Builtin)
    ensures ExprMatches(w, Eval(fuel, w.ctx, st, Call("len", args)),
                        CppEval(fuel, w.cpp, cst, LenCall(LowerAll(w.types, args).value)), k)
    decreases fuel, args, 2
  {
    AllSimulate(w, st, cst, fuel, args);
    if "len" in w.types.functions {
      OwnLenParts(w, st, cst, fuel, args, LowerAll(w.types, args).value, k);
    } else {
      LenSimulates(w, st, cst, fuel, args, LowerAll(w.types, args).value);
    }
  }

  /** A call of a len that is the module's own is followed as far as its arguments. */
  lemma OwnLenParts(w: World, st: State, cst: CppState, fuel: nat, args: seq<Expr>, xs: seq<CppExpr>, k: Kind)
    requires w.ctx.cap && "len" in w.ctx.functions && Resolve(w.ctx, st, "len").Got?
    requires ArgsMatch(w, EvalArgs(fuel, w.ctx, st, args), CppEvalArgs(fuel, w.cpp, cst, xs))
    ensures ExprMatches(w, EvalCall(fuel, w.ctx, st, "len", args), CppEval(fuel, w.cpp, cst, LenCall(xs)), k)
  {
  }

  lemma CallIsLowered(types: Types, e: Expr)
    requires e.Call? && TypeOf(types, e).Some? && LowerExpr(types, e, false).Some?
    ensures AllTyped(types, e.args) && e.callee !in types.locals && e.callee !in types.globals
    ensures e.callee == "len" ==>
      LowerAll(types, e.args).Some? && LowerExpr(types, e, false) == Some(LenCall(LowerAll(types, e.args).value))
    ensures e.callee == "len" && e.callee !in types.functions ==>
      |e.args| == 1 && TypeOf(types, e.args[0]) == Some(StrKind) && TypeOf(types, e) == Some(IntKind)
    ensures e.callee != "len" ==>
      && !IsBuiltin(e.callee) && e.callee in types.functions && |types.functions[e.callee].params| == |e.args|
      && LowerArgs(types, e.args, types.functions[e.callee].params).Some?
      && LowerExpr(types, e, false)
        == Some(UserCall(e.callee, LowerArgs(types, e.args, types.functions[e.callee].params).value))
      && TypeOf(types, e) == Some(types.functions[e.callee].result)
  {
  }

  /** A call of a function of the module, under any name but print and len. */
  lemma {:induction false} UserCallSimulates(w: World, st: State, cst: CppState, fuel: nat, id: string, args: seq<Expr>)
    requires Linked(w) && ScopeFits(w) && Matched(w, st, cst)
    requires !IsBuiltin(id) && id in w.types.functions && id !in w.types.locals && id !in w.types.globals
    requires |w.types.functions[id].params| == |args|
    requires AllTyped(w.types, args) && LowerArgs(w.types, args, w.types.functions[id].params).Some?
    ensures ExprMatches(w, EvalCall(fuel, w.ctx, st, id, args),
                        CppEvalCall(fuel, w.cpp, cst, id, LowerArgs(w.types, args, w.types.functions[id].params).value),
                        w.types.functions[id].result)
    decreases fuel, args, 2
  {
    var params := w.types.functions[id].params;
    ArgsSimulate(w, st, cst, fuel, args, params);
    var xs := LowerArgs(w.types, args, params).value;
    var r, c := EvalArgs(fuel, w.ctx, st, args), CppEvalArgs(fuel, w.cpp, cst, xs);
    ParametersFit(w, id);
    if r.result.Got? {
      ArgumentsFit(w, id, c.result.value);
      if fuel > 0 {
        BodySimulates(w, st, cst, fuel, id, r.result.value, c.result.value, r.output);
      }
    }
    CalleeResolves(w, st, cst, id);
    UnfoldedCallSimulates(w, st, cst, fuel, id, args, xs);
  }

  lemma ParametersFit(w: World, id: string)
    requires Linked(w) && id in w.ctx.functions
    ensures |w.ctx.functions[id].params| == |w.types.functions[id].params|
  {
    assert LinkedAt(w, id);
  }

  lemma ArgumentsFit(w: World, id: string, cs: seq<CppValue>)
    requires Linked(w) && id in w.ctx.functions && |cs| == |w.types.functions[id].params|
    requires forall i :: 0 <= i < |cs| ==> cs[i].Class() == w.types.functions[id].params[i]
    ensures ArgumentsMatch(w.cpp.functions[id].params, cs)
    ensures |w.ctx.functions[id].params| == |cs|
  {
    assert LinkedAt(w, id);
  }

  /** A call in terms of its arguments and of the body it runs. */
  lemma UserCallRuns(fuel: nat, ctx: Ctx, st: State, id: string, args: seq<Expr>, f: Function)
    requires Resolve(ctx, st, id) == Got(Own(f)) && |f.params| == |args| && (ctx.cap ==> !IsBuiltin(id))
    ensures var r := EvalArgs(fuel, ctx, st, args);
      EvalCall(fuel, ctx, st, id, args)
        == if r.result.Raised? then Evaluated(Raised(r.result.failure), r.output)
           else if fuel == 0 then Evaluated(Raised(OutOfFuel), r.output)
           else
             var x := ExecBlock(fuel - 1, Inside(ctx, f), Entered(st, f, r.result.value, r.output), f.body);
             Evaluated(CallResult(x.outcome), x.state.output)
  {
  }

  lemma UnfoldedCallSimulates(
      w: World, st: State, cst: CppState, fuel: nat, id: string, args: seq<Expr>, xs: seq<CppExpr>)
    requires w.types.functions.Keys == w.cpp.functions.Keys && id in w.types.functions && id in w.ctx.functions
    requires !IsBuiltin(id)
    requires |args| == |xs| == |w.ctx.functions[id].params|
    requires Resolve(w.ctx, st, id)
      == if id in st.defined then Got(Own(w.ctx.functions[id])) else Raised(UndefinedFunction(id))
    requires ArgsMatch(w, EvalArgs(fuel, w.ctx, st, args), CppEvalArgs(fuel, w.cpp, cst, xs))
    requires var r, c := EvalArgs(fuel, w.ctx, st, args), CppEvalArgs(fuel, w.cpp, cst, xs);
      r.result.Got? ==> ArgumentsMatch(w.cpp.functions[id].params, c.result.value)
    requires var r, c := EvalArgs(fuel, w.ctx, st, args), CppEvalArgs(fuel, w.cpp, cst, xs);
      r.result.Got? && fuel > 0 ==> BodyMatches(w, st, cst, fuel - 1, id, r.result.value, c.result.value, r.output)
    ensures ExprMatches(w, EvalCall(fuel, w.ctx, st, id, args), CppEvalCall(fuel, w.cpp, cst, id, xs),
                        w.types.functions[id].result)
  {
    if id in st.defined {
      UserCallRuns(fuel, w.ctx, st, id, args, w.ctx.functions[id]);
    }
  }

  /** A callee's body, run on matching arguments, gives matching results. */
  predicate BodyMatches(
      w: World, st: State, cst: CppState, fuel: nat, id: string, vs: seq<Value>, cs: seq<CppValue>, output: Output)
    requires id in w.ctx.functions && id in w.cpp.functions && id in w.types.functions
    requires |vs| == |w.ctx.functions[id].params| && |cs| == |w.cpp.functions[id].params|
  {
    var f, cf := w.ctx.functions[id], w.cpp.functions[id];
    var x := ExecBlock(fuel, Inside(w.ctx, f), Entered(st, f, vs, output), f.body);
    var y := CppExecBlock(fuel, w.cpp, CppEntered(cst, cf, cs, output), cf.body);
    ExprMatches(w, Evaluated(CallResult(x.outcome), x.state.output),
                CppEvaluated(CppCallResult(cf, y.outcome), y.state.output), w.types.functions[id].result)
  }

  lemma LenSimulates(w: World, st: State, cst: CppState, fuel: nat, args: seq<Expr>, xs: seq<CppExpr>)
    requires w.ctx.cap && |args| == |xs| == 1 && Resolve(w.ctx, st, "len") == Got(Builtin)
    requires "len" !in w.ctx.functions
    requires ArgsMatch(w, EvalArgs(fuel, w.ctx, st, args), CppEvalArgs(fuel, w.cpp, cst, xs))
    requires var r, c := EvalArgs(fuel, w.ctx, st, args), CppEvalArgs(fuel, w.cpp, cst, xs);
      r.result.Got? ==> c.result.value[0].CppStr?
    ensures ExprMatches(w, EvalCall(fuel, w.ctx, st, "len", args), CppEval(fuel, w.cpp, cst, LenCall(xs)), IntKind)
  {
    var r := EvalArgs(fuel, w.ctx, st, args);
    if r.result.Got? {
      LeadsAreCodePoints(r.result.value[0].text);
    }
  }

  lemma {:induction false} ParameterLookup<T>(ids: seq<string>, values: seq<T>, i: nat)
    requires |ids| == |values| && i < |ids|
    requires forall j, k :: 0 <= j < k < |ids| ==> ids[j] != ids[k]
    ensures ids[i] in Parameters(ids, values) && Parameters(ids, values)[ids[i]] == values[i]
  {
    if i > 0 {
      ParameterLookup(ids[1..], values[1..], i - 1);
      assert ids[i] == ids[1..][i - 1] && ids[0] != ids[i];
    }
  }

  /** The world as a callee sees it. */
  function Callee(w: World, id: string): World
    requires id in w.ctx.functions && id in w.localTypes
  {
    w.(ctx := Inside(w.ctx, w.ctx.functions[id]), types := w.types.(locals := w.localTypes[id]))
  }

  lemma CalleeIsLinked(w: World, id: string)
    requires Linked(w) && id in w.ctx.functions
    ensures Linked(Callee(w, id)) && ScopeFits(Callee(w, id))
  {
    var w' := Callee(w, id);
    forall g ensures LinkedAt(w', g) {
      assert LinkedAt(w, g);
      if g in w.types.functions && g in w.localTypes {
        assert FunctionSite(w.types, w.localTypes[g], w.types.functions[g].result)
            == FunctionSite(w'.types, w.localTypes[g], w.types.functions[g].result);
      }
    }
    assert LinkedAt(w, id);
  }

  /** On entry the parameters are bound and hold the arguments; every other local is
      declared, default-constructed, and unbound in Python. */
  lemma EntryStoreFits(
      ids: seq<string>, locals: map<string, Kind>, others: map<string, Kind>, vs: seq<Value>, cs: seq<CppValue>)
    requires |ids| == |vs| && AllRepresent(cs, vs)
    requires forall i, j :: 0 <= i < j < |ids| ==> ids[i] != ids[j]
    requires forall i :: 0 <= i < |ids| ==> ids[i] in locals && cs[i].Class() == locals[ids[i]]
    requires others == map id | id in locals && id !in ids :: locals[id]
    ensures StoreFits(locals, Parameters(ids, vs), Defaults(others) + Parameters(ids, cs))
    ensures (Defaults(others) + Parameters(ids, cs)).Keys == locals.Keys
  {
    ParametersKeys(ids, vs);
    ParametersKeys(ids, cs);
    var bound, held, store := Parameters(ids, vs), Parameters(ids, cs), Defaults(others) + Parameters(ids, cs);
    forall x | x in ids
      ensures store[x].Class() == locals[x] && Represents(store[x], bound[x])
    {
      var i :| 0 <= i < |ids| && ids[i] == x;
      ParameterLookup(ids, vs, i);
      ParameterLookup(ids, cs, i);
      assert store[x] == held[x] == cs[i];
    }
    DefaultsHaveTheirKind(others);
    forall x | x in locals && x !in ids ensures x in store && store[x].Class() == locals[x] {
      assert store[x] == Defaults(others)[x];
    }
  }

  lemma DefaultsHaveTheirKind(locals: map<string, Kind>)
    ensures Defaults(locals).Keys == locals.Keys
    ensures forall id :: id in locals ==> Defaults(locals)[id].Class() == locals[id]
  {
    forall id | id in locals ensures Defaults(locals)[id].Class() == locals[id] {
      DefaultHasItsKind(locals[id]);
    }
  }

  lemma DefaultHasItsKind(k: Kind)
    ensures DefaultOf(k).Class() == k
  {
    match k
    case BoolKind => case IntKind => case FloatKind => case StrKind => case NoneKind =>
  }

  lemma EntryMatches(w: World, st: State, cst: CppState, id: string, vs: seq<Value>, cs: seq<CppValue>, output: Output)
    requires Linked(w) && Matched(w, st, cst) && id in w.ctx.functions
    requires AllRepresent(cs, vs) && ArgumentsMatch(w.cpp.functions[id].params, cs)
    ensures |vs| == |w.ctx.functions[id].params|
    ensures Matched(Callee(w, id), Entered(st, w.ctx.functions[id], vs, output),
                    CppEntered(cst, w.cpp.functions[id], cs, output))
  {
    var f, cf, locals := w.ctx.functions[id], w.cpp.functions[id], w.localTypes[id];
    assert LinkedAt(w, id);
    EntryStoreFits(f.params, locals, cf.locals, vs, cs);
  }

  lemma {:induction false} BodySimulates(
      w: World, st: State, cst: CppState, fuel: nat, id: string, vs: seq<Value>, cs: seq<CppValue>, output: Output)
    requires Linked(w) && Matched(w, st, cst) && id in w.ctx.functions && fuel > 0
    requires AllRepresent(cs, vs) && ArgumentsMatch(w.cpp.functions[id].params, cs)
    requires |vs| == |w.ctx.functions[id].params|
    ensures BodyMatches(w, st, cst, fuel - 1, id, vs, cs, output)
    decreases fuel - 1
  {
    hide ExecBlock, CppExecBlock, LowerBlock, BlockTyped, ExprMatches, Matched;
    CalleeIsReady(w, st, cst, fuel - 1, id, vs, cs, output);
    var f, cf := w.ctx.functions[id], w.cpp.functions[id];
    InsideSimulates(w, Callee(w, id), BodySite(w, id), Entered(st, f, vs, output),
        CppEntered(cst, cf, cs, output), fuel - 1, f, cf);
  }

  /** A callee's world, linked, with its two states matched on entry. */
  ghost predicate ReadyToRun(
      w: World, w': World, site: Site, st: State, cst: CppState, fuel: nat, f: Function, cf: CppFunction)
  {
    && Linked(w') && SiteFits(w', site) && Matched(w', st, cst)
    && w'.types.globals == w.types.globals && w'.cpp == w.cpp
    && cst.flags == [] && !site.hasElse
    && BlockTyped(site, f.body) && LowerBlock(site, f.body).Some?
    && cf.body == LowerBlock(site, f.body).value + Tail(site.result)
    && cf.result == site.result
    && WellPlaced(f.body, false, true) && (site.result != NoneKind ==> AlwaysReturns(site.types, f.body))
    && var x := ExecBlock(fuel, w'.ctx, st, f.body);
       (x.outcome.Failed? ==> !x.outcome.failure.UnboundLocal?)
  }

  lemma CalleeIsReady(
      w: World, st: State, cst: CppState, fuel: nat, id: string, vs: seq<Value>, cs: seq<CppValue>, output: Output)
    requires Linked(w) && Matched(w, st, cst) && id in w.ctx.functions
    requires AllRepresent(cs, vs) && ArgumentsMatch(w.cpp.functions[id].params, cs)
    requires |vs| == |w.ctx.functions[id].params|
    ensures ReadyToRun(w, Callee(w, id), BodySite(w, id), Entered(st, w.ctx.functions[id], vs, output),
                       CppEntered(cst, w.cpp.functions[id], cs, output), fuel, w.ctx.functions[id], w.cpp.functions[id])
  {
    BodyIsLowered(w, id);
    EntryMatches(w, st, cst, id, vs, cs, output);
    BodyReadsSoundly(w, st, fuel, id, vs, output);
  }

  /** A function's body in its own world, and then its result in the caller's. */
  lemma {:induction false} InsideSimulates(
      w: World, w': World, site: Site, st: State, cst: CppState, fuel: nat, f: Function, cf: CppFunction)
    requires ReadyToRun(w, w', site, st, cst, fuel, f, cf)
    ensures var x, z := ExecBlock(fuel, w'.ctx, st, f.body), CppExecBlock(fuel, w.cpp, cst, cf.body);
      ExprMatches(w, Evaluated(CallResult(x.outcome), x.state.output),
                  CppEvaluated(CppCallResult(cf, z.outcome), z.state.output), site.result)
    decreases fuel, f.body, 1
  {
    var lowered := LowerBlock(site, f.body).value;
    BlockSimulates(w', site, st, cst, fuel, f.body);
    BodyThenTail(fuel, w.cpp, cst, lowered, site.result);
    WellPlacedRuns(fuel, w'.ctx, st, f.body, false, true);
    if site.result != NoneKind {
      NeverFallsOff(site.types, fuel, w'.ctx, st, f.body);
    }
    ReturnMatches(w, w', site, cf, ExecBlock(fuel, w'.ctx, st, f.body), CppExecBlock(fuel, w.cpp, cst, lowered),
                  CppExecBlock(fuel, w.cpp, cst, cf.body));
  }

  /** By the definite-assignment walk, no callee reads one of its own names unbound. */
  lemma BodyReadsSoundly(w: World, st: State, fuel: nat, id: string, vs: seq<Value>, output: Output)
    requires Linked(w) && id in w.ctx.functions && |vs| == |w.ctx.functions[id].params|
    ensures var f := w.ctx.functions[id];
      var x := ExecBlock(fuel, Inside(w.ctx, f), Entered(st, f, vs, output), f.body);
      x.outcome.Failed? ==> !x.outcome.failure.UnboundLocal?
  {
    var f := w.ctx.functions[id];
    ParametersKeys(f.params, vs);
    BlockRunsSoundly(fuel, Inside(w.ctx, f), Entered(st, f, vs, output), f.body,
                     AssignedNames(f.body) - ParameterNames(f), ParameterNames(f));
  }

  function BodySite(w: World, id: string): Site
    requires id in w.types.functions && id in w.localTypes
  {
    FunctionSite(w.types, w.localTypes[id], w.types.functions[id].result)
  }

  lemma BodyIsLowered(w: World, id: string)
    requires Linked(w) && id in w.ctx.functions
    ensures Linked(Callee(w, id)) && SiteFits(Callee(w, id), BodySite(w, id))
    ensures var f, cf, site := w.ctx.functions[id], w.cpp.functions[id], BodySite(w, id);
      BlockTyped(site, f.body) && LowerBlock(site, f.body).Some?
      && cf.body == LowerBlock(site, f.body).value + Tail(site.result)
      && cf.result == site.result
      && WellPlaced(f.body, false, true) && (site.result != NoneKind ==> AlwaysReturns(site.types, f.body))
  {
    CalleeIsLinked(w, id);
    assert LinkedAt(w, id);
  }

  lemma ReturnMatches(w: World, w': World, site: Site, cf: CppFunction, x: Executed, y: CppExecuted, z: CppExecuted)
    requires RunMatches(w', site, x, y, []) && cf.result == site.result
    requires Placed(x.outcome, false, true) && (x.outcome.Normal? ==> site.result == NoneKind)
    requires w'.types.globals == w.types.globals
    requires x.outcome.Failed? ==> !x.outcome.failure.UnboundLocal?
    requires z
         == if y.outcome.CppNormal? && site.result == NoneKind then CppExecuted(CppReturned(CppNone), y.state) else y
    ensures ExprMatches(w, Evaluated(CallResult(x.outcome), x.state.output),
                        CppEvaluated(CppCallResult(cf, z.outcome), z.state.output), site.result)
  {
  }

  lemma BodyThenTail(fuel: nat, ctx: CppCtx, st: CppState, body: seq<CppStmt>, result: Kind)
    ensures var y := CppExecBlock(fuel, ctx, st, body);
      CppExecBlock(fuel, ctx, st, body + Tail(result))
        == if y.outcome.CppNormal? && result == NoneKind then CppExecuted(CppReturned(CppNone), y.state) else y
  {
    var y := CppExecBlock(fuel, ctx, st, body);
    CppExecAppends(fuel, ctx, st, body, Tail(result));
    if result == NoneKind {
      TailReturnsNone(fuel, ctx, y.state);
    } else {
      assert Tail(result) == [] && body + [] == body;
    }
  }

  lemma TailReturnsNone(fuel: nat, ctx: CppCtx, st: CppState)
    ensures CppExecBlock(fuel, ctx, st, Tail(NoneKind)) == CppExecuted(CppReturned(CppNone), st)
  {
    assert Tail(NoneKind) == [CppReturn(NoneLiteral)];
    CppExecSingle(fuel, ctx, st, CppReturn(NoneLiteral));
    assert CppEval(fuel, ctx, st, NoneLiteral) == CppEvaluated(Ok(CppNone), st.output);
  }

  // ---------- Statements ----------

  lemma {:induction false} CppExecAppends(fuel: nat, ctx: CppCtx, st: CppState, a: seq<CppStmt>, b: seq<CppStmt>)
    ensures var x := CppExecBlock(fuel, ctx, st, a);
      CppExecBlock(fuel, ctx, st, a + b) == if x.outcome.CppNormal? then CppExecBlock(fuel, ctx, x.state, b) else x
    decreases a
  {
    if a == [] {
      assert a + b == b;
    } else {
      assert (a + b)[1..] == a[1..] + b;
      var x := CppExec(fuel, ctx, st, a[0]);
      if x.outcome.CppNormal? {
        CppExecAppends(fuel, ctx, x.state, a[1..], b);
      }
    }
  }

  lemma CppExecSingle(fuel: nat, ctx: CppCtx, st: CppState, s: CppStmt)
    ensures CppExecBlock(fuel, ctx, st, [s]) == CppExec(fuel, ctx, st, s)
  {
    var x := CppExec(fuel, ctx, st, s);
    assert [s][1..] == [];
    assert CppExecBlock(fuel, ctx, x.state, []) == CppExecuted(CppNormal, x.state);
  }

  lemma {:induction false} BlockSimulates(w: World, site: Site, st: State, cst: CppState, fuel: nat, body: seq<Stmt>)
    requires Linked(w) && SiteFits(w, site) && Matched(w, st, cst) && FlagsReady(site, cst.flags)
    requires BlockTyped(site, body) && LowerBlock(site, body).Some?
    ensures var x := ExecBlock(fuel, w.ctx, st, body);
      RunMatches(w, site, x, CppExecBlock(fuel, w.cpp, cst, LowerBlock(site, body).value),
                 FlagsAfter(site, cst.flags, x.outcome))
    decreases fuel, body, 0
  {
    if body != [] {
      var a, b := LowerStmt(site, body[0]).value, LowerBlock(site, body[1..]).value;
      StmtSimulates(w, site, st, cst, fuel, body[0]);
      CppExecAppends(fuel, w.cpp, cst, a, b);
      var x, c := Exec(fuel, w.ctx, st, body[0]), CppExecBlock(fuel, w.cpp, cst, a);
      if x.outcome.Normal? {
        BlockSimulates(w, site, x.state, c.state, fuel, body[1..]);
      }
    }
  }

  lemma {:induction false} StmtSimulates(w: World, site: Site, st: State, cst: CppState, fuel: nat, s: Stmt)
    requires Linked(w) && SiteFits(w, site) && Matched(w, st, cst) && FlagsReady(site, cst.flags)
    requires StmtTyped(site, s) && LowerStmt(site, s).Some?
    ensures var x := Exec(fuel, w.ctx, st, s);
      RunMatches(w, site, x, CppExecBlock(fuel, w.cpp, cst, LowerStmt(site, s).value),
                 FlagsAfter(site, cst.flags, x.outcome))
    decreases fuel, s, 3
  {
    hide ExecBlock, CppExecBlock, LowerBlock, Eval, CppEval, LowerExpr, TypeOf;
    var lowered := LowerStmt(site, s).value;
    if |lowered| == 1 {
      CppExecSingle(fuel, w.cpp, cst, lowered[0]);
      assert lowered == [lowered[0]];
    }
    match s
    case ExprStmt(e) => ExprStmtSimulates(w, site, st, cst, fuel, s);
    case Assign(target, value) => AssignSimulates(w, site, st, cst, fuel, target, value, None);
    case AnnAssign(target, kind, initial) =>
      if initial.Some? { AssignSimulates(w, site, st, cst, fuel, target, initial.value, kind); }
    case Return(result) => ReturnSimulates(w, site, st, cst, fuel, s);
    case If(_, _, _) => IfSimulates(w, site, st, cst, fuel, s);
    case While(_, _, _) => WhileSimulates(w, site, st, cst, fuel, s);
    case Break => BreakSimulates(w, site, st, cst, fuel);
    case _ =>
  }

  lemma BreakSimulates(w: World, site: Site, st: State, cst: CppState, fuel: nat)
    requires SiteFits(w, site) && Matched(w, st, cst) && FlagsReady(site, cst.flags)
    ensures RunMatches(w, site, Executed(Broke, st), CppExecBlock(fuel, w.cpp, cst, LowerStmt(site, Break).value),
                       FlagsAfter(site, cst.flags, Broke))
  {
    CppExecSingle(fuel, w.cpp, cst, CppBreak);
    if site.hasElse {
      var c := CppExec(fuel, w.cpp, cst, SetFlag(site.depth - 1));
      CppExecSingle(fuel, w.cpp, cst, SetFlag(site.depth - 1));
      CppExecSingle(fuel, w.cpp, c.state, CppBreak);
      CppExecAppends(fuel, w.cpp, cst, [SetFlag(site.depth - 1)], [CppBreak]);
      assert [SetFlag(site.depth - 1)] + [CppBreak] == LowerStmt(site, Break).value;
    }
  }

  lemma {:induction false} ExprStmtSimulates(w: World, site: Site, st: State, cst: CppState, fuel: nat, s: Stmt)
    requires Linked(w) && SiteFits(w, site) && Matched(w, st, cst)
    requires s.ExprStmt? && StmtTyped(site, s) && LowerStmt(site, s).Some?
    ensures RunMatches(w, site, Exec(fuel, w.ctx, st, s),
        CppExec(fuel, w.cpp, cst, LowerStmt(site, s).value[0]), cst.flags)
    decreases fuel, s, 2
  {
    var e := s.e;
    if e.Call? && e.callee == "print" {
      PrintStmtSimulates(w, site, st, cst, fuel, e.args);
    } else {
      assert LowerExpr(w.types, e, true) == LowerExpr(w.types, e, false);
      ExprSimulates(w, st, cst, fuel, e);
    }
  }

  lemma PrintIsLowered(site: Site, args: seq<Expr>)
    requires var s := ExprStmt(Call("print", args));
      StmtTyped(site, s) && LowerStmt(site, s).Some?
    ensures AllTyped(site.types, args) && "print" !in site.types.locals && "print" !in site.types.globals
    ensures LowerAll(site.types, args).Some?
    ensures LowerStmt(site, ExprStmt(Call("print", args)))
         == Some([CppExprStmt(PrintCall(LowerAll(site.types, args).value))])
  {
  }

  lemma {:induction false} PrintStmtSimulates(
      w: World, site: Site, st: State, cst: CppState, fuel: nat, args: seq<Expr>)
    requires Linked(w) && SiteFits(w, site) && Matched(w, st, cst)
    requires var s := ExprStmt(Call("print", args));
      StmtTyped(site, s) && LowerStmt(site, s).Some?
    ensures var s := ExprStmt(Call("print", args));
      RunMatches(w, site, Exec(fuel, w.ctx, st, s), CppExec(fuel, w.cpp, cst, LowerStmt(site, s).value[0]), cst.flags)
    decreases fuel, args, 3
  {
    hide TypeOf, LowerExpr, LowerAll;
    PrintIsLowered(site, args);
    CalleeResolves(w, st, cst, "print");
    AllSimulate(w, st, cst, fuel, args);
    PrintSimulates(w, site, st, cst, fuel, args, LowerAll(w.types, args).value);
  }

  lemma PrintSimulates(w: World, site: Site, st: State, cst: CppState, fuel: nat, args: seq<Expr>, xs: seq<CppExpr>)
    requires Matched(w, st, cst) && Resolve(w.ctx, st, "print") == Got(Builtin)
    requires ArgsMatch(w, EvalArgs(fuel, w.ctx, st, args), CppEvalArgs(fuel, w.cpp, cst, xs))
    ensures RunMatches(w, site, Exec(fuel, w.ctx, st, ExprStmt(Call("print", args))),
                       CppExec(fuel, w.cpp, cst, CppExprStmt(PrintCall(xs))), cst.flags)
  {
    var r, c := EvalArgs(fuel, w.ctx, st, args), CppEvalArgs(fuel, w.cpp, cst, xs);
    assert Eval(fuel, w.ctx, st, Call("print", args)) == EvalCall(fuel, w.ctx, st, "print", args);
    if r.result.Got? {
      LinesAgree(c.result.value, r.result.value);
    }
  }

  lemma {:induction false} LinesAgree(cs: seq<CppValue>, vs: seq<Value>)
    requires AllRepresent(cs, vs)
    ensures CppPrintedLine(cs) == PrintedLine(vs)
  {
    if cs != [] {
      PrintingAgrees(cs[0], vs[0]);
      LinesAgree(cs[1..], vs[1..]);
    }
  }

  /** Assignment writes the variable of the scope the name belongs to, in the class that
      variable was hoisted with. */
  lemma {:induction false} AssignSimulates(
      w: World, site: Site, st: State, cst: CppState, fuel: nat, target: Target, value: Expr, declared: Option<Kind>)
    requires Linked(w) && SiteFits(w, site) && Matched(w, st, cst)
    requires TypeOf(w.types, value).Some? && target.NameTarget? && target.id in site.slots
    requires LowerAssignment(site, target, value, declared).Some?
    ensures RunMatches(w, site, AfterExpr(w.ctx, st, Eval(fuel, w.ctx, st, value), target.id),
                       CppExec(fuel, w.cpp, cst, LowerAssignment(site, target, value, declared).value[0]), cst.flags)
    decreases fuel, value, 4
  {
    hide Eval, CppEval, TypeOf;
    ExprSimulates(w, st, cst, fuel, value);
    WidenedSimulates(w, st, cst, fuel, value, site.slots[target.id]);
    var x := LowerWidened(w.types, value, site.slots[target.id]).value;
    StoreSimulates(w, site, st, cst, Eval(fuel, w.ctx, st, value), CppEval(fuel, w.cpp, cst, x), target.id);
    assert LowerAssignment(site, target, value, declared).value[0] == CppAssign(target.id, x);
  }

  lemma StoreSimulates(
      w: World, site: Site, st: State, cst: CppState, r: Evaluated<Value>, c: CppEvaluated<CppValue>, id: string)
    requires SiteFits(w, site) && Matched(w, st, cst) && id in site.slots
    requires ExprMatches(w, r, c, site.slots[id])
    ensures RunMatches(w, site, AfterExpr(w.ctx, st, r, id), CppStored(cst, id, c), cst.flags)
  {
  }

  lemma {:induction false} ReturnSimulates(w: World, site: Site, st: State, cst: CppState, fuel: nat, s: Stmt)
    requires Linked(w) && SiteFits(w, site) && Matched(w, st, cst)
    requires s.Return? && StmtTyped(site, s) && LowerStmt(site, s).Some?
    ensures RunMatches(w, site, Exec(fuel, w.ctx, st, s),
        CppExec(fuel, w.cpp, cst, LowerStmt(site, s).value[0]), cst.flags)
    decreases fuel, s, 2
  {
    if s.result.Some? {
      ExprSimulates(w, st, cst, fuel, s.result.value);
      WidenedSimulates(w, st, cst, fuel, s.result.value, site.result);
    }
  }

  lemma {:induction false} IfSimulates(w: World, site: Site, st: State, cst: CppState, fuel: nat, s: Stmt)
    requires Linked(w) && SiteFits(w, site) && Matched(w, st, cst) && FlagsReady(site, cst.flags)
    requires s.If? && StmtTyped(site, s) && LowerStmt(site, s).Some?
    ensures var x := Exec(fuel, w.ctx, st, s);
      RunMatches(w, site, x, CppExec(fuel, w.cpp, cst, LowerStmt(site, s).value[0]),
          FlagsAfter(site, cst.flags, x.outcome))
    decreases fuel, s, 2
  {
    ExprSimulates(w, st, cst, fuel, s.cond);
    var r := Eval(fuel, w.ctx, st, s.cond);
    var c := CppEval(fuel, w.cpp, cst, LowerExpr(w.types, s.cond, false).value);
    if r.result.Got? {
      TruthAgrees(c.result.value, r.result.value);
      var st', cst' := st.(output := r.output), cst.(output := c.output);
      if r.result.value.Truthy() {
        BlockSimulates(w, site, st', cst', fuel, s.body);
      } else {
        BlockSimulates(w, site, st', cst', fuel, s.orelse);
      }
    }
  }

  function InLoop(site: Site, s: Stmt): Site
    requires s.While?
  {
    site.(depth := site.depth + 1, hasElse := s.orelse != [])
  }

  /** The plain C++ loop takes the turns Python's loop takes. */
  lemma {:induction false} LoopSimulates(w: World, site: Site, st: State, cst: CppState, fuel: nat, s: Stmt)
    requires s.While? && Linked(w) && SiteFits(w, site) && Matched(w, st, cst)
    requires FlagsReady(InLoop(site, s), cst.flags)
    requires StmtTyped(site, s) && LowerStmt(site, s).Some?
    ensures var x := ExecLoop(fuel, w.ctx, st, s);
      var body := LowerBlock(InLoop(site, s), s.body).value;
      var c := CppExec(fuel, w.cpp, cst, CppWhile(LowerExpr(w.types, s.cond, false).value, body));
      RunMatches(w, site, if x.outcome.Broke? then x.(outcome := Normal) else x, c,
                 FlagsAfter(InLoop(site, s), cst.flags, x.outcome))
    decreases fuel, s, 1
  {
    ExprSimulates(w, st, cst, fuel, s.cond);
    var inner, body := InLoop(site, s), LowerBlock(InLoop(site, s), s.body).value;
    var cond := LowerExpr(w.types, s.cond, false).value;
    var r, c := Eval(fuel, w.ctx, st, s.cond), CppEval(fuel, w.cpp, cst, cond);
    var st', cst' := st.(output := r.output), cst.(output := c.output);
    LoopTurns(fuel, w.ctx, st, s);
    CppLoopTurns(fuel, w.cpp, cst, cond, body);
    if r.result.Got? && r.result.value.Truthy() {
      TruthAgrees(c.result.value, r.result.value);
      TurnSimulates(w, site, st', cst', fuel, s);
    } else {
      ConditionEnds(w, site, inner, st, cst, r, c, TypeOf(w.types, s.cond).value);
    }
  }

  /** One turn of the body, and the turns after it. */
  lemma {:induction false} TurnSimulates(w: World, site: Site, st: State, cst: CppState, fuel: nat, s: Stmt)
    requires s.While? && Linked(w) && SiteFits(w, site) && Matched(w, st, cst)
    requires FlagsReady(InLoop(site, s), cst.flags)
    requires StmtTyped(site, s) && LowerStmt(site, s).Some?
    ensures var body := LowerBlock(InLoop(site, s), s.body).value;
      var loop := CppWhile(LowerExpr(w.types, s.cond, false).value, body);
      var x := AfterTurn(fuel, w.ctx, ExecBlock(fuel, w.ctx, st, s.body), s);
      RunMatches(w, site, Unbroken(x), CppAfterTurn(fuel, w.cpp, CppExecBlock(fuel, w.cpp, cst, body), loop),
                 FlagsAfter(InLoop(site, s), cst.flags, x.outcome))
    decreases fuel, s, 0
  {
    var inner := InLoop(site, s);
    TypedInAnyLoop(site, inner, s.body);
    BlockSimulates(w, inner, st, cst, fuel, s.body);
    var x, y := ExecBlock(fuel, w.ctx, st, s.body), CppExecBlock(fuel, w.cpp, cst, LowerBlock(inner, s.body).value);
    if fuel > 0 && GoesOn(x.outcome) {
      assert FlagsAfter(inner, cst.flags, x.outcome) == cst.flags;
      LoopSimulates(w, site, x.state, y.state, fuel - 1, s);
    } else {
      LastTurnMatches(w, site, inner, cst.flags, x, y);
    }
  }

  function AfterTurn(fuel: nat, ctx: Ctx, x: Executed, s: Stmt): Executed
    requires s.While?
  {
    if fuel > 0 && GoesOn(x.outcome) then ExecLoop(fuel - 1, ctx, x.state, s) else LastTurn(x)
  }

  function CppAfterTurn(fuel: nat, ctx: CppCtx, y: CppExecuted, loop: CppStmt): CppExecuted {
    if fuel > 0 && (y.outcome.CppNormal? || y.outcome.CppContinued?) then CppExec(fuel - 1, ctx, y.state, loop)
    else CppLastTurn(y)
  }

  predicate GoesOn(o: Outcome) {
    o.Normal? || o.Continued?
  }

  /** After a turn with no fuel left for another, or one that ends the loop. */
  function LastTurn(x: Executed): Executed {
    if GoesOn(x.outcome) then Executed(Failed(OutOfFuel), x.state) else x
  }

  function CppLastTurn(y: CppExecuted): CppExecuted {
    match y.outcome
    case CppBroke => CppExecuted(CppNormal, y.state)
    case CppReturned(_) => y
    case CppStopped(_) => y
    case CppNormal => CppExecuted(CppStopped(Exhausted), y.state)
    case CppContinued => CppExecuted(CppStopped(Exhausted), y.state)
  }

  function WhenDone(r: Evaluated<Value>, st: State): Executed {
    Executed(if r.result.Raised? then Failed(r.result.failure) else Normal, st.(output := r.output))
  }

  function CppWhenDone(r: CppEvaluated<CppValue>, st: CppState): CppExecuted {
    if !r.result.Ok? then StopWith(r.result, st.(output := r.output))
    else CppExecuted(CppNormal, st.(output := r.output))
  }

  lemma LoopTurns(fuel: nat, ctx: Ctx, st: State, s: Stmt)
    requires s.While?
    ensures var r := Eval(fuel, ctx, st, s.cond);
      var x := ExecBlock(fuel, ctx, st.(output := r.output), s.body);
      ExecLoop(fuel, ctx, st, s)
        == if r.result.Raised? || !r.result.value.Truthy() then WhenDone(r, st)
           else AfterTurn(fuel, ctx, x, s)
  {
  }

  lemma CppLoopTurns(fuel: nat, ctx: CppCtx, st: CppState, cond: CppExpr, body: seq<CppStmt>)
    ensures var r := CppEval(fuel, ctx, st, cond);
      var y := CppExecBlock(fuel, ctx, st.(output := r.output), body);
      CppExec(fuel, ctx, st, CppWhile(cond, body))
        == if !r.result.Ok? || !r.result.value.Truthy() then CppWhenDone(r, st)
           else CppAfterTurn(fuel, ctx, y, CppWhile(cond, body))
  {
  }

  function Unbroken(x: Executed): Executed {
    if x.outcome.Broke? then x.(outcome := Normal) else x
  }

  lemma LastTurnMatches(w: World, site: Site, inner: Site, flags: seq<(nat, bool)>, x: Executed, y: CppExecuted)
    requires inner.result == site.result
    requires RunMatches(w, inner, x, y, FlagsAfter(inner, flags, x.outcome))
    ensures RunMatches(w, site, Unbroken(LastTurn(x)), CppLastTurn(y), FlagsAfter(inner, flags, LastTurn(x).outcome))
  {
  }

  lemma ConditionEnds(
      w: World, site: Site, inner: Site, st: State, cst: CppState,
      r: Evaluated<Value>, c: CppEvaluated<CppValue>, k: Kind)
    requires ExprMatches(w, r, c, k)
    requires Matched(w, st, cst) && (r.result.Got? ==> !r.result.value.Truthy())
    ensures r.result.Got? ==> c.result.Ok? && !c.result.value.Truthy()
    ensures RunMatches(w, site, Unbroken(WhenDone(r, st)), CppWhenDone(c, cst),
        FlagsAfter(inner, cst.flags, WhenDone(r, st).outcome))
  {
    if r.result.Got? {
      TruthAgrees(c.result.value, r.result.value);
    }
  }

  lemma {:induction false} TypedInAnyLoop(site: Site, inner: Site, body: seq<Stmt>)
    requires inner.types == site.types && inner.slots == site.slots && inner.result == site.result
    ensures BlockTyped(site, body) == BlockTyped(inner, body)
    decreases body, 0
  {
    if body != [] {
      StmtTypedInAnyLoop(site, inner, body[0]);
      TypedInAnyLoop(site, inner, body[1..]);
    }
  }

  lemma {:induction false} StmtTypedInAnyLoop(site: Site, inner: Site, s: Stmt)
    requires inner.types == site.types && inner.slots == site.slots && inner.result == site.result
    ensures StmtTyped(site, s) == StmtTyped(inner, s)
    decreases s, 0
  {
    match s
    case If(_, body, orelse) => TypedInAnyLoop(site, inner, body); TypedInAnyLoop(site, inner, orelse);
    case While(_, body, orelse) => TypedInAnyLoop(site, inner, body); TypedInAnyLoop(site, inner, orelse);
    case _ =>
  }

  /** A flag declared on top hides only flags of its own number. */
  lemma FlagsBelow(flags: seq<(nat, bool)>, n: nat, b: bool, m: nat)
    ensures FindFlag(flags + [(n, b)], n) == Some(|flags|)
    ensures m != n ==> FindFlag(flags + [(n, b)], m) == FindFlag(flags, m)
    ensures m != n ==> RaiseFlag(flags + [(n, b)], m) == RaiseFlag(flags, m) + [(n, b)]
    ensures RaiseFlag(flags + [(n, b)], n) == flags + [(n, true)]
  {
    assert (flags + [(n, b)])[..|flags|] == flags;
  }

  lemma {:induction false} WhileSimulates(w: World, site: Site, st: State, cst: CppState, fuel: nat, s: Stmt)
    requires s.While? && Linked(w) && SiteFits(w, site) && Matched(w, st, cst) && FlagsReady(site, cst.flags)
    requires StmtTyped(site, s) && LowerStmt(site, s).Some?
    ensures var x := Exec(fuel, w.ctx, st, s);
      RunMatches(w, site, x, CppExec(fuel, w.cpp, cst, LowerStmt(site, s).value[0]),
          FlagsAfter(site, cst.flags, x.outcome))
    decreases fuel, s, 2
  {
    var loop := CppWhile(LowerExpr(site.types, s.cond, false).value, LowerBlock(InLoop(site, s), s.body).value);
    if s.orelse == [] {
      LoopSimulates(w, site, st, cst, fuel, s);
      assert LowerStmt(site, s).value == [loop];
    } else {
      var d, flags := site.depth, cst.flags;
      var guarded := IfNotFlag(d, LowerBlock(site, s.orelse).value);
      var cst1 := cst.(flags := flags + [(d, false)]);
      FlagsBelow(flags, d, false, d);
      LoopSimulates(w, site, st, cst1, fuel, s);
      var x, y := ExecLoop(fuel, w.ctx, st, s), CppExec(fuel, w.cpp, cst1, loop);
      BlockOfThree(fuel, w.cpp, cst, d, loop, guarded);
      assert LowerStmt(site, s).value == [CppBlock([DeclareFlag(d), loop, guarded])];
      if x.outcome.Normal? {
        if d > 0 { FlagsBelow(flags, d, false, d - 1); }
        BlockSimulates(w, site, x.state, y.state, fuel, s.orelse);
      }
      ElseSimulates(w, site, x, y, fuel, flags, s.orelse);
    }
  }

  /** The statement after the loop: the block's own flag tells its two exits apart, also
      when a break inside the else suite leaves an outer loop, or flags of equal depth
      shadow. `x` and `y` are the loop's own runs. */
  lemma ElseSimulates(
      w: World, site: Site, x: Executed, y: CppExecuted, fuel: nat, flags: seq<(nat, bool)>, orelse: seq<Stmt>)
    requires LowerBlock(site, orelse).Some?
    requires RunMatches(w, site, if x.outcome.Broke? then x.(outcome := Normal) else x, y,
                        flags + [(site.depth, x.outcome.Broke?)])
    requires x.outcome.Normal? ==>
      var z := ExecBlock(fuel, w.ctx, x.state, orelse);
      RunMatches(w, site, z, CppExecBlock(fuel, w.cpp, y.state, LowerBlock(site, orelse).value),
                 FlagsAfter(site, y.state.flags, z.outcome))
    requires FlagsReady(site, flags) && (site.hasElse ==> site.depth > 0)
    ensures var guarded := IfNotFlag(site.depth, LowerBlock(site, orelse).value);
      var z := AfterLoop(fuel, w.ctx, x, orelse);
      RunMatches(w, site, z,
                 LeaveBlock(|flags|, if y.outcome.CppNormal? then CppExec(fuel, w.cpp, y.state, guarded) else y),
                 FlagsAfter(site, flags, z.outcome))
  {
    var d := site.depth;
    FlagsBelow(flags, d, x.outcome.Broke?, d);
    if x.outcome.Normal? {
      if d > 0 { FlagsBelow(flags, d, false, d - 1); }
      var z := ExecBlock(fuel, w.ctx, x.state, orelse);
      var c := CppExecBlock(fuel, w.cpp, y.state, LowerBlock(site, orelse).value);
      assert FlagsAfter(site, y.state.flags, z.outcome) == FlagsAfter(site, flags, z.outcome) + [(d, false)];
      LeavingDropsTheFlag(w, site, z, c, FlagsAfter(site, flags, z.outcome), (d, false));
    } else if x.outcome.Broke? {
      LeavingDropsTheFlag(w, site, x.(outcome := Normal), y, flags, (d, true));
    } else {
      LeavingDropsTheFlag(w, site, x, y, flags, (d, false));
    }
  }

  function AfterLoop(fuel: nat, ctx: Ctx, x: Executed, orelse: seq<Stmt>): Executed {
    match x.outcome
    case Normal => ExecBlock(fuel, ctx, x.state, orelse)
    case Broke => Executed(Normal, x.state)
    case _ => x
  }

  lemma LeavingDropsTheFlag(
      w: World, site: Site, x: Executed, c: CppExecuted, flags: seq<(nat, bool)>, top: (nat, bool))
    requires RunMatches(w, site, x, c, flags + [top])
    ensures RunMatches(w, site, x, LeaveBlock(|flags|, c), flags)
  {
    assert (flags + [top])[..|flags|] == flags;
  }

  /** How `{ bool flag = false; while ... if (!flag) {...} }` runs. */
  lemma BlockOfThree(fuel: nat, ctx: CppCtx, st: CppState, d: nat, loop: CppStmt, guarded: CppStmt)
    ensures var st1 := st.(flags := st.flags + [(d, false)]);
      var y := CppExec(fuel, ctx, st1, loop);
      CppExec(fuel, ctx, st, CppBlock([DeclareFlag(d), loop, guarded]))
        == LeaveBlock(|st.flags|, if y.outcome.CppNormal? then CppExec(fuel, ctx, y.state, guarded) else y)
  {
    var st1 := st.(flags := st.flags + [(d, false)]);
    var y := CppExec(fuel, ctx, st1, loop);
    var body := [DeclareFlag(d), loop, guarded];
    assert body[1..] == [loop, guarded] && [loop, guarded][1..] == [guarded];
    CppExecSingle(fuel, ctx, y.state, guarded);
    assert CppExecBlock(fuel, ctx, st, body) == CppExecBlock(fuel, ctx, st1, [loop, guarded]);
  }
}
