/** How Python runs the slice: evaluation of expressions and execution of statements
    (chapters 6 to 8 of the Python Language Reference), with fuel for loops and calls. */
module PythonMachine {
  import opened Options
  import opened Characters
  import opened Numbers
  import opened FloatRuntime
  import opened CompareRuntime
  import opened StrRuntime
  import opened Values
  import opened Syntax
  import opened Literals

  /** A function as its call sees it. */
  datatype Function = Function(params: seq<string>, body: seq<Stmt>)

  /** Where names are looked up: the module's own namespace, or a function whose
      parameters and assigned names are local. */
  datatype Scope = ModuleScope | FunctionScope(names: set<string>)

  /** `cap` makes a run fail where the executable has to part from it: at an int beyond 64
      bits, and at a call that Hides says the emitter takes for another. Without it this is
      CPython. */
  datatype Ctx = Ctx(ops: FloatOps, cap: bool, functions: map<string, Function>, scope: Scope)

  type Output = seq<seq<Printed>>

  datatype State = State(globals: map<string, Value>, locals: map<string, Value>, defined: set<string>, output: Output)

  /** Expressions change nothing but the output. */
  datatype Evaluated<+T> = Evaluated(result: Result<T>, output: Output)

  datatype Outcome = Normal | Broke | Continued | Returned(value: Value) | Failed(failure: Failure)

  datatype Executed = Executed(outcome: Outcome, state: State)

  predicate IsLocal(ctx: Ctx, id: string) {
    ctx.scope.FunctionScope? && id in ctx.scope.names
  }

  function Lookup(ctx: Ctx, st: State, id: string): Result<Value> {
    if IsLocal(ctx, id) then
      if id in st.locals then Got(st.locals[id]) else Raised(UnboundLocal(id))
    else if id in st.globals then Got(st.globals[id])
    else if ctx.scope.ModuleScope? then Raised(UnboundLocal(id))
    else Raised(UnboundGlobal(id))
  }

  function Bind(ctx: Ctx, st: State, id: string, v: Value): State {
    if ctx.scope.ModuleScope? then st.(globals := st.globals[id := v]) else st.(locals := st.locals[id := v])
  }

  function LiteralValue(ops: FloatOps, lit: Literal): Result<Value> {
    match lit
    case IntLit(lexeme) => if IsIntegerLexeme(lexeme) then Got(PyInt(IntegerValue(lexeme))) else Raised(TypeMismatch)
    case FloatLit(lexeme) => Got(PyFloat(ops.parse(WithoutUnderscores(lexeme))))
    case StrLit(text) => Got(PyStr(text))
    case BoolLit(b) => Got(PyBool(b))
    case NoneLit => Got(PyNone)
    case OtherLit => Raised(TypeMismatch)
  }

  function Eval(fuel: nat, ctx: Ctx, st: State, e: Expr): Evaluated<Value>
    decreases fuel, e, 0
  {
    match e
    case Const(lit) => Evaluated(LiteralValue(ctx.ops, lit), st.output)
    case Name(id) => Evaluated(Lookup(ctx, st, id), st.output)
    case Unary(op, operand) =>
      var r := Eval(fuel, ctx, st, operand);
      if r.result.Raised? then r else Evaluated(PyUnary(ctx.cap, op, r.result.value), r.output)
    case Binary(op, left, right) =>
      var r := Eval(fuel, ctx, st, left);
      if r.result.Raised? then r
      else
        var s := Eval(fuel, ctx, st.(output := r.output), right);
        if s.result.Raised? then s
        else Evaluated(PyBinary(ctx.ops, ctx.cap, op, r.result.value, s.result.value), s.output)
    case Compare(first, rest) =>
      var r := Eval(fuel, ctx, st, first);
      if r.result.Raised? then r else EvalLinks(fuel, ctx, st.(output := r.output), r.result.value, rest)
    case BoolOp(isAnd, values) => EvalBool(fuel, ctx, st, isAnd, values)
    case Call(callee, args) => EvalCall(fuel, ctx, st, callee, args)
    case OtherExpr => Evaluated(Raised(TypeMismatch), st.output)
  }

  /** The rest of a chain after `left`: each operand is evaluated at most once, and none
      after the first false link. */
  function EvalLinks(fuel: nat, ctx: Ctx, st: State, left: Value, rest: Links): Evaluated<Value>
    decreases fuel, rest, 0
  {
    match rest
    case NoLinks => Evaluated(Raised(TypeMismatch), st.output)
    case Link(op, operand, more) =>
      var r := Eval(fuel, ctx, st, operand);
      if r.result.Raised? then r
      else if op.None? then Evaluated(Raised(TypeMismatch), r.output)
      else
        var c := PyCompare(op.value, left, r.result.value);
        if c.Raised? then Evaluated(Raised(c.failure), r.output)
        else if more.NoLinks? || !c.value then Evaluated(Got(PyBool(c.value)), r.output)
        else EvalLinks(fuel, ctx, st.(output := r.output), r.result.value, more)
  }

  /** `and` and `or` give the operand that decided. */
  function EvalBool(fuel: nat, ctx: Ctx, st: State, isAnd: bool, values: seq<Expr>): Evaluated<Value>
    decreases fuel, values, 0
  {
    if values == [] then Evaluated(Raised(TypeMismatch), st.output)
    else
      var r := Eval(fuel, ctx, st, values[0]);
      if r.result.Raised? || |values| == 1 || r.result.value.Truthy() != isAnd then r
      else EvalBool(fuel, ctx, st.(output := r.output), isAnd, values[1..])
  }

  function EvalArgs(fuel: nat, ctx: Ctx, st: State, args: seq<Expr>): (r: Evaluated<seq<Value>>)
    ensures r.result.Got? ==> |r.result.value| == |args|
    decreases fuel, args, 0
  {
    if args == [] then Evaluated(Got([]), st.output)
    else
      var r := Eval(fuel, ctx, st, args[0]);
      if r.result.Raised? then Evaluated(Raised(r.result.failure), r.output)
      else
        var s := EvalArgs(fuel, ctx, st.(output := r.output), args[1..]);
        if s.result.Raised? then s else Evaluated(Got([r.result.value] + s.result.value), s.output)
  }

  function PrintedLine(values: seq<Value>): seq<Printed> {
    if values == [] then [] else [PyPrinted(values[0])] + PrintedLine(values[1..])
  }

  /** A called name stands for a function of the module, or for a builtin. */
  datatype Callee = Builtin | Own(f: Function)

  predicate IsBuiltin(id: string) {
    id == "print" || id == "len"
  }

  /** What a name called stands for, looked up before its arguments are evaluated (sections
      4.2.2 and 6.3.4 of the Python Language Reference): a builtin is found last, so also
      while the `def` that will hide it has not run. Variables are not callable. */
  function Resolve(ctx: Ctx, st: State, id: string): Result<Callee> {
    if IsLocal(ctx, id) then Raised(if id in st.locals then TypeMismatch else UnboundLocal(id))
    else if id in st.globals then Raised(TypeMismatch)
    else if id in ctx.functions && id in st.defined then Got(Own(ctx.functions[id]))
    else if IsBuiltin(id) then Got(Builtin)
    else if id in ctx.functions then Raised(UndefinedFunction(id))
    else Raised(TypeMismatch)
  }

  /** The emitter looks at a callee's name alone, and calls the runtime's print and len even
      where the call is one of the module's own function. In a module with its own len no
      call of len is followed, as even one that still reaches the builtin is typed by that
      function's signature. */
  predicate Hides(ctx: Ctx, id: string, target: Callee) {
    id in ctx.functions && (id == "len" || (id == "print" && target.Own?))
  }

  function RunBuiltin(cap: bool, id: string, values: seq<Value>, output: Output): Evaluated<Value> {
    if id == "print" then Evaluated(Got(PyNone), output + [PrintedLine(values)])
    else if |values| == 1 && values[0].PyStr? then Evaluated(IntResult(cap, |values[0].text|), output)
    else Evaluated(Raised(TypeMismatch), output)
  }

  function EvalCall(fuel: nat, ctx: Ctx, st: State, callee: string, args: seq<Expr>): Evaluated<Value>
    decreases fuel, args, 1
  {
    var target := Resolve(ctx, st, callee);
    if target.Raised? then Evaluated(Raised(target.failure), st.output)
    else
      var r := EvalArgs(fuel, ctx, st, args);
      if r.result.Raised? then Evaluated(Raised(r.result.failure), r.output)
      else if ctx.cap && Hides(ctx, callee, target.value) then Evaluated(Raised(Shadowed(callee)), r.output)
      else if target.value.Builtin? then RunBuiltin(ctx.cap, callee, r.result.value, r.output)
      else if |target.value.f.params| != |args| then Evaluated(Raised(TypeMismatch), r.output)
      else if fuel == 0 then Evaluated(Raised(OutOfFuel), r.output)
      else
        var f := target.value.f;
        var x := ExecBlock(fuel - 1, Inside(ctx, f), Entered(st, f, r.result.value, r.output), f.body);
        Evaluated(CallResult(x.outcome), x.state.output)
  }

  function Inside(ctx: Ctx, f: Function): Ctx {
    ctx.(scope := FunctionScope(LocalNames(f)))
  }

  function LocalNames(f: Function): set<string> {
    (set id | id in f.params) + AssignedNames(f.body)
  }

  function Entered(st: State, f: Function, values: seq<Value>, output: Output): State
    requires |values| == |f.params|
  {
    State(st.globals, Parameters(f.params, values), st.defined, output)
  }

  /** Duplicate parameter names do not occur, so any order of insertion is the same map. */
  function Parameters<T>(ids: seq<string>, values: seq<T>): map<string, T>
    requires |ids| == |values|
  {
    if ids == [] then map[] else Parameters(ids[1..], values[1..])[ids[0] := values[0]]
  }

  /** A call that falls off the end of its body gives None. */
  function CallResult(outcome: Outcome): Result<Value> {
    match outcome
    case Returned(v) => Got(v)
    case Failed(failure) => Raised(failure)
    case Normal => Got(PyNone)
    case _ => Raised(TypeMismatch)
  }

  function ExecBlock(fuel: nat, ctx: Ctx, st: State, body: seq<Stmt>): Executed
    decreases fuel, body, 0
  {
    if body == [] then Executed(Normal, st)
    else
      var x := Exec(fuel, ctx, st, body[0]);
      if x.outcome.Normal? then ExecBlock(fuel, ctx, x.state, body[1..]) else x
  }

  function AfterExpr(ctx: Ctx, st: State, r: Evaluated<Value>, id: string): Executed {
    match r.result
    case Got(v) => Executed(Normal, Bind(ctx, st.(output := r.output), id, v))
    case Raised(f) => Executed(Failed(f), st.(output := r.output))
  }

  function Exec(fuel: nat, ctx: Ctx, st: State, s: Stmt): Executed
    decreases fuel, s, 1
  {
    match s
    case ExprStmt(e) =>
      var r := Eval(fuel, ctx, st, e);
      Executed(if r.result.Raised? then Failed(r.result.failure) else Normal, st.(output := r.output))
    case Assign(NameTarget(id), value) => AfterExpr(ctx, st, Eval(fuel, ctx, st, value), id)
    case AnnAssign(target, _, initial) =>
      if initial.None? then Executed(Normal, st)
      else if target.OtherTarget? then Executed(Failed(TypeMismatch), st)
      else AfterExpr(ctx, st, Eval(fuel, ctx, st, initial.value), target.id)
    case Pass => Executed(Normal, st)
    case Break => Executed(Broke, st)
    case Continue => Executed(Continued, st)
    case Return(result) =>
      if result.None? then Executed(Returned(PyNone), st)
      else
        var r := Eval(fuel, ctx, st, result.value);
        Executed(if r.result.Raised? then Failed(r.result.failure) else Returned(r.result.value),
            st.(output := r.output))
    case If(cond, body, orelse) =>
      var r := Eval(fuel, ctx, st, cond);
      var st' := st.(output := r.output);
      if r.result.Raised? then Executed(Failed(r.result.failure), st')
      else if r.result.value.Truthy() then ExecBlock(fuel, ctx, st', body)
      else ExecBlock(fuel, ctx, st', orelse)
    case While(_, _, orelse) =>
      var x := ExecLoop(fuel, ctx, st, s);
      (match x.outcome
       case Normal => ExecBlock(fuel, ctx, x.state, orelse)
       case Broke => Executed(Normal, x.state)
       case _ => x)
    case FunctionDef(id, _, _, _) => Executed(Normal, st.(defined := st.defined + {id}))
    case _ => Executed(Failed(TypeMismatch), st)
  }

  /** The turns of a loop. Normal: its condition came out false. Broke: a break left it,
      which also skips the else suite (section 8.2 of the Python Language Reference). */
  function ExecLoop(fuel: nat, ctx: Ctx, st: State, s: Stmt): Executed
    requires s.While?
    decreases fuel, s, 0
  {
    var r := Eval(fuel, ctx, st, s.cond);
    var st' := st.(output := r.output);
    if r.result.Raised? then Executed(Failed(r.result.failure), st')
    else if !r.result.value.Truthy() then Executed(Normal, st')
    else
      var x := ExecBlock(fuel, ctx, st', s.body);
      if !x.outcome.Normal? && !x.outcome.Continued? then x
      else if fuel == 0 then Executed(Failed(OutOfFuel), x.state)
      else ExecLoop(fuel - 1, ctx, x.state, s)
  }

  /** A whole module: its statements in order, from an empty namespace. */
  function RunModule(fuel: nat, ctx: Ctx, body: seq<Stmt>): Executed {
    ExecBlock(fuel, ctx.(scope := ModuleScope), State(map[], map[], {}, []), body)
  }

  /** A decided guard has the truth value of the condition it was folded from. */
  lemma {:induction false} GuardIsTheTruth(fuel: nat, ctx: Ctx, st: State, e: Expr)
    ensures var r := Eval(fuel, ctx, st, e).result;
      GuardOf(e) != Unknown ==> r.Got? && r.value.Truthy() == (GuardOf(e) == AlwaysTrue)
  {
    match e
    case Unary(op, operand) => GuardIsTheTruth(fuel, ctx, st, operand);
    case Const(IntLit(lexeme)) =>
      if IsPythonDecimal(lexeme) {
        DecimalIsAnInteger(lexeme);
      }
    case _ =>
  }

  lemma DecimalIsAnInteger(lexeme: string)
    requires IsPythonDecimal(lexeme)
    ensures IsIntegerLexeme(lexeme) && IntegerValue(lexeme) == DecimalValue(lexeme)
  {
    TranslatableIsPythonDecimal(lexeme);
    var digits := WithoutUnderscores(lexeme);
    assert forall i :: 0 <= i < |digits| ==> IsDigit(digits[i]);
  }
}
