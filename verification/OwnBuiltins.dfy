/** Modules that define a function named print or len. The emitter looks at the callee's
    name alone (src/domain/codegen/emitter_expressions.cpp:733) and calls the runtime's
    function, where Python and the type checker find the module's own. What such a call
    does to the contract: it can only hurt a module that both defines the name and calls
    it; a call of an own len agrees exactly when that function answers as the builtin and
    prints nothing; a run that reaches a call of an own print never agrees. */
module OwnBuiltins {
  import opened Options
  import opened Numbers
  import opened IntRuntime
  import opened StrRuntime
  import opened FloatRuntime
  import opened Values
  import opened Syntax
  import opened PythonMachine
  import opened CppMachine
  import opened Lowering
  import opened Simulation
  import opened GlobalReads
  import opened HiddenPrint
  import opened Compiler
  import ExactInts

  // ---------- Who calls a name ----------

  predicate Calls(e: Expr, name: string)
    decreases e
  {
    match e
    case Unary(_, x) => Calls(x, name)
    case Binary(_, l, r) => Calls(l, name) || Calls(r, name)
    case Compare(first, rest) => Calls(first, name) || LinksCall(rest, name)
    case BoolOp(_, values) => AnyCalls(values, name)
    case Call(callee, args) => callee == name || AnyCalls(args, name)
    case _ => false
  }

  predicate AnyCalls(es: seq<Expr>, name: string)
    decreases es
  {
    es != [] && (Calls(es[0], name) || AnyCalls(es[1..], name))
  }

  predicate LinksCall(rest: Links, name: string)
    decreases rest
  {
    rest.Link? && (Calls(rest.operand, name) || LinksCall(rest.more, name))
  }

  /** At any depth, bodies of definitions included. */
  predicate BlockCalls(body: seq<Stmt>, name: string)
    decreases body
  {
    body != [] && (StmtCalls(body[0], name) || BlockCalls(body[1..], name))
  }

  predicate StmtCalls(s: Stmt, name: string)
    decreases s
  {
    match s
    case ExprStmt(e) => Calls(e, name)
    case Assign(_, value) => Calls(value, name)
    case AnnAssign(_, _, initial) => initial.Some? && Calls(initial.value, name)
    case Return(result) => result.Some? && Calls(result.value, name)
    case If(cond, body, orelse) => Calls(cond, name) || BlockCalls(body, name) || BlockCalls(orelse, name)
    case While(cond, body, orelse) => Calls(cond, name) || BlockCalls(body, name) || BlockCalls(orelse, name)
    case FunctionDef(_, _, _, body) => BlockCalls(body, name)
    case _ => false
  }

  ghost predicate AFunctionCalls(functions: map<string, Function>, name: string) {
    exists id :: id in functions && BlockCalls(functions[id].body, name)
  }

  function NameOf(failure: Failure): string {
    if failure.Shadowed? then failure.name else ""
  }

  /** A call that reached a hidden builtin is a call of a name the module defines, made
      here or in one of its functions. */
  ghost predicate Explained(ctx: Ctx, failure: Failure, here: bool) {
    failure.Shadowed? ==>
      IsBuiltin(failure.name) && failure.name in ctx.functions && (here || AFunctionCalls(ctx.functions, failure.name))
  }

  /** No operation on values ends in a call of a hidden builtin. */
  lemma BinaryHidesNothing(ctx: Ctx, op: BinaryOp, a: Value, b: Value)
    ensures var r := PyBinary(ctx.ops, ctx.cap, op, a, b); r.Raised? ==> !r.failure.Shadowed?
  {
  }

  lemma UnaryHidesNothing(ctx: Ctx, op: UnaryOp, a: Value)
    ensures var r := PyUnary(ctx.cap, op, a); r.Raised? ==> !r.failure.Shadowed?
  {
  }

  lemma LiteralHidesNothing(ctx: Ctx, lit: Literal)
    ensures var r := LiteralValue(ctx.ops, lit); r.Raised? ==> !r.failure.Shadowed?
  {
  }

  lemma {:induction false} ExprExplains(fuel: nat, ctx: Ctx, st: State, e: Expr)
    ensures var r := Eval(fuel, ctx, st, e).result;
      r.Raised? ==> Explained(ctx, r.failure, Calls(e, NameOf(r.failure)))
    decreases fuel, e, 0
  {
    hide AFunctionCalls, EvalCall, EvalBool, EvalLinks, PyUnary, PyBinary, LiteralValue;
    match e
    case Const(lit) => LiteralHidesNothing(ctx, lit);
    case Unary(op, operand) =>
      ExprExplains(fuel, ctx, st, operand);
      var r := Eval(fuel, ctx, st, operand).result;
      if r.Got? { UnaryHidesNothing(ctx, op, r.value); }
    case Binary(op, left, right) =>
      ExprExplains(fuel, ctx, st, left);
      var l := Eval(fuel, ctx, st, left);
      var r := Eval(fuel, ctx, st.(output := l.output), right);
      ExprExplains(fuel, ctx, st.(output := l.output), right);
      if l.result.Got? && r.result.Got? { BinaryHidesNothing(ctx, op, l.result.value, r.result.value); }
    case Compare(first, rest) =>
      ExprExplains(fuel, ctx, st, first);
      var r := Eval(fuel, ctx, st, first);
      if r.result.Got? { LinksExplain(fuel, ctx, st.(output := r.output), r.result.value, rest); }
    case BoolOp(isAnd, values) => BoolExplains(fuel, ctx, st, isAnd, values);
    case Call(callee, args) => CallExplains(fuel, ctx, st, callee, args);
    case _ =>
  }

  lemma {:induction false} LinksExplain(fuel: nat, ctx: Ctx, st: State, left: Value, rest: Links)
    ensures var r := EvalLinks(fuel, ctx, st, left, rest).result;
      r.Raised? ==> Explained(ctx, r.failure, LinksCall(rest, NameOf(r.failure)))
    decreases fuel, rest, 0
  {
    if rest.Link? {
      ExprExplains(fuel, ctx, st, rest.operand);
      var r := Eval(fuel, ctx, st, rest.operand);
      if r.result.Got? { LinksExplain(fuel, ctx, st.(output := r.output), r.result.value, rest.more); }
    }
  }

  lemma {:induction false} BoolExplains(fuel: nat, ctx: Ctx, st: State, isAnd: bool, values: seq<Expr>)
    ensures var r := EvalBool(fuel, ctx, st, isAnd, values).result;
      r.Raised? ==> Explained(ctx, r.failure, AnyCalls(values, NameOf(r.failure)))
    decreases fuel, values, 0
  {
    if values != [] {
      ExprExplains(fuel, ctx, st, values[0]);
      BoolExplains(fuel, ctx, st.(output := Eval(fuel, ctx, st, values[0]).output), isAnd, values[1..]);
    }
  }

  lemma {:induction false} ArgsExplain(fuel: nat, ctx: Ctx, st: State, args: seq<Expr>)
    ensures var r := EvalArgs(fuel, ctx, st, args).result;
      r.Raised? ==> Explained(ctx, r.failure, AnyCalls(args, NameOf(r.failure)))
    decreases fuel, args, 0
  {
    if args != [] {
      ExprExplains(fuel, ctx, st, args[0]);
      ArgsExplain(fuel, ctx, st.(output := Eval(fuel, ctx, st, args[0]).output), args[1..]);
    }
  }

  lemma {:induction false} CallExplains(fuel: nat, ctx: Ctx, st: State, callee: string, args: seq<Expr>)
    ensures var r := EvalCall(fuel, ctx, st, callee, args).result;
      r.Raised? ==> Explained(ctx, r.failure, callee == NameOf(r.failure) || AnyCalls(args, NameOf(r.failure)))
    decreases fuel, args, 1
  {
    ArgsExplain(fuel, ctx, st, args);
    var r := EvalArgs(fuel, ctx, st, args);
    if r.result.Got? && callee in ctx.functions && |ctx.functions[callee].params| == |args| && fuel > 0 {
      var f := ctx.functions[callee];
      var x := ExecBlock(fuel - 1, Inside(ctx, f), Entered(st, f, r.result.value, r.output), f.body);
      BlockExplains(fuel - 1, Inside(ctx, f), Entered(st, f, r.result.value, r.output), f.body);
      if x.outcome.Failed? && BlockCalls(f.body, NameOf(x.outcome.failure)) {
        assert AFunctionCalls(ctx.functions, NameOf(x.outcome.failure));
      }
    }
  }

  lemma {:induction false} BlockExplains(fuel: nat, ctx: Ctx, st: State, body: seq<Stmt>)
    ensures var o := ExecBlock(fuel, ctx, st, body).outcome;
      o.Failed? ==> Explained(ctx, o.failure, BlockCalls(body, NameOf(o.failure)))
    decreases fuel, body, 0
  {
    if body != [] {
      StmtExplains(fuel, ctx, st, body[0]);
      BlockExplains(fuel, ctx, Exec(fuel, ctx, st, body[0]).state, body[1..]);
    }
  }

  lemma {:induction false} StmtExplains(fuel: nat, ctx: Ctx, st: State, s: Stmt)
    ensures var o := Exec(fuel, ctx, st, s).outcome;
      o.Failed? ==> Explained(ctx, o.failure, StmtCalls(s, NameOf(o.failure)))
    decreases fuel, s, 1
  {
    match s
    case ExprStmt(e) => ExprExplains(fuel, ctx, st, e);
    case Assign(_, value) => ExprExplains(fuel, ctx, st, value);
    case AnnAssign(_, _, initial) => if initial.Some? { ExprExplains(fuel, ctx, st, initial.value); }
    case Return(result) => if result.Some? { ExprExplains(fuel, ctx, st, result.value); }
    case If(cond, body, orelse) =>
      ExprExplains(fuel, ctx, st, cond);
      var st' := st.(output := Eval(fuel, ctx, st, cond).output);
      BlockExplains(fuel, ctx, st', body);
      BlockExplains(fuel, ctx, st', orelse);
    case While(_, _, orelse) =>
      LoopExplains(fuel, ctx, st, s);
      BlockExplains(fuel, ctx, ExecLoop(fuel, ctx, st, s).state, orelse);
    case _ =>
  }

  lemma {:induction false} LoopExplains(fuel: nat, ctx: Ctx, st: State, s: Stmt)
    requires s.While?
    ensures var o := ExecLoop(fuel, ctx, st, s).outcome;
      o.Failed? ==> Explained(ctx, o.failure, StmtCalls(s, NameOf(o.failure)))
    decreases fuel, s, 0
  {
    ExprExplains(fuel, ctx, st, s.cond);
    var st' := st.(output := Eval(fuel, ctx, st, s.cond).output);
    BlockExplains(fuel, ctx, st', s.body);
    var x := ExecBlock(fuel, ctx, st', s.body);
    if fuel > 0 && (x.outcome.Normal? || x.outcome.Continued?) {
      LoopExplains(fuel - 1, ctx, x.state, s);
    }
  }

  lemma {:induction false} CallsInFunctions(body: seq<Stmt>, name: string)
    ensures AFunctionCalls(FunctionsOf(body), name) ==> BlockCalls(body, name)
  {
    if body != [] {
      CallsInFunctions(body[1..], name);
      if AFunctionCalls(FunctionsOf(body), name) {
        var id :| id in FunctionsOf(body) && BlockCalls(FunctionsOf(body)[id].body, name);
        if !body[0].FunctionDef? || id != body[0].id {
          assert AFunctionCalls(FunctionsOf(body[1..]), name);
        }
      }
    }
  }

  /** A caller can see in advance whether a run may reach such a call: the module defines
      print or len, and calls the name it defines. */
  predicate CallsItsOwn(body: seq<Stmt>, name: string) {
    IsBuiltin(name) && name in FunctionsOf(body) && BlockCalls(body, name)
  }

  /** No other module's run is ever excluded for it. */
  lemma OnlyItsOwnNames(ops: FloatOps, body: seq<Stmt>, fuel: nat)
    ensures var o := RunModule(fuel, ModuleCtx(ops, body), body).outcome;
      o.Failed? && o.failure.Shadowed? ==> CallsItsOwn(body, o.failure.name)
  {
    var ctx := ModuleCtx(ops, body);
    var o := RunModule(fuel, ctx, body).outcome;
    BlockExplains(fuel, ctx, State(map[], map[], {}, []), body);
    if o.Failed? && o.failure.Shadowed? {
      CallsInFunctions(body, o.failure.name);
    }
  }

  /** Everything a caller can check beforehand together: such an opening, and no print or
      len of the module's own that it calls. What is left is a result for which the runtime
      does not follow CPython. */
  lemma NothingElseParts(
      ops: FloatOps, types: Types, localTypes: map<string, map<string, Kind>>,
      prologue: seq<Stmt>, rest: seq<Stmt>, program: Program, fuel: nat)
    requires ops.Faithful() && Compiler.Checked(types, localTypes, prologue + rest)
    requires LowerModule(types, localTypes, prologue + rest) == Some(program)
    requires IsPrologue(prologue) && FunctionsOf(rest) == map[]
    requires CheckBlock(prologue + rest, types.globals.Keys, {}).bound
         <= CheckBlock(prologue, types.globals.Keys, {}).bound
    requires !CallsItsOwn(prologue + rest, "print") && !CallsItsOwn(prologue + rest, "len")
    ensures var x := RunModule(fuel, ModuleCtx(ops, prologue + rest), prologue + rest);
      var y := RunProgram(fuel, ops, program);
      x.outcome == Failed(Outside) || (SameEnding(x.outcome, y.outcome) && x.state.output == y.state.output)
  {
    PrologueCoversEveryCall(ops, types, localTypes, prologue, rest, program, fuel);
    OnlyItsOwnNames(ops, prologue + rest, fuel);
  }

  // ---------- One call of an own len ----------

  /** Both sides have the same value and have printed the same. */
  predicate SameValue(r: Evaluated<Value>, c: CppEvaluated<CppValue>) {
    r.result.Got? && c.result.Ok? && Represents(c.result.value, r.result.value) && r.output == c.output
  }

  lemma LenOf(fuel: nat, cpp: CppCtx, cst: CppState, xs: seq<CppExpr>, text: seq<Scalar>, output: Output)
    requires CppEvalArgs(fuel, cpp, cst, xs) == CppEvaluated(Ok([CppStr(Encode(text))]), output) && |xs| == 1
    requires |text| <= INT64_MAX
    ensures CppEval(fuel, cpp, cst, LenCall(xs)) == CppEvaluated(Ok(CppInt(Plain(|text|))), output)
  {
    hide Encode, CountLeads, CppEvalArgs;
    LeadsAreCodePoints(text);
  }

  /** Once the module's own len is bound, a call of it and the emitted call agree exactly
      when that function's run gives the length and prints nothing. */
  lemma OwnLenAgrees(
      fuel: nat, ctx: Ctx, st: State, f: Function, args: seq<Expr>,
      cpp: CppCtx, cst: CppState, xs: seq<CppExpr>, text: seq<Scalar>, output: Output)
    requires fuel > 0 && !ctx.cap && Resolve(ctx, st, "len") == Got(Own(f)) && |f.params| == |args| == |xs| == 1
    requires EvalArgs(fuel, ctx, st, args) == Evaluated(Got([PyStr(text)]), output)
    requires CppEvalArgs(fuel, cpp, cst, xs) == CppEvaluated(Ok([CppStr(Encode(text))]), output)
    requires |text| <= INT64_MAX
    ensures var x := ExecBlock(fuel - 1, Inside(ctx, f), Entered(st, f, [PyStr(text)], output), f.body);
      SameValue(EvalCall(fuel, ctx, st, "len", args), CppEval(fuel, cpp, cst, LenCall(xs)))
      <==> CallResult(x.outcome) == Got(PyInt(|text|)) && x.state.output == output
  {
    UserCallRuns(fuel, ctx, st, "len", args, f);
    LenOf(fuel, cpp, cst, xs, text, output);
  }

  /** Until then the builtin answers on both sides. */
  lemma EarlyLenAgrees(
      fuel: nat, ctx: Ctx, st: State, args: seq<Expr>,
      cpp: CppCtx, cst: CppState, xs: seq<CppExpr>, text: seq<Scalar>, output: Output)
    requires !ctx.cap && Resolve(ctx, st, "len") == Got(Builtin) && |args| == |xs| == 1
    requires EvalArgs(fuel, ctx, st, args) == Evaluated(Got([PyStr(text)]), output)
    requires CppEvalArgs(fuel, cpp, cst, xs) == CppEvaluated(Ok([CppStr(Encode(text))]), output)
    requires |text| <= INT64_MAX
    ensures SameValue(EvalCall(fuel, ctx, st, "len", args), CppEval(fuel, cpp, cst, LenCall(xs)))
  {
    hide Encode, CppEval, CppEvalArgs;
    LenOf(fuel, cpp, cst, xs, text, output);
  }

  // ---------- An own print is silent ----------

  lemma {:induction false} ExprIsSilent(fuel: nat, ctx: Ctx, st: State, e: Expr)
    requires PrintIsHidden(ctx, st)
    ensures Eval(fuel, ctx, st, e).output == st.output
    decreases fuel, e, 0
  {
    match e
    case Unary(_, operand) => ExprIsSilent(fuel, ctx, st, operand);
    case Binary(_, left, right) =>
      ExprIsSilent(fuel, ctx, st, left);
      ExprIsSilent(fuel, ctx, st.(output := Eval(fuel, ctx, st, left).output), right);
    case Compare(first, rest) =>
      ExprIsSilent(fuel, ctx, st, first);
      var r := Eval(fuel, ctx, st, first);
      if r.result.Got? { LinksAreSilent(fuel, ctx, st.(output := r.output), r.result.value, rest); }
    case BoolOp(isAnd, values) => BoolIsSilent(fuel, ctx, st, isAnd, values);
    case Call(callee, args) => CallIsSilent(fuel, ctx, st, callee, args);
    case _ =>
  }

  lemma {:induction false} LinksAreSilent(fuel: nat, ctx: Ctx, st: State, left: Value, rest: Links)
    requires PrintIsHidden(ctx, st)
    ensures EvalLinks(fuel, ctx, st, left, rest).output == st.output
    decreases fuel, rest, 0
  {
    if rest.Link? {
      ExprIsSilent(fuel, ctx, st, rest.operand);
      var r := Eval(fuel, ctx, st, rest.operand);
      if r.result.Got? { LinksAreSilent(fuel, ctx, st.(output := r.output), r.result.value, rest.more); }
    }
  }

  lemma {:induction false} BoolIsSilent(fuel: nat, ctx: Ctx, st: State, isAnd: bool, values: seq<Expr>)
    requires PrintIsHidden(ctx, st)
    ensures EvalBool(fuel, ctx, st, isAnd, values).output == st.output
    decreases fuel, values, 0
  {
    if values != [] {
      ExprIsSilent(fuel, ctx, st, values[0]);
      BoolIsSilent(fuel, ctx, st.(output := Eval(fuel, ctx, st, values[0]).output), isAnd, values[1..]);
    }
  }

  lemma {:induction false} ArgsAreSilent(fuel: nat, ctx: Ctx, st: State, args: seq<Expr>)
    requires PrintIsHidden(ctx, st)
    ensures EvalArgs(fuel, ctx, st, args).output == st.output
    decreases fuel, args, 0
  {
    if args != [] {
      ExprIsSilent(fuel, ctx, st, args[0]);
      ArgsAreSilent(fuel, ctx, st.(output := Eval(fuel, ctx, st, args[0]).output), args[1..]);
    }
  }

  lemma {:induction false} CallIsSilent(fuel: nat, ctx: Ctx, st: State, callee: string, args: seq<Expr>)
    requires PrintIsHidden(ctx, st)
    ensures EvalCall(fuel, ctx, st, callee, args).output == st.output
    decreases fuel, args, 1
  {
    ArgsAreSilent(fuel, ctx, st, args);
    var r := EvalArgs(fuel, ctx, st, args);
    if r.result.Got? && callee in ctx.functions && |ctx.functions[callee].params| == |args| && fuel > 0 {
      var f := ctx.functions[callee];
      BlockIsSilent(fuel - 1, Inside(ctx, f), Entered(st, f, r.result.value, r.output), f.body);
    }
  }

  predicate StaysSilent(ctx: Ctx, st: State, x: Executed) {
    x.state.output == st.output && PrintIsHidden(ctx, x.state)
  }

  /** With its own print bound, a module prints nothing. */
  lemma {:induction false} BlockIsSilent(fuel: nat, ctx: Ctx, st: State, body: seq<Stmt>)
    requires PrintIsHidden(ctx, st)
    ensures StaysSilent(ctx, st, ExecBlock(fuel, ctx, st, body))
    decreases fuel, body, 0
  {
    if body != [] {
      StmtIsSilent(fuel, ctx, st, body[0]);
      BlockIsSilent(fuel, ctx, Exec(fuel, ctx, st, body[0]).state, body[1..]);
    }
  }

  lemma {:induction false} StmtIsSilent(fuel: nat, ctx: Ctx, st: State, s: Stmt)
    requires PrintIsHidden(ctx, st)
    ensures StaysSilent(ctx, st, Exec(fuel, ctx, st, s))
    decreases fuel, s, 1
  {
    match s
    case ExprStmt(e) => ExprIsSilent(fuel, ctx, st, e);
    case Assign(_, value) => ExprIsSilent(fuel, ctx, st, value);
    case AnnAssign(_, _, initial) => if initial.Some? { ExprIsSilent(fuel, ctx, st, initial.value); }
    case Return(result) => if result.Some? { ExprIsSilent(fuel, ctx, st, result.value); }
    case If(cond, body, orelse) =>
      ExprIsSilent(fuel, ctx, st, cond);
      var st' := st.(output := Eval(fuel, ctx, st, cond).output);
      BlockIsSilent(fuel, ctx, st', body);
      BlockIsSilent(fuel, ctx, st', orelse);
    case While(_, _, orelse) =>
      LoopIsSilent(fuel, ctx, st, s);
      BlockIsSilent(fuel, ctx, ExecLoop(fuel, ctx, st, s).state, orelse);
    case _ =>
  }

  lemma {:induction false} LoopIsSilent(fuel: nat, ctx: Ctx, st: State, s: Stmt)
    requires s.While? && PrintIsHidden(ctx, st)
    ensures StaysSilent(ctx, st, ExecLoop(fuel, ctx, st, s))
    decreases fuel, s, 0
  {
    ExprIsSilent(fuel, ctx, st, s.cond);
    var st' := st.(output := Eval(fuel, ctx, st, s.cond).output);
    BlockIsSilent(fuel, ctx, st', s.body);
    var x := ExecBlock(fuel, ctx, st', s.body);
    if fuel > 0 && (x.outcome.Normal? || x.outcome.Continued?) {
      LoopIsSilent(fuel - 1, ctx, x.state, s);
    }
  }

  // ---------- What a call of an own print does ----------

  /** Up to such a call CPython has printed what the capped run has, and from there on it
      prints nothing. */
  lemma {:induction false} PrintedBefore(fuel: nat, ctx: Ctx, st: State, body: seq<Stmt>)
    requires ctx.cap && Flat(ctx) && DefinesOnTop(body)
    ensures var x := ExecBlock(fuel, ctx, st, body);
      x.outcome == Failed(Shadowed("print")) ==>
        ExecBlock(fuel, ExactInts.Exact(ctx), st, body).state.output == x.state.output
    decreases body
  {
    if PrintIsHidden(ctx, st) {
      BlockIsSilent(fuel, ctx, st, body);
      BlockIsSilent(fuel, ExactInts.Exact(ctx), st, body);
    } else if body != [] {
      var x := Exec(fuel, ctx, st, body[0]);
      if !body[0].FunctionDef? {
        StmtParts(fuel, ctx, st, body[0]);
        StmtExplains(fuel, Emitted(ctx), st, body[0]);
      }
      ExactInts.StmtIsExact(fuel, ctx, st, body[0]);
      PrintedBefore(fuel, ctx, x.state, body[1..]);
    }
  }

  /** For every accepted module: the executable prints a line that CPython does not print
      exactly when the run reaches a call of the module's own print, wherever that call
      stands and whatever the function does. Short of that, and of a trap, the two agree.
      Only the run that the executable makes has to be one that the runtime follows. */
  lemma OwnPrintDecides(
      ops: FloatOps, types: Types, localTypes: map<string, map<string, Kind>>,
      body: seq<Stmt>, program: Program, fuel: nat)
    requires ops.Faithful() && Compiler.Checked(types, localTypes, body)
    requires LowerModule(types, localTypes, body) == Some(program)
    requires !Uncovered(RunModule(fuel, Emitted(ModuleCtx(ops, body)), body).outcome)
    ensures var x := RunModule(fuel, ModuleCtx(ops, body), body);
      var p := RunModule(fuel, ExactInts.Exact(ModuleCtx(ops, body)), body);
      var y := RunProgram(fuel, ops, program);
      && (x.outcome == Failed(Shadowed("print")) ==> |p.state.output| < |y.state.output|)
      && (y.outcome != CppStopped(Trapped) ==>
            (x.outcome != Failed(Shadowed("print"))
             <==> SameEnding(p.outcome, y.outcome) && p.state.output == y.state.output))
  {
    var ctx, st := ModuleCtx(ops, body), State(map[], map[], {}, []);
    ExecutableDoesWhatIsEmitted(ops, types, localTypes, body, program, fuel);
    EmittedIsPython(ops, types, localTypes, body, program, fuel);
    ModuleIsLinked(ops, types, localTypes, body, program);
    PrintedBefore(fuel, ctx, st, body);
    ExactInts.BlockIsExact(fuel, ctx, st, body);
  }
}
