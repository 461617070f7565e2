/** The emitter takes every call of print for the builtin (src/domain/codegen/
    emitter_expressions.cpp:733). A module with a print of its own is then run as if that
    function were not there: the same run as Python's up to the first call of it that is
    reached, and a line more printed from there on. */
module HiddenPrint {
  import opened Options
  import opened Values
  import opened Syntax
  import opened PythonMachine

  /** Python's run with no print but the builtin. */
  function Emitted(ctx: Ctx): Ctx {
    ctx.(functions := ctx.functions - {"print"})
  }

  /** The module's own print is bound: nothing can reach the builtin any more. */
  predicate PrintIsHidden(ctx: Ctx, st: State) {
    "print" in ctx.functions && "print" in st.defined
  }

  // ---------- Definitions stand at the top level ----------

  predicate NoDefinitions(body: seq<Stmt>)
    decreases body
  {
    body == [] || (IsNoDefinition(body[0]) && NoDefinitions(body[1..]))
  }

  predicate IsNoDefinition(s: Stmt)
    decreases s
  {
    match s
    case FunctionDef(_, _, _, _) => false
    case If(_, body, orelse) => NoDefinitions(body) && NoDefinitions(orelse)
    case While(_, body, orelse) => NoDefinitions(body) && NoDefinitions(orelse)
    case _ => true
  }

  ghost predicate Flat(ctx: Ctx) {
    forall id :: id in ctx.functions ==> NoDefinitions(ctx.functions[id].body)
  }

  lemma {:induction false} BlockKeepsDefined(fuel: nat, ctx: Ctx, st: State, body: seq<Stmt>)
    requires NoDefinitions(body)
    ensures ExecBlock(fuel, ctx, st, body).state.defined == st.defined
    decreases fuel, body, 0
  {
    if body != [] {
      StmtKeepsDefined(fuel, ctx, st, body[0]);
      BlockKeepsDefined(fuel, ctx, Exec(fuel, ctx, st, body[0]).state, body[1..]);
    }
  }

  lemma {:induction false} StmtKeepsDefined(fuel: nat, ctx: Ctx, st: State, s: Stmt)
    requires IsNoDefinition(s)
    ensures Exec(fuel, ctx, st, s).state.defined == st.defined
    decreases fuel, s, 1
  {
    match s
    case If(cond, body, orelse) =>
      var st' := st.(output := Eval(fuel, ctx, st, cond).output);
      BlockKeepsDefined(fuel, ctx, st', body);
      BlockKeepsDefined(fuel, ctx, st', orelse);
    case While(_, _, orelse) =>
      LoopKeepsDefined(fuel, ctx, st, s);
      BlockKeepsDefined(fuel, ctx, ExecLoop(fuel, ctx, st, s).state, orelse);
    case _ =>
  }

  lemma {:induction false} LoopKeepsDefined(fuel: nat, ctx: Ctx, st: State, s: Stmt)
    requires s.While? && NoDefinitions(s.body)
    ensures ExecLoop(fuel, ctx, st, s).state.defined == st.defined
    decreases fuel, s, 0
  {
    var st' := st.(output := Eval(fuel, ctx, st, s.cond).output);
    BlockKeepsDefined(fuel, ctx, st', s.body);
    var x := ExecBlock(fuel, ctx, st', s.body);
    if fuel > 0 && (x.outcome.Normal? || x.outcome.Continued?) {
      LoopKeepsDefined(fuel - 1, ctx, x.state, s);
    }
  }

  // ---------- What is printed stays printed ----------

  lemma {:induction false} ExprGrows(fuel: nat, ctx: Ctx, st: State, e: Expr)
    ensures |Eval(fuel, ctx, st, e).output| >= |st.output|
    decreases fuel, e, 0
  {
    match e
    case Unary(_, operand) => ExprGrows(fuel, ctx, st, operand);
    case Binary(_, left, right) =>
      ExprGrows(fuel, ctx, st, left);
      ExprGrows(fuel, ctx, st.(output := Eval(fuel, ctx, st, left).output), right);
    case Compare(first, rest) =>
      ExprGrows(fuel, ctx, st, first);
      var r := Eval(fuel, ctx, st, first);
      if r.result.Got? { LinksGrow(fuel, ctx, st.(output := r.output), r.result.value, rest); }
    case BoolOp(isAnd, values) => BoolGrows(fuel, ctx, st, isAnd, values);
    case Call(callee, args) => CallGrows(fuel, ctx, st, callee, args);
    case _ =>
  }

  lemma {:induction false} LinksGrow(fuel: nat, ctx: Ctx, st: State, left: Value, rest: Links)
    ensures |EvalLinks(fuel, ctx, st, left, rest).output| >= |st.output|
    decreases fuel, rest, 0
  {
    if rest.Link? {
      ExprGrows(fuel, ctx, st, rest.operand);
      var r := Eval(fuel, ctx, st, rest.operand);
      if r.result.Got? { LinksGrow(fuel, ctx, st.(output := r.output), r.result.value, rest.more); }
    }
  }

  lemma {:induction false} BoolGrows(fuel: nat, ctx: Ctx, st: State, isAnd: bool, values: seq<Expr>)
    ensures |EvalBool(fuel, ctx, st, isAnd, values).output| >= |st.output|
    decreases fuel, values, 0
  {
    if values != [] {
      ExprGrows(fuel, ctx, st, values[0]);
      BoolGrows(fuel, ctx, st.(output := Eval(fuel, ctx, st, values[0]).output), isAnd, values[1..]);
    }
  }

  lemma {:induction false} ArgsGrow(fuel: nat, ctx: Ctx, st: State, args: seq<Expr>)
    ensures |EvalArgs(fuel, ctx, st, args).output| >= |st.output|
    decreases fuel, args, 0
  {
    if args != [] {
      ExprGrows(fuel, ctx, st, args[0]);
      ArgsGrow(fuel, ctx, st.(output := Eval(fuel, ctx, st, args[0]).output), args[1..]);
    }
  }

  lemma {:induction false} CallGrows(fuel: nat, ctx: Ctx, st: State, callee: string, args: seq<Expr>)
    ensures |EvalCall(fuel, ctx, st, callee, args).output| >= |st.output|
    ensures Resolve(ctx, st, callee).Got? ==>
      |EvalCall(fuel, ctx, st, callee, args).output| >= |EvalArgs(fuel, ctx, st, args).output|
    decreases fuel, args, 1
  {
    ArgsGrow(fuel, ctx, st, args);
    var r := EvalArgs(fuel, ctx, st, args);
    if r.result.Got? && callee in ctx.functions && |ctx.functions[callee].params| == |args| && fuel > 0 {
      var f := ctx.functions[callee];
      BlockGrows(fuel - 1, Inside(ctx, f), Entered(st, f, r.result.value, r.output), f.body);
    }
  }

  lemma {:induction false} BlockGrows(fuel: nat, ctx: Ctx, st: State, body: seq<Stmt>)
    ensures |ExecBlock(fuel, ctx, st, body).state.output| >= |st.output|
    decreases fuel, body, 0
  {
    if body != [] {
      StmtGrows(fuel, ctx, st, body[0]);
      BlockGrows(fuel, ctx, Exec(fuel, ctx, st, body[0]).state, body[1..]);
    }
  }

  lemma {:induction false} StmtGrows(fuel: nat, ctx: Ctx, st: State, s: Stmt)
    ensures |Exec(fuel, ctx, st, s).state.output| >= |st.output|
    decreases fuel, s, 1
  {
    match s
    case ExprStmt(e) => ExprGrows(fuel, ctx, st, e);
    case Assign(_, value) => ExprGrows(fuel, ctx, st, value);
    case AnnAssign(_, _, initial) => if initial.Some? { ExprGrows(fuel, ctx, st, initial.value); }
    case Return(result) => if result.Some? { ExprGrows(fuel, ctx, st, result.value); }
    case If(cond, body, orelse) =>
      ExprGrows(fuel, ctx, st, cond);
      var st' := st.(output := Eval(fuel, ctx, st, cond).output);
      BlockGrows(fuel, ctx, st', body);
      BlockGrows(fuel, ctx, st', orelse);
    case While(_, _, orelse) =>
      LoopGrows(fuel, ctx, st, s);
      BlockGrows(fuel, ctx, ExecLoop(fuel, ctx, st, s).state, orelse);
    case _ =>
  }

  lemma {:induction false} LoopGrows(fuel: nat, ctx: Ctx, st: State, s: Stmt)
    requires s.While?
    ensures |ExecLoop(fuel, ctx, st, s).state.output| >= |st.output|
    decreases fuel, s, 0
  {
    ExprGrows(fuel, ctx, st, s.cond);
    var st' := st.(output := Eval(fuel, ctx, st, s.cond).output);
    BlockGrows(fuel, ctx, st', s.body);
    var x := ExecBlock(fuel, ctx, st', s.body);
    if fuel > 0 && (x.outcome.Normal? || x.outcome.Continued?) {
      LoopGrows(fuel - 1, ctx, x.state, s);
    }
  }

  // ---------- The same run, or a line more ----------

  /** `r` is the capped run and `e` the one the emitter makes of it. */
  ghost predicate Parts<T>(ctx: Ctx, st: State, r: Evaluated<T>, e: Evaluated<T>) {
    r == e || (r.result == Raised(Shadowed("print")) && PrintIsHidden(ctx, st) && |r.output| < |e.output|)
  }

  ghost predicate RunParts(ctx: Ctx, st: State, x: Executed, y: Executed) {
    || x == y
    || (x.outcome == Failed(Shadowed("print")) && PrintIsHidden(ctx, st) && |x.state.output| < |y.state.output|)
  }

  lemma {:induction false} ExprParts(fuel: nat, ctx: Ctx, st: State, e: Expr)
    requires ctx.cap && Flat(ctx)
    ensures Parts(ctx, st, Eval(fuel, ctx, st, e), Eval(fuel, Emitted(ctx), st, e))
    decreases fuel, e, 0
  {
    match e
    case Unary(_, operand) => ExprParts(fuel, ctx, st, operand);
    case Binary(_, left, right) =>
      ExprParts(fuel, ctx, st, left);
      var st' := st.(output := Eval(fuel, Emitted(ctx), st, left).output);
      ExprParts(fuel, ctx, st', right);
      ExprGrows(fuel, Emitted(ctx), st', right);
    case Compare(first, rest) =>
      ExprParts(fuel, ctx, st, first);
      var r := Eval(fuel, Emitted(ctx), st, first);
      if r.result.Got? {
        LinksPart(fuel, ctx, st.(output := r.output), r.result.value, rest);
        LinksGrow(fuel, Emitted(ctx), st.(output := r.output), r.result.value, rest);
      }
    case BoolOp(isAnd, values) => BoolParts(fuel, ctx, st, isAnd, values);
    case Call(callee, args) => CallParts(fuel, ctx, st, callee, args);
    case _ =>
  }

  lemma {:induction false} LinksPart(fuel: nat, ctx: Ctx, st: State, left: Value, rest: Links)
    requires ctx.cap && Flat(ctx)
    ensures Parts(ctx, st, EvalLinks(fuel, ctx, st, left, rest), EvalLinks(fuel, Emitted(ctx), st, left, rest))
    decreases fuel, rest, 0
  {
    if rest.Link? {
      ExprParts(fuel, ctx, st, rest.operand);
      var r := Eval(fuel, Emitted(ctx), st, rest.operand);
      if r.result.Got? {
        LinksPart(fuel, ctx, st.(output := r.output), r.result.value, rest.more);
        LinksGrow(fuel, Emitted(ctx), st.(output := r.output), r.result.value, rest.more);
      }
    }
  }

  lemma {:induction false} BoolParts(fuel: nat, ctx: Ctx, st: State, isAnd: bool, values: seq<Expr>)
    requires ctx.cap && Flat(ctx)
    ensures Parts(ctx, st, EvalBool(fuel, ctx, st, isAnd, values), EvalBool(fuel, Emitted(ctx), st, isAnd, values))
    decreases fuel, values, 0
  {
    if values != [] {
      ExprParts(fuel, ctx, st, values[0]);
      var st' := st.(output := Eval(fuel, Emitted(ctx), st, values[0]).output);
      BoolParts(fuel, ctx, st', isAnd, values[1..]);
      BoolGrows(fuel, Emitted(ctx), st', isAnd, values[1..]);
    }
  }

  lemma {:induction false} ArgsPart(fuel: nat, ctx: Ctx, st: State, args: seq<Expr>)
    requires ctx.cap && Flat(ctx)
    ensures Parts(ctx, st, EvalArgs(fuel, ctx, st, args), EvalArgs(fuel, Emitted(ctx), st, args))
    decreases fuel, args, 0
  {
    if args != [] {
      ExprParts(fuel, ctx, st, args[0]);
      var st' := st.(output := Eval(fuel, Emitted(ctx), st, args[0]).output);
      ArgsPart(fuel, ctx, st', args[1..]);
      ArgsGrow(fuel, Emitted(ctx), st', args[1..]);
    }
  }

  /** Names are looked up alike but for the own print, once it is bound. */
  lemma ResolvesAlike(ctx: Ctx, st: State, id: string)
    ensures Resolve(Emitted(ctx), st, id)
         == if id == "print" && Resolve(ctx, st, id).Got? then Got(Builtin) else Resolve(ctx, st, id)
    ensures id == "print" && Resolve(ctx, st, id).Got? && Resolve(ctx, st, id).value.Own? ==> PrintIsHidden(ctx, st)
  {
  }

  lemma {:induction false} CallParts(fuel: nat, ctx: Ctx, st: State, callee: string, args: seq<Expr>)
    requires ctx.cap && Flat(ctx)
    ensures Parts(ctx, st, EvalCall(fuel, ctx, st, callee, args), EvalCall(fuel, Emitted(ctx), st, callee, args))
    decreases fuel, args, 1
  {
    ArgsPart(fuel, ctx, st, args);
    CallGrows(fuel, Emitted(ctx), st, callee, args);
    ResolvesAlike(ctx, st, callee);
    var r, target := EvalArgs(fuel, ctx, st, args), Resolve(ctx, st, callee);
    if target.Got? && target.value.Own? && callee != "print" && r.result.Got? {
      var f := target.value.f;
      if |f.params| == |args| && fuel > 0 {
        BlockParts(fuel - 1, Inside(ctx, f), Entered(st, f, r.result.value, r.output), f.body);
        assert Emitted(Inside(ctx, f)) == Inside(Emitted(ctx), f);
      }
    }
  }

  lemma {:induction false} BlockParts(fuel: nat, ctx: Ctx, st: State, body: seq<Stmt>)
    requires ctx.cap && Flat(ctx) && NoDefinitions(body)
    ensures RunParts(ctx, st, ExecBlock(fuel, ctx, st, body), ExecBlock(fuel, Emitted(ctx), st, body))
    decreases fuel, body, 0
  {
    if body != [] {
      StmtParts(fuel, ctx, st, body[0]);
      StmtKeepsDefined(fuel, ctx, st, body[0]);
      var y := Exec(fuel, Emitted(ctx), st, body[0]);
      BlockParts(fuel, ctx, y.state, body[1..]);
      BlockGrows(fuel, Emitted(ctx), y.state, body[1..]);
    }
  }

  lemma {:induction false} StmtParts(fuel: nat, ctx: Ctx, st: State, s: Stmt)
    requires ctx.cap && Flat(ctx) && IsNoDefinition(s)
    ensures RunParts(ctx, st, Exec(fuel, ctx, st, s), Exec(fuel, Emitted(ctx), st, s))
    decreases fuel, s, 1
  {
    match s
    case ExprStmt(e) => ExprParts(fuel, ctx, st, e);
    case Assign(_, value) => ExprParts(fuel, ctx, st, value);
    case AnnAssign(_, _, initial) => if initial.Some? { ExprParts(fuel, ctx, st, initial.value); }
    case Return(result) => if result.Some? { ExprParts(fuel, ctx, st, result.value); }
    case If(cond, body, orelse) =>
      ExprParts(fuel, ctx, st, cond);
      var st' := st.(output := Eval(fuel, Emitted(ctx), st, cond).output);
      BlockParts(fuel, ctx, st', body);
      BlockParts(fuel, ctx, st', orelse);
      BlockGrows(fuel, Emitted(ctx), st', body);
      BlockGrows(fuel, Emitted(ctx), st', orelse);
    case While(_, _, orelse) =>
      LoopParts(fuel, ctx, st, s);
      LoopKeepsDefined(fuel, ctx, st, s);
      var y := ExecLoop(fuel, Emitted(ctx), st, s);
      BlockParts(fuel, ctx, y.state, orelse);
      BlockGrows(fuel, Emitted(ctx), y.state, orelse);
    case _ =>
  }

  lemma {:induction false} LoopParts(fuel: nat, ctx: Ctx, st: State, s: Stmt)
    requires ctx.cap && Flat(ctx) && s.While? && NoDefinitions(s.body)
    ensures RunParts(ctx, st, ExecLoop(fuel, ctx, st, s), ExecLoop(fuel, Emitted(ctx), st, s))
    decreases fuel, s, 0
  {
    ExprParts(fuel, ctx, st, s.cond);
    var st' := st.(output := Eval(fuel, Emitted(ctx), st, s.cond).output);
    BlockParts(fuel, ctx, st', s.body);
    BlockKeepsDefined(fuel, ctx, st', s.body);
    BlockGrows(fuel, Emitted(ctx), st', s.body);
    var y := ExecBlock(fuel, Emitted(ctx), st', s.body);
    if fuel > 0 && (y.outcome.Normal? || y.outcome.Continued?) {
      LoopParts(fuel - 1, ctx, y.state, s);
      LoopGrows(fuel - 1, Emitted(ctx), y.state, s);
    }
  }

  /** A module's definitions are statements of its own, not of an if or a while. */
  predicate DefinesOnTop(body: seq<Stmt>) {
    forall i :: 0 <= i < |body| ==> body[i].FunctionDef? || IsNoDefinition(body[i])
  }

  lemma {:induction false} ModuleParts(fuel: nat, ctx: Ctx, st: State, body: seq<Stmt>)
    requires ctx.cap && Flat(ctx) && DefinesOnTop(body)
    ensures var x, y := ExecBlock(fuel, ctx, st, body), ExecBlock(fuel, Emitted(ctx), st, body);
      x == y || (x.outcome == Failed(Shadowed("print")) && |x.state.output| < |y.state.output|)
    decreases body
  {
    if body != [] {
      var y := Exec(fuel, Emitted(ctx), st, body[0]);
      if !body[0].FunctionDef? {
        StmtParts(fuel, ctx, st, body[0]);
      }
      ModuleParts(fuel, ctx, y.state, body[1..]);
      BlockGrows(fuel, Emitted(ctx), y.state, body[1..]);
    }
  }
}
