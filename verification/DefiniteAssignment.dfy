/** The definite-assignment walk is sound: a scope it does not refuse never reads one of
    its own names unassigned, on any run. That is what lets the emitter hoist declarations
    that default-construct. */
module DefiniteAssignment {
  import opened Options
  import opened Values
  import opened Syntax
  import opened PythonMachine
  import opened Lowering

  function Have(ctx: Ctx, st: State): set<string> {
    if ctx.scope.ModuleScope? then st.globals.Keys else st.locals.Keys
  }

  /** The walk's state is right about the run's: what it holds bound is bound, and so is
      every local name it does not watch (the parameters). */
  predicate Sound(ctx: Ctx, st: State, locals: set<string>, bound: set<string>) {
    && bound <= Have(ctx, st)
    && (ctx.scope.FunctionScope? ==> ctx.scope.names - locals <= Have(ctx, st))
  }

  /** The only unbound reads left: a module reading a name it never assigns. */
  predicate Tolerated(ctx: Ctx, locals: set<string>, failure: Failure) {
    failure.UnboundLocal? ==> ctx.scope.ModuleScope? && failure.name !in locals
  }

  function ParameterNames(f: Function): set<string> {
    set id | id in f.params
  }

  predicate FunctionChecked(f: Function) {
    CheckBlock(f.body, AssignedNames(f.body) - ParameterNames(f), ParameterNames(f)).ok
  }

  ghost predicate FunctionsChecked(ctx: Ctx) {
    forall id :: id in ctx.functions ==> FunctionChecked(ctx.functions[id])
  }

  lemma {:induction false} ParametersKeys<T>(ids: seq<string>, values: seq<T>)
    requires |ids| == |values|
    ensures Parameters(ids, values).Keys == set id | id in ids
  {
    if ids != [] {
      ParametersKeys(ids[1..], values[1..]);
      assert ids == [ids[0]] + ids[1..];
    }
  }

  lemma {:induction false} ExprReadsSoundly(
      fuel: nat, ctx: Ctx, st: State, e: Expr, locals: set<string>, bound: set<string>)
    requires FunctionsChecked(ctx) && Sound(ctx, st, locals, bound)
    requires ReadsAreBound(Reads(e), locals, bound)
    ensures var r := Eval(fuel, ctx, st, e).result;
      r.Raised? ==> Tolerated(ctx, locals, r.failure)
    decreases fuel, e, 0
  {
    match e
    case Const(_) =>
    case Name(id) =>
      assert id in Reads(e);
    case Unary(_, operand) => ExprReadsSoundly(fuel, ctx, st, operand, locals, bound);
    case Binary(_, left, right) =>
      ExprReadsSoundly(fuel, ctx, st, left, locals, bound);
      ExprReadsSoundly(fuel, ctx, st.(output := Eval(fuel, ctx, st, left).output), right, locals, bound);
    case Compare(first, rest) =>
      ExprReadsSoundly(fuel, ctx, st, first, locals, bound);
      var r := Eval(fuel, ctx, st, first);
      if r.result.Got? {
        LinksReadSoundly(fuel, ctx, st.(output := r.output), r.result.value, rest, locals, bound);
      }
    case BoolOp(isAnd, values) => BoolReadsSoundly(fuel, ctx, st, isAnd, values, locals, bound);
    case Call(callee, args) => CallReadsSoundly(fuel, ctx, st, callee, args, locals, bound);
    case OtherExpr =>
  }

  lemma {:induction false} LinksReadSoundly(
      fuel: nat, ctx: Ctx, st: State, left: Value, rest: Links, locals: set<string>, bound: set<string>)
    requires FunctionsChecked(ctx) && Sound(ctx, st, locals, bound)
    requires ReadsAreBound(LinkReads(rest), locals, bound)
    ensures var r := EvalLinks(fuel, ctx, st, left, rest).result;
      r.Raised? ==> Tolerated(ctx, locals, r.failure)
    decreases fuel, rest, 0
  {
    if rest.Link? {
      ExprReadsSoundly(fuel, ctx, st, rest.operand, locals, bound);
      var r := Eval(fuel, ctx, st, rest.operand);
      if r.result.Got? {
        LinksReadSoundly(fuel, ctx, st.(output := r.output), r.result.value, rest.more, locals, bound);
      }
    }
  }

  lemma {:induction false} BoolReadsSoundly(
      fuel: nat, ctx: Ctx, st: State, isAnd: bool, values: seq<Expr>, locals: set<string>, bound: set<string>)
    requires FunctionsChecked(ctx) && Sound(ctx, st, locals, bound)
    requires ReadsAreBound(ReadsAll(values), locals, bound)
    ensures var r := EvalBool(fuel, ctx, st, isAnd, values).result;
      r.Raised? ==> Tolerated(ctx, locals, r.failure)
    decreases fuel, values, 0
  {
    if values != [] {
      ExprReadsSoundly(fuel, ctx, st, values[0], locals, bound);
      BoolReadsSoundly(fuel, ctx, st.(output := Eval(fuel, ctx, st, values[0]).output),
          isAnd, values[1..], locals, bound);
    }
  }

  lemma {:induction false} ArgsReadSoundly(
      fuel: nat, ctx: Ctx, st: State, args: seq<Expr>, locals: set<string>, bound: set<string>)
    requires FunctionsChecked(ctx) && Sound(ctx, st, locals, bound)
    requires ReadsAreBound(ReadsAll(args), locals, bound)
    ensures var r := EvalArgs(fuel, ctx, st, args).result;
      r.Raised? ==> Tolerated(ctx, locals, r.failure)
    decreases fuel, args, 0
  {
    if args != [] {
      ExprReadsSoundly(fuel, ctx, st, args[0], locals, bound);
      ArgsReadSoundly(fuel, ctx, st.(output := Eval(fuel, ctx, st, args[0]).output), args[1..], locals, bound);
    }
  }

  lemma {:induction false} CallReadsSoundly(
      fuel: nat, ctx: Ctx, st: State, callee: string, args: seq<Expr>, locals: set<string>, bound: set<string>)
    requires FunctionsChecked(ctx) && Sound(ctx, st, locals, bound)
    requires ReadsAreBound({callee} + ReadsAll(args), locals, bound)
    ensures var r := EvalCall(fuel, ctx, st, callee, args).result;
      r.Raised? ==> Tolerated(ctx, locals, r.failure)
    decreases fuel, args, 1
  {
    ArgsReadSoundly(fuel, ctx, st, args, locals, bound);
    var r := EvalArgs(fuel, ctx, st, args);
    assert callee in {callee} + ReadsAll(args);
    if r.result.Got? && callee in ctx.functions && |ctx.functions[callee].params| == |args| && fuel > 0 {
      var f := ctx.functions[callee];
      ParametersKeys(f.params, r.result.value);
      BlockRunsSoundly(fuel - 1, Inside(ctx, f), Entered(st, f, r.result.value, r.output), f.body,
                       AssignedNames(f.body) - ParameterNames(f), ParameterNames(f));
    }
  }

  /** What the walk promises of a run it started in a sound state. */
  predicate Promised(ctx: Ctx, st: State, x: Executed, locals: set<string>, flow: Flow) {
    && Have(ctx, st) <= Have(ctx, x.state)
    && (x.outcome.Failed? ==> Tolerated(ctx, locals, x.outcome.failure))
    && (x.outcome.Normal? ==> !flow.leaves && flow.bound <= Have(ctx, x.state))
  }

  /** No run of a suite the walk accepts reads an unassigned watched name; a suite that
      "always leaves" never completes normally; and where it does complete, every name the
      walk left in `bound` is assigned. */
  lemma {:induction false} BlockRunsSoundly(
      fuel: nat, ctx: Ctx, st: State, body: seq<Stmt>, locals: set<string>, bound: set<string>)
    requires FunctionsChecked(ctx) && Sound(ctx, st, locals, bound)
    requires CheckBlock(body, locals, bound).ok
    ensures Promised(ctx, st, ExecBlock(fuel, ctx, st, body), locals, CheckBlock(body, locals, bound))
    decreases fuel, body, 0
  {
    if body != [] {
      StmtRunsSoundly(fuel, ctx, st, body[0], locals, bound);
      var x, first := Exec(fuel, ctx, st, body[0]), CheckStmt(body[0], locals, bound);
      if x.outcome.Normal? {
        BlockRunsSoundly(fuel, ctx, x.state, body[1..], locals, first.bound);
      }
    }
  }

  lemma {:induction false} StmtRunsSoundly(
      fuel: nat, ctx: Ctx, st: State, s: Stmt, locals: set<string>, bound: set<string>)
    requires FunctionsChecked(ctx) && Sound(ctx, st, locals, bound)
    requires CheckStmt(s, locals, bound).ok
    ensures Promised(ctx, st, Exec(fuel, ctx, st, s), locals, CheckStmt(s, locals, bound))
    decreases fuel, s, 1
  {
    match s
    case ExprStmt(e) => ExprReadsSoundly(fuel, ctx, st, e, locals, bound);
    case Assign(_, value) => ExprReadsSoundly(fuel, ctx, st, value, locals, bound);
    case AnnAssign(_, _, initial) =>
      if initial.Some? { ExprReadsSoundly(fuel, ctx, st, initial.value, locals, bound); }
    case Return(result) =>
      if result.Some? { ExprReadsSoundly(fuel, ctx, st, result.value, locals, bound); }
    case If(cond, body, orelse) =>
      ExprReadsSoundly(fuel, ctx, st, cond, locals, bound);
      var st' := st.(output := Eval(fuel, ctx, st, cond).output);
      BlockRunsSoundly(fuel, ctx, st', body, locals, bound);
      BlockRunsSoundly(fuel, ctx, st', orelse, locals, bound);
    case While(cond, body, orelse) =>
      LoopRunsSoundly(fuel, ctx, st, s, locals, bound);
      BlockRunsSoundly(fuel, ctx, ExecLoop(fuel, ctx, st, s).state, orelse, locals, bound);
    case _ =>
  }

  lemma {:induction false} LoopRunsSoundly(
      fuel: nat, ctx: Ctx, st: State, s: Stmt, locals: set<string>, bound: set<string>)
    requires s.While?
    requires FunctionsChecked(ctx) && Sound(ctx, st, locals, bound)
    requires CheckStmt(s, locals, bound).ok
    ensures var x := ExecLoop(fuel, ctx, st, s);
      Have(ctx, st) <= Have(ctx, x.state) && (x.outcome.Failed? ==> Tolerated(ctx, locals, x.outcome.failure))
    decreases fuel, s, 0
  {
    ExprReadsSoundly(fuel, ctx, st, s.cond, locals, bound);
    var st' := st.(output := Eval(fuel, ctx, st, s.cond).output);
    BlockRunsSoundly(fuel, ctx, st', s.body, locals, bound);
    var x := ExecBlock(fuel, ctx, st', s.body);
    if fuel > 0 && (x.outcome.Normal? || x.outcome.Continued?) {
      LoopRunsSoundly(fuel - 1, ctx, x.state, s, locals, bound);
    }
  }
}
