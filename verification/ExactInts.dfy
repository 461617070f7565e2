/** The capped semantics and CPython's: until an int leaves 64 bits, or a call reaches a
    print or len that the module has hidden, they are the same run. */
module ExactInts {
  import opened Options
  import opened Values
  import opened Syntax
  import opened PythonMachine

  function Exact(ctx: Ctx): Ctx {
    ctx.(cap := false)
  }

  /** Where the capped run parts from CPython's. */
  predicate IsCap(failure: Failure) {
    failure == Overflow64 || failure.Shadowed?
  }

  predicate Parted<T>(r: Result<T>) {
    r.Raised? && IsCap(r.failure)
  }

  lemma {:induction false} EvalIsExact(fuel: nat, ctx: Ctx, st: State, e: Expr)
    ensures var r := Eval(fuel, ctx, st, e);
      Parted(r.result) || Eval(fuel, Exact(ctx), st, e) == r
    decreases fuel, e, 0
  {
    match e
    case Unary(_, operand) => EvalIsExact(fuel, ctx, st, operand);
    case Binary(_, left, right) =>
      EvalIsExact(fuel, ctx, st, left);
      EvalIsExact(fuel, ctx, st.(output := Eval(fuel, ctx, st, left).output), right);
    case Compare(first, rest) =>
      EvalIsExact(fuel, ctx, st, first);
      var r := Eval(fuel, ctx, st, first);
      if r.result.Got? { LinksAreExact(fuel, ctx, st.(output := r.output), r.result.value, rest); }
    case BoolOp(isAnd, values) => BoolIsExact(fuel, ctx, st, isAnd, values);
    case Call(callee, args) => CallIsExact(fuel, ctx, st, callee, args);
    case _ =>
  }

  lemma {:induction false} LinksAreExact(fuel: nat, ctx: Ctx, st: State, left: Value, rest: Links)
    ensures var r := EvalLinks(fuel, ctx, st, left, rest);
      Parted(r.result) || EvalLinks(fuel, Exact(ctx), st, left, rest) == r
    decreases fuel, rest, 0
  {
    if rest.Link? {
      EvalIsExact(fuel, ctx, st, rest.operand);
      var r := Eval(fuel, ctx, st, rest.operand);
      if r.result.Got? { LinksAreExact(fuel, ctx, st.(output := r.output), r.result.value, rest.more); }
    }
  }

  lemma {:induction false} BoolIsExact(fuel: nat, ctx: Ctx, st: State, isAnd: bool, values: seq<Expr>)
    ensures var r := EvalBool(fuel, ctx, st, isAnd, values);
      Parted(r.result) || EvalBool(fuel, Exact(ctx), st, isAnd, values) == r
    decreases fuel, values, 0
  {
    if values != [] {
      EvalIsExact(fuel, ctx, st, values[0]);
      BoolIsExact(fuel, ctx, st.(output := Eval(fuel, ctx, st, values[0]).output), isAnd, values[1..]);
    }
  }

  lemma {:induction false} ArgsAreExact(fuel: nat, ctx: Ctx, st: State, args: seq<Expr>)
    ensures var r := EvalArgs(fuel, ctx, st, args);
      Parted(r.result) || EvalArgs(fuel, Exact(ctx), st, args) == r
    decreases fuel, args, 0
  {
    if args != [] {
      EvalIsExact(fuel, ctx, st, args[0]);
      ArgsAreExact(fuel, ctx, st.(output := Eval(fuel, ctx, st, args[0]).output), args[1..]);
    }
  }

  lemma {:induction false} CallIsExact(fuel: nat, ctx: Ctx, st: State, callee: string, args: seq<Expr>)
    ensures var r := EvalCall(fuel, ctx, st, callee, args);
      Parted(r.result) || EvalCall(fuel, Exact(ctx), st, callee, args) == r
    decreases fuel, args, 1
  {
    ArgsAreExact(fuel, ctx, st, args);
    var r := EvalArgs(fuel, ctx, st, args);
    if r.result.Got? && callee in ctx.functions && |ctx.functions[callee].params| == |args| && fuel > 0 {
      var f := ctx.functions[callee];
      BlockIsExact(fuel - 1, Inside(ctx, f), Entered(st, f, r.result.value, r.output), f.body);
      assert Exact(Inside(ctx, f)) == Inside(Exact(ctx), f);
    }
  }

  predicate RunParted(x: Executed) {
    x.outcome.Failed? && IsCap(x.outcome.failure)
  }

  lemma {:induction false} BlockIsExact(fuel: nat, ctx: Ctx, st: State, body: seq<Stmt>)
    ensures var x := ExecBlock(fuel, ctx, st, body);
      RunParted(x) || ExecBlock(fuel, Exact(ctx), st, body) == x
    decreases fuel, body, 0
  {
    if body != [] {
      StmtIsExact(fuel, ctx, st, body[0]);
      BlockIsExact(fuel, ctx, Exec(fuel, ctx, st, body[0]).state, body[1..]);
    }
  }

  lemma {:induction false} StmtIsExact(fuel: nat, ctx: Ctx, st: State, s: Stmt)
    ensures var x := Exec(fuel, ctx, st, s);
      RunParted(x) || Exec(fuel, Exact(ctx), st, s) == x
    decreases fuel, s, 1
  {
    match s
    case ExprStmt(e) => EvalIsExact(fuel, ctx, st, e);
    case Assign(_, value) => EvalIsExact(fuel, ctx, st, value);
    case AnnAssign(_, _, initial) => if initial.Some? { EvalIsExact(fuel, ctx, st, initial.value); }
    case Return(result) => if result.Some? { EvalIsExact(fuel, ctx, st, result.value); }
    case If(cond, body, orelse) =>
      EvalIsExact(fuel, ctx, st, cond);
      var st' := st.(output := Eval(fuel, ctx, st, cond).output);
      BlockIsExact(fuel, ctx, st', body);
      BlockIsExact(fuel, ctx, st', orelse);
    case While(_, _, orelse) =>
      LoopIsExact(fuel, ctx, st, s);
      BlockIsExact(fuel, ctx, ExecLoop(fuel, ctx, st, s).state, orelse);
    case _ =>
  }

  lemma {:induction false} LoopIsExact(fuel: nat, ctx: Ctx, st: State, s: Stmt)
    requires s.While?
    ensures var x := ExecLoop(fuel, ctx, st, s);
      RunParted(x) || ExecLoop(fuel, Exact(ctx), st, s) == x
    decreases fuel, s, 0
  {
    EvalIsExact(fuel, ctx, st, s.cond);
    var st' := st.(output := Eval(fuel, ctx, st, s.cond).output);
    BlockIsExact(fuel, ctx, st', s.body);
    var x := ExecBlock(fuel, ctx, st', s.body);
    if fuel > 0 && (x.outcome.Normal? || x.outcome.Continued?) {
      LoopIsExact(fuel - 1, ctx, x.state, s);
    }
  }
}
