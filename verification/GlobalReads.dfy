/** The second walk over a function body: it refuses reads of globals the module body may
    never assign. What that buys: once the module has bound everything its own walk
    counts on, no call can reach an unbound global or function. */
module GlobalReads {
  import opened Options
  import opened Values
  import opened Syntax
  import opened PythonMachine
  import opened Lowering

  /** Every function's walk accepted: it reads no name of `watched` from the module. */
  ghost predicate FunctionsAvoid(ctx: Ctx, watched: set<string>) {
    AllAvoid(ctx.functions, watched)
  }

  ghost predicate AllAvoid(functions: map<string, Function>, watched: set<string>) {
    forall id :: id in functions ==> AvoidsUnbound(functions[id], watched)
  }

  predicate AvoidsUnbound(f: Function, watched: set<string>) {
    CheckBlock(f.body, watched - LocalNames(f), {}).ok
  }

  /** All module names are bound except the watched ones, and every function is defined. */
  predicate Ready(ctx: Ctx, st: State, names: set<string>, watched: set<string>) {
    names - watched <= st.globals.Keys && ctx.functions.Keys <= st.defined
  }

  /** Inside a function no watched global has been or will be read. */
  predicate Avoids(ctx: Ctx, reads': set<string>, watched: set<string>, bound: set<string>) {
    ctx.scope.FunctionScope? ==>
      ReadsAreBound(reads', watched - ctx.scope.names, bound) && bound !! watched - ctx.scope.names
  }

  predicate Reached(names: set<string>, failure: Failure) {
    !failure.UndefinedFunction? && (failure.UnboundGlobal? ==> failure.name !in names)
  }

  lemma {:induction false} ExprFindsGlobals(
      fuel: nat, ctx: Ctx, st: State, e: Expr, names: set<string>, watched: set<string>, bound: set<string>)
    requires FunctionsAvoid(ctx, watched) && Ready(ctx, st, names, watched) && Avoids(ctx, Reads(e), watched, bound)
    ensures var r := Eval(fuel, ctx, st, e).result;
      r.Raised? ==> Reached(names, r.failure)
    decreases fuel, e, 0
  {
    match e
    case Name(id) => assert id in Reads(e);
    case Unary(_, operand) => ExprFindsGlobals(fuel, ctx, st, operand, names, watched, bound);
    case Binary(_, left, right) =>
      ExprFindsGlobals(fuel, ctx, st, left, names, watched, bound);
      ExprFindsGlobals(fuel, ctx, st.(output := Eval(fuel, ctx, st, left).output), right, names, watched, bound);
    case Compare(first, rest) =>
      ExprFindsGlobals(fuel, ctx, st, first, names, watched, bound);
      var r := Eval(fuel, ctx, st, first);
      if r.result.Got? {
        LinksFindGlobals(fuel, ctx, st.(output := r.output), r.result.value, rest, names, watched, bound);
      }
    case BoolOp(isAnd, values) => BoolFindsGlobals(fuel, ctx, st, isAnd, values, names, watched, bound);
    case Call(callee, args) => CallFindsGlobals(fuel, ctx, st, callee, args, names, watched, bound);
    case _ =>
  }

  lemma {:induction false} LinksFindGlobals(
      fuel: nat, ctx: Ctx, st: State, left: Value, rest: Links,
      names: set<string>, watched: set<string>, bound: set<string>)
    requires FunctionsAvoid(ctx, watched) && Ready(ctx, st, names, watched)
        && Avoids(ctx, LinkReads(rest), watched, bound)
    ensures var r := EvalLinks(fuel, ctx, st, left, rest).result;
      r.Raised? ==> Reached(names, r.failure)
    decreases fuel, rest, 0
  {
    if rest.Link? {
      ExprFindsGlobals(fuel, ctx, st, rest.operand, names, watched, bound);
      var r := Eval(fuel, ctx, st, rest.operand);
      if r.result.Got? {
        LinksFindGlobals(fuel, ctx, st.(output := r.output), r.result.value, rest.more, names, watched, bound);
      }
    }
  }

  lemma {:induction false} BoolFindsGlobals(
      fuel: nat, ctx: Ctx, st: State, isAnd: bool, values: seq<Expr>,
      names: set<string>, watched: set<string>, bound: set<string>)
    requires FunctionsAvoid(ctx, watched) && Ready(ctx, st, names, watched)
        && Avoids(ctx, ReadsAll(values), watched, bound)
    ensures var r := EvalBool(fuel, ctx, st, isAnd, values).result;
      r.Raised? ==> Reached(names, r.failure)
    decreases fuel, values, 0
  {
    if values != [] {
      ExprFindsGlobals(fuel, ctx, st, values[0], names, watched, bound);
      BoolFindsGlobals(fuel, ctx, st.(output := Eval(fuel, ctx, st, values[0]).output), isAnd, values[1..],
                       names, watched, bound);
    }
  }

  lemma {:induction false} ArgsFindGlobals(
      fuel: nat, ctx: Ctx, st: State, args: seq<Expr>, names: set<string>, watched: set<string>, bound: set<string>)
    requires FunctionsAvoid(ctx, watched) && Ready(ctx, st, names, watched)
        && Avoids(ctx, ReadsAll(args), watched, bound)
    ensures var r := EvalArgs(fuel, ctx, st, args).result;
      r.Raised? ==> Reached(names, r.failure)
    decreases fuel, args, 0
  {
    if args != [] {
      ExprFindsGlobals(fuel, ctx, st, args[0], names, watched, bound);
      ArgsFindGlobals(fuel, ctx, st.(output := Eval(fuel, ctx, st, args[0]).output), args[1..], names, watched, bound);
    }
  }

  lemma {:induction false} CallFindsGlobals(
      fuel: nat, ctx: Ctx, st: State, callee: string, args: seq<Expr>,
      names: set<string>, watched: set<string>, bound: set<string>)
    requires FunctionsAvoid(ctx, watched) && Ready(ctx, st, names, watched)
        && Avoids(ctx, ReadsAll(args), watched, bound)
    ensures var r := EvalCall(fuel, ctx, st, callee, args).result;
      r.Raised? ==> Reached(names, r.failure)
    decreases fuel, args, 1
  {
    ArgsFindGlobals(fuel, ctx, st, args, names, watched, bound);
    var r := EvalArgs(fuel, ctx, st, args);
    if r.result.Got? && callee in ctx.functions && |ctx.functions[callee].params| == |args| && fuel > 0 {
      var f := ctx.functions[callee];
      BlockFindsGlobals(fuel - 1, Inside(ctx, f), Entered(st, f, r.result.value, r.output), f.body, names, watched, {});
    }
  }

  predicate FoundGlobals(ctx: Ctx, x: Executed, names: set<string>, watched: set<string>) {
    && Ready(ctx, x.state, names, watched)
    && (x.outcome.Failed? ==> Reached(names, x.outcome.failure))
  }

  /** The walk over a function body accepts, or the body is the module's own. */
  predicate Walked(ctx: Ctx, body: seq<Stmt>, watched: set<string>, bound: set<string>) {
    ctx.scope.FunctionScope? ==>
      && CheckBlock(body, watched - ctx.scope.names, bound).ok
      && AssignedNames(body) <= ctx.scope.names
      && bound !! watched - ctx.scope.names
  }

  predicate StmtWalked(ctx: Ctx, s: Stmt, watched: set<string>, bound: set<string>) {
    ctx.scope.FunctionScope? ==>
      && CheckStmt(s, watched - ctx.scope.names, bound).ok
      && AssignedName(s) <= ctx.scope.names
      && bound !! watched - ctx.scope.names
  }

  /** What the walk holds bound in a function stays local to it. */
  lemma {:induction false} BoundStaysLocal(body: seq<Stmt>, locals: set<string>, bound: set<string>)
    requires AssignedNames(body) !! locals && bound !! locals
    ensures CheckBlock(body, locals, bound).bound !! locals
    decreases body, 0
  {
    if body != [] {
      BoundStaysLocalStmt(body[0], locals, bound);
      BoundStaysLocal(body[1..], locals, CheckStmt(body[0], locals, bound).bound);
    }
  }

  lemma {:induction false} BoundStaysLocalStmt(s: Stmt, locals: set<string>, bound: set<string>)
    requires AssignedName(s) !! locals && bound !! locals
    ensures CheckStmt(s, locals, bound).bound !! locals
    decreases s, 0
  {
    if s.If? {
      BoundStaysLocal(s.body, locals, bound);
      BoundStaysLocal(s.orelse, locals, bound);
    }
  }

  lemma {:induction false} BlockFindsGlobals(
      fuel: nat, ctx: Ctx, st: State, body: seq<Stmt>, names: set<string>, watched: set<string>, bound: set<string>)
    requires FunctionsAvoid(ctx, watched) && Ready(ctx, st, names, watched) && Walked(ctx, body, watched, bound)
    ensures FoundGlobals(ctx, ExecBlock(fuel, ctx, st, body), names, watched)
    decreases fuel, body, 0
  {
    if body != [] {
      StmtFindsGlobals(fuel, ctx, st, body[0], names, watched, bound);
      var x := Exec(fuel, ctx, st, body[0]);
      if x.outcome.Normal? {
        if ctx.scope.FunctionScope? {
          var locals := watched - ctx.scope.names;
          var flow := CheckStmt(body[0], locals, bound);
          BoundStaysLocalStmt(body[0], locals, bound);
          if flow.leaves {
            LeavingNeverFallsThrough(fuel, ctx, st, body[0], locals, bound);
          }
          BlockFindsGlobals(fuel, ctx, x.state, body[1..], names, watched, flow.bound);
        } else {
          BlockFindsGlobals(fuel, ctx, x.state, body[1..], names, watched, bound);
        }
      }
    }
  }

  /** A statement that "always leaves" does not complete normally. */
  lemma {:induction false} LeavingNeverFallsThrough(
      fuel: nat, ctx: Ctx, st: State, s: Stmt, locals: set<string>, bound: set<string>)
    requires CheckStmt(s, locals, bound).leaves
    ensures !Exec(fuel, ctx, st, s).outcome.Normal?
    decreases s, 1
  {
    if s.If? {
      var st' := st.(output := Eval(fuel, ctx, st, s.cond).output);
      BlockNeverFallsThrough(fuel, ctx, st', s.body, locals, bound);
      BlockNeverFallsThrough(fuel, ctx, st', s.orelse, locals, bound);
    }
  }

  lemma {:induction false} BlockNeverFallsThrough(
      fuel: nat, ctx: Ctx, st: State, body: seq<Stmt>, locals: set<string>, bound: set<string>)
    requires CheckBlock(body, locals, bound).leaves
    ensures !ExecBlock(fuel, ctx, st, body).outcome.Normal?
    decreases body, 0
  {
    if body != [] {
      var first := CheckStmt(body[0], locals, bound);
      var x := Exec(fuel, ctx, st, body[0]);
      if first.leaves {
        LeavingNeverFallsThrough(fuel, ctx, st, body[0], locals, bound);
      } else {
        BlockNeverFallsThrough(fuel, ctx, x.state, body[1..], locals, first.bound);
      }
    }
  }

  lemma {:induction false} StmtFindsGlobals(
      fuel: nat, ctx: Ctx, st: State, s: Stmt, names: set<string>, watched: set<string>, bound: set<string>)
    requires FunctionsAvoid(ctx, watched) && Ready(ctx, st, names, watched) && StmtWalked(ctx, s, watched, bound)
    ensures FoundGlobals(ctx, Exec(fuel, ctx, st, s), names, watched)
    decreases fuel, s, 1
  {
    match s
    case ExprStmt(e) => ExprFindsGlobals(fuel, ctx, st, e, names, watched, bound);
    case Assign(_, value) => ExprFindsGlobals(fuel, ctx, st, value, names, watched, bound);
    case AnnAssign(_, _, initial) =>
      if initial.Some? { ExprFindsGlobals(fuel, ctx, st, initial.value, names, watched, bound); }
    case Return(result) =>
      if result.Some? { ExprFindsGlobals(fuel, ctx, st, result.value, names, watched, bound); }
    case If(cond, body, orelse) =>
      ExprFindsGlobals(fuel, ctx, st, cond, names, watched, bound);
      var st' := st.(output := Eval(fuel, ctx, st, cond).output);
      BlockFindsGlobals(fuel, ctx, st', body, names, watched, bound);
      BlockFindsGlobals(fuel, ctx, st', orelse, names, watched, bound);
    case While(_, _, orelse) =>
      LoopFindsGlobals(fuel, ctx, st, s, names, watched, bound);
      BlockFindsGlobals(fuel, ctx, ExecLoop(fuel, ctx, st, s).state, orelse, names, watched, bound);
    case _ =>
  }

  lemma {:induction false} LoopFindsGlobals(
      fuel: nat, ctx: Ctx, st: State, s: Stmt, names: set<string>, watched: set<string>, bound: set<string>)
    requires s.While?
    requires FunctionsAvoid(ctx, watched) && Ready(ctx, st, names, watched) && StmtWalked(ctx, s, watched, bound)
    ensures FoundGlobals(ctx, ExecLoop(fuel, ctx, st, s), names, watched)
    decreases fuel, s, 0
  {
    ExprFindsGlobals(fuel, ctx, st, s.cond, names, watched, bound);
    var st' := st.(output := Eval(fuel, ctx, st, s.cond).output);
    BlockFindsGlobals(fuel, ctx, st', s.body, names, watched, bound);
    var x := ExecBlock(fuel, ctx, st', s.body);
    if fuel > 0 && (x.outcome.Normal? || x.outcome.Continued?) {
      LoopFindsGlobals(fuel - 1, ctx, x.state, s, names, watched, bound);
    }
  }

  // ---------- A prologue makes the module ready ----------

  /** No function of the module's own is called. */
  predicate CallFree(e: Expr)
    decreases e
  {
    match e
    case Unary(_, x) => CallFree(x)
    case Binary(_, l, r) => CallFree(l) && CallFree(r)
    case Compare(first, rest) => CallFree(first) && LinksCallFree(rest)
    case BoolOp(_, values) => AllCallFree(values)
    case Call(callee, args) => callee in {"print", "len"} && AllCallFree(args)
    case _ => true
  }

  predicate AllCallFree(es: seq<Expr>)
    decreases es
  {
    es == [] || (CallFree(es[0]) && AllCallFree(es[1..]))
  }

  predicate LinksCallFree(rest: Links)
    decreases rest
  {
    rest.Link? ==> CallFree(rest.operand) && LinksCallFree(rest.more)
  }

  /** Definitions, and statements of any kind and nesting that call none of the module's
      functions. */
  predicate IsPrologue(body: seq<Stmt>)
    decreases body
  {
    body == [] || (IsPrologueStmt(body[0]) && IsPrologue(body[1..]))
  }

  predicate IsPrologueStmt(s: Stmt)
    decreases s
  {
    match s
    case ExprStmt(e) => CallFree(e)
    case Assign(_, value) => CallFree(value)
    case AnnAssign(_, _, initial) => initial.Some? ==> CallFree(initial.value)
    case Return(result) => result.Some? ==> CallFree(result.value)
    case If(cond, body, orelse) => CallFree(cond) && IsPrologue(body) && IsPrologue(orelse)
    case While(cond, body, orelse) => CallFree(cond) && IsPrologue(body) && IsPrologue(orelse)
    case _ => true
  }

  function DefinedBy(body: seq<Stmt>): set<string> {
    if body == [] then {}
    else (if body[0].FunctionDef? then {body[0].id} else {}) + DefinedBy(body[1..])
  }

  predicate IsMissing(failure: Failure) {
    failure.UnboundGlobal? || failure.UndefinedFunction?
  }

  lemma {:induction false} CallFreeStaysInModule(fuel: nat, ctx: Ctx, st: State, e: Expr)
    requires ctx.cap && ctx.scope.ModuleScope? && CallFree(e)
    ensures var r := Eval(fuel, ctx, st, e).result;
      r.Raised? ==> !IsMissing(r.failure)
    decreases e
  {
    match e
    case Unary(_, x) => CallFreeStaysInModule(fuel, ctx, st, x);
    case Binary(_, l, r) =>
      CallFreeStaysInModule(fuel, ctx, st, l);
      CallFreeStaysInModule(fuel, ctx, st.(output := Eval(fuel, ctx, st, l).output), r);
    case Compare(first, rest) =>
      CallFreeStaysInModule(fuel, ctx, st, first);
      var r := Eval(fuel, ctx, st, first);
      if r.result.Got? { CallFreeLinks(fuel, ctx, st.(output := r.output), r.result.value, rest); }
    case BoolOp(isAnd, values) => CallFreeBool(fuel, ctx, st, isAnd, values);
    case Call(_, args) => CallFreeArgs(fuel, ctx, st, args);
    case _ =>
  }

  lemma {:induction false} CallFreeLinks(fuel: nat, ctx: Ctx, st: State, left: Value, rest: Links)
    requires ctx.cap && ctx.scope.ModuleScope? && LinksCallFree(rest)
    ensures var r := EvalLinks(fuel, ctx, st, left, rest).result;
      r.Raised? ==> !IsMissing(r.failure)
    decreases rest
  {
    if rest.Link? {
      CallFreeStaysInModule(fuel, ctx, st, rest.operand);
      var r := Eval(fuel, ctx, st, rest.operand);
      if r.result.Got? { CallFreeLinks(fuel, ctx, st.(output := r.output), r.result.value, rest.more); }
    }
  }

  lemma {:induction false} CallFreeBool(fuel: nat, ctx: Ctx, st: State, isAnd: bool, values: seq<Expr>)
    requires ctx.cap && ctx.scope.ModuleScope? && AllCallFree(values)
    ensures var r := EvalBool(fuel, ctx, st, isAnd, values).result;
      r.Raised? ==> !IsMissing(r.failure)
    decreases values
  {
    if values != [] {
      CallFreeStaysInModule(fuel, ctx, st, values[0]);
      CallFreeBool(fuel, ctx, st.(output := Eval(fuel, ctx, st, values[0]).output), isAnd, values[1..]);
    }
  }

  lemma {:induction false} CallFreeArgs(fuel: nat, ctx: Ctx, st: State, args: seq<Expr>)
    requires ctx.cap && ctx.scope.ModuleScope? && AllCallFree(args)
    ensures var r := EvalArgs(fuel, ctx, st, args).result;
      r.Raised? ==> !IsMissing(r.failure)
    decreases args
  {
    if args != [] {
      CallFreeStaysInModule(fuel, ctx, st, args[0]);
      CallFreeArgs(fuel, ctx, st.(output := Eval(fuel, ctx, st, args[0]).output), args[1..]);
    }
  }

  /** What a run of a prologue leaves: nothing missing was met, and no definition was
      forgotten. */
  predicate Unmissed(st: State, x: Executed) {
    (x.outcome.Failed? ==> !IsMissing(x.outcome.failure)) && st.defined <= x.state.defined
  }

  lemma {:induction false} PrologueRuns(fuel: nat, ctx: Ctx, st: State, body: seq<Stmt>)
    requires ctx.cap && ctx.scope.ModuleScope? && IsPrologue(body)
    ensures var x := ExecBlock(fuel, ctx, st, body);
      Unmissed(st, x) && (x.outcome.Normal? ==> DefinedBy(body) <= x.state.defined)
    decreases fuel, body, 0
  {
    if body != [] {
      PrologueStmtRuns(fuel, ctx, st, body[0]);
      var x := Exec(fuel, ctx, st, body[0]);
      if x.outcome.Normal? {
        PrologueRuns(fuel, ctx, x.state, body[1..]);
      }
    }
  }

  lemma {:induction false} PrologueStmtRuns(fuel: nat, ctx: Ctx, st: State, s: Stmt)
    requires ctx.cap && ctx.scope.ModuleScope? && IsPrologueStmt(s)
    ensures Unmissed(st, Exec(fuel, ctx, st, s))
    decreases fuel, s, 1
  {
    match s
    case ExprStmt(e) => CallFreeStaysInModule(fuel, ctx, st, e);
    case Assign(_, value) => CallFreeStaysInModule(fuel, ctx, st, value);
    case AnnAssign(_, _, initial) =>
      if initial.Some? { CallFreeStaysInModule(fuel, ctx, st, initial.value); }
    case Return(result) =>
      if result.Some? { CallFreeStaysInModule(fuel, ctx, st, result.value); }
    case If(cond, body, orelse) =>
      CallFreeStaysInModule(fuel, ctx, st, cond);
      var st' := st.(output := Eval(fuel, ctx, st, cond).output);
      PrologueRuns(fuel, ctx, st', body);
      PrologueRuns(fuel, ctx, st', orelse);
    case While(_, _, orelse) =>
      PrologueLoopRuns(fuel, ctx, st, s);
      PrologueRuns(fuel, ctx, ExecLoop(fuel, ctx, st, s).state, orelse);
    case _ =>
  }

  lemma {:induction false} PrologueLoopRuns(fuel: nat, ctx: Ctx, st: State, s: Stmt)
    requires s.While? && ctx.cap && ctx.scope.ModuleScope? && IsPrologueStmt(s)
    ensures Unmissed(st, ExecLoop(fuel, ctx, st, s))
    decreases fuel, s, 0
  {
    CallFreeStaysInModule(fuel, ctx, st, s.cond);
    var st' := st.(output := Eval(fuel, ctx, st, s.cond).output);
    PrologueRuns(fuel, ctx, st', s.body);
    var x := ExecBlock(fuel, ctx, st', s.body);
    if fuel > 0 && (x.outcome.Normal? || x.outcome.Continued?) {
      PrologueLoopRuns(fuel - 1, ctx, x.state, s);
    }
  }

  lemma {:induction false} ExecAppends(fuel: nat, ctx: Ctx, st: State, a: seq<Stmt>, b: seq<Stmt>)
    ensures var x := ExecBlock(fuel, ctx, st, a);
      ExecBlock(fuel, ctx, st, a + b) == if x.outcome.Normal? then ExecBlock(fuel, ctx, x.state, b) else x
    decreases a
  {
    if a == [] {
      assert a + b == b;
    } else {
      assert (a + b)[1..] == a[1..] + b;
      ExecAppends(fuel, ctx, Exec(fuel, ctx, st, a[0]).state, a[1..], b);
    }
  }
}
