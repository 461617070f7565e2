/** The emitted C++ as a tree, and how it runs: hoisted typed variables, calls to the
    runtime library chosen by static class, and the block-scoped `_cy_broke_<n>` flags.
    Call arguments are taken to be evaluated left to right. */
module CppMachine {
  import opened Options
  import opened Numbers
  import opened IntRuntime
  import opened FloatRuntime
  import opened CompareRuntime
  import opened StrRuntime
  import opened Values
  import opened Literals
  import opened Syntax
  import PythonMachine

  /** The body of a comparison-chain lambda after its first temporary. */
  datatype CppLinks = NoCppLinks | CppLink(op: CompareOp, operand: CppExpr, more: CppLinks)

  datatype CppExpr =
    | IntLiteral(digits: string)
    | FloatLiteral(text: string)
    | BoolLiteral(b: bool)
    | StrLiteral(bytes: seq<Byte>)
    | NoneLiteral
    | Variable(id: string)
    | UnaryCall(uop: UnaryOp, arg: CppExpr)
    | BinaryCall(bop: BinaryOp, left: CppExpr, right: CppExpr)
    | ToInt(arg: CppExpr)
    | ToFloat(arg: CppExpr)
    | CompareCall(cop: CompareOp, left: CppExpr, right: CppExpr)
    | CompareLambda(first: CppExpr, rest: CppLinks)
    | LogicCall(isAnd: bool, left: CppExpr, thunk: CppExpr)
    | PrintCall(args: seq<CppExpr>)
    | LenCall(args: seq<CppExpr>)
    | UserCall(id: string, args: seq<CppExpr>)

  datatype CppStmt =
    | CppExprStmt(e: CppExpr)
    | CppEmpty
    | CppAssign(id: string, e: CppExpr)
    | CppBreak
    | CppContinue
    | CppReturn(e: CppExpr)
    | CppIf(cond: CppExpr, body: seq<CppStmt>, orelse: seq<CppStmt>)
    | CppWhile(cond: CppExpr, body: seq<CppStmt>)
    | CppBlock(body: seq<CppStmt>)
    | DeclareFlag(n: nat)
    | SetFlag(n: nat)
    | IfNotFlag(n: nat, body: seq<CppStmt>)

  datatype CppFunction =
    CppFunction(params: seq<(string, Kind)>, result: Kind, locals: map<string, Kind>, body: seq<CppStmt>)

  datatype CppCtx = CppCtx(ops: FloatOps, functions: map<string, CppFunction>)

  /** `flags` is the stack of live flag declarations, the innermost last. */
  datatype CppState = CppState(
    globals: map<string, CppValue>,
    locals: map<string, CppValue>,
    flags: seq<(nat, bool)>,
    output: PythonMachine.Output)

  datatype CppEvaluated<+T> = CppEvaluated(result: CppResult<T>, output: PythonMachine.Output)

  datatype CppOutcome =
    | CppNormal
    | CppBroke
    | CppContinued
    | CppReturned(value: CppValue)
    | CppStopped(why: CppResult<()>)

  datatype CppExecuted = CppExecuted(outcome: CppOutcome, state: CppState)

  function Why<T>(r: CppResult<T>): CppResult<()>
    requires !r.Ok?
  {
    match r
    case Trapped => Trapped
    case IllFormed => IllFormed
    case Exhausted => Exhausted
  }

  function Stop<T>(r: CppResult<()>): CppResult<T>
    requires !r.Ok?
  {
    match r
    case Trapped => Trapped
    case IllFormed => IllFormed
    case Exhausted => Exhausted
  }

  function ReadVariable(st: CppState, id: string): CppResult<CppValue> {
    if id in st.locals then Ok(st.locals[id])
    else if id in st.globals then Ok(st.globals[id])
    else IllFormed
  }

  /** Assignment needs a declaration of exactly the value's class. */
  function WriteVariable(st: CppState, id: string, v: CppValue): CppResult<CppState> {
    if id in st.locals then
      if st.locals[id].Class() == v.Class() then Ok(st.(locals := st.locals[id := v])) else IllFormed
    else if id in st.globals && st.globals[id].Class() == v.Class() then Ok(st.(globals := st.globals[id := v]))
    else IllFormed
  }

  function IntLiteralValue(digits: string): CppResult<CppValue> {
    var n := CppReading(digits);
    if n.Some? && FitsInt64(n.value) then Ok(CppInt(Plain(n.value))) else IllFormed
  }

  function CppEval(fuel: nat, ctx: CppCtx, st: CppState, e: CppExpr): CppEvaluated<CppValue>
    decreases fuel, e, 0
  {
    match e
    case IntLiteral(digits) => CppEvaluated(IntLiteralValue(digits), st.output)
    case FloatLiteral(text) => CppEvaluated(Ok(CppFloat(Real(ctx.ops.parse(text)))), st.output)
    case BoolLiteral(b) => CppEvaluated(Ok(CppBool(b)), st.output)
    case StrLiteral(bytes) => CppEvaluated(Ok(CppStr(bytes)), st.output)
    case NoneLiteral => CppEvaluated(Ok(CppNone), st.output)
    case Variable(id) => CppEvaluated(ReadVariable(st, id), st.output)
    case UnaryCall(op, arg) =>
      var r := CppEval(fuel, ctx, st, arg);
      if !r.result.Ok? then r else CppEvaluated(CppUnary(op, r.result.value), r.output)
    case ToInt(arg) =>
      var r := CppEval(fuel, ctx, st, arg);
      if !r.result.Ok? then r else CppEvaluated(CppToInt(r.result.value), r.output)
    case ToFloat(arg) =>
      var r := CppEval(fuel, ctx, st, arg);
      if !r.result.Ok? then r else CppEvaluated(CppToFloat(r.result.value), r.output)
    case BinaryCall(op, left, right) =>
      var r := CppEval(fuel, ctx, st, left);
      if !r.result.Ok? then r
      else
        var s := CppEval(fuel, ctx, st.(output := r.output), right);
        if !s.result.Ok? then s
        else CppEvaluated(CppBinary(ctx.ops, op, r.result.value, s.result.value), s.output)
    case CompareCall(op, left, right) =>
      var r := CppEval(fuel, ctx, st, left);
      if !r.result.Ok? then r
      else
        var s := CppEval(fuel, ctx, st.(output := r.output), right);
        if !s.result.Ok? then s
        else CppEvaluated(OfBool(CppCompare(ctx.ops, op, r.result.value, s.result.value)), s.output)
    case CompareLambda(first, rest) =>
      var r := CppEval(fuel, ctx, st, first);
      if !r.result.Ok? then r else CppEvalLinks(fuel, ctx, st.(output := r.output), r.result.value, rest)
    case LogicCall(isAnd, left, thunk) =>
      var r := CppEval(fuel, ctx, st, left);
      if !r.result.Ok? || r.result.value.Truthy() != isAnd then r
      else
        var s := CppEval(fuel, ctx, st.(output := r.output), thunk);
        if s.result.Ok? && s.result.value.Class() != r.result.value.Class() then CppEvaluated(IllFormed, s.output)
        else s
    case PrintCall(_) => CppEvaluated(IllFormed, st.output)
    case LenCall(args) =>
      var r := CppEvalArgs(fuel, ctx, st, args);
      if !r.result.Ok? then CppEvaluated(Stop(Why(r.result)), r.output)
      else if |args| == 1 && r.result.value[0].CppStr? then
        CppEvaluated(OfInt(Checked(CountLeads(r.result.value[0].bytes))), r.output)
      else CppEvaluated(IllFormed, r.output)
    case UserCall(id, args) => CppEvalCall(fuel, ctx, st, id, args)
  }

  function OfBool(r: CppResult<bool>): CppResult<CppValue> {
    if r.Ok? then Ok(CppBool(r.value)) else Stop(Why(r))
  }

  /** Each temporary is bound once; a false link returns from the lambda at once. */
  function CppEvalLinks(
      fuel: nat, ctx: CppCtx, st: CppState, previous: CppValue, rest: CppLinks): CppEvaluated<CppValue>
    decreases fuel, rest, 0
  {
    match rest
    case NoCppLinks => CppEvaluated(IllFormed, st.output)
    case CppLink(op, operand, more) =>
      var r := CppEval(fuel, ctx, st, operand);
      if !r.result.Ok? then r
      else
        var c := CppCompare(ctx.ops, op, previous, r.result.value);
        if !c.Ok? || more.NoCppLinks? || !c.value then CppEvaluated(OfBool(c), r.output)
        else CppEvalLinks(fuel, ctx, st.(output := r.output), r.result.value, more)
  }

  function CppEvalArgs(fuel: nat, ctx: CppCtx, st: CppState, args: seq<CppExpr>): (r: CppEvaluated<seq<CppValue>>)
    ensures r.result.Ok? ==> |r.result.value| == |args|
    decreases fuel, args, 0
  {
    if args == [] then CppEvaluated(Ok([]), st.output)
    else
      var r := CppEval(fuel, ctx, st, args[0]);
      if !r.result.Ok? then CppEvaluated(Stop(Why(r.result)), r.output)
      else
        var s := CppEvalArgs(fuel, ctx, st.(output := r.output), args[1..]);
        if !s.result.Ok? then s else CppEvaluated(Ok([r.result.value] + s.result.value), s.output)
  }

  function CppPrintedLine(values: seq<CppValue>): seq<Printed> {
    if values == [] then [] else [CppPrinted(values[0])] + CppPrintedLine(values[1..])
  }

  function Ids(params: seq<(string, Kind)>): (r: seq<string>)
    ensures |r| == |params|
  {
    if params == [] then [] else [params[0].0] + Ids(params[1..])
  }

  predicate ArgumentsMatch(params: seq<(string, Kind)>, values: seq<CppValue>) {
    |params| == |values| && forall i :: 0 <= i < |params| ==> params[i].1 == values[i].Class()
  }

  function Defaults(locals: map<string, Kind>): map<string, CppValue> {
    map id | id in locals :: DefaultOf(locals[id])
  }

  function CppEvalCall(fuel: nat, ctx: CppCtx, st: CppState, id: string, args: seq<CppExpr>): CppEvaluated<CppValue>
    decreases fuel, args, 1
  {
    var r := CppEvalArgs(fuel, ctx, st, args);
    if !r.result.Ok? then CppEvaluated(Stop(Why(r.result)), r.output)
    else if id !in ctx.functions || !ArgumentsMatch(ctx.functions[id].params, r.result.value) then
      CppEvaluated(IllFormed, r.output)
    else if fuel == 0 then CppEvaluated(Exhausted, r.output)
    else
      var f := ctx.functions[id];
      var x := CppExecBlock(fuel - 1, ctx, CppEntered(st, f, r.result.value, r.output), f.body);
      CppEvaluated(CppCallResult(f, x.outcome), x.state.output)
  }

  /** Parameters by value, then the hoisted locals, default-constructed. */
  function CppEntered(st: CppState, f: CppFunction, values: seq<CppValue>, output: PythonMachine.Output): CppState
    requires |values| == |f.params|
  {
    CppState(st.globals, Defaults(f.locals) + PythonMachine.Parameters(Ids(f.params), values), [], output)
  }

  /** Falling off the end of a function is undefined behaviour. */
  function CppCallResult(f: CppFunction, outcome: CppOutcome): CppResult<CppValue> {
    match outcome
    case CppReturned(v) => if v.Class() == f.result then Ok(v) else IllFormed
    case CppStopped(why) => if why.Ok? then IllFormed else Stop(why)
    case _ => IllFormed
  }

  function CppExecBlock(fuel: nat, ctx: CppCtx, st: CppState, body: seq<CppStmt>): CppExecuted
    decreases fuel, body, 0
  {
    if body == [] then CppExecuted(CppNormal, st)
    else
      var x := CppExec(fuel, ctx, st, body[0]);
      if x.outcome.CppNormal? then CppExecBlock(fuel, ctx, x.state, body[1..]) else x
  }

  function StopWith<T>(r: CppResult<T>, st: CppState): CppExecuted
    requires !r.Ok?
  {
    CppExecuted(CppStopped(Why(r)), st)
  }

  /** The innermost live declaration of a flag. */
  function FindFlag(flags: seq<(nat, bool)>, n: nat): (r: Option<nat>)
    ensures r.Some? ==> r.value < |flags| && flags[r.value].0 == n
  {
    if flags == [] then None
    else if flags[|flags| - 1].0 == n then Some(|flags| - 1)
    else FindFlag(flags[..|flags| - 1], n)
  }

  function RaiseFlag(flags: seq<(nat, bool)>, n: nat): (r: seq<(nat, bool)>)
    ensures |r| == |flags|
  {
    var at := FindFlag(flags, n);
    if at.Some? then flags[at.value := (n, true)] else flags
  }

  /** Leaving a block ends the lifetime of the flags declared in it. */
  function LeaveBlock(depth: nat, x: CppExecuted): CppExecuted {
    if depth <= |x.state.flags| then x.(state := x.state.(flags := x.state.flags[..depth])) else x
  }

  /** What is left of an assignment once its value is known. */
  function CppStored(st: CppState, id: string, r: CppEvaluated<CppValue>): CppExecuted {
    var st' := st.(output := r.output);
    if !r.result.Ok? then StopWith(r.result, st')
    else
      var w := WriteVariable(st', id, r.result.value);
      if !w.Ok? then StopWith(w, st') else CppExecuted(CppNormal, w.value)
  }

  function CppExec(fuel: nat, ctx: CppCtx, st: CppState, s: CppStmt): CppExecuted
    decreases fuel, s, 0
  {
    match s
    case CppEmpty => CppExecuted(CppNormal, st)
    case CppBreak => CppExecuted(CppBroke, st)
    case CppContinue => CppExecuted(CppContinued, st)
    case CppExprStmt(e) =>
      if e.PrintCall? then
        var r := CppEvalArgs(fuel, ctx, st, e.args);
        if !r.result.Ok? then StopWith(r.result, st.(output := r.output))
        else CppExecuted(CppNormal, st.(output := r.output + [CppPrintedLine(r.result.value)]))
      else
        var r := CppEval(fuel, ctx, st, e);
        var st' := st.(output := r.output);
        if !r.result.Ok? then StopWith(r.result, st') else CppExecuted(CppNormal, st')
    case CppAssign(id, e) => CppStored(st, id, CppEval(fuel, ctx, st, e))
    case CppReturn(e) =>
      var r := CppEval(fuel, ctx, st, e);
      var st' := st.(output := r.output);
      if !r.result.Ok? then StopWith(r.result, st') else CppExecuted(CppReturned(r.result.value), st')
    case CppIf(cond, body, orelse) =>
      var r := CppEval(fuel, ctx, st, cond);
      var st' := st.(output := r.output);
      if !r.result.Ok? then StopWith(r.result, st')
      else CppExecBlock(fuel, ctx, st', if r.result.value.Truthy() then body else orelse)
    case CppWhile(cond, body) =>
      var r := CppEval(fuel, ctx, st, cond);
      var st' := st.(output := r.output);
      if !r.result.Ok? then StopWith(r.result, st')
      else if !r.result.value.Truthy() then CppExecuted(CppNormal, st')
      else
        var x := CppExecBlock(fuel, ctx, st', body);
        (match x.outcome
         case CppBroke => CppExecuted(CppNormal, x.state)
         case CppReturned(_) => x
         case CppStopped(_) => x
         case _ =>
           if fuel == 0 then CppExecuted(CppStopped(Exhausted), x.state) else CppExec(fuel - 1, ctx, x.state, s))
    case CppBlock(body) => LeaveBlock(|st.flags|, CppExecBlock(fuel, ctx, st, body))
    case DeclareFlag(n) => CppExecuted(CppNormal, st.(flags := st.flags + [(n, false)]))
    case SetFlag(n) =>
      if FindFlag(st.flags, n).None? then CppExecuted(CppStopped(IllFormed), st)
      else CppExecuted(CppNormal, st.(flags := RaiseFlag(st.flags, n)))
    case IfNotFlag(n, body) =>
      var at := FindFlag(st.flags, n);
      if at.None? then CppExecuted(CppStopped(IllFormed), st)
      else if st.flags[at.value].1 then CppExecuted(CppNormal, st)
      else CppExecBlock(fuel, ctx, st, body)
  }
}
