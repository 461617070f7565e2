/** What the emitter produces, as a function of the tree: the C++ tree, or None where it
    refuses. src/domain/codegen/emitter_expressions.cpp, emitter_statements.cpp and
    emitter_module.cpp. */
module Lowering {
  import opened Options
  import opened Characters
  import opened Numbers
  import opened CompareRuntime
  import opened StrRuntime
  import opened Values
  import opened Syntax
  import opened Literals
  import opened CppMachine

  datatype Signature = Signature(params: seq<Kind>, result: Kind)

  /** The checker's verdicts for the names visible in one scope: the TypeMap's part. */
  datatype Types = Types(globals: map<string, Kind>, locals: map<string, Kind>, functions: map<string, Signature>)

  predicate IsManglable(id: string) {
    id != [] && IsNameStart(id[0]) && forall i :: 0 <= i < |id| ==> IsNameStart(id[i]) || IsDigit(id[i])
  }

  predicate IsNameStart(c: char) {
    'a' <= c <= 'z' || 'A' <= c <= 'Z' || c == '_'
  }

  const REFUSED_BUILTINS: seq<string> := [
    "range", "abs", "int", "float", "str", "bool", "bytes", "bytearray", "round", "ord", "chr", "hex",
    "repr", "input", "divmod", "sum", "min", "max", "sorted", "isinstance", "list", "dict", "set",
    "frozenset", "tuple"]

  predicate IsListed(name: string, table: seq<string>) {
    table != [] && (name == table[0] || IsListed(name, table[1..]))
  }

  // ---------- Static types ----------

  function TypeOfName(types: Types, id: string): Option<Kind> {
    if id in types.locals then Some(types.locals[id])
    else if id in types.globals then Some(types.globals[id])
    else None
  }

  /** The scalar typing relation. None: the checker has no scalar type to record. */
  function TypeOf(types: Types, e: Expr): Option<Kind>
    decreases e, 0
  {
    match e
    case Const(IntLit(lexeme)) =>
      if IsIntegerLexeme(lexeme) && IntegerValue(lexeme) <= INT64_MAX then Some(IntKind) else None
    case Const(FloatLit(_)) => Some(FloatKind)
    case Const(StrLit(_)) => Some(StrKind)
    case Const(BoolLit(_)) => Some(BoolKind)
    case Const(NoneLit) => Some(NoneKind)
    case Const(OtherLit) => None
    case Name(id) => TypeOfName(types, id)
    case Unary(op, operand) =>
      var k := TypeOf(types, operand);
      if k.None? || op == Tilde then None
      else if op == Not then Some(BoolKind)
      else SignKind(k.value)
    case Binary(op, left, right) =>
      var a, b := TypeOf(types, left), TypeOf(types, right);
      if a.None? || b.None? then None else BinaryKind(op, a.value, b.value)
    case Compare(first, rest) =>
      if TypeOf(types, first).Some? && LinksTyped(types, rest) then Some(BoolKind) else None
    case BoolOp(_, values) =>
      if values != [] && AllTyped(types, values) && SameKind(types, values) then TypeOf(types, values[0]) else None
    case Call(callee, args) =>
      if !AllTyped(types, args) || callee in types.locals || callee in types.globals then None
      else if callee in types.functions then
        if |types.functions[callee].params| == |args| then Some(types.functions[callee].result) else None
      else if callee == "print" then Some(NoneKind)
      else if callee == "len" && |args| == 1 && TypeOf(types, args[0]) == Some(StrKind) then Some(IntKind)
      else None
    case OtherExpr => None
  }

  predicate AllTyped(types: Types, es: seq<Expr>)
    decreases es, 0
  {
    es == [] || (TypeOf(types, es[0]).Some? && AllTyped(types, es[1..]))
  }

  predicate SameKind(types: Types, es: seq<Expr>)
    decreases es, 0
  {
    |es| <= 1 || (TypeOf(types, es[0]) == TypeOf(types, es[1]) && SameKind(types, es[1..]))
  }

  predicate LinksTyped(types: Types, rest: Links)
    decreases rest, 0
  {
    match rest
    case NoLinks => true
    case Link(_, operand, more) => TypeOf(types, operand).Some? && LinksTyped(types, more)
  }

  // ---------- Expressions ----------

  /** visit over an expression. `isStatement`: this is a statement's whole expression, the
      one place where print may be called. */
  function LowerExpr(types: Types, e: Expr, isStatement: bool): Option<CppExpr>
    decreases e, 0
  {
    match e
    case Const(IntLit(lexeme)) =>
      if Translatable(lexeme) then Some(IntLiteral(WithoutUnderscores(lexeme))) else None
    case Const(FloatLit(lexeme)) =>
      if UnderscoresAreInterior(lexeme) then Some(FloatLiteral(WithoutUnderscores(lexeme))) else None
    case Const(StrLit(text)) => Some(StrLiteral(Encode(text)))
    case Const(BoolLit(b)) => Some(BoolLiteral(b))
    case Const(NoneLit) => Some(NoneLiteral)
    case Const(OtherLit) => None
    case Name(id) => if IsManglable(id) && TypeOf(types, e).Some? then Some(Variable(id)) else None
    case Unary(op, operand) =>
      if op == Not then
        var x := LowerExpr(types, operand, false);
        if x.Some? then Some(UnaryCall(Not, x.value)) else None
      else if op == Tilde then None
      else
        var k := TypeOf(types, e);
        if k.None? then None
        else
          var x := LowerOperand(types, operand, k.value);
          if x.Some? then Some(UnaryCall(op, x.value)) else None
    case Binary(op, left, right) =>
      if op == DoubleStar && !(right.Const? && right.lit.IntLit?) then None
      else if op == DoubleStar && TypeOf(types, left).None? then None
      else if op == OtherBinary then None
      else
        var k := TypeOf(types, e);
        if k.None? then None
        else if op == Percent && TypeOf(types, left) == Some(StrKind) then None
        else
          var x, y := LowerOperand(types, left, k.value), LowerOperand(types, right, k.value);
          if x.Some? && y.Some? then Some(BinaryCall(op, x.value, y.value)) else None
    case Compare(first, rest) =>
      if rest.NoLinks? || !ChainComparable(types, TypeOf(types, first), rest) || !ChainSupported(rest) then None
      else
        var x, more := LowerExpr(types, first, false), LowerLinks(types, rest);
        if x.None? || more.None? then None
        else if rest.more.NoLinks? then Some(CompareCall(more.value.op, x.value, more.value.operand))
        else Some(CompareLambda(x.value, more.value))
    case BoolOp(isAnd, values) =>
      if TypeOf(types, e).None? || |values| != 2 then None
      else
        var x, y := LowerExpr(types, values[0], false), LowerExpr(types, values[1], false);
        if x.Some? && y.Some? then Some(LogicCall(isAnd, x.value, y.value)) else None
    case Call(callee, args) =>
      if callee == "print" then
        var xs := LowerAll(types, args);
        if isStatement && xs.Some? then Some(PrintCall(xs.value)) else None
      else if callee == "len" then
        var xs := LowerAll(types, args);
        if xs.Some? then Some(LenCall(xs.value)) else None
      else if IsListed(callee, REFUSED_BUILTINS) || !IsManglable(callee) then None
      else if callee !in types.functions || |types.functions[callee].params| != |args| then None
      else
        var xs := LowerArgs(types, args, types.functions[callee].params);
        if xs.Some? then Some(UserCall(callee, xs.value)) else None
    case OtherExpr => None
  }

  /** emit_operand_widened. */
  function LowerOperand(types: Types, operand: Expr, result: Kind): (x: Option<CppExpr>)
    decreases operand, 1
  {
    var x := LowerExpr(types, operand, false);
    if x.Some? && TypeOf(types, operand) == Some(BoolKind) && result != BoolKind then Some(ToInt(x.value)) else x
  }

  function Rank(k: Kind): nat {
    match k
    case BoolKind => 1
    case IntKind => 2
    case FloatKind => 3
    case _ => 0
  }

  predicate Widens(from: Kind, to: Kind) {
    0 < Rank(from) < Rank(to)
  }

  /** emit_value_widened, with the backstop that refuses what no conversion makes fit. */
  function LowerWidened(types: Types, value: Expr, target: Kind): Option<CppExpr>
    decreases value, 1
  {
    var k := TypeOf(types, value);
    if k.Some? && k.value != target && !Widens(k.value, target) then None
    else
      var x := LowerExpr(types, value, false);
      if x.None? || k.None? || k.value == target then x
      else if target == IntKind then Some(ToInt(x.value))
      else Some(ToFloat(x.value))
  }

  /** Each adjacent pair has a runtime comparison. */
  predicate ChainComparable(types: Types, previous: Option<Kind>, rest: Links)
    decreases rest, 1
  {
    match rest
    case NoLinks => true
    case Link(_, operand, more) =>
      var k := TypeOf(types, operand);
      previous.Some? && k.Some? && Comparable(previous.value, k.value) && ChainComparable(types, k, more)
  }

  predicate ChainSupported(rest: Links) {
    rest.Link? ==> rest.op.Some? && ChainSupported(rest.more)
  }

  function LowerLinks(types: Types, rest: Links): (r: Option<CppLinks>)
    requires ChainSupported(rest)
    ensures r.Some? ==> r.value.NoCppLinks? == rest.NoLinks?
    decreases rest, 0
  {
    match rest
    case NoLinks => Some(NoCppLinks)
    case Link(op, operand, more) =>
      var x, xs := LowerExpr(types, operand, false), LowerLinks(types, more);
      if x.Some? && xs.Some? then Some(CppLink(op.value, x.value, xs.value)) else None
  }

  function LowerAll(types: Types, es: seq<Expr>): (r: Option<seq<CppExpr>>)
    ensures r.Some? ==> |r.value| == |es|
    decreases es, 0
  {
    if es == [] then Some([])
    else
      var x, xs := LowerExpr(types, es[0], false), LowerAll(types, es[1..]);
      if x.Some? && xs.Some? then Some([x.value] + xs.value) else None
  }

  function LowerArgs(types: Types, es: seq<Expr>, params: seq<Kind>): (r: Option<seq<CppExpr>>)
    requires |es| == |params|
    ensures r.Some? ==> |r.value| == |es|
    decreases es, 2
  {
    if es == [] then Some([])
    else
      var x, xs := LowerWidened(types, es[0], params[0]), LowerArgs(types, es[1..], params[1..]);
      if x.Some? && xs.Some? then Some([x.value] + xs.value) else None
  }

  // ---------- Statements ----------

  /** The emitter's own context fields. `slots` is function_declared_ or module_declared_. */
  datatype Site = Site(types: Types, slots: map<string, Kind>, result: Kind, depth: nat, hasElse: bool)

  function Single<T>(x: Option<T>): Option<seq<T>> {
    if x.Some? then Some([x.value]) else None
  }

  function LowerAssignment(site: Site, target: Target, value: Expr, declared: Option<Kind>): Option<seq<CppStmt>> {
    if target.OtherTarget? || !IsManglable(target.id) then None
    else
      var slot := if target.id in site.slots then Some(site.slots[target.id])
                  else if declared.Some? then declared
                  else TypeOf(site.types, value);
      if slot.None? then None
      else
        var x := LowerWidened(site.types, value, slot.value);
        if x.Some? then Some([CppAssign(target.id, x.value)]) else None
  }

  function LowerBlock(site: Site, body: seq<Stmt>): Option<seq<CppStmt>>
    decreases body, 0
  {
    if body == [] then Some([])
    else
      var x, xs := LowerStmt(site, body[0]), LowerBlock(site, body[1..]);
      if x.Some? && xs.Some? then Some(x.value + xs.value) else None
  }

  function LowerStmt(site: Site, s: Stmt): Option<seq<CppStmt>>
    decreases s, 0
  {
    match s
    case ExprStmt(e) =>
      var x := LowerExpr(site.types, e, true);
      if x.Some? then Some([CppExprStmt(x.value)]) else None
    case Assign(target, value) => LowerAssignment(site, target, value, None)
    case AnnAssign(target, kind, initial) =>
      if initial.None? then Some([CppEmpty])
      else if kind.None? && !(target.NameTarget? && target.id in site.slots) then None
      else LowerAssignment(site, target, initial.value, kind)
    case Pass => Some([CppEmpty])
    case Break => if site.hasElse && site.depth > 0 then Some([SetFlag(site.depth - 1), CppBreak]) else Some([CppBreak])
    case Continue => Some([CppContinue])
    case Return(result) =>
      if result.None? then Some([CppReturn(NoneLiteral)])
      else
        var x := LowerWidened(site.types, result.value, site.result);
        if x.Some? then Some([CppReturn(x.value)]) else None
    case If(cond, body, orelse) =>
      var c, x, y := LowerExpr(site.types, cond, false), LowerBlock(site, body), LowerBlock(site, orelse);
      if c.Some? && x.Some? && y.Some? then Some([CppIf(c.value, x.value, y.value)]) else None
    case While(cond, body, orelse) =>
      var c := LowerExpr(site.types, cond, false);
      var x := LowerBlock(site.(depth := site.depth + 1, hasElse := orelse != []), body);
      var y := LowerBlock(site, orelse);
      if c.None? || x.None? || y.None? then None
      else if orelse == [] then Some([CppWhile(c.value, x.value)])
      else Some([CppBlock([DeclareFlag(site.depth), CppWhile(c.value, x.value), IfNotFlag(site.depth, y.value)])])
    case FunctionDef(_, _, _, _) => None
    case OtherStmt => None
  }

  /** A function that may fall off its end gets the return Python implies. */
  function Tail(result: Kind): seq<CppStmt> {
    if result == NoneKind then [CppReturn(NoneLiteral)] else []
  }

  // ---------- The variables of a scope ----------

  datatype ScopeVariable = ScopeVariable(id: string, kind: Kind, fromDeadArm: bool)

  function IndexOf(variables: seq<ScopeVariable>, id: string): (r: Option<nat>)
    ensures r.Some? ==> r.value < |variables| && variables[r.value].id == id
    ensures r.None? ==> forall i :: 0 <= i < |variables| ==> variables[i].id != id
  {
    if variables == [] then None
    else if variables[0].id == id then Some(0)
    else
      var r := IndexOf(variables[1..], id);
      if r.Some? then Some(r.value + 1) else None
  }

  /** Two modes of collect_scope_variables: functions let the first live assignment replace
      the type an unannotated dead one chose. */
  datatype CollectMode = CollectMode(types: Types, declared: set<string>, preferLiveArm: bool)

  /** The assignment an Assign or AnnAssign contributes: its name, its type if that has a
      C++ spelling, and whether it is annotated. None for a target that is skipped. */
  datatype Occurrence = Occurrence(id: string, kind: Option<Kind>, dead: bool, annotated: bool)

  function OccurrenceOf(mode: CollectMode, s: Stmt, dead: bool): Option<Occurrence> {
    match s
    case Assign(NameTarget(id), value) =>
      if IsManglable(id) && id !in mode.declared then Some(Occurrence(id, TypeOf(mode.types, value), dead, false))
      else None
    case AnnAssign(NameTarget(id), kind, _) =>
      if IsManglable(id) && id !in mode.declared then Some(Occurrence(id, kind, dead, true)) else None
    case _ => None
  }

  function Collect(
      mode: CollectMode, body: seq<Stmt>, variables: seq<ScopeVariable>, dead: bool): Option<seq<ScopeVariable>>
    decreases body, 0
  {
    if body == [] then Some(variables)
    else
      var after := CollectStmt(mode, body[0], variables, dead);
      if after.Some? then Collect(mode, body[1..], after.value, dead) else None
  }

  function CollectStmt(
      mode: CollectMode, s: Stmt, variables: seq<ScopeVariable>, dead: bool): Option<seq<ScopeVariable>>
    decreases s, 0
  {
    match s
    case If(cond, body, orelse) =>
      var mid := Collect(mode, body, variables, dead || GuardOf(cond) == AlwaysFalse);
      if mid.Some? then Collect(mode, orelse, mid.value, dead || GuardOf(cond) == AlwaysTrue) else None
    case While(cond, body, orelse) =>
      var mid := Collect(mode, body, variables, dead || GuardOf(cond) == AlwaysFalse);
      if mid.Some? then Collect(mode, orelse, mid.value, dead || GuardOf(cond) == AlwaysTrue) else None
    case _ =>
      var o := OccurrenceOf(mode, s, dead);
      if o.Some? then Record(mode, variables, o.value) else Some(variables)
  }

  function Record(mode: CollectMode, variables: seq<ScopeVariable>, o: Occurrence): Option<seq<ScopeVariable>> {
    var seen := IndexOf(variables, o.id);
    if seen.Some? && !(variables[seen.value].fromDeadArm && !o.dead) then Some(variables)
    else if o.kind.None? then None
    else if seen.Some? then Some(variables[seen.value := ScopeVariable(o.id, o.kind.value, false)])
    else
      var open := mode.preferLiveArm && o.dead && !o.annotated;
      Some(variables + [ScopeVariable(o.id, o.kind.value, open)])
  }

  function SlotsOf(variables: seq<ScopeVariable>): map<string, Kind> {
    if variables == [] then map[]
    else SlotsOf(variables[..|variables| - 1])[variables[|variables| - 1].id := variables[|variables| - 1].kind]
  }

  function IdsOf(variables: seq<ScopeVariable>): set<string> {
    set i | 0 <= i < |variables| :: variables[i].id
  }

  // ---------- Definite assignment ----------

  /** `ok`: nothing was refused. `leaves`: the suite always leaves. `bound`: the names bound
      where it falls through. */
  datatype Flow = Flow(ok: bool, leaves: bool, bound: set<string>)

  predicate ReadsAreBound(names: set<string>, locals: set<string>, bound: set<string>) {
    forall id :: id in names && id in locals ==> id in bound
  }

  function BoundName(s: Stmt): set<string> {
    match s
    case Assign(NameTarget(id), _) => {id}
    case AnnAssign(NameTarget(id), _, Some(_)) => {id}
    case _ => {}
  }

  function OptionReads(e: Option<Expr>): set<string> {
    if e.Some? then Reads(e.value) else {}
  }

  function CheckBlock(body: seq<Stmt>, locals: set<string>, bound: set<string>): Flow
    decreases body, 0
  {
    if body == [] then Flow(true, false, bound)
    else
      var first := CheckStmt(body[0], locals, bound);
      if !first.ok || first.leaves then first else CheckBlock(body[1..], locals, first.bound)
  }

  function CheckStmt(s: Stmt, locals: set<string>, bound: set<string>): Flow
    decreases s, 0
  {
    match s
    case ExprStmt(e) => Flow(ReadsAreBound(Reads(e), locals, bound), false, bound)
    case Return(result) => Flow(ReadsAreBound(OptionReads(result), locals, bound), true, bound)
    case Break => Flow(true, true, bound)
    case Continue => Flow(true, true, bound)
    case If(cond, body, orelse) =>
      var x, y := CheckBlock(body, locals, bound), CheckBlock(orelse, locals, bound);
      var ok := ReadsAreBound(Reads(cond), locals, bound) && x.ok && y.ok;
      if x.leaves && y.leaves then Flow(ok, true, bound)
      else Flow(ok, false, if x.leaves then y.bound else if y.leaves then x.bound else x.bound * y.bound)
    case While(cond, body, orelse) =>
      var x, y := CheckBlock(body, locals, bound), CheckBlock(orelse, locals, bound);
      Flow(ReadsAreBound(Reads(cond), locals, bound) && x.ok && y.ok, false, bound)
    case Assign(_, value) => Flow(ReadsAreBound(Reads(value), locals, bound), false, bound + BoundName(s))
    case AnnAssign(_, _, initial) =>
      Flow(ReadsAreBound(OptionReads(initial), locals, bound), false, bound + BoundName(s))
    case _ => Flow(true, false, bound)
  }
}
