/** The source tree of the slice: src/domain/ast. Node kinds the emitter always refuses
    are folded into OtherExpr and OtherStmt. */
module Syntax {
  import opened Options
  import opened CompareRuntime
  import opened StrRuntime
  import opened Values

  /** A constant token. String literals arrive decoded. */
  datatype Literal =
    | IntLit(lexeme: string)
    | FloatLit(lexeme: string)
    | StrLit(text: seq<Scalar>)
    | BoolLit(b: bool)
    | NoneLit
    | OtherLit

  /** The `op operand` tail of a comparison chain; no operator for `in`, `is` and their negations. */
  datatype Links = NoLinks | Link(op: Option<CompareOp>, operand: Expr, more: Links)

  datatype Expr =
    | Const(lit: Literal)
    | Name(id: string)
    | Unary(uop: UnaryOp, operand: Expr)
    | Binary(bop: BinaryOp, left: Expr, right: Expr)
    | Compare(first: Expr, rest: Links)
    | BoolOp(isAnd: bool, values: seq<Expr>)
    | Call(callee: string, args: seq<Expr>)
    | OtherExpr

  datatype Target = NameTarget(id: string) | OtherTarget

  /** An annotation as the resolver reads it: Some of a scalar kind, or a type the emitter
      has no C++ spelling for. */
  datatype Annotation = NoAnnotation | Annotated(kind: Option<Kind>)

  datatype Param = Param(id: string, annotation: Annotation, hasDefault: bool)

  datatype Stmt =
    | ExprStmt(e: Expr)
    | Assign(target: Target, value: Expr)
    | AnnAssign(target: Target, kind: Option<Kind>, initial: Option<Expr>)
    | Pass
    | Break
    | Continue
    | Return(result: Option<Expr>)
    | If(cond: Expr, body: seq<Stmt>, orelse: seq<Stmt>)
    | While(cond: Expr, body: seq<Stmt>, orelse: seq<Stmt>)
    | FunctionDef(id: string, params: seq<Param>, resultType: Annotation, body: seq<Stmt>)
    | OtherStmt

  /** Every name read in an expression, callee names included. */
  function Reads(e: Expr): set<string>
    decreases e
  {
    match e
    case Name(id) => {id}
    case Unary(_, x) => Reads(x)
    case Binary(_, l, r) => Reads(l) + Reads(r)
    case Compare(first, rest) => Reads(first) + LinkReads(rest)
    case BoolOp(_, values) => ReadsAll(values)
    case Call(callee, args) => {callee} + ReadsAll(args)
    case _ => {}
  }

  function ReadsAll(es: seq<Expr>): set<string>
    decreases es
  {
    if es == [] then {} else Reads(es[0]) + ReadsAll(es[1..])
  }

  function LinkReads(rest: Links): set<string>
    decreases rest
  {
    match rest
    case NoLinks => {}
    case Link(_, operand, more) => Reads(operand) + LinkReads(more)
  }

  /** The names a statement list makes local to its function (section 4.2.1 of the Python
      Language Reference): every name it assigns or annotates at any if/while depth. */
  function AssignedNames(body: seq<Stmt>): set<string>
    decreases body
  {
    if body == [] then {} else AssignedName(body[0]) + AssignedNames(body[1..])
  }

  function AssignedName(s: Stmt): set<string>
    decreases s
  {
    match s
    case Assign(NameTarget(id), _) => {id}
    case AnnAssign(NameTarget(id), _, _) => {id}
    case If(_, body, orelse) => AssignedNames(body) + AssignedNames(orelse)
    case While(_, body, orelse) => AssignedNames(body) + AssignedNames(orelse)
    case _ => {}
  }
}
