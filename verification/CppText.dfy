/** The text of the emitted C++, as the tokens the emitter writes in order (layout left
    out), and a reader for it. Reading back what is written gives the same tree, so the
    text means what the tree means. */
module CppText {
  import opened Options
  import opened CompareRuntime
  import opened StrRuntime
  import opened Values
  import opened Literals
  import opened CppMachine

  /** The runtime library's functions, by what they do: py::neg, py::add, py::lt, py::and_
      and so on. */
  datatype RuntimeFunction =
    | UnaryFunction(uop: UnaryOp)
    | BinaryFunction(bop: BinaryOp)
    | CompareFunction(cop: CompareOp)
    | LogicFunction(isAnd: bool)
    | ToIntFunction
    | ToFloatFunction
    | TruthyFunction
    | PrintFunction
    | LenFunction

  datatype Token =
    | Fn(f: RuntimeFunction)
    | Class(kind: Kind)
    | NoneObject
    | StdString
    | Truth(b: bool)
    | Number(digits: string)
    | Quoted(body: string)
    | Ident(mangled: string)
    | Flag(n: nat)
    | Temp(n: nat)
    | Open | Close | Comma | Semi | LBrace | RBrace | Equals | Bang
    | LambdaHead | ThunkHead | AutoRef
    | IfWord | ElseWord | WhileWord | BreakWord | ContinueWord | ReturnWord | BoolWord | IntWord | MainWord
    | Include | Zero

  type Text = seq<Token>

  function Mangle(id: string): string {
    "cy_" + id
  }

  // ---------- String literals ----------

  function OctalDigit(n: int): char
    requires 0 <= n <= 7
  {
    ('0' as int + n) as char
  }

  /** Three octal digits, which unlike a \x escape cannot run on into the next character. */
  function OctalEscape(b: Byte): (text: string)
    ensures |text| == 4
  {
    ['\\', OctalDigit(b / 64), OctalDigit(b / 8 % 8), OctalDigit(b % 8)]
  }

  function OctalEscapes(bytes: seq<Byte>): string {
    if bytes == [] then [] else OctalEscapes(bytes[..|bytes| - 1]) + OctalEscape(bytes[|bytes| - 1])
  }

  predicate IsOctalDigit(c: char) {
    '0' <= c <= '7'
  }

  /** How C++ reads a literal made of octal escapes: up to three digits each. */
  function ReadOctals(text: string): Option<seq<Byte>> {
    if text == [] then Some([])
    else if |text| < 4 || text[0] != '\\' || !(forall i :: 1 <= i < 4 ==> IsOctalDigit(text[i])) then None
    else
      var value := Digit(text[1]) * 64 + Digit(text[2]) * 8 + Digit(text[3]);
      var rest := ReadOctals(text[4..]);
      if value > 255 || rest.None? then None else Some([value] + rest.value)
  }

  /** as_octal_escapes. */
  method AsOctalEscapes(bytes: seq<Byte>) returns (text: string)
    ensures text == OctalEscapes(bytes)
    ensures ReadOctals(text) == Some(bytes)
  {
    text := "";
    for i := 0 to |bytes|
      invariant text == OctalEscapes(bytes[..i])
    {
      assert bytes[..i + 1][..i] == bytes[..i];
      text := text + OctalEscape(bytes[i]);
    }
    assert bytes[..|bytes|] == bytes;
    OctalsReadBack(bytes);
  }

  lemma OctalEscapeReads(b: Byte, rest: string)
    requires ReadOctals(rest).Some?
    ensures ReadOctals(OctalEscape(b) + rest) == Some([b] + ReadOctals(rest).value)
  {
    var text := OctalEscape(b) + rest;
    assert text[4..] == rest;
    assert text[1] == OctalDigit(b / 64) && text[2] == OctalDigit(b / 8 % 8) && text[3] == OctalDigit(b % 8);
    OctalDigitReads(b / 64);
    OctalDigitReads(b / 8 % 8);
    OctalDigitReads(b % 8);
    ThreeOctals(b);
  }

  lemma OctalDigitReads(n: int)
    requires 0 <= n <= 7
    ensures IsOctalDigit(OctalDigit(n)) && Digit(OctalDigit(n)) == n
  {
  }

  lemma ThreeOctals(b: Byte)
    ensures b == b / 64 * 64 + b / 8 % 8 * 8 + b % 8
  {
    assert b / 8 / 8 == b / 64;
  }

  lemma {:induction false} OctalsHead(bytes: seq<Byte>)
    requires bytes != []
    ensures OctalEscapes(bytes) == OctalEscape(bytes[0]) + OctalEscapes(bytes[1..])
  {
    var n := |bytes| - 1;
    if n > 0 {
      OctalsHead(bytes[..n]);
      assert bytes[..n][1..] == bytes[1..][..n - 1];
    }
  }

  lemma {:induction false} OctalsReadBack(bytes: seq<Byte>)
    ensures ReadOctals(OctalEscapes(bytes)) == Some(bytes)
  {
    if bytes != [] {
      OctalsHead(bytes);
      OctalsReadBack(bytes[1..]);
      OctalEscapeReads(bytes[0], OctalEscapes(bytes[1..]));
      assert [bytes[0]] + bytes[1..] == bytes;
    }
  }

  /** std::to_string. */
  function Decimal(n: nat): string {
    if n < 10 then [DecimalDigit(n)] else Decimal(n / 10) + [DecimalDigit(n % 10)]
  }

  function DecimalDigit(n: int): char
    requires 0 <= n <= 9
  {
    ('0' as int + n) as char
  }

  // ---------- Writing ----------

  function PrintExpr(e: CppExpr): Text
    decreases e, 0
  {
    match e
    case IntLiteral(digits) => [Class(IntKind), Open, Number(digits), Close]
    case FloatLiteral(text) => [Class(FloatKind), Open, Number(text), Close]
    case BoolLiteral(b) => [Class(BoolKind), Open, Truth(b), Close]
    case StrLiteral(bytes) =>
      [Class(StrKind), Open, StdString, Open, Quoted(OctalEscapes(bytes)),
          Comma, Number(Decimal(|bytes|)), Close, Close]
    case NoneLiteral => [NoneObject]
    case Variable(id) => [Ident(Mangle(id))]
    case UnaryCall(op, arg) => [Fn(UnaryFunction(op)), Open] + PrintExpr(arg) + [Close]
    case BinaryCall(op, left, right) =>
      [Fn(BinaryFunction(op)), Open] + PrintExpr(left) + [Comma] + PrintExpr(right) + [Close]
    case ToInt(arg) => [Fn(ToIntFunction), Open] + PrintExpr(arg) + [Close]
    case ToFloat(arg) => [Fn(ToFloatFunction), Open] + PrintExpr(arg) + [Close]
    case CompareCall(op, left, right) =>
      [Fn(CompareFunction(op)), Open] + PrintExpr(left) + [Comma] + PrintExpr(right) + [Close]
    case CompareLambda(first, rest) =>
      [Open, LambdaHead, LBrace, AutoRef, Temp(0), Equals, Open] + PrintExpr(first) + [Close, Semi]
      + PrintLinks(rest, 0) + [RBrace, Open, Close, Close]
    case LogicCall(isAnd, left, thunk) =>
      [Fn(LogicFunction(isAnd)), Open] + PrintExpr(left) + [Comma, ThunkHead, LBrace, ReturnWord]
      + PrintExpr(thunk) + [Semi, RBrace, Close]
    case PrintCall(args) => [Fn(PrintFunction), Open] + PrintArgs(args) + [Close]
    case LenCall(args) => [Fn(LenFunction), Open] + PrintArgs(args) + [Close]
    case UserCall(id, args) => [Ident(Mangle(id)), Open] + PrintArgs(args) + [Close]
  }

  function PrintArgs(args: seq<CppExpr>): Text
    decreases args, 0
  {
    if args == [] then []
    else if |args| == 1 then PrintExpr(args[0])
    else PrintExpr(args[0]) + [Comma] + PrintArgs(args[1..])
  }

  function LinkTest(op: CompareOp, n: nat): Text {
    [Fn(CompareFunction(op)), Open, Temp(n), Comma, Temp(n + 1), Close]
  }

  const RETURN_FALSE: Text := [LBrace, ReturnWord, Class(BoolKind), Open, Truth(false), Close, Semi, RBrace]

  function PrintLinks(rest: CppLinks, n: nat): Text
    decreases rest, 0
  {
    match rest
    case NoCppLinks => []
    case CppLink(op, operand, more) =>
      [AutoRef, Temp(n + 1), Equals, Open] + PrintExpr(operand) + [Close, Semi]
      + (if more.NoCppLinks? then [ReturnWord] + LinkTest(op, n) + [Semi]
         else [IfWord, Open, Bang, Fn(TruthyFunction), Open] + LinkTest(op, n) + [Close, Close] + RETURN_FALSE
              + PrintLinks(more, n + 1))
  }

  function PrintCondition(e: CppExpr): Text {
    [Open, Fn(TruthyFunction), Open] + PrintExpr(e) + [Close, Close]
  }

  function PrintStmt(s: CppStmt): Text
    decreases s, 0
  {
    match s
    case CppExprStmt(e) => PrintExpr(e) + [Semi]
    case CppEmpty => [Semi]
    case CppAssign(id, e) => [Ident(Mangle(id)), Equals] + PrintExpr(e) + [Semi]
    case CppBreak => [BreakWord, Semi]
    case CppContinue => [ContinueWord, Semi]
    case CppReturn(e) => [ReturnWord] + PrintExpr(e) + [Semi]
    case CppIf(cond, body, orelse) =>
      if orelse == [] then [IfWord] + PrintCondition(cond) + [LBrace] + PrintBlock(body) + [RBrace]
      else [IfWord] + PrintCondition(cond) + [LBrace] + PrintBlock(body) + [RBrace, ElseWord, LBrace]
           + PrintBlock(orelse) + [RBrace]
    case CppWhile(cond, body) => [WhileWord] + PrintCondition(cond) + [LBrace] + PrintBlock(body) + [RBrace]
    case CppBlock(body) => [LBrace] + PrintBlock(body) + [RBrace]
    case DeclareFlag(n) => [BoolWord, Flag(n), Equals, Truth(false), Semi]
    case SetFlag(n) => [Flag(n), Equals, Truth(true), Semi]
    case IfNotFlag(n, body) => [IfWord, Open, Bang, Flag(n), Close, LBrace] + PrintBlock(body) + [RBrace]
  }

  function PrintBlock(body: seq<CppStmt>): Text
    decreases body, 0
  {
    if body == [] then [] else PrintStmt(body[0]) + PrintBlock(body[1..])
  }

  lemma {:induction false} PrintBlockAppends(a: seq<CppStmt>, b: seq<CppStmt>)
    ensures PrintBlock(a + b) == PrintBlock(a) + PrintBlock(b)
  {
    if a == [] {
      assert a + b == b;
    } else {
      assert (a + b)[1..] == a[1..] + b;
      PrintBlockAppends(a[1..], b);
    }
  }
}
