/** The expression grammar the parser implements, as a function from token kinds and
    lexemes to a tree and what is left: src/domain/parser/expression_parser.cpp and
    precedence_table.cpp, rule by rule. */
module Grammar {
  import opened Options
  import opened Tokens

  datatype Expr =
    | Name(id: string)
    | Constant(kind: TokenType, lexeme: string)
    | UnaryOp(op: Symbol, operand: Expr)
    | BinOp(op: Symbol, left: Expr, right: Expr)
    | BoolOp(op: Symbol, values: seq<Expr>)
    | Compare(first: Expr, ops: seq<Symbol>, operands: seq<Expr>)
    | Attribute(value: Expr, attr: string)
    | Subscript(value: Expr, index: Expr)
    | Call(callee: Expr, args: seq<Expr>)
    | TupleExpr(elements: seq<Expr>)
    | ListExpr(elements: seq<Expr>)
    | DictExpr(entries: seq<DictEntry>)
    | ListComp(element: Expr, clauses: seq<Clause>)

  datatype DictEntry = DictEntry(key: Expr, value: Expr)

  /** One `for target in iterable` of a comprehension with its `if` conditions. */
  datatype Clause = Clause(target: Expr, iterable: Expr, conditions: seq<Expr>)

  /** A token as the parser looks at it. */
  datatype Glyph = Glyph(kind: TokenType, text: string)

  type Glyphs = seq<Glyph>

  /** What a rule gives: its value and the tokens after it, or the tokens at which it
      reported. */
  datatype Parse<+T> = Parsed(value: T, rest: Glyphs) | Failed(rest: Glyphs)

  function Kind(ts: Glyphs): TokenType {
    if ts == [] then Eof else ts[0].kind
  }

  /** Past the current token; no-op at the end of the file. */
  function Next(ts: Glyphs): (r: Glyphs)
    ensures |r| <= |ts|
    ensures Kind(ts) != Eof ==> |r| < |ts|
  {
    if Kind(ts) == Eof then ts else ts[1..]
  }

  /** The tokens that make lines and blocks. */
  predicate IsStructural(kind: TokenType) {
    kind == Newline || kind == Indent || kind == Dedent || kind == Eof
  }

  /** How many tokens are left from the end of the current logical line on. No rule below
      reads past it. */
  function Beyond(ts: Glyphs): nat {
    if ts == [] || IsStructural(ts[0].kind) then |ts| else Beyond(ts[1..])
  }

  // ---------- Tables ----------

  /** Python's binary levels, loosest first. */
  function BinaryLevel(kind: TokenType): (level: Option<nat>)
    ensures level.Some? ==> 1 <= level.value <= 6 && kind.Op?
  {
    match kind
    case Op(Pipe) => Some(1)
    case Op(Caret) => Some(2)
    case Op(Ampersand) => Some(3)
    case Op(LeftShift) => Some(4)
    case Op(RightShift) => Some(4)
    case Op(Plus) => Some(5)
    case Op(Minus) => Some(5)
    case Op(Star) => Some(6)
    case Op(At) => Some(6)
    case Op(Slash) => Some(6)
    case Op(DoubleSlash) => Some(6)
    case Op(Percent) => Some(6)
    case _ => Option.None
  }

  predicate IsSimpleComparison(kind: TokenType) {
    kind.Op? && kind.symbol in {Less, Greater, Equal, NotEqual, LessEqual, GreaterEqual, In}
  }

  predicate IsSign(kind: TokenType) {
    kind.Op? && kind.symbol in {Plus, Minus, Tilde}
  }

  predicate EndsASequence(kind: TokenType) {
    kind.Closing? || kind == Newline || kind == Eof || kind == Indent || kind == Dedent
  }

  /** The IDENTIFIER category: names and builtin type names. */
  predicate IsIdentifier(kind: TokenType) {
    kind == Identifier || kind == TypeName
  }

  /** The OBJECT category, names and f-string parts apart. */
  predicate IsLiteral(kind: TokenType) {
    kind in {StringLiteral, BytesLiteral, IntLiteral, FloatLiteral,
        ComplexLiteral, TrueWord, FalseWord, NoneWord, Ellipsis}
  }

  predicate IsString(kind: TokenType) {
    kind == StringLiteral || kind == BytesLiteral
  }

  predicate IsAssignable(e: Expr)
    decreases e
  {
    match e
    case Name(_) => true
    case Attribute(_, _) => true
    case Subscript(_, _) => true
    case TupleExpr(elements) => elements != [] && forall x :: x in elements ==> IsAssignable(x)
    case _ => false
  }

  // ---------- The rules ----------

  function Expression(ts: Glyphs): (r: Parse<Expr>)
    ensures |r.rest| <= |ts| && Beyond(r.rest) == Beyond(ts)
    ensures r.Parsed? ==> |r.rest| < |ts|
    decreases |ts|, 20
  {
    var e := OrTest(ts);
    if e.Parsed? && (Kind(e.rest) == Keyword(If) || Kind(e.rest) == Op(Walrus)) then Failed(e.rest) else e
  }

  function ExpressionList(ts: Glyphs): (r: Parse<Expr>)
    ensures |r.rest| <= |ts| && Beyond(r.rest) == Beyond(ts)
    ensures r.Parsed? ==> |r.rest| < |ts|
    decreases |ts|, 21
  {
    var first := Expression(ts);
    if first.Failed? || Kind(first.rest) != Comma then first else ListMore([first.value], first.rest)
  }

  function ListMore(elements: seq<Expr>, ts: Glyphs): (r: Parse<Expr>)
    ensures |r.rest| <= |ts| && Beyond(r.rest) == Beyond(ts)
    ensures r.Parsed? ==> |r.rest| <= |ts|
    decreases |ts|, 21
  {
    if Kind(ts) != Comma then Parsed(TupleExpr(elements), ts)
    else if EndsASequence(Kind(Next(ts))) then Parsed(TupleExpr(elements), Next(ts))
    else
      var next := Expression(Next(ts));
      if next.Failed? then next else ListMore(elements + [next.value], next.rest)
  }

  function OrTest(ts: Glyphs): (r: Parse<Expr>)
    ensures |r.rest| <= |ts| && Beyond(r.rest) == Beyond(ts)
    ensures r.Parsed? ==> |r.rest| < |ts|
    decreases |ts|, 19
  {
    var first := AndTest(ts);
    if first.Failed? || Kind(first.rest) != Op(Or) then first else OrMore([first.value], first.rest)
  }

  function OrMore(values: seq<Expr>, ts: Glyphs): (r: Parse<Expr>)
    ensures |r.rest| <= |ts| && Beyond(r.rest) == Beyond(ts)
    ensures r.Parsed? ==> |r.rest| <= |ts|
    decreases |ts|, 19
  {
    if Kind(ts) != Op(Or) then Parsed(BoolOp(Or, values), ts)
    else
      var next := AndTest(Next(ts));
      if next.Failed? then next else OrMore(values + [next.value], next.rest)
  }

  function AndTest(ts: Glyphs): (r: Parse<Expr>)
    ensures |r.rest| <= |ts| && Beyond(r.rest) == Beyond(ts)
    ensures r.Parsed? ==> |r.rest| < |ts|
    decreases |ts|, 18
  {
    var first := NotTest(ts);
    if first.Failed? || Kind(first.rest) != Op(And) then first else AndMore([first.value], first.rest)
  }

  function AndMore(values: seq<Expr>, ts: Glyphs): (r: Parse<Expr>)
    ensures |r.rest| <= |ts| && Beyond(r.rest) == Beyond(ts)
    ensures r.Parsed? ==> |r.rest| <= |ts|
    decreases |ts|, 18
  {
    if Kind(ts) != Op(And) then Parsed(BoolOp(And, values), ts)
    else
      var next := NotTest(Next(ts));
      if next.Failed? then next else AndMore(values + [next.value], next.rest)
  }

  function NotTest(ts: Glyphs): (r: Parse<Expr>)
    ensures |r.rest| <= |ts| && Beyond(r.rest) == Beyond(ts)
    ensures r.Parsed? ==> |r.rest| < |ts|
    decreases |ts|, 17
  {
    if Kind(ts) == Op(Not) then
      var x := NotTest(Next(ts));
      if x.Failed? then x else Parsed(UnaryOp(Not, x.value), x.rest)
    else Comparison(ts)
  }

  function Comparison(ts: Glyphs): (r: Parse<Expr>)
    ensures |r.rest| <= |ts| && Beyond(r.rest) == Beyond(ts)
    ensures r.Parsed? ==> |r.rest| < |ts|
    decreases |ts|, 16
  {
    var left := Binary(1, ts);
    if left.Failed? then left else CompareMore(left.value, [], [], left.rest)
  }

  /** The comparison operator at the cursor, folding the two-word ones. */
  function ComparisonOp(ts: Glyphs): (r: Parse<Option<Symbol>>)
    ensures |r.rest| <= |ts| && Beyond(r.rest) == Beyond(ts)
    ensures r.Parsed? && r.value.Some? ==> |r.rest| < |ts|
    ensures r.Parsed? && r.value.None? ==> r.rest == ts
  {
    if Kind(ts) == Op(Not) then
      if Kind(Next(ts)) != Op(In) then Failed(ts) else Parsed(Some(NotIn), Next(Next(ts)))
    else if Kind(ts) == Op(Is) then
      if Kind(Next(ts)) == Op(Not) then Parsed(Some(IsNot), Next(Next(ts))) else Parsed(Some(Is), Next(ts))
    else if IsSimpleComparison(Kind(ts)) then Parsed(Some(Kind(ts).symbol), Next(ts))
    else Parsed(Option.None, ts)
  }

  function CompareMore(left: Expr, ops: seq<Symbol>, operands: seq<Expr>, ts: Glyphs): (r: Parse<Expr>)
    ensures |r.rest| <= |ts| && Beyond(r.rest) == Beyond(ts)
    ensures r.Parsed? ==> |r.rest| <= |ts|
    decreases |ts|, 16
  {
    var op := ComparisonOp(ts);
    if op.Failed? then Failed(op.rest)
    else if op.value.None? then Parsed(if ops == [] then left else Compare(left, ops, operands), ts)
    else
      var right := Binary(1, op.rest);
      if right.Failed? then right else CompareMore(left, ops + [op.value.value], operands + [right.value], right.rest)
  }

  /** Precedence climbing. */
  function Binary(minLevel: nat, ts: Glyphs): (r: Parse<Expr>)
    ensures |r.rest| <= |ts| && Beyond(r.rest) == Beyond(ts)
    ensures r.Parsed? ==> |r.rest| < |ts|
    decreases |ts|, 15
  {
    var left := Unary(ts);
    if left.Failed? then left else BinaryMore(left.value, minLevel, left.rest)
  }

  function BinaryMore(left: Expr, minLevel: nat, ts: Glyphs): (r: Parse<Expr>)
    ensures |r.rest| <= |ts| && Beyond(r.rest) == Beyond(ts)
    ensures r.Parsed? ==> |r.rest| <= |ts|
    decreases |ts|, 15
  {
    var level := BinaryLevel(Kind(ts));
    if level.None? || level.value < minLevel then Parsed(left, ts)
    else
      var more := OperandOf(left, level.value, ts);
      if more.Failed? then more else BinaryMore(more.value, minLevel, more.rest)
  }

  /** An operator, its right operand one level tighter, and the node they make. */
  function OperandOf(left: Expr, level: nat, ts: Glyphs): (r: Parse<Expr>)
    requires BinaryLevel(Kind(ts)) == Some(level)
    ensures |r.rest| <= |ts| && Beyond(r.rest) == Beyond(ts)
    ensures r.Parsed? ==> |r.rest| < |ts|
    decreases |ts|, 0
  {
    var right := Binary(level + 1, Next(ts));
    if right.Failed? then right else Parsed(BinOp(Kind(ts).symbol, left, right.value), right.rest)
  }

  function Unary(ts: Glyphs): (r: Parse<Expr>)
    ensures |r.rest| <= |ts| && Beyond(r.rest) == Beyond(ts)
    ensures r.Parsed? ==> |r.rest| < |ts|
    decreases |ts|, 14
  {
    if IsSign(Kind(ts)) then
      var x := Unary(Next(ts));
      if x.Failed? then x else Parsed(UnaryOp(Kind(ts).symbol, x.value), x.rest)
    else Power(ts)
  }

  function Power(ts: Glyphs): (r: Parse<Expr>)
    ensures |r.rest| <= |ts| && Beyond(r.rest) == Beyond(ts)
    ensures r.Parsed? ==> |r.rest| < |ts|
    decreases |ts|, 13
  {
    var base := Postfix(ts);
    if base.Failed? || Kind(base.rest) != Op(DoubleStar) then base
    else
      var exponent := Unary(Next(base.rest));
      if exponent.Failed? then exponent else Parsed(BinOp(DoubleStar, base.value, exponent.value), exponent.rest)
  }

  function Postfix(ts: Glyphs): (r: Parse<Expr>)
    ensures |r.rest| <= |ts| && Beyond(r.rest) == Beyond(ts)
    ensures r.Parsed? ==> |r.rest| < |ts|
    decreases |ts|, 12
  {
    var value := Atom(ts);
    if value.Failed? then value else PostfixMore(value.value, value.rest)
  }

  function PostfixMore(value: Expr, ts: Glyphs): (r: Parse<Expr>)
    ensures |r.rest| <= |ts| && Beyond(r.rest) == Beyond(ts)
    ensures r.Parsed? ==> |r.rest| <= |ts|
    decreases |ts|, 12
  {
    if Kind(ts) != Dot && Kind(ts) != Open(Square) && Kind(ts) != Open(Paren) then Parsed(value, ts)
    else
      var next := if Kind(ts) == Dot then AttributeOf(value, Next(ts))
                  else if Kind(ts) == Open(Square) then SubscriptOf(value, Next(ts))
                  else CallOf(value, Next(ts));
      if next.Failed? then next else PostfixMore(next.value, next.rest)
  }

  function AttributeOf(value: Expr, ts: Glyphs): (r: Parse<Expr>)
    ensures |r.rest| <= |ts| && Beyond(r.rest) == Beyond(ts)
    ensures r.Parsed? ==> |r.rest| < |ts|
  {
    if IsIdentifier(Kind(ts)) then Parsed(Attribute(value, ts[0].text), Next(ts)) else Failed(ts)
  }

  /** After the opening bracket. */
  function SubscriptOf(value: Expr, ts: Glyphs): (r: Parse<Expr>)
    ensures |r.rest| <= |ts| && Beyond(r.rest) == Beyond(ts)
    ensures r.Parsed? ==> |r.rest| < |ts|
    decreases |ts|, 22
  {
    if Kind(ts) == Colon then Failed(ts)
    else if EndsASequence(Kind(ts)) && Kind(ts) != Closing(Square) then Failed(ts)
    else
      var index := ExpressionList(ts);
      if index.Failed? then index
      else if Kind(index.rest) != Closing(Square) then Failed(index.rest)
      else Parsed(Subscript(value, index.value), Next(index.rest))
  }

  function CallOf(callee: Expr, ts: Glyphs): (r: Parse<Expr>)
    ensures |r.rest| <= |ts| && Beyond(r.rest) == Beyond(ts)
    ensures r.Parsed? ==> |r.rest| < |ts|
    decreases |ts|, 22
  {
    if Kind(ts) == Closing(Paren) then Parsed(Call(callee, []), Next(ts))
    else
      var args := ArgsMore([], ts);
      if args.Failed? then Failed(args.rest)
      else if Kind(args.rest) != Closing(Paren) then Failed(args.rest)
      else Parsed(Call(callee, args.value), Next(args.rest))
  }

  function ArgsMore(args: seq<Expr>, ts: Glyphs): (r: Parse<seq<Expr>>)
    ensures |r.rest| <= |ts| && Beyond(r.rest) == Beyond(ts)
    ensures r.Parsed? ==> |r.rest| < |ts|
    decreases |ts|, 21
  {
    if EndsASequence(Kind(ts)) then Failed(ts)
    else
      var arg := Expression(ts);
      if arg.Failed? then Failed(arg.rest)
      else if Kind(arg.rest) == Op(Assign) || Kind(arg.rest) == Keyword(For) then Failed(arg.rest)
      else if Kind(arg.rest) != Comma then Parsed(args + [arg.value], arg.rest)
      else if Kind(Next(arg.rest)) == Closing(Paren) then Parsed(args + [arg.value], Next(arg.rest))
      else ArgsMore(args + [arg.value], Next(arg.rest))
  }

  function Atom(ts: Glyphs): (r: Parse<Expr>)
    ensures |r.rest| <= |ts| && Beyond(r.rest) == Beyond(ts)
    ensures r.Parsed? ==> |r.rest| < |ts|
    decreases |ts|, 11
  {
    if Kind(ts) == Open(Paren) then ParenAtom(Next(ts))
    else if Kind(ts) == Open(Square) then BracketAtom(Next(ts))
    else if Kind(ts) == Open(Brace) then BraceAtom(Next(ts))
    else if IsIdentifier(Kind(ts)) then Parsed(Name(ts[0].text), Next(ts))
    else if IsLiteral(Kind(ts)) then
      if IsString(Kind(ts)) && IsString(Kind(Next(ts))) then Failed(Next(ts))
      else Parsed(Constant(Kind(ts), ts[0].text), Next(ts))
    else Failed(ts)
  }

  function ParenAtom(ts: Glyphs): (r: Parse<Expr>)
    ensures |r.rest| <= |ts| && Beyond(r.rest) == Beyond(ts)
    ensures r.Parsed? ==> |r.rest| < |ts|
    decreases |ts|, 22
  {
    if Kind(ts) == Closing(Paren) then Parsed(TupleExpr([]), Next(ts))
    else
      var inside := ParenMore([], ts);
      if inside.Failed? then Failed(inside.rest)
      else if Kind(inside.rest) != Closing(Paren) then Failed(inside.rest)
      else Parsed(if inside.value.1 then TupleExpr(inside.value.0) else inside.value.0[0], Next(inside.rest))
  }

  /** The elements, and whether a comma made them a tuple. */
  function ParenMore(elements: seq<Expr>, ts: Glyphs): (r: Parse<(seq<Expr>, bool)>)
    ensures |r.rest| <= |ts| && Beyond(r.rest) == Beyond(ts)
    ensures r.Parsed? ==> |r.rest| < |ts| && |r.value.0| > |elements| && (elements != [] ==> r.value.1)
    decreases |ts|, 21
  {
    if EndsASequence(Kind(ts)) then Failed(ts)
    else
      var x := Expression(ts);
      if x.Failed? then Failed(x.rest)
      else if elements == [] && Kind(x.rest) == Keyword(For) then Failed(x.rest)
      else if Kind(x.rest) != Comma then Parsed((elements + [x.value], elements != []), x.rest)
      else if Kind(Next(x.rest)) == Closing(Paren) then Parsed((elements + [x.value], true), Next(x.rest))
      else
        var more := ParenMore(elements + [x.value], Next(x.rest));
        more
  }

  function BracketAtom(ts: Glyphs): (r: Parse<Expr>)
    ensures |r.rest| <= |ts| && Beyond(r.rest) == Beyond(ts)
    ensures r.Parsed? ==> |r.rest| < |ts|
    decreases |ts|, 22
  {
    if Kind(ts) == Closing(Square) then Parsed(ListExpr([]), Next(ts))
    else if EndsASequence(Kind(ts)) then Failed(ts)
    else
      var first := Expression(ts);
      if first.Failed? then first
      else if Kind(first.rest) == Keyword(For) then ClausesMore(first.value, [], first.rest)
      else ListOf(first.value, first.rest)
  }

  /** A list display, after its first element. */
  function ListOf(first: Expr, ts: Glyphs): (r: Parse<Expr>)
    ensures |r.rest| <= |ts| && Beyond(r.rest) == Beyond(ts)
    ensures r.Parsed? ==> |r.rest| < |ts|
    decreases |ts|, 22
  {
    var elements := ElementsMore([first], ts);
    if elements.Failed? then Failed(elements.rest)
    else if Kind(elements.rest) != Closing(Square) then Failed(elements.rest)
    else Parsed(ListExpr(elements.value), Next(elements.rest))
  }

  function ElementsMore(elements: seq<Expr>, ts: Glyphs): (r: Parse<seq<Expr>>)
    ensures |r.rest| <= |ts| && Beyond(r.rest) == Beyond(ts)
    ensures r.Parsed? ==> |r.rest| <= |ts|
    decreases |ts|, 21
  {
    if Kind(ts) != Comma then Parsed(elements, ts)
    else if EndsASequence(Kind(Next(ts))) then Parsed(elements, Next(ts))
    else
      var next := Expression(Next(ts));
      if next.Failed? then Failed(next.rest) else ElementsMore(elements + [next.value], next.rest)
  }

  function ClausesMore(element: Expr, clauses: seq<Clause>, ts: Glyphs): (r: Parse<Expr>)
    ensures |r.rest| <= |ts| && Beyond(r.rest) == Beyond(ts)
    ensures r.Parsed? ==> |r.rest| < |ts|
    decreases |ts|, 21
  {
    if Kind(ts) != Keyword(For) then
      if Kind(ts) != Closing(Square) then Failed(ts) else Parsed(ListComp(element, clauses), Next(ts))
    else
      var clause := ClauseOf(Next(ts));
      if clause.Failed? then Failed(clause.rest) else ClausesMore(element, clauses + [clause.value], clause.rest)
  }

  /** After the `for`. */
  function ClauseOf(ts: Glyphs): (r: Parse<Clause>)
    ensures |r.rest| <= |ts| && Beyond(r.rest) == Beyond(ts)
    ensures r.Parsed? ==> |r.rest| < |ts|
    decreases |ts|, 20
  {
    var target := Target(ts);
    if target.Failed? then Failed(target.rest)
    else if Kind(target.rest) != Op(In) then Failed(target.rest)
    else
      var iterable := OrTest(Next(target.rest));
      if iterable.Failed? then Failed(iterable.rest)
      else
        var tests := ConditionsMore([], iterable.rest);
        if tests.Failed? then Failed(tests.rest)
        else Parsed(Clause(target.value, iterable.value, tests.value), tests.rest)
  }

  function ConditionsMore(conditions: seq<Expr>, ts: Glyphs): (r: Parse<seq<Expr>>)
    ensures |r.rest| <= |ts| && Beyond(r.rest) == Beyond(ts)
    ensures r.Parsed? ==> |r.rest| <= |ts|
    decreases |ts|, 20
  {
    if Kind(ts) != Keyword(If) then Parsed(conditions, ts)
    else
      var next := OrTest(Next(ts));
      if next.Failed? then Failed(next.rest) else ConditionsMore(conditions + [next.value], next.rest)
  }

  function Target(ts: Glyphs): (r: Parse<Expr>)
    ensures |r.rest| <= |ts| && Beyond(r.rest) == Beyond(ts)
    ensures r.Parsed? ==> |r.rest| < |ts|
    decreases |ts|, 13
  {
    var first := Postfix(ts);
    if first.Failed? then first
    else if !IsAssignable(first.value) then Failed(first.rest)
    else if Kind(first.rest) != Comma then first
    else TargetMore([first.value], first.rest)
  }

  function TargetMore(elements: seq<Expr>, ts: Glyphs): (r: Parse<Expr>)
    ensures |r.rest| <= |ts| && Beyond(r.rest) == Beyond(ts)
    ensures r.Parsed? ==> |r.rest| <= |ts|
    decreases |ts|, 13
  {
    if Kind(ts) != Comma then Parsed(TupleExpr(elements), ts)
    else if Kind(Next(ts)) == Op(In) || EndsASequence(Kind(Next(ts))) then Parsed(TupleExpr(elements), Next(ts))
    else
      var next := Postfix(Next(ts));
      if next.Failed? then next
      else if !IsAssignable(next.value) then Failed(next.rest)
      else TargetMore(elements + [next.value], next.rest)
  }

  function BraceAtom(ts: Glyphs): (r: Parse<Expr>)
    ensures |r.rest| <= |ts| && Beyond(r.rest) == Beyond(ts)
    ensures r.Parsed? ==> |r.rest| < |ts|
    decreases |ts|, 22
  {
    if Kind(ts) == Closing(Brace) then Parsed(DictExpr([]), Next(ts))
    else if EndsASequence(Kind(ts)) then Failed(ts)
    else
      var entry := Entry(ts);
      if entry.Failed? then Failed(entry.rest)
      else if Kind(entry.rest) == Keyword(For) then Failed(entry.rest)
      else DictOf(entry.value, entry.rest)
  }

  /** A dict display, after its first entry. */
  function DictOf(first: DictEntry, ts: Glyphs): (r: Parse<Expr>)
    ensures |r.rest| <= |ts| && Beyond(r.rest) == Beyond(ts)
    ensures r.Parsed? ==> |r.rest| < |ts|
    decreases |ts|, 23
  {
    var entries := EntriesMore([first], ts);
    if entries.Failed? then Failed(entries.rest)
    else if Kind(entries.rest) != Closing(Brace) then Failed(entries.rest)
    else Parsed(DictExpr(entries.value), Next(entries.rest))
  }

  /** `key: value`. */
  function Entry(ts: Glyphs): (r: Parse<DictEntry>)
    ensures |r.rest| <= |ts| && Beyond(r.rest) == Beyond(ts)
    ensures r.Parsed? ==> |r.rest| < |ts|
    decreases |ts|, 21
  {
    var key := Expression(ts);
    if key.Failed? then Failed(key.rest)
    else if Kind(key.rest) != Colon then Failed(key.rest)
    else
      var value := Expression(Next(key.rest));
      if value.Failed? then Failed(value.rest) else Parsed(DictEntry(key.value, value.value), value.rest)
  }

  function EntriesMore(entries: seq<DictEntry>, ts: Glyphs): (r: Parse<seq<DictEntry>>)
    ensures |r.rest| <= |ts| && Beyond(r.rest) == Beyond(ts)
    ensures r.Parsed? ==> |r.rest| <= |ts|
    decreases |ts|, 22
  {
    if Kind(ts) != Comma then Parsed(entries, ts)
    else if EndsASequence(Kind(Next(ts))) then Parsed(entries, Next(ts))
    else
      var entry := Entry(Next(ts));
      if entry.Failed? then Failed(entry.rest) else EntriesMore(entries + [entry.value], entry.rest)
  }
}
