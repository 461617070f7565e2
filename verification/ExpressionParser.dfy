/** The expression parser itself: rules that advance a shared cursor and report into a
    sink, each proved to read what its grammar rule reads. A rule that fails reports
    exactly once. src/domain/parser/expression_parser.cpp. */
module ExpressionParsing {
  import opened Options
  import opened Tokens
  import opened Grammar
  import opened TokenStreams

  /** The atoms reported by name. */
  predicate IsRejected(kind: TokenType) {
    || kind in {FStringStart, FStringMiddle, FStringEnd}
    || kind in {Keyword(Lambda), Keyword(Await), Keyword(Yield)}
    || kind in {Op(Star), Op(DoubleStar), Op(Walrus)}
  }

  class ExpressionParser {
    const tokens: TokenStream
    /** How many diagnostics the sink holds. */
    var errors: nat

    constructor (tokens: TokenStream)
      ensures this.tokens == tokens && errors == 0
    {
      this.tokens := tokens;
      errors := 0;
    }

    /** The rule read what `p` says, and reported once if that is a failure. */
    ghost predicate Did<T(!new)>(p: Parse<T>, errorsBefore: nat, result: Option<T>)
      reads this, tokens
    {
      && tokens.Valid() && tokens.Glyphs() == p.rest
      && (if p.Parsed? then result == Some(p.value) && errors == errorsBefore
          else result == Option.None && errors == errorsBefore + 1)
    }

    method Report<T>() returns (result: Option<T>)
      modifies `errors
      ensures result == Option.None && errors == old(errors) + 1
    {
      errors := errors + 1;
      result := Option.None;
    }

    method ParseExpression() returns (result: Option<Expr>)
      requires tokens.Valid()
      modifies `errors, tokens`position
      ensures Did(Expression(old(tokens.Glyphs())), old(errors), result)
      decreases |tokens.Glyphs()|, 20
    {
      result := ParseOrTest();
      if result.None? {
        return;
      }
      if tokens.Check(Keyword(If)) {
        result := Report();
        return;
      }
      if tokens.Check(Op(Walrus)) {
        result := Report();
      }
    }

    method ParseExpressionList() returns (result: Option<Expr>)
      requires tokens.Valid()
      modifies `errors, tokens`position
      ensures Did(ExpressionList(old(tokens.Glyphs())), old(errors), result)
      decreases |tokens.Glyphs()|, 21
    {
      result := ParseExpression();
      if result.None? {
        return;
      }
      if !tokens.Check(Comma) {
        return;
      }
      var elements := [result.value];
      ghost var start := old(tokens.Glyphs());
      while tokens.Check(Comma)
        invariant tokens.Valid() && errors == old(errors) && |tokens.Glyphs()| < |start|
        invariant ExpressionList(start) == ListMore(elements, tokens.Glyphs())
        decreases |tokens.Glyphs()|
      {
        var _ := tokens.Advance();
        if EndsASequence(tokens.Current().kind) {
          return Some(TupleExpr(elements));
        }
        var next := ParseExpression();
        if next.None? {
          return Option.None;
        }
        elements := elements + [next.value];
      }
      result := Some(TupleExpr(elements));
    }

    method ParseOrTest() returns (result: Option<Expr>)
      requires tokens.Valid()
      modifies `errors, tokens`position
      ensures Did(OrTest(old(tokens.Glyphs())), old(errors), result)
      decreases |tokens.Glyphs()|, 19
    {
      result := ParseAndTest();
      if result.None? {
        return;
      }
      if !tokens.Check(Op(Or)) {
        return;
      }
      var values := [result.value];
      ghost var start := old(tokens.Glyphs());
      while tokens.Check(Op(Or))
        invariant tokens.Valid() && errors == old(errors) && |tokens.Glyphs()| < |start|
        invariant OrTest(start) == OrMore(values, tokens.Glyphs())
        decreases |tokens.Glyphs()|
      {
        var _ := tokens.Advance();
        var next := ParseAndTest();
        if next.None? {
          return Option.None;
        }
        values := values + [next.value];
      }
      result := Some(BoolOp(Or, values));
    }

    method ParseAndTest() returns (result: Option<Expr>)
      requires tokens.Valid()
      modifies `errors, tokens`position
      ensures Did(AndTest(old(tokens.Glyphs())), old(errors), result)
      decreases |tokens.Glyphs()|, 18
    {
      result := ParseNotTest();
      if result.None? {
        return;
      }
      if !tokens.Check(Op(And)) {
        return;
      }
      var values := [result.value];
      ghost var start := old(tokens.Glyphs());
      while tokens.Check(Op(And))
        invariant tokens.Valid() && errors == old(errors) && |tokens.Glyphs()| < |start|
        invariant AndTest(start) == AndMore(values, tokens.Glyphs())
        decreases |tokens.Glyphs()|
      {
        var _ := tokens.Advance();
        var next := ParseNotTest();
        if next.None? {
          return Option.None;
        }
        values := values + [next.value];
      }
      result := Some(BoolOp(And, values));
    }

    method ParseNotTest() returns (result: Option<Expr>)
      requires tokens.Valid()
      modifies `errors, tokens`position
      ensures Did(NotTest(old(tokens.Glyphs())), old(errors), result)
      decreases |tokens.Glyphs()|, 17
    {
      if tokens.Check(Op(Not)) {
        var _ := tokens.Advance();
        var operand := ParseNotTest();
        if operand.None? {
          return Option.None;
        }
        return Some(UnaryOp(Not, operand.value));
      }
      result := ParseComparison();
    }

    method ParseComparison() returns (result: Option<Expr>)
      requires tokens.Valid()
      modifies `errors, tokens`position
      ensures Did(Comparison(old(tokens.Glyphs())), old(errors), result)
      decreases |tokens.Glyphs()|, 16
    {
      var left := ParseBinary(1);
      if left.None? {
        return Option.None;
      }
      var ops: seq<Symbol>, operands: seq<Expr> := [], [];
      ghost var start := old(tokens.Glyphs());
      while true
        invariant tokens.Valid() && errors == old(errors) && |tokens.Glyphs()| < |start|
        invariant Comparison(start) == CompareMore(left.value, ops, operands, tokens.Glyphs())
        decreases |tokens.Glyphs()|
      {
        var op := ParseComparisonOp();
        if op.None? {
          return Option.None;
        }
        if op.value.None? {
          break;
        }
        var right := ParseBinary(1);
        if right.None? {
          return Option.None;
        }
        ops, operands := ops + [op.value.value], operands + [right.value];
      }
      if ops == [] {
        return left;
      }
      result := Some(Compare(left.value, ops, operands));
    }

    /** The operator at the cursor, if there is one; `not` and `is` may take a second word. */
    method ParseComparisonOp() returns (op: Option<Option<Symbol>>)
      requires tokens.Valid()
      modifies `errors, tokens`position
      ensures Did(ComparisonOp(old(tokens.Glyphs())), old(errors), op)
    {
      var next := tokens.Current().kind;
      if next == Op(Not) {
        var second := tokens.Peek(1);
        if second.kind != Op(In) {
          op := Report();
          return;
        }
        var _ := tokens.Advance();
        var _ := tokens.Advance();
        return Some(Some(NotIn));
      }
      if next == Op(Is) {
        var _ := tokens.Advance();
        var negated := tokens.Match(Op(Not));
        return Some(Some(if negated then IsNot else Is));
      }
      if IsSimpleComparison(next) {
        var _ := tokens.Advance();
        return Some(Some(next.symbol));
      }
      op := Some(Option.None);
    }

    method ParseBinary(minLevel: nat) returns (result: Option<Expr>)
      requires tokens.Valid()
      modifies `errors, tokens`position
      ensures Did(Binary(minLevel, old(tokens.Glyphs())), old(errors), result)
      decreases |tokens.Glyphs()|, 15
    {
      var left := ParseUnary();
      if left.None? {
        return Option.None;
      }
      ghost var start := old(tokens.Glyphs());
      while true
        invariant tokens.Valid() && errors == old(errors) && |tokens.Glyphs()| < |start| && left.Some?
        invariant Binary(minLevel, start) == BinaryMore(left.value, minLevel, tokens.Glyphs())
        decreases |tokens.Glyphs()|
      {
        var level := BinaryLevel(tokens.Current().kind);
        if level.None? || level.value < minLevel {
          return left;
        }
        left := ParseOperand(left.value, level.value);
        if left.None? {
          return Option.None;
        }
      }
    }

    /** An operator of the given level, its right operand one level tighter, and the node. */
    method ParseOperand(left: Expr, level: nat) returns (result: Option<Expr>)
      requires tokens.Valid() && BinaryLevel(tokens.Current().kind) == Some(level)
      modifies `errors, tokens`position
      ensures Did(OperandOf(left, level, old(tokens.Glyphs())), old(errors), result)
      decreases |tokens.Glyphs()|, 0
    {
      var op := tokens.Advance();
      var right := ParseBinary(level + 1);
      if right.None? {
        return Option.None;
      }
      result := Some(BinOp(op.kind.symbol, left, right.value));
    }

    method ParseUnary() returns (result: Option<Expr>)
      requires tokens.Valid()
      modifies `errors, tokens`position
      ensures Did(Unary(old(tokens.Glyphs())), old(errors), result)
      decreases |tokens.Glyphs()|, 14
    {
      var kind := tokens.Current().kind;
      if IsSign(kind) {
        var _ := tokens.Advance();
        var operand := ParseUnary();
        if operand.None? {
          return Option.None;
        }
        return Some(UnaryOp(kind.symbol, operand.value));
      }
      result := ParsePower();
    }

    method ParsePower() returns (result: Option<Expr>)
      requires tokens.Valid()
      modifies `errors, tokens`position
      ensures Did(Power(old(tokens.Glyphs())), old(errors), result)
      decreases |tokens.Glyphs()|, 13
    {
      hide GlyphsOf, Beyond, Unary, Postfix;
      var base := ParsePostfix();
      if base.None? {
        return Option.None;
      }
      var raised := tokens.Match(Op(DoubleStar));
      if !raised {
        return base;
      }
      var exponent := ParseUnary();
      if exponent.None? {
        return Option.None;
      }
      result := Some(BinOp(DoubleStar, base.value, exponent.value));
    }

    method ParsePostfix() returns (result: Option<Expr>)
      requires tokens.Valid()
      modifies `errors, tokens`position
      ensures Did(Postfix(old(tokens.Glyphs())), old(errors), result)
      decreases |tokens.Glyphs()|, 12
    {
      result := ParseAtom();
      if result.None? {
        return;
      }
      ghost var start := old(tokens.Glyphs());
      while true
        invariant tokens.Valid() && errors == old(errors) && |tokens.Glyphs()| < |start| && result.Some?
        invariant Postfix(start) == PostfixMore(result.value, tokens.Glyphs())
        decreases |tokens.Glyphs()|
      {
        if tokens.Check(Dot) {
          result := ParseAttribute(result.value);
        } else if tokens.Check(Open(Square)) {
          result := ParseSubscript(result.value);
        } else if tokens.Check(Open(Paren)) {
          result := ParseCall(result.value);
        } else {
          return;
        }
        if result.None? {
          return;
        }
      }
    }

    method ParseAttribute(value: Expr) returns (result: Option<Expr>)
      requires tokens.Valid() && tokens.Check(Dot)
      modifies `errors, tokens`position
      ensures Did(AttributeOf(value, Next(old(tokens.Glyphs()))), old(errors), result)
    {
      var _ := tokens.Advance();
      if !IsIdentifier(tokens.Current().kind) {
        result := Report();
        return;
      }
      var name := tokens.Advance();
      result := Some(Attribute(value, name.lexeme));
    }

    method ParseSubscript(value: Expr) returns (result: Option<Expr>)
      requires tokens.Valid() && tokens.Check(Open(Square))
      modifies `errors, tokens`position
      ensures Did(SubscriptOf(value, Next(old(tokens.Glyphs()))), old(errors), result)
      decreases |tokens.Glyphs()|, 0
    {
      hide GlyphsOf, Beyond, ExpressionList;
      var _ := tokens.Advance();
      if tokens.Check(Colon) {
        result := Report();
        return;
      }
      if EndsASequence(tokens.Current().kind) && !tokens.Check(Closing(Square)) {
        result := Report();
        return;
      }
      var index := ParseExpressionList();
      if index.None? {
        return Option.None;
      }
      if tokens.Check(Colon) {
        result := Report();
        return;
      }
      if !tokens.Check(Closing(Square)) {
        result := Report();
        return;
      }
      var _ := tokens.Advance();
      result := Some(Subscript(value, index.value));
    }

    method ParseCall(callee: Expr) returns (result: Option<Expr>)
      requires tokens.Valid() && tokens.Check(Open(Paren))
      modifies `errors, tokens`position
      ensures Did(CallOf(callee, Next(old(tokens.Glyphs()))), old(errors), result)
      decreases |tokens.Glyphs()|, 0
    {
      hide GlyphsOf, Beyond, ArgsMore;
      var _ := tokens.Advance();
      var args: Option<seq<Expr>> := Some([]);
      if !tokens.Check(Closing(Paren)) {
        args := ParseArgs();
        if args.None? {
          return Option.None;
        }
      }
      if !tokens.Check(Closing(Paren)) {
        result := Report();
        return;
      }
      var _ := tokens.Advance();
      result := Some(Call(callee, args.value));
    }

    method ParseArgs() returns (result: Option<seq<Expr>>)
      requires tokens.Valid()
      modifies `errors, tokens`position
      ensures Did(ArgsMore([], old(tokens.Glyphs())), old(errors), result)
      decreases |tokens.Glyphs()|, 21
    {
      var args: seq<Expr> := [];
      ghost var start := tokens.Glyphs();
      while true
        invariant tokens.Valid() && errors == old(errors) && |tokens.Glyphs()| <= |start|
        invariant ArgsMore([], start) == ArgsMore(args, tokens.Glyphs())
        decreases |tokens.Glyphs()|
      {
        if EndsASequence(tokens.Current().kind) {
          result := Report();
          return;
        }
        var arg := ParseExpression();
        if arg.None? {
          return Option.None;
        }
        if tokens.Check(Op(Assign)) || tokens.Check(Keyword(For)) {
          result := Report();
          return;
        }
        args := args + [arg.value];
        var more := tokens.Match(Comma);
        if !more || tokens.Check(Closing(Paren)) {
          return Some(args);
        }
      }
    }

    method ParseAtom() returns (result: Option<Expr>)
      requires tokens.Valid()
      modifies `errors, tokens`position
      ensures Did(Atom(old(tokens.Glyphs())), old(errors), result)
      decreases |tokens.Glyphs()|, 11
    {
      var token := tokens.Current();
      if IsRejected(token.kind) {
        result := Report();
        return;
      }
      if tokens.Check(Open(Paren)) {
        result := ParseParenAtom();
        return;
      }
      if tokens.Check(Open(Square)) {
        result := ParseBracketAtom();
        return;
      }
      if tokens.Check(Open(Brace)) {
        result := ParseBraceAtom();
        return;
      }
      if IsIdentifier(token.kind) {
        var name := tokens.Advance();
        return Some(Name(name.lexeme));
      }
      if IsLiteral(token.kind) {
        var literal := tokens.Advance();
        if IsString(literal.kind) && IsString(tokens.Current().kind) {
          result := Report();
          return;
        }
        return Some(Constant(literal.kind, literal.lexeme));
      }
      result := Report();
    }

    method ParseParenAtom() returns (result: Option<Expr>)
      requires tokens.Valid() && tokens.Check(Open(Paren))
      modifies `errors, tokens`position
      ensures Did(ParenAtom(Next(old(tokens.Glyphs()))), old(errors), result)
      decreases |tokens.Glyphs()|, 0
    {
      hide GlyphsOf, Beyond, ParenMore;
      var _ := tokens.Advance();
      if tokens.Check(Closing(Paren)) {
        var _ := tokens.Advance();
        return Some(TupleExpr([]));
      }
      var inside := ParseParenElements();
      if inside.None? {
        return Option.None;
      }
      if !tokens.Check(Closing(Paren)) {
        result := Report();
        return;
      }
      var _ := tokens.Advance();
      result := Some(if inside.value.1 then TupleExpr(inside.value.0) else inside.value.0[0]);
    }

    /** The elements, and whether a comma was seen. */
    method ParseParenElements() returns (result: Option<(seq<Expr>, bool)>)
      requires tokens.Valid()
      modifies `errors, tokens`position
      ensures Did(ParenMore([], old(tokens.Glyphs())), old(errors), result)
      decreases |tokens.Glyphs()|, 21
    {
      var elements: seq<Expr>, sawComma := [], false;
      ghost var start := tokens.Glyphs();
      while true
        invariant tokens.Valid() && errors == old(errors) && |tokens.Glyphs()| <= |start|
        invariant ParenMore([], start) == ParenMore(elements, tokens.Glyphs())
        invariant sawComma == (elements != [])
        decreases |tokens.Glyphs()|
      {
        if EndsASequence(tokens.Current().kind) {
          result := Report();
          return;
        }
        var element := ParseExpression();
        if element.None? {
          return Option.None;
        }
        elements := elements + [element.value];
        if |elements| == 1 && tokens.Check(Keyword(For)) {
          result := Report();
          return;
        }
        var more := tokens.Match(Comma);
        if !more {
          return Some((elements, sawComma));
        }
        sawComma := true;
        if tokens.Check(Closing(Paren)) {
          return Some((elements, sawComma));
        }
      }
    }

    method ParseBracketAtom() returns (result: Option<Expr>)
      requires tokens.Valid() && tokens.Check(Open(Square))
      modifies `errors, tokens`position
      ensures Did(BracketAtom(Next(old(tokens.Glyphs()))), old(errors), result)
      decreases |tokens.Glyphs()|, 0
    {
      hide GlyphsOf, Expression, Beyond, ListOf, ClausesMore;
      var _ := tokens.Advance();
      if tokens.Check(Closing(Square)) {
        var _ := tokens.Advance();
        return Some(ListExpr([]));
      }
      if EndsASequence(tokens.Current().kind) {
        result := Report();
        return;
      }
      var first := ParseExpression();
      if first.None? {
        return Option.None;
      }
      if tokens.Check(Keyword(For)) {
        result := ParseListComp(first.value);
        return;
      }
      result := ParseListDisplay(first.value);
    }

    /** A list display, after its first element. */
    method ParseListDisplay(first: Expr) returns (result: Option<Expr>)
      requires tokens.Valid() && !tokens.Check(Keyword(For))
      modifies `errors, tokens`position
      ensures Did(ListOf(first, old(tokens.Glyphs())), old(errors), result)
      decreases |tokens.Glyphs()|, 22
    {
      var elements := ParseElements(first);
      if elements.None? {
        return Option.None;
      }
      if tokens.Check(Keyword(For)) {
        result := Report();
        return;
      }
      if !tokens.Check(Closing(Square)) {
        result := Report();
        return;
      }
      var _ := tokens.Advance();
      result := Some(ListExpr(elements.value));
    }

    /** The elements after the first. */
    method ParseElements(first: Expr) returns (result: Option<seq<Expr>>)
      requires tokens.Valid()
      modifies `errors, tokens`position
      ensures Did(ElementsMore([first], old(tokens.Glyphs())), old(errors), result)
      decreases |tokens.Glyphs()|, 21
    {
      var elements := [first];
      ghost var start := tokens.Glyphs();
      while tokens.Check(Comma)
        invariant tokens.Valid() && errors == old(errors) && |tokens.Glyphs()| <= |start|
        invariant ElementsMore([first], start) == ElementsMore(elements, tokens.Glyphs())
        decreases |tokens.Glyphs()|
      {
        var _ := tokens.Advance();
        if EndsASequence(tokens.Current().kind) {
          break;
        }
        var next := ParseExpression();
        if next.None? {
          return Option.None;
        }
        elements := elements + [next.value];
      }
      result := Some(elements);
    }

    method ParseListComp(element: Expr) returns (result: Option<Expr>)
      requires tokens.Valid()
      modifies `errors, tokens`position
      ensures Did(ClausesMore(element, [], old(tokens.Glyphs())), old(errors), result)
      decreases |tokens.Glyphs()|, 22
    {
      var clauses: seq<Clause> := [];
      ghost var start := tokens.Glyphs();
      while tokens.Check(Keyword(For))
        invariant tokens.Valid() && errors == old(errors) && |tokens.Glyphs()| <= |start|
        invariant ClausesMore(element, [], start) == ClausesMore(element, clauses, tokens.Glyphs())
        decreases |tokens.Glyphs()|
      {
        var _ := tokens.Advance();
        var clause := ParseClause();
        if clause.None? {
          return Option.None;
        }
        clauses := clauses + [clause.value];
      }
      if !tokens.Check(Closing(Square)) {
        result := Report();
        return;
      }
      var _ := tokens.Advance();
      result := Some(ListComp(element, clauses));
    }

    /** One clause, after its `for`. */
    method ParseClause() returns (clause: Option<Clause>)
      requires tokens.Valid()
      modifies `errors, tokens`position
      ensures Did(ClauseOf(old(tokens.Glyphs())), old(errors), clause)
      decreases |tokens.Glyphs()|, 21
    {
      hide GlyphsOf, OrTest, Target, Beyond;
      var target := ParseTarget();
      if target.None? {
        return Option.None;
      }
      var matched := tokens.Match(Op(In));
      if !matched {
        clause := Report();
        return;
      }
      var iterable := ParseOrTest();
      if iterable.None? {
        return Option.None;
      }
      var tests := ParseConditions();
      if tests.None? {
        return Option.None;
      }
      clause := Some(Clause(target.value, iterable.value, tests.value));
    }

    /** The `if` clauses of a comprehension. */
    method ParseConditions() returns (conditions: Option<seq<Expr>>)
      requires tokens.Valid()
      modifies `errors, tokens`position
      ensures Did(ConditionsMore([], old(tokens.Glyphs())), old(errors), conditions)
      decreases |tokens.Glyphs()|, 20
    {
      var tests: seq<Expr> := [];
      ghost var start := tokens.Glyphs();
      while tokens.Check(Keyword(If))
        invariant tokens.Valid() && errors == old(errors) && |tokens.Glyphs()| <= |start|
        invariant ConditionsMore([], start) == ConditionsMore(tests, tokens.Glyphs())
        decreases |tokens.Glyphs()|
      {
        var _ := tokens.Advance();
        var condition := ParseOrTest();
        if condition.None? {
          return Option.None;
        }
        tests := tests + [condition.value];
      }
      conditions := Some(tests);
    }

    method ParseTarget() returns (result: Option<Expr>)
      requires tokens.Valid()
      modifies `errors, tokens`position
      ensures Did(Target(old(tokens.Glyphs())), old(errors), result)
      decreases |tokens.Glyphs()|, 13
    {
      hide GlyphsOf, Beyond, Postfix;
      result := ParsePostfix();
      if result.None? {
        return;
      }
      if !IsAssignable(result.value) {
        result := Report();
        return;
      }
      if !tokens.Check(Comma) {
        return;
      }
      var elements := [result.value];
      ghost var start := old(tokens.Glyphs());
      while tokens.Check(Comma)
        invariant tokens.Valid() && errors == old(errors) && |tokens.Glyphs()| < |start|
        invariant Target(start) == TargetMore(elements, tokens.Glyphs())
        decreases |tokens.Glyphs()|
      {
        var _ := tokens.Advance();
        if tokens.Check(Op(In)) || EndsASequence(tokens.Current().kind) {
          return Some(TupleExpr(elements));
        }
        var next := ParsePostfix();
        if next.None? {
          return Option.None;
        }
        if !IsAssignable(next.value) {
          result := Report();
          return;
        }
        elements := elements + [next.value];
      }
      result := Some(TupleExpr(elements));
    }

    method ParseBraceAtom() returns (result: Option<Expr>)
      requires tokens.Valid() && tokens.Check(Open(Brace))
      modifies `errors, tokens`position
      ensures Did(BraceAtom(Next(old(tokens.Glyphs()))), old(errors), result)
      decreases |tokens.Glyphs()|, 0
    {
      hide GlyphsOf, Beyond, Entry, DictOf;
      var _ := tokens.Advance();
      if tokens.Check(Closing(Brace)) {
        var _ := tokens.Advance();
        return Some(DictExpr([]));
      }
      if EndsASequence(tokens.Current().kind) {
        result := Report();
        return;
      }
      var entry := ParseEntry();
      if entry.None? {
        return Option.None;
      }
      if tokens.Check(Keyword(For)) {
        result := Report();
        return;
      }
      result := ParseDictDisplay(entry.value);
    }

    /** A dict display, after its first entry. */
    method ParseDictDisplay(first: DictEntry) returns (result: Option<Expr>)
      requires tokens.Valid()
      modifies `errors, tokens`position
      ensures Did(DictOf(first, old(tokens.Glyphs())), old(errors), result)
      decreases |tokens.Glyphs()|, 23
    {
      var entries := ParseEntries(first);
      if entries.None? {
        return Option.None;
      }
      if !tokens.Check(Closing(Brace)) {
        result := Report();
        return;
      }
      var _ := tokens.Advance();
      result := Some(DictExpr(entries.value));
    }

    /** The entries after the first. */
    method ParseEntries(first: DictEntry) returns (result: Option<seq<DictEntry>>)
      requires tokens.Valid()
      modifies `errors, tokens`position
      ensures Did(EntriesMore([first], old(tokens.Glyphs())), old(errors), result)
      decreases |tokens.Glyphs()|, 22
    {
      var entries := [first];
      ghost var start := tokens.Glyphs();
      while tokens.Check(Comma)
        invariant tokens.Valid() && errors == old(errors) && |tokens.Glyphs()| <= |start|
        invariant EntriesMore([first], start) == EntriesMore(entries, tokens.Glyphs())
        decreases |tokens.Glyphs()|
      {
        var _ := tokens.Advance();
        if EndsASequence(tokens.Current().kind) {
          break;
        }
        var next := ParseEntry();
        if next.None? {
          return Option.None;
        }
        entries := entries + [next.value];
      }
      result := Some(entries);
    }

    /** `key: value`, or one report about what is missing. */
    method ParseEntry() returns (entry: Option<DictEntry>)
      requires tokens.Valid()
      modifies `errors, tokens`position
      ensures Did(Entry(old(tokens.Glyphs())), old(errors), entry)
      decreases |tokens.Glyphs()|, 21
    {
      var key := ParseExpression();
      if key.None? {
        return Option.None;
      }
      var matched := tokens.Match(Colon);
      if !matched {
        entry := Report();
        return;
      }
      var value := ParseExpression();
      if value.None? {
        return Option.None;
      }
      entry := Some(DictEntry(key.value, value.value));
    }
  }
}
