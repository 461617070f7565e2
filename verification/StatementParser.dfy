/** src/domain/parser/statement_parser.cpp: statements, suites and panic-mode recovery. On
    every laid-out stream, with errors anywhere, each rule reads a stretch balanced in
    INDENT and DEDENT, a suite ends at its own DEDENT, a logical line never costs another
    line anything, and the parser ends at the end of the file. A rule that gives nothing
    has reported. */
module StatementParsing {
  import opened Options
  import opened Tokens
  import opened Grammar
  import opened TokenStreams
  import opened ExpressionParsing
  import opened BlockStructure
  import opened IndentationPass
  import opened StatementGrammar

  /** The token before `p`, comments apart, ended a logical line. */
  function AtBoundary(ts: seq<Token>, p: nat): bool
    requires p <= |ts|
  {
    if p == 0 then true
    else if ts[p - 1].kind == Comment then AtBoundary(ts, p - 1)
    else ts[p - 1].kind == Newline || ts[p - 1].kind == Indent || ts[p - 1].kind == Dedent
  }

  // ---------- Inside a skipped block ----------

  /** From an INDENT on, `depth` blocks are still open. */
  predicate BlockPrefix(ts: seq<Token>, from: nat, to: nat, depth: int) {
    from <= to <= |ts| && NeverBelow(ts[from..to]) && Depth(ts[from..to]) == depth
  }

  function AfterToken(depth: int, kind: TokenType): int {
    if kind == Indent then depth + 1 else if kind == Dedent then depth - 1 else depth
  }

  lemma OpenedBlock(ts: seq<Token>, from: nat, to: nat)
    requires from < to <= |ts| && ts[from].kind == Indent && NoBlocks(ts, from + 1, to)
    ensures BlockPrefix(ts, from, to, 1)
  {
    NoBlocksMoved(ts, from + 1, to);
    var x, y := ts[from..from + 1], ts[from + 1..to];
    assert x == [ts[from]] && Front(x) == [] && Last(x) == ts[from];
    assert ts[from..to] == x + y;
    NeverBelowAdds(x, y);
    DepthAdds(x, y);
  }

  lemma ExtendedBlock(ts: seq<Token>, from: nat, at: nat, to: nat, depth: int)
    requires at < to <= |ts| && BlockPrefix(ts, from, at, depth) && NoBlocks(ts, at + 1, to) && depth >= 1
    ensures BlockPrefix(ts, from, to, AfterToken(depth, ts[at].kind))
  {
    var x, y := ts[from..at + 1], ts[at + 1..to];
    assert Front(x) == ts[from..at] && Last(x) == ts[at];
    NoBlocksMoved(ts, at + 1, to);
    NeverBelowAdds(x, y);
    DepthAdds(x, y);
    assert ts[from..to] == x + y;
  }

  /** In a balanced stream the file cannot end inside a block. */
  lemma BlockCloses(ts: seq<Token>, from: nat, to: nat, depth: int)
    requires IsLaidOut(ts) && BlockPrefix(ts, from, to, depth) && depth >= 0
    requires depth > 0 ==> to == |ts| - 1
    ensures depth == 0 && Moved(ts, from, to)
  {
    if depth > 0 {
      EndIsOuter(ts);
      DepthIsNatural(ts, from);
      assert ts[..to] == ts[..from] + ts[from..to];
      DepthAdds(ts[..from], ts[from..to]);
    }
  }

  class StatementParser {
    const tokens: TokenStream
    const expressions: ExpressionParser

    constructor (tokens: TokenStream)
      requires tokens.Valid() && IsLaidOut(tokens.tokens)
      ensures Valid() && this.tokens == tokens && fresh(expressions) && expressions.errors == 0
    {
      this.tokens := tokens;
      expressions := new ExpressionParser(tokens);
    }

    /** The cursor and the sink are shared with the expression parser. */
    ghost predicate Valid()
      reads tokens
    {
      tokens.Valid() && expressions.tokens == tokens && IsLaidOut(tokens.tokens)
    }

    ghost function Remaining(): int
      reads tokens
    {
      |tokens.tokens| - tokens.position
    }

    /** Still before the end of the line `start` is on, and no further back. */
    ghost predicate OnLineOf(start: Glyphs)
      requires tokens.Valid()
      reads tokens
    {
      Beyond(tokens.Glyphs()) == Beyond(start) && |tokens.Glyphs()| <= |start|
    }

    /** Nothing was reported exactly when the grammar reads the tokens without a fault, and
        then the result and what is left are the grammar's. */
    ghost predicate Agrees<T(!new)>(p: Clean<T>, errorsBefore: nat, result: Option<T>)
      reads tokens, expressions
    {
      && tokens.Valid()
      && (expressions.errors == errorsBefore <==> p.Read?)
      && (p.Read? ==> result == Some(p.value) && tokens.Glyphs() == p.rest)
    }

    method Report()
      modifies expressions`errors
      ensures expressions.errors == old(expressions.errors) + 1
    {
      expressions.errors := expressions.errors + 1;
    }

    // ---------- Recovery ----------

    /** Through the next NEWLINE, or up to whatever else ends the line. */
    method Synchronize()
      requires Valid()
      modifies tokens`position
      ensures Valid() && tokens.Glyphs() == AfterLine(old(tokens.Glyphs()))
      ensures Moved(tokens.tokens, old(tokens.position), tokens.position)
      ensures !IsStructural(old(Kind(tokens.Glyphs()))) ==> tokens.position > old(tokens.position)
    {
      ghost var start := tokens.Glyphs();
      while !tokens.Check(Eof)
        invariant Valid() && tokens.position >= old(tokens.position)
        invariant AfterLine(tokens.Glyphs()) == AfterLine(start)
        invariant tokens.position > old(tokens.position) || tokens.Glyphs() == start
        decreases Remaining()
      {
        if tokens.Check(Newline) {
          var _ := tokens.Advance();
          break;
        }
        if tokens.Check(Indent) || tokens.Check(Dedent) {
          break;
        }
        var _ := tokens.Advance();
      }
      TakesOneLine(tokens.tokens, old(tokens.position), tokens.position);
      NoBlocksMoved(tokens.tokens, old(tokens.position), tokens.position);
    }

    /** A whole block, nested ones included, from its INDENT through its own DEDENT. */
    method SkipUnexpectedBlock()
      requires Valid() && tokens.Check(Indent)
      modifies tokens`position
      ensures Valid() && Moved(tokens.tokens, old(tokens.position), tokens.position)
      ensures tokens.position > old(tokens.position)
    {
      ghost var ts, start := tokens.tokens, tokens.position;
      MovedNowhere(ts, start);
      var matched := tokens.Match(Indent);
      if !matched {
        return;
      }
      OpenedBlock(ts, start, tokens.position);
      var depth := 1;
      while depth > 0 && !tokens.Check(Eof)
        invariant Valid() && tokens.position > start && depth >= 0
        invariant BlockPrefix(ts, start, tokens.position, depth)
        decreases Remaining()
      {
        ghost var at, before := tokens.position, depth;
        if tokens.Check(Indent) {
          depth := depth + 1;
        } else if tokens.Check(Dedent) {
          depth := depth - 1;
        }
        var _ := tokens.Advance();
        ExtendedBlock(ts, start, at, tokens.position, before);
      }
      BlockCloses(ts, start, tokens.position, depth);
    }

    method AtStatementBoundary() returns (boundary: bool)
      requires Valid()
      ensures boundary == AtBoundary(tokens.tokens, tokens.position)
    {
      var index: nat := tokens.position;
      if index == 0 {
        return true;
      }
      index := index - 1;
      while index > 0 && tokens.tokens[index].kind == Comment
        invariant index < |tokens.tokens|
        invariant AtBoundary(tokens.tokens, tokens.position) == AtBoundary(tokens.tokens, index + 1)
      {
        index := index - 1;
      }
      var previous := tokens.tokens[index].kind;
      if previous == Comment {
        return true;
      }
      boundary := previous == Newline || previous == Indent || previous == Dedent;
    }

    // ---------- Expressions ----------

    method TakeExpression() returns (value: Option<Expr>)
      requires Valid()
      modifies expressions`errors, tokens`position
      ensures Valid() && OnLineOf(old(tokens.Glyphs())) && tokens.position >= old(tokens.position)
      ensures value.Some?
           ==> expressions.errors == old(expressions.errors) && |tokens.Glyphs()| < |old(tokens.Glyphs())|
      ensures value.None? ==> expressions.errors == old(expressions.errors) + 1
      ensures Agrees(Value(Expression(old(tokens.Glyphs()))), old(expressions.errors), value)
    {
      value := expressions.ParseExpression();
      LineMoved(tokens.tokens, old(tokens.position), tokens.position);
    }

    method TakeExpressionList() returns (value: Option<Expr>)
      requires Valid()
      modifies expressions`errors, tokens`position
      ensures Valid() && OnLineOf(old(tokens.Glyphs())) && tokens.position >= old(tokens.position)
      ensures value.Some?
           ==> expressions.errors == old(expressions.errors) && |tokens.Glyphs()| < |old(tokens.Glyphs())|
      ensures value.None? ==> expressions.errors == old(expressions.errors) + 1
      ensures Agrees(Value(ExpressionList(old(tokens.Glyphs()))), old(expressions.errors), value)
    {
      value := expressions.ParseExpressionList();
      LineMoved(tokens.tokens, old(tokens.position), tokens.position);
    }

    method TakeTarget() returns (value: Option<Expr>)
      requires Valid()
      modifies expressions`errors, tokens`position
      ensures Valid() && OnLineOf(old(tokens.Glyphs())) && tokens.position >= old(tokens.position)
      ensures value.Some?
           ==> expressions.errors == old(expressions.errors) && |tokens.Glyphs()| < |old(tokens.Glyphs())|
      ensures value.None? ==> expressions.errors == old(expressions.errors) + 1
      ensures Agrees(Value(Target(old(tokens.Glyphs()))), old(expressions.errors), value)
    {
      value := expressions.ParseTarget();
      LineMoved(tokens.tokens, old(tokens.position), tokens.position);
    }

    /** A token of the current line. */
    method TakeToken(kind: TokenType) returns (matched: bool)
      requires Valid() && !IsStructural(kind)
      modifies tokens`position
      ensures Valid() && OnLineOf(old(tokens.Glyphs())) && matched == old(tokens.Check(kind))
      ensures if matched then |tokens.Glyphs()| < |old(tokens.Glyphs())| else tokens.Glyphs() == old(tokens.Glyphs())
      ensures matched ==> tokens.Glyphs() == Next(old(tokens.Glyphs()))
      ensures tokens.position >= old(tokens.position) && (matched ==> tokens.position > old(tokens.position))
    {
      matched := tokens.Match(kind);
    }

    /** The name a definition or a parameter needs here. */
    method TakeName() returns (name: Option<string>)
      requires Valid()
      modifies expressions`errors, tokens`position
      ensures Valid() && OnLineOf(old(tokens.Glyphs())) && tokens.position >= old(tokens.position)
      ensures name.Some? ==> |tokens.Glyphs()| < |old(tokens.Glyphs())| && expressions.errors == old(expressions.errors)
      ensures name.None? ==> expressions.errors == old(expressions.errors) + 1
      ensures Agrees(NameOf(old(tokens.Glyphs())), old(expressions.errors), name)
    {
      if !IsIdentifier(tokens.Current().kind) {
        Report();
        return Option.None;
      }
      var token := tokens.Advance();
      name := Some(token.lexeme);
    }

    // ---------- Simple statements ----------

    method ParseSimpleStatement() returns (statement: Option<Stmt>)
      requires Valid()
      modifies expressions`errors, tokens`position
      ensures Valid() && OnLineOf(old(tokens.Glyphs()))
      ensures statement.Some?
           ==> expressions.errors == old(expressions.errors) && |tokens.Glyphs()| < |old(tokens.Glyphs())|
      ensures statement.None? ==> expressions.errors == old(expressions.errors) + 1
      ensures Agrees(SimpleStmt(old(tokens.Glyphs())), old(expressions.errors), statement)
    {
      var first := tokens.Current().kind;
      if first == Keyword(Pass) {
        var _ := tokens.Advance();
        return Some(PassStmt);
      }
      if first == Keyword(Break) {
        var _ := tokens.Advance();
        return Some(BreakStmt);
      }
      if first == Keyword(Continue) {
        var _ := tokens.Advance();
        return Some(ContinueStmt);
      }
      if first == Keyword(Return) {
        statement := ParseReturn();
        return;
      }
      if IsRejectedStatement(first) {
        Report();
        return Option.None;
      }
      statement := ParseExpressionStatement();
    }

    method ParseReturn() returns (statement: Option<Stmt>)
      requires Valid() && tokens.Check(Keyword(Return))
      modifies expressions`errors, tokens`position
      ensures Valid() && OnLineOf(old(tokens.Glyphs()))
      ensures statement.Some?
           ==> expressions.errors == old(expressions.errors) && |tokens.Glyphs()| < |old(tokens.Glyphs())|
      ensures statement.None? ==> expressions.errors == old(expressions.errors) + 1
      ensures Agrees(ReturnOf(Next(old(tokens.Glyphs()))), old(expressions.errors), statement)
    {
      var _ := tokens.Advance();
      if EndsAStatement(tokens.Current().kind) {
        return Some(ReturnStmt(Option.None));
      }
      var value := TakeExpressionList();
      if value.None? {
        return Option.None;
      }
      statement := Some(ReturnStmt(value));
    }

    method ParseExpressionStatement() returns (statement: Option<Stmt>)
      requires Valid()
      modifies expressions`errors, tokens`position
      ensures Valid() && OnLineOf(old(tokens.Glyphs()))
      ensures statement.Some?
           ==> expressions.errors == old(expressions.errors) && |tokens.Glyphs()| < |old(tokens.Glyphs())|
      ensures statement.None? ==> expressions.errors == old(expressions.errors) + 1
      ensures Agrees(ExpressionStmt(old(tokens.Glyphs())), old(expressions.errors), statement)
    {
      var first := TakeExpressionList();
      if first.None? {
        return Option.None;
      }
      if tokens.Check(Colon) {
        statement := ParseAnnotatedAssignment(first.value);
        return;
      }
      if tokens.Check(Op(Assign)) {
        statement := ParseAssignment(first.value);
        return;
      }
      if tokens.Check(Op(AugmentedAssign)) {
        Report();
        return Option.None;
      }
      statement := Some(ExprStmt(first.value));
    }

    method ParseAssignment(target: Expr) returns (statement: Option<Stmt>)
      requires Valid() && tokens.Check(Op(Assign))
      modifies expressions`errors, tokens`position
      ensures Valid() && OnLineOf(old(tokens.Glyphs()))
      ensures statement.Some? ==> expressions.errors == old(expressions.errors)
      ensures statement.None? ==> expressions.errors == old(expressions.errors) + 1
      ensures Agrees(AssignmentOf(target, Next(old(tokens.Glyphs()))), old(expressions.errors), statement)
    {
      if !IsAssignable(target) {
        Report();
        return Option.None;
      }
      var _ := tokens.Advance();
      var value := TakeExpressionList();
      if value.None? {
        return Option.None;
      }
      statement := Some(AssignStmt(target, value.value));
    }

    method ParseAnnotatedAssignment(target: Expr) returns (statement: Option<Stmt>)
      requires Valid() && tokens.Check(Colon)
      modifies expressions`errors, tokens`position
      ensures Valid() && OnLineOf(old(tokens.Glyphs()))
      ensures statement.Some? ==> expressions.errors == old(expressions.errors)
      ensures statement.None? ==> expressions.errors == old(expressions.errors) + 1
      ensures Agrees(AnnotationOf(target, Next(old(tokens.Glyphs()))), old(expressions.errors), statement)
    {
      if !IsAssignable(target) || target.TupleExpr? {
        Report();
        return Option.None;
      }
      statement := ParseAnnotation(target);
    }

    /** The annotation and the value, for a target that may have them. */
    method ParseAnnotation(target: Expr) returns (statement: Option<Stmt>)
      requires Valid() && tokens.Check(Colon) && IsAssignable(target) && !target.TupleExpr?
      modifies expressions`errors, tokens`position
      ensures Valid() && OnLineOf(old(tokens.Glyphs()))
      ensures statement.Some? ==> expressions.errors == old(expressions.errors)
      ensures statement.None? ==> expressions.errors == old(expressions.errors) + 1
      ensures Agrees(AnnotationOf(target, Next(old(tokens.Glyphs()))), old(expressions.errors), statement)
    {
      hide GlyphsOf, IsLaidOut;
      var _ := tokens.Advance();
      var annotation := TakeExpression();
      if annotation.None? {
        return Option.None;
      }
      var ok, value := ParseInitial();
      if !ok {
        return Option.None;
      }
      statement := Some(AnnAssign(target, annotation.value, value));
    }

    /** The value of an annotated assignment, if it has one. */
    method ParseInitial() returns (ok: bool, value: Option<Expr>)
      requires Valid()
      modifies expressions`errors, tokens`position
      ensures Valid() && OnLineOf(old(tokens.Glyphs())) && tokens.position >= old(tokens.position)
      ensures expressions.errors == if ok then old(expressions.errors) else old(expressions.errors) + 1
      ensures Agrees(InitialOf(old(tokens.Glyphs())), old(expressions.errors), if ok then Some(value) else Option.None)
    {
      var given := TakeToken(Op(Assign));
      if !given {
        return true, Option.None;
      }
      value := TakeExpressionList();
      ok := value.Some?;
    }

    method ParseSimpleStatementLine() returns (ok: bool, line: seq<Stmt>)
      requires Valid()
      modifies expressions`errors, tokens`position
      ensures Valid()
      ensures ok ==> tokens.Glyphs() == AfterLine(old(tokens.Glyphs())) && line != []
      ensures ok ==> expressions.errors == old(expressions.errors)
      ensures !ok ==> OnLineOf(old(tokens.Glyphs())) && expressions.errors == old(expressions.errors) + 1
      ensures Agrees(LineMore([], old(tokens.Glyphs())),
          old(expressions.errors), if ok then Some(line) else Option.None)
    {
      hide GlyphsOf, IsLaidOut, SimpleStmt;
      line := [];
      ghost var from, start := tokens.position, tokens.Glyphs();
      while true
        invariant Valid() && OnLineOf(start) && expressions.errors == old(expressions.errors)
        invariant LineMore([], start) == LineMore(line, tokens.Glyphs())
        decreases |tokens.Glyphs()|
      {
        var statement := ParseSimpleStatement();
        if statement.None? {
          return false, line;
        }
        line := line + [statement.value];
        var more := tokens.Match(Semicolon);
        if !more {
          break;
        }
        if EndsAStatement(tokens.Current().kind) {
          break;
        }
      }
      ok := EndLine(line, from);
    }

    /** The end of the line of `start`: its NEWLINE, or the end of the file. */
    method EndLine(line: seq<Stmt>, ghost start: nat) returns (ok: bool)
      requires Valid() && IsPosition(tokens.tokens, start)
          && Left(tokens.tokens, tokens.position) <= Left(tokens.tokens, start)
      requires OnLineOf(GlyphsOf(tokens.tokens[start..]))
      modifies expressions`errors, tokens`position
      ensures Valid() && OnLineOrPast(start, ok)
      ensures expressions.errors == if ok then old(expressions.errors) else old(expressions.errors) + 1
      ensures Agrees(LineCloses(line, old(tokens.Glyphs())),
          old(expressions.errors), if ok then Some(line) else Option.None)
    {
      if IsStructural(tokens.Current().kind) {
        LineIsOver(tokens.tokens, start, tokens.position);
      }
      if tokens.Check(Eof) {
        return true;
      }
      ok := tokens.Match(Newline);
      if !ok {
        Report();
      }
    }

    /** Exactly past the line of `start`, or still on it. */
    ghost predicate OnLineOrPast(start: nat, past: bool)
      requires tokens.Valid() && start <= |tokens.tokens|
      reads tokens
    {
      var line := GlyphsOf(tokens.tokens[start..]);
      if past then tokens.Glyphs() == AfterLine(line) else OnLineOf(line)
    }

    /** One logical line of simple statements, or nothing of it. Either way the cursor is
        exactly past that line: a bad line never costs the next one anything. */
    method TakeSimpleLine() returns (line: seq<Stmt>)
      requires Valid()
      modifies expressions`errors, tokens`position
      ensures Valid() && tokens.Glyphs() == AfterLine(old(tokens.Glyphs()))
      ensures Moved(tokens.tokens, old(tokens.position), tokens.position)
      ensures expressions.errors >= old(expressions.errors)
      ensures line == [] ==> expressions.errors > old(expressions.errors)
      ensures Agrees(LineMore([], old(tokens.Glyphs())), old(expressions.errors), Some(line))
    {
      var ok;
      ok, line := ParseSimpleStatementLine();
      if !ok {
        line := [];
        SameLine(tokens.tokens, old(tokens.position), tokens.position);
        Synchronize();
      }
      TakesOneLine(tokens.tokens, old(tokens.position), tokens.position);
      NoBlocksMoved(tokens.tokens, old(tokens.position), tokens.position);
    }

    // ---------- Suites and lists ----------

    /** A balanced stretch has been read, and reports only added. */
    ghost predicate Advanced(from: nat, errorsBefore: nat)
      reads tokens, expressions
    {
      Valid() && Moved(tokens.tokens, from, tokens.position) && expressions.errors >= errorsBefore
    }

    /** The shared statement loop. Stops at a DEDENT or the end of the file, reading
        neither; if it gives nothing from a line's first token on, it has reported. */
    method ParseStatementList() returns (body: seq<Stmt>)
      requires Valid()
      modifies expressions`errors, tokens`position
      ensures Advanced(old(tokens.position), old(expressions.errors))
      ensures tokens.Check(Eof) || tokens.Check(Dedent)
      ensures !IsStructural(old(Kind(tokens.Glyphs()))) && body == [] ==> expressions.errors > old(expressions.errors)
      ensures Agrees(Statements([], old(tokens.Glyphs())), old(expressions.errors), Some(body))
      decreases Remaining(), 4
    {
      body := [];
      ghost var ts, start, line := tokens.tokens, tokens.position, tokens.Glyphs();
      MovedNowhere(ts, start);
      while !tokens.Check(Eof) && !tokens.Check(Dedent)
        invariant tokens.position >= start && Advanced(start, old(expressions.errors))
        invariant tokens.position > start && !IsStructural(old(Kind(tokens.Glyphs()))) && body == [] ==>
                    expressions.errors > old(expressions.errors)
        invariant if expressions.errors == old(expressions.errors)
                  then Statements([], line) == Statements(body, tokens.Glyphs())
                  else Statements([], line).Faulty?
        decreases Remaining()
      {
        ghost var at := tokens.position;
        var more := ParseOneOf();
        body := body + more;
        MovedTwice(ts, start, at, tokens.position);
      }
    }

    /** One turn of the loop, its progress guard included. */
    method ParseOneOf() returns (more: seq<Stmt>)
      requires Valid() && !tokens.Check(Eof) && !tokens.Check(Dedent)
      modifies expressions`errors, tokens`position
      ensures Advanced(old(tokens.position), old(expressions.errors)) && tokens.position > old(tokens.position)
      ensures !IsStructural(old(Kind(tokens.Glyphs()))) && more == [] ==> expressions.errors > old(expressions.errors)
      ensures Agrees(OneOf(old(tokens.Glyphs())), old(expressions.errors), Some(more))
      decreases Remaining(), 3
    {
      hide GlyphsOf, IsLaidOut;
      var before := tokens.position;
      more := [];
      if tokens.Check(Newline) {
        var _ := tokens.Advance();
        StepMoved(tokens.tokens, before, tokens.position);
        return;
      }
      if tokens.Check(Indent) {
        Report();
        SkipUnexpectedBlock();
        return;
      }
      if IsCompoundKeyword(tokens.Current().kind) {
        var statement := ParseStatement();
        if statement.Some? {
          more := [statement.value];
        } else {
          RecoverFromCompound(before);
        }
      } else {
        more := TakeSimpleLine();
      }
      if tokens.position == before {
        var _ := tokens.Advance();
        StepMoved(tokens.tokens, before, tokens.position);
      }
    }

    /** After a compound statement that gave nothing: to the next line, past the block that
        its header orphaned and past its else and elif clauses. */
    method RecoverFromCompound(ghost from: nat)
      requires Valid() && Moved(tokens.tokens, from, tokens.position)
      modifies tokens`position
      ensures Valid() && Moved(tokens.tokens, from, tokens.position) && tokens.position >= old(tokens.position)
    {
      ghost var ts, at := tokens.tokens, tokens.position;
      var boundary := AtStatementBoundary();
      if !boundary {
        Synchronize();
        MovedTwice(ts, from, at, tokens.position);
      }
      if tokens.Check(Indent) {
        at := tokens.position;
        SkipUnexpectedBlock();
        MovedTwice(ts, from, at, tokens.position);
      }
      while !tokens.Check(Eof) && (tokens.Check(Keyword(Else)) || tokens.Check(Keyword(Elif)))
        invariant Valid() && tokens.position >= old(tokens.position) && Moved(ts, from, tokens.position)
        decreases Remaining()
      {
        at := tokens.position;
        Synchronize();
        MovedTwice(ts, from, at, tokens.position);
        if tokens.Check(Indent) {
          at := tokens.position;
          SkipUnexpectedBlock();
          MovedTwice(ts, from, at, tokens.position);
        }
      }
    }

    /** From an INDENT through the DEDENT that closes it. */
    method ParseBlock() returns (body: seq<Stmt>, ghost close: nat)
      requires Valid() && tokens.Check(Indent)
      modifies expressions`errors, tokens`position
      ensures Advanced(old(tokens.position), old(expressions.errors))
      ensures IsBlock(tokens.tokens, old(tokens.position), close, tokens.position)
      ensures body == [] ==> expressions.errors > old(expressions.errors)
      ensures Agrees(BlockOf(old(tokens.Glyphs())), old(expressions.errors), Some(body))
      decreases Remaining(), 1
    {
      hide Statements, Depth, NeverBelow;
      ghost var ts, start := tokens.tokens, tokens.position;
      var _ := tokens.Advance();
      assert ts[start].kind == Indent && ts[start + 1].kind != Comment;
      body := ParseStatementList();
      close := tokens.position;
      BlockIsStillOpen(ts, start, close);
      var closed := tokens.Match(Dedent);
      assert closed;
      BlockIsBalanced(ts, start, close, tokens.position);
    }

    /** The one-line form, kept whole or not at all. */
    method ParseOneLineSuite() returns (body: seq<Stmt>)
      requires Valid()
      modifies expressions`errors, tokens`position
      ensures Advanced(old(tokens.position), old(expressions.errors))
      ensures body == [] ==> expressions.errors > old(expressions.errors)
      ensures Agrees(LineMore([], old(tokens.Glyphs())), old(expressions.errors), Some(body))
    {
      var ok;
      ok, body := ParseSimpleStatementLine();
      if !ok {
        LineMoved(tokens.tokens, old(tokens.position), tokens.position);
        return [];
      }
      TakesOneLine(tokens.tokens, old(tokens.position), tokens.position);
      NoBlocksMoved(tokens.tokens, old(tokens.position), tokens.position);
    }

    method ParseSuite() returns (body: seq<Stmt>)
      requires Valid()
      modifies expressions`errors, tokens`position
      ensures Advanced(old(tokens.position), old(expressions.errors))
      ensures body == [] ==> expressions.errors > old(expressions.errors)
      ensures Agrees(Suite(old(tokens.Glyphs())), old(expressions.errors), Some(body))
      decreases Remaining(), 2
    {
      ghost var ts, start := tokens.tokens, tokens.position;
      MovedNowhere(ts, start);
      var colon := tokens.Match(Colon);
      if !colon {
        Report();
        return [];
      }
      StepMoved(ts, start, tokens.position);
      ghost var at := tokens.position;
      MovedNowhere(ts, at);
      var newline := tokens.Match(Newline);
      if !newline {
        body := ParseOneLineSuite();
        MovedTwice(ts, start, at, tokens.position);
        return;
      }
      StepMoved(ts, at, tokens.position);
      MovedTwice(ts, start, at, tokens.position);
      if !tokens.Check(Indent) {
        Report();
        return [];
      }
      at := tokens.position;
      ghost var close;
      body, close := ParseBlock();
      MovedTwice(ts, start, at, tokens.position);
    }

    /** Never fails: what cannot be parsed is reported and left out, and every line of the
        file is accounted for. */
    method ParseModule() returns (body: seq<Stmt>)
      requires Valid() && Moved(tokens.tokens, 0, tokens.position)
      modifies expressions`errors, tokens`position
      ensures Advanced(0, old(expressions.errors)) && tokens.Check(Eof)
      ensures Agrees(ModuleOf(old(tokens.Glyphs())), old(expressions.errors), Some(body))
    {
      hide GlyphsOf, IsLaidOut;
      body := [];
      ghost var ts, start := tokens.tokens, tokens.Glyphs();
      assert Statements([], start) == Read([], start) || Kind(start) != Eof;
      while !tokens.Check(Eof)
        invariant Advanced(0, old(expressions.errors)) && tokens.position >= old(tokens.position)
        invariant if tokens.Check(Eof) then Agrees(ModuleOf(start), old(expressions.errors), Some(body))
                  else body == [] && tokens.Glyphs() == start && expressions.errors == old(expressions.errors)
        decreases Remaining()
      {
        ghost var at := tokens.position;
        var more := ParseStatementList();
        MovedTwice(ts, 0, at, tokens.position);
        NoStrayDedent(ts, tokens.position);
        assert tokens.Check(Eof) && body + more == more;
        body := body + more;
        var _ := tokens.Advance();
      }
    }

    // ---------- Compound statements ----------

    method ParseStatement() returns (statement: Option<Stmt>)
      requires Valid() && IsCompoundKeyword(tokens.Current().kind)
      modifies expressions`errors, tokens`position
      ensures Advanced(old(tokens.position), old(expressions.errors)) && tokens.position > old(tokens.position)
      ensures statement.None? ==> expressions.errors > old(expressions.errors)
      ensures Agrees(CompoundOf(old(tokens.Glyphs())), old(expressions.errors), statement)
      decreases Remaining(), 2
    {
      var kind := tokens.Current().kind;
      if kind == Keyword(If) {
        statement := ParseIf();
      } else if kind == Keyword(While) {
        statement := ParseWhile();
      } else if kind == Keyword(For) {
        statement := ParseFor();
      } else if kind == Keyword(Def) {
        statement := ParseFunctionDef();
      } else {
        statement := ParseClassDef();
      }
    }

    /** A header's expression, read on the header's own line. */
    method ParseCondition() returns (condition: Option<Expr>)
      requires Valid() && !IsStructural(tokens.Current().kind)
      modifies expressions`errors, tokens`position
      ensures Advanced(old(tokens.position), old(expressions.errors)) && tokens.position > old(tokens.position)
      ensures OnLineOf(old(tokens.Glyphs()))
      ensures condition.None? ==> expressions.errors > old(expressions.errors)
      ensures Agrees(Value(Expression(Next(old(tokens.Glyphs())))), old(expressions.errors), condition)
    {
      ghost var at := tokens.position;
      var _ := TakeToken(tokens.Current().kind);
      condition := TakeExpression();
      LineMoved(tokens.tokens, at, tokens.position);
    }

    method ParseIf() returns (statement: Option<Stmt>)
      requires Valid() && (tokens.Check(Keyword(If)) || tokens.Check(Keyword(Elif)))
      modifies expressions`errors, tokens`position
      ensures Advanced(old(tokens.position), old(expressions.errors)) && tokens.position > old(tokens.position)
      ensures statement.None? ==> expressions.errors > old(expressions.errors)
      ensures Agrees(IfOf(Next(old(tokens.Glyphs()))), old(expressions.errors), statement)
      decreases Remaining(), 1
    {
      hide GlyphsOf, IsLaidOut, Expression, OrElseOf, Suite, Balanced;
      ghost var ts, start := tokens.tokens, tokens.position;
      var condition := ParseCondition();
      if condition.None? {
        return Option.None;
      }
      ghost var at := tokens.position;
      var body := ParseSuite();
      MovedTwice(ts, start, at, tokens.position);
      if body == [] {
        return Option.None;
      }
      at := tokens.position;
      var ok, orelse := ParseOrElse();
      MovedTwice(ts, start, at, tokens.position);
      if !ok {
        return Option.None;
      }
      statement := Some(IfStmt(condition.value, body, orelse));
    }

    /** What an `if` goes on with: an `elif`, which is an `if` in the else suite, or an else
        clause. */
    method ParseOrElse() returns (ok: bool, body: seq<Stmt>)
      requires Valid()
      modifies expressions`errors, tokens`position
      ensures Advanced(old(tokens.position), old(expressions.errors))
      ensures !ok ==> expressions.errors > old(expressions.errors)
      ensures Agrees(OrElseOf(old(tokens.Glyphs())), old(expressions.errors), if ok then Some(body) else Option.None)
      decreases Remaining(), 4
    {
      if !tokens.Check(Keyword(Elif)) {
        ok, body := ParseElseClause();
        return;
      }
      var nested := ParseIf();
      if nested.None? {
        return false, [];
      }
      return true, [nested.value];
    }

    method ParseElseClause() returns (ok: bool, body: seq<Stmt>)
      requires Valid()
      modifies expressions`errors, tokens`position
      ensures Advanced(old(tokens.position), old(expressions.errors))
      ensures !ok ==> expressions.errors > old(expressions.errors)
      ensures Agrees(ElseOf(old(tokens.Glyphs())), old(expressions.errors), if ok then Some(body) else Option.None)
      decreases Remaining(), 3
    {
      ghost var ts, start := tokens.tokens, tokens.position;
      MovedNowhere(ts, start);
      if !tokens.Check(Keyword(Else)) {
        return true, [];
      }
      var _ := tokens.Advance();
      StepMoved(ts, start, tokens.position);
      ghost var at := tokens.position;
      body := ParseSuite();
      MovedTwice(ts, start, at, tokens.position);
      ok := body != [];
    }

    /** A loop's suite and its else clause. */
    method ParseLoopSuites() returns (ok: bool, body: seq<Stmt>, orelse: seq<Stmt>)
      requires Valid()
      modifies expressions`errors, tokens`position
      ensures Advanced(old(tokens.position), old(expressions.errors))
      ensures !ok ==> expressions.errors > old(expressions.errors)
      ensures Agrees(LoopSuitesOf(old(tokens.Glyphs())), old(expressions.errors),
          if ok then Some((body, orelse)) else Option.None)
      decreases Remaining(), 4
    {
      ghost var ts, start := tokens.tokens, tokens.position;
      body := ParseSuite();
      if body == [] {
        return false, body, [];
      }
      ghost var at := tokens.position;
      ok, orelse := ParseElseClause();
      MovedTwice(ts, start, at, tokens.position);
    }

    method ParseWhile() returns (statement: Option<Stmt>)
      requires Valid() && tokens.Check(Keyword(While))
      modifies expressions`errors, tokens`position
      ensures Advanced(old(tokens.position), old(expressions.errors)) && tokens.position > old(tokens.position)
      ensures statement.None? ==> expressions.errors > old(expressions.errors)
      ensures Agrees(WhileOf(Next(old(tokens.Glyphs()))), old(expressions.errors), statement)
      decreases Remaining(), 1
    {
      hide GlyphsOf, IsLaidOut, LoopSuitesOf, Expression;
      ghost var ts, start := tokens.tokens, tokens.position;
      var condition := ParseCondition();
      if condition.None? {
        return Option.None;
      }
      ghost var at := tokens.position;
      var ok, body, orelse := ParseLoopSuites();
      MovedTwice(ts, start, at, tokens.position);
      if !ok {
        return Option.None;
      }
      statement := Some(WhileStmt(condition.value, body, orelse));
    }

    method ParseFor() returns (statement: Option<Stmt>)
      requires Valid() && tokens.Check(Keyword(For))
      modifies expressions`errors, tokens`position
      ensures Advanced(old(tokens.position), old(expressions.errors)) && tokens.position > old(tokens.position)
      ensures statement.None? ==> expressions.errors > old(expressions.errors)
      ensures Agrees(ForOf(Next(old(tokens.Glyphs()))), old(expressions.errors), statement)
      decreases Remaining(), 1
    {
      hide GlyphsOf, IsLaidOut, ForHeaderOf, LoopSuitesOf;
      ghost var ts, start := tokens.tokens, tokens.position;
      var header := ParseForHeader();
      if header.None? {
        return Option.None;
      }
      ghost var at := tokens.position;
      var ok, body, orelse := ParseLoopSuites();
      MovedTwice(ts, start, at, tokens.position);
      if !ok {
        return Option.None;
      }
      statement := Some(ForStmt(header.value.0, header.value.1, body, orelse));
    }

    method ParseForHeader() returns (header: Option<(Expr, Expr)>)
      requires Valid() && tokens.Check(Keyword(For))
      modifies expressions`errors, tokens`position
      ensures Advanced(old(tokens.position), old(expressions.errors)) && tokens.position > old(tokens.position)
      ensures header.None? ==> expressions.errors > old(expressions.errors)
      ensures Agrees(ForHeaderOf(Next(old(tokens.Glyphs()))), old(expressions.errors), header)
    {
      ghost var ts, start, line := tokens.tokens, tokens.position, tokens.Glyphs();
      var _ := TakeToken(Keyword(For));
      header := ParseForClause();
      LineMoved(ts, start, tokens.position);
    }

    method ParseForClause() returns (clause: Option<(Expr, Expr)>)
      requires Valid()
      modifies expressions`errors, tokens`position
      ensures Valid() && OnLineOf(old(tokens.Glyphs())) && tokens.position >= old(tokens.position)
      ensures expressions.errors == old(expressions.errors) + if clause.Some? then 0 else 1
      ensures Agrees(ForHeaderOf(old(tokens.Glyphs())), old(expressions.errors), clause)
    {
      var target := TakeTarget();
      if target.None? {
        return Option.None;
      }
      var matched := TakeToken(Op(In));
      if !matched {
        Report();
        return Option.None;
      }
      var iterable := TakeExpressionList();
      if iterable.None? {
        return Option.None;
      }
      clause := Some((target.value, iterable.value));
    }

    method ParseFunctionDef() returns (statement: Option<Stmt>)
      requires Valid() && tokens.Check(Keyword(Def))
      modifies expressions`errors, tokens`position
      ensures Advanced(old(tokens.position), old(expressions.errors)) && tokens.position > old(tokens.position)
      ensures statement.None? ==> expressions.errors > old(expressions.errors)
      ensures Agrees(DefOf(Next(old(tokens.Glyphs()))), old(expressions.errors), statement)
      decreases Remaining(), 1
    {
      hide GlyphsOf, IsLaidOut, DefHeaderOf, Suite;
      ghost var ts, start := tokens.tokens, tokens.position;
      var ok, name, params, result := ParseFunctionHeader();
      if !ok {
        return Option.None;
      }
      ghost var at := tokens.position;
      var body := ParseSuite();
      MovedTwice(ts, start, at, tokens.position);
      if body == [] {
        return Option.None;
      }
      statement := Some(FunctionDef(name, params, result, body));
    }

    method ParseFunctionHeader() returns (ok: bool, name: string, params: seq<Parameter>, result: Option<Expr>)
      requires Valid() && tokens.Check(Keyword(Def))
      modifies expressions`errors, tokens`position
      ensures Advanced(old(tokens.position), old(expressions.errors)) && tokens.position > old(tokens.position)
      ensures !ok ==> expressions.errors > old(expressions.errors)
      ensures Agrees(DefHeaderOf(Next(old(tokens.Glyphs()))), old(expressions.errors),
          if ok then Some((name, params, result)) else Option.None)
    {
      ghost var ts, start := tokens.tokens, tokens.position;
      var _ := TakeToken(Keyword(Def));
      ok, name, params, result := ParseSignature();
      LineMoved(ts, start, tokens.position);
    }

    /** The name, the parameters and the result. */
    method ParseSignature() returns (ok: bool, name: string, params: seq<Parameter>, result: Option<Expr>)
      requires Valid()
      modifies expressions`errors, tokens`position
      ensures Valid() && OnLineOf(old(tokens.Glyphs())) && tokens.position >= old(tokens.position)
      ensures !ok ==> expressions.errors > old(expressions.errors)
      ensures expressions.errors >= old(expressions.errors)
      ensures Agrees(DefHeaderOf(old(tokens.Glyphs())), old(expressions.errors),
          if ok then Some((name, params, result)) else Option.None)
    {
      hide GlyphsOf, IsLaidOut;
      params, result := [], Option.None;
      var named := TakeName();
      if named.None? {
        return false, "", params, result;
      }
      name := named.value;
      ok, params := ParseParameters();
      if !ok {
        return;
      }
      ok, result := ParseOptional(Op(Arrow));
    }

    method ParseParameters() returns (ok: bool, params: seq<Parameter>)
      requires Valid()
      modifies expressions`errors, tokens`position
      ensures Valid() && OnLineOf(old(tokens.Glyphs())) && tokens.position >= old(tokens.position)
      ensures expressions.errors == if ok then old(expressions.errors) else old(expressions.errors) + 1
      ensures Agrees(ParamsOf(old(tokens.Glyphs())), old(expressions.errors), if ok then Some(params) else Option.None)
    {
      hide GlyphsOf, IsLaidOut;
      params := [];
      ghost var start := tokens.Glyphs();
      var opening := TakeToken(Open(Paren));
      if !opening {
        Report();
        return false, params;
      }
      var closing := TakeToken(Closing(Paren));
      if closing {
        return true, params;
      }
      ok, params := ParseParameterList();
    }

    /** At least one parameter, and the closing parenthesis. */
    method ParseParameterList() returns (ok: bool, params: seq<Parameter>)
      requires Valid()
      modifies expressions`errors, tokens`position
      ensures Valid() && OnLineOf(old(tokens.Glyphs())) && tokens.position >= old(tokens.position)
      ensures expressions.errors == if ok then old(expressions.errors) else old(expressions.errors) + 1
      ensures Agrees(ParamsMore([], old(tokens.Glyphs())),
          old(expressions.errors), if ok then Some(params) else Option.None)
    {
      hide GlyphsOf, IsLaidOut, ParameterOf, AfterLine;
      params := [];
      ghost var start := tokens.Glyphs();
      var more := true;
      while more
        invariant Valid() && OnLineOf(start) && expressions.errors == old(expressions.errors)
        invariant tokens.position >= old(tokens.position)
        invariant more ==> ParamsMore([], start) == ParamsMore(params, tokens.Glyphs())
        invariant !more ==> ParamsMore([], start) == ParamsEnd(params, tokens.Glyphs())
        decreases |tokens.Glyphs()|, more
      {
        var parameter := ParseParameter();
        if parameter.None? {
          return false, params;
        }
        params := params + [parameter.value];
        more := TakeToken(Comma);
        if more && tokens.Check(Closing(Paren)) {
          more := false;
        }
      }
      var closing := TakeToken(Closing(Paren));
      if !closing {
        Report();
        return false, params;
      }
      ok := true;
    }

    method ParseParameter() returns (parameter: Option<Parameter>)
      requires Valid()
      modifies expressions`errors, tokens`position
      ensures Valid() && OnLineOf(old(tokens.Glyphs())) && tokens.position >= old(tokens.position)
      ensures parameter.Some?
           ==> |tokens.Glyphs()| < |old(tokens.Glyphs())| && expressions.errors == old(expressions.errors)
      ensures parameter.None? ==> expressions.errors == old(expressions.errors) + 1
      ensures Agrees(ParameterOf(old(tokens.Glyphs())), old(expressions.errors), parameter)
    {
      hide GlyphsOf, IsLaidOut, Optional, NameOf, Beyond, IsTerminated;
      var name := TakeName();
      if name.None? {
        return Option.None;
      }
      var ok, annotation := ParseOptional(Colon);
      if !ok {
        return Option.None;
      }
      var default;
      ok, default := ParseOptional(Op(Assign));
      if !ok {
        return Option.None;
      }
      parameter := Some(Parameter(name.value, annotation, default));
    }

    /** An expression that `kind` announces, or nothing. */
    method ParseOptional(kind: TokenType) returns (ok: bool, value: Option<Expr>)
      requires Valid() && !IsStructural(kind)
      modifies expressions`errors, tokens`position
      ensures Valid() && OnLineOf(old(tokens.Glyphs())) && tokens.position >= old(tokens.position)
      ensures expressions.errors == if ok then old(expressions.errors) else old(expressions.errors) + 1
      ensures Agrees(Optional(kind, old(tokens.Glyphs())),
          old(expressions.errors), if ok then Some(value) else Option.None)
    {
      var announced := TakeToken(kind);
      if !announced {
        return true, Option.None;
      }
      value := TakeExpression();
      ok := value.Some?;
    }

    method ParseClassDef() returns (statement: Option<Stmt>)
      requires Valid() && tokens.Check(Keyword(Class))
      modifies expressions`errors, tokens`position
      ensures Advanced(old(tokens.position), old(expressions.errors)) && tokens.position > old(tokens.position)
      ensures statement.None? ==> expressions.errors > old(expressions.errors)
      ensures Agrees(ClassOf(Next(old(tokens.Glyphs()))), old(expressions.errors), statement)
      decreases Remaining(), 1
    {
      hide GlyphsOf, IsLaidOut, ClassHeaderOf, Suite;
      ghost var ts, start := tokens.tokens, tokens.position;
      var ok, name, bases := ParseClassHeader();
      if !ok {
        return Option.None;
      }
      ghost var at := tokens.position;
      var body := ParseSuite();
      MovedTwice(ts, start, at, tokens.position);
      if body == [] {
        return Option.None;
      }
      statement := Some(ClassDef(name, bases, body));
    }

    method ParseClassHeader() returns (ok: bool, name: string, bases: seq<Expr>)
      requires Valid() && tokens.Check(Keyword(Class))
      modifies expressions`errors, tokens`position
      ensures Advanced(old(tokens.position), old(expressions.errors)) && tokens.position > old(tokens.position)
      ensures !ok ==> expressions.errors > old(expressions.errors)
      ensures Agrees(ClassHeaderOf(Next(old(tokens.Glyphs()))),
          old(expressions.errors), if ok then Some((name, bases)) else Option.None)
    {
      ghost var ts, start := tokens.tokens, tokens.position;
      name, bases := "", [];
      var _ := TakeToken(Keyword(Class));
      var named := TakeName();
      ok := named.Some?;
      if ok {
        name := named.value;
        if tokens.Check(Open(Paren)) {
          ok, bases := ParseBases();
        }
      }
      LineMoved(ts, start, tokens.position);
    }

    method ParseBases() returns (ok: bool, bases: seq<Expr>)
      requires Valid() && tokens.Check(Open(Paren))
      modifies expressions`errors, tokens`position
      ensures Valid() && OnLineOf(old(tokens.Glyphs())) && tokens.position >= old(tokens.position)
      ensures expressions.errors == if ok then old(expressions.errors) else old(expressions.errors) + 1
      ensures Agrees(BasesOf(Next(old(tokens.Glyphs()))),
          old(expressions.errors), if ok then Some(bases) else Option.None)
    {
      bases := [];
      var _ := tokens.Advance();
      var closing := TakeToken(Closing(Paren));
      if closing {
        return true, bases;
      }
      ok, bases := ParseBaseList();
    }

    /** At least one base, and the closing parenthesis. */
    method ParseBaseList() returns (ok: bool, bases: seq<Expr>)
      requires Valid()
      modifies expressions`errors, tokens`position
      ensures Valid() && OnLineOf(old(tokens.Glyphs())) && tokens.position >= old(tokens.position)
      ensures expressions.errors == if ok then old(expressions.errors) else old(expressions.errors) + 1
      ensures Agrees(BasesMore([], old(tokens.Glyphs())),
          old(expressions.errors), if ok then Some(bases) else Option.None)
    {
      hide GlyphsOf, IsLaidOut, Expression;
      bases := [];
      ghost var start := tokens.Glyphs();
      var more := true;
      while more
        invariant Valid() && OnLineOf(start) && expressions.errors == old(expressions.errors)
        invariant tokens.position >= old(tokens.position)
        invariant more ==> BasesMore([], start) == BasesMore(bases, tokens.Glyphs())
        invariant !more ==> BasesMore([], start) == BasesEnd(bases, tokens.Glyphs())
        decreases |tokens.Glyphs()|, more
      {
        var base := TakeExpression();
        if base.None? {
          return false, bases;
        }
        if tokens.Check(Op(Assign)) {
          Report();
          return false, bases;
        }
        bases := bases + [base.value];
        more := TakeToken(Comma);
        if more && tokens.Check(Closing(Paren)) {
          more := false;
        }
      }
      var closing := TakeToken(Closing(Paren));
      if !closing {
        Report();
        return false, bases;
      }
      ok := true;
    }
  }
}
