/** The statement grammar on streams without errors, as a function from glyphs to a tree:
    what src/domain/parser/statement_parser.cpp reads when it has nothing to report. */
module StatementGrammar {
  import opened Options
  import opened Tokens
  import opened Grammar

  datatype Parameter = Parameter(name: string, annotation: Option<Expr>, default: Option<Expr>)

  datatype Stmt =
    | ExprStmt(e: Expr)
    | AssignStmt(target: Expr, e: Expr)
    | AnnAssign(target: Expr, annotation: Expr, initial: Option<Expr>)
    | PassStmt
    | BreakStmt
    | ContinueStmt
    | ReturnStmt(initial: Option<Expr>)
    | IfStmt(e: Expr, body: seq<Stmt>, orelse: seq<Stmt>)
    | WhileStmt(e: Expr, body: seq<Stmt>, orelse: seq<Stmt>)
    | ForStmt(target: Expr, e: Expr, body: seq<Stmt>, orelse: seq<Stmt>)
    | FunctionDef(name: string, params: seq<Parameter>, result: Option<Expr>, body: seq<Stmt>)
    | ClassDef(name: string, bases: seq<Expr>, body: seq<Stmt>)

  predicate EndsAStatement(kind: TokenType) {
    kind == Newline || kind == Semicolon || kind == Eof
  }

  predicate IsCompoundKeyword(kind: TokenType) {
    kind in {Keyword(If), Keyword(While), Keyword(For), Keyword(Def), Keyword(Class)}
  }

  /** The statements reported by name. */
  predicate IsRejectedStatement(kind: TokenType) {
    || kind in {Keyword(Import), Keyword(From), Keyword(Try), Keyword(Except), Keyword(Finally), Keyword(With)}
    || kind in {Keyword(Raise), Keyword(Assert), Keyword(Del), Keyword(Global), Keyword(Nonlocal), Keyword(Async)}
    || kind in {Op(At), Keyword(Else), Keyword(Elif)}
  }

  /** What a rule reads without a report, if it can. */
  datatype Clean<+T> = Read(value: T, rest: Glyphs) | Faulty

  function Value(p: Parse<Expr>): Clean<Expr> {
    if p.Parsed? then Read(p.value, p.rest) else Faulty
  }

  // ---------- Simple statements ----------

  function SimpleStmt(ts: Glyphs): (r: Clean<Stmt>)
    ensures r.Read? ==> |r.rest| < |ts|
  {
    if Kind(ts) == Keyword(Pass) then Read(PassStmt, Next(ts))
    else if Kind(ts) == Keyword(Break) then Read(BreakStmt, Next(ts))
    else if Kind(ts) == Keyword(Continue) then Read(ContinueStmt, Next(ts))
    else if Kind(ts) == Keyword(Return) then ReturnOf(Next(ts))
    else if IsRejectedStatement(Kind(ts)) then Faulty
    else ExpressionStmt(ts)
  }

  function ReturnOf(ts: Glyphs): (r: Clean<Stmt>)
    ensures r.Read? ==> |r.rest| <= |ts|
  {
    if EndsAStatement(Kind(ts)) then Read(ReturnStmt(Option.None), ts)
    else
      var value := Value(ExpressionList(ts));
      if value.Faulty? then Faulty else Read(ReturnStmt(Some(value.value)), value.rest)
  }

  function ExpressionStmt(ts: Glyphs): (r: Clean<Stmt>)
    ensures r.Read? ==> |r.rest| < |ts|
  {
    var first := Value(ExpressionList(ts));
    if first.Faulty? then Faulty
    else if Kind(first.rest) == Colon then AnnotationOf(first.value, Next(first.rest))
    else if Kind(first.rest) == Op(Assign) then AssignmentOf(first.value, Next(first.rest))
    else if Kind(first.rest) == Op(AugmentedAssign) then Faulty
    else Read(ExprStmt(first.value), first.rest)
  }

  /** After the `=`. */
  function AssignmentOf(target: Expr, ts: Glyphs): (r: Clean<Stmt>)
    ensures r.Read? ==> |r.rest| <= |ts|
  {
    if !IsAssignable(target) then Faulty
    else
      var value := Value(ExpressionList(ts));
      if value.Faulty? then Faulty else Read(AssignStmt(target, value.value), value.rest)
  }

  /** After the `:`. */
  function AnnotationOf(target: Expr, ts: Glyphs): (r: Clean<Stmt>)
    ensures r.Read? ==> |r.rest| <= |ts|
  {
    if !IsAssignable(target) || target.TupleExpr? then Faulty
    else
      var annotation := Value(Expression(ts));
      if annotation.Faulty? then Faulty
      else
        var initial := InitialOf(annotation.rest);
        if initial.Faulty? then Faulty
        else Read(AnnAssign(target, annotation.value, initial.value), initial.rest)
  }

  function InitialOf(ts: Glyphs): (r: Clean<Option<Expr>>)
    ensures r.Read? ==> |r.rest| <= |ts|
  {
    if Kind(ts) != Op(Assign) then Read(Option.None, ts)
    else
      var e := Value(ExpressionList(Next(ts)));
      if e.Faulty? then Faulty else Read(Some(e.value), e.rest)
  }

  /** Statements up to the end of the line, separated by semicolons. */
  function LineMore(done: seq<Stmt>, ts: Glyphs): (r: Clean<seq<Stmt>>)
    ensures r.Read? ==> |r.rest| < |ts|
    decreases |ts|
  {
    var s := SimpleStmt(ts);
    if s.Faulty? then Faulty
    else if Kind(s.rest) != Semicolon then LineCloses(done + [s.value], s.rest)
    else if EndsAStatement(Kind(Next(s.rest))) then LineCloses(done + [s.value], Next(s.rest))
    else LineMore(done + [s.value], Next(s.rest))
  }

  function LineCloses(line: seq<Stmt>, ts: Glyphs): (r: Clean<seq<Stmt>>)
    ensures r.Read? ==> |r.rest| <= |ts|
  {
    if Kind(ts) == Eof then Read(line, ts) else if Kind(ts) == Newline then Read(line, Next(ts)) else Faulty
  }

  // ---------- Headers ----------

  function NameOf(ts: Glyphs): (r: Clean<string>)
    ensures r.Read? ==> |r.rest| < |ts|
  {
    if IsIdentifier(Kind(ts)) then Read(ts[0].text, Next(ts)) else Faulty
  }

  function ParameterOf(ts: Glyphs): (r: Clean<Parameter>)
    ensures r.Read? ==> |r.rest| < |ts|
  {
    var name := NameOf(ts);
    if name.Faulty? then Faulty
    else
      var annotation := Optional(Colon, name.rest);
      if annotation.Faulty? then Faulty
      else
        var default := Optional(Op(Assign), annotation.rest);
        if default.Faulty? then Faulty
        else Read(Parameter(name.value, annotation.value, default.value), default.rest)
  }

  /** An expression that the token announces, or nothing. */
  function Optional(kind: TokenType, ts: Glyphs): (r: Clean<Option<Expr>>)
    ensures r.Read? ==> |r.rest| <= |ts|
  {
    if Kind(ts) != kind then Read(Option.None, ts)
    else
      var e := Value(Expression(Next(ts)));
      if e.Faulty? then Faulty else Read(Some(e.value), e.rest)
  }

  function ParamsOf(ts: Glyphs): (r: Clean<seq<Parameter>>)
    ensures r.Read? ==> |r.rest| < |ts|
  {
    if Kind(ts) != Open(Paren) then Faulty
    else if Kind(Next(ts)) == Closing(Paren) then Read([], Next(Next(ts)))
    else ParamsMore([], Next(ts))
  }

  function ParamsMore(done: seq<Parameter>, ts: Glyphs): (r: Clean<seq<Parameter>>)
    ensures r.Read? ==> |r.rest| < |ts|
    decreases |ts|
  {
    var p := ParameterOf(ts);
    if p.Faulty? then Faulty
    else if Kind(p.rest) != Comma then ParamsEnd(done + [p.value], p.rest)
    else if Kind(Next(p.rest)) == Closing(Paren) then ParamsEnd(done + [p.value], Next(p.rest))
    else ParamsMore(done + [p.value], Next(p.rest))
  }

  function ParamsEnd(params: seq<Parameter>, ts: Glyphs): (r: Clean<seq<Parameter>>)
    ensures r.Read? ==> |r.rest| < |ts|
  {
    if Kind(ts) == Closing(Paren) then Read(params, Next(ts)) else Faulty
  }

  function DefHeaderOf(ts: Glyphs): (r: Clean<(string, seq<Parameter>, Option<Expr>)>)
    ensures r.Read? ==> |r.rest| < |ts|
  {
    var name := NameOf(ts);
    if name.Faulty? then Faulty
    else
      var params := ParamsOf(name.rest);
      if params.Faulty? then Faulty
      else
        var result := Optional(Op(Arrow), params.rest);
        if result.Faulty? then Faulty else Read((name.value, params.value, result.value), result.rest)
  }

  /** After the opening parenthesis. */
  function BasesOf(ts: Glyphs): (r: Clean<seq<Expr>>)
    ensures r.Read? ==> |r.rest| < |ts|
  {
    if Kind(ts) == Closing(Paren) then Read([], Next(ts)) else BasesMore([], ts)
  }

  function BasesMore(done: seq<Expr>, ts: Glyphs): (r: Clean<seq<Expr>>)
    ensures r.Read? ==> |r.rest| < |ts|
    decreases |ts|
  {
    var base := Value(Expression(ts));
    if base.Faulty? || Kind(base.rest) == Op(Assign) then Faulty
    else if Kind(base.rest) != Comma then BasesEnd(done + [base.value], base.rest)
    else if Kind(Next(base.rest)) == Closing(Paren) then BasesEnd(done + [base.value], Next(base.rest))
    else BasesMore(done + [base.value], Next(base.rest))
  }

  function BasesEnd(bases: seq<Expr>, ts: Glyphs): (r: Clean<seq<Expr>>)
    ensures r.Read? ==> |r.rest| < |ts|
  {
    if Kind(ts) == Closing(Paren) then Read(bases, Next(ts)) else Faulty
  }

  function ClassHeaderOf(ts: Glyphs): (r: Clean<(string, seq<Expr>)>)
    ensures r.Read? ==> |r.rest| < |ts|
  {
    var name := NameOf(ts);
    if name.Faulty? then Faulty
    else if Kind(name.rest) != Open(Paren) then Read((name.value, []), name.rest)
    else
      var bases := BasesOf(Next(name.rest));
      if bases.Faulty? then Faulty else Read((name.value, bases.value), bases.rest)
  }

  function ForHeaderOf(ts: Glyphs): (r: Clean<(Expr, Expr)>)
    ensures r.Read? ==> |r.rest| < |ts|
  {
    var target := Value(Target(ts));
    if target.Faulty? || Kind(target.rest) != Op(In) then Faulty
    else
      var iterable := Value(ExpressionList(Next(target.rest)));
      if iterable.Faulty? then Faulty else Read((target.value, iterable.value), iterable.rest)
  }

  // ---------- Suites and compound statements ----------

  /** Up to a DEDENT or the end of the file. */
  function Statements(done: seq<Stmt>, ts: Glyphs): (r: Clean<seq<Stmt>>)
    ensures r.Read? ==> |r.rest| <= |ts|
    decreases |ts|, 9
  {
    if Kind(ts) == Eof || Kind(ts) == Dedent then Read(done, ts)
    else
      var one := OneOf(ts);
      if one.Faulty? then Faulty else Statements(done + one.value, one.rest)
  }

  function OneOf(ts: Glyphs): (r: Clean<seq<Stmt>>)
    requires Kind(ts) != Eof
    ensures r.Read? ==> |r.rest| < |ts|
    decreases |ts|, 8
  {
    if Kind(ts) == Newline then Read([], Next(ts))
    else if Kind(ts) == Indent then Faulty
    else if IsCompoundKeyword(Kind(ts)) then
      var s := CompoundOf(ts);
      if s.Faulty? then Faulty else Read([s.value], s.rest)
    else LineMore([], ts)
  }

  function CompoundOf(ts: Glyphs): (r: Clean<Stmt>)
    requires Kind(ts) != Eof
    ensures r.Read? ==> |r.rest| < |ts|
    decreases |ts|, 7
  {
    if Kind(ts) == Keyword(If) then IfOf(Next(ts))
    else if Kind(ts) == Keyword(While) then WhileOf(Next(ts))
    else if Kind(ts) == Keyword(For) then ForOf(Next(ts))
    else if Kind(ts) == Keyword(Def) then DefOf(Next(ts))
    else ClassOf(Next(ts))
  }

  function Suite(ts: Glyphs): (r: Clean<seq<Stmt>>)
    ensures r.Read? ==> |r.rest| < |ts|
    decreases |ts|, 5
  {
    if Kind(ts) != Colon then Faulty
    else if Kind(Next(ts)) != Newline then LineMore([], Next(ts))
    else if Kind(Next(Next(ts))) != Indent then Faulty
    else BlockOf(Next(Next(ts)))
  }

  function BlockOf(ts: Glyphs): (r: Clean<seq<Stmt>>)
    requires Kind(ts) == Indent
    ensures r.Read? ==> |r.rest| < |ts|
    decreases |ts|, 4
  {
    var list := Statements([], Next(ts));
    if list.Faulty? || Kind(list.rest) != Dedent then Faulty else Read(list.value, Next(list.rest))
  }

  /** After the `if` or `elif`. */
  function IfOf(ts: Glyphs): (r: Clean<Stmt>)
    ensures r.Read? ==> |r.rest| < |ts|
    decreases |ts|, 6
  {
    var condition := Value(Expression(ts));
    if condition.Faulty? then Faulty
    else
      var body := Suite(condition.rest);
      if body.Faulty? then Faulty
      else
        var orelse := OrElseOf(body.rest);
        if orelse.Faulty? then Faulty
        else Read(IfStmt(condition.value, body.value, orelse.value), orelse.rest)
  }

  /** An `elif` is an `if` inside the else suite. */
  function OrElseOf(ts: Glyphs): (r: Clean<seq<Stmt>>)
    ensures r.Read? ==> |r.rest| <= |ts|
    decreases |ts|, 7
  {
    if Kind(ts) == Keyword(Elif) then
      var nested := IfOf(Next(ts));
      if nested.Faulty? then Faulty else Read([nested.value], nested.rest)
    else ElseOf(ts)
  }

  function ElseOf(ts: Glyphs): (r: Clean<seq<Stmt>>)
    ensures r.Read? ==> |r.rest| <= |ts|
    decreases |ts|, 6
  {
    if Kind(ts) != Keyword(Else) then Read([], ts) else Suite(Next(ts))
  }

  function LoopSuitesOf(ts: Glyphs): (r: Clean<(seq<Stmt>, seq<Stmt>)>)
    ensures r.Read? ==> |r.rest| < |ts|
    decreases |ts|, 6
  {
    var body := Suite(ts);
    if body.Faulty? then Faulty
    else
      var orelse := ElseOf(body.rest);
      if orelse.Faulty? then Faulty else Read((body.value, orelse.value), orelse.rest)
  }

  function WhileOf(ts: Glyphs): (r: Clean<Stmt>)
    ensures r.Read? ==> |r.rest| < |ts|
    decreases |ts|, 6
  {
    var condition := Value(Expression(ts));
    if condition.Faulty? then Faulty
    else
      var suites := LoopSuitesOf(condition.rest);
      if suites.Faulty? then Faulty
      else Read(WhileStmt(condition.value, suites.value.0, suites.value.1), suites.rest)
  }

  function ForOf(ts: Glyphs): (r: Clean<Stmt>)
    ensures r.Read? ==> |r.rest| < |ts|
    decreases |ts|, 6
  {
    var header := ForHeaderOf(ts);
    if header.Faulty? then Faulty
    else
      var suites := LoopSuitesOf(header.rest);
      if suites.Faulty? then Faulty
      else Read(ForStmt(header.value.0, header.value.1, suites.value.0, suites.value.1), suites.rest)
  }

  function DefOf(ts: Glyphs): (r: Clean<Stmt>)
    ensures r.Read? ==> |r.rest| < |ts|
    decreases |ts|, 6
  {
    var header := DefHeaderOf(ts);
    if header.Faulty? then Faulty
    else
      var body := Suite(header.rest);
      if body.Faulty? then Faulty
      else Read(FunctionDef(header.value.0, header.value.1, header.value.2, body.value), body.rest)
  }

  function ClassOf(ts: Glyphs): (r: Clean<Stmt>)
    ensures r.Read? ==> |r.rest| < |ts|
    decreases |ts|, 6
  {
    var header := ClassHeaderOf(ts);
    if header.Faulty? then Faulty
    else
      var body := Suite(header.rest);
      if body.Faulty? then Faulty else Read(ClassDef(header.value.0, header.value.1, body.value), body.rest)
  }

  /** A whole file. */
  function ModuleOf(ts: Glyphs): Clean<seq<Stmt>> {
    var body := Statements([], ts);
    if body.Faulty? || Kind(body.rest) != Eof then Faulty else body
  }
}
