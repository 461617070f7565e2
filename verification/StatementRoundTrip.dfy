/** Parsing a printed program gives the program back, with nothing to report: simple and
    compound statements, suites, clauses and headers of any depth (sections 7 and 8 of the
    Python Language Reference), each suite on its header's line or in a block of its own
    and each line holding one statement or several, as the style has it. A printed text
    ends in what follows it, `rest`. */
module StatementRoundTrip {
  import opened Options
  import opened Sequences
  import opened Tokens
  import opened Grammar
  import opened ExpressionRoundTrip
  import opened StatementGrammar

  // ---------- What has a printed form ----------

  predicate AnyPrintable(e: Option<Expr>) {
    e.Some? ==> Printable(e.value)
  }

  predicate ParamsPrintable(params: seq<Parameter>) {
    params == []
      || (AnyPrintable(params[0].annotation) && AnyPrintable(params[0].default) && ParamsPrintable(params[1..]))
  }

  predicate StmtPrintable(s: Stmt)
    decreases s, 0
  {
    match s
    case ExprStmt(e) => Printable(e)
    case AssignStmt(target, e) => Printable(target) && IsAssignable(target) && Printable(e)
    case AnnAssign(target, annotation, initial) =>
      Printable(target) && IsAssignable(target) && !target.TupleExpr? && Printable(annotation) && AnyPrintable(initial)
    case PassStmt => true
    case BreakStmt => true
    case ContinueStmt => true
    case ReturnStmt(initial) => AnyPrintable(initial)
    case IfStmt(e, body, orelse) => Printable(e) && SuitePrintable(body) && AllStmtsPrintable(orelse)
    case WhileStmt(e, body, orelse) => Printable(e) && SuitePrintable(body) && AllStmtsPrintable(orelse)
    case ForStmt(target, e, body, orelse) =>
      Printable(target) && IsAssignable(target) && Printable(e) && SuitePrintable(body) && AllStmtsPrintable(orelse)
    case FunctionDef(_, params, result, body) => ParamsPrintable(params) && AnyPrintable(result) && SuitePrintable(body)
    case ClassDef(_, bases, body) => AllPrintable(bases) && SuitePrintable(body)
  }

  predicate SuitePrintable(body: seq<Stmt>)
    decreases body, 1
  {
    body != [] && AllStmtsPrintable(body)
  }

  predicate AllStmtsPrintable(body: seq<Stmt>)
    decreases body, 0
  {
    body == [] || (StmtPrintable(body[0]) && AllStmtsPrintable(body[1..]))
  }

  predicate IsSimple(s: Stmt) {
    || s.ExprStmt? || s.AssignStmt? || s.AnnAssign? || s.PassStmt? || s.BreakStmt? || s.ContinueStmt? || s.ReturnStmt?
  }

  predicate AllSimple(body: seq<Stmt>) {
    forall s :: s in body ==> IsSimple(s)
  }

  // ---------- The printed form ----------

  /** Which of the forms Python leaves open is written, at each place by what follows it:
      a suite of simple statements on its header's line, a `;` to the next simple
      statement, a `;` at the end of a line, an `elif` spelled as an `if` in an else suite. */
  datatype Style = Style(
    inline: Glyphs -> bool, joins: Glyphs -> bool, trails: Glyphs -> bool, nests: Glyphs -> bool)

  function Then(kind: TokenType, rest: Glyphs): Glyphs {
    Mark(kind) + rest
  }

  function Word(name: string, rest: Glyphs): Glyphs {
    [Glyph(Identifier, name)] + rest
  }

  function Show(e: Expr, rest: Glyphs): Glyphs {
    Print(e, 0) + rest
  }

  function ShowOptional(kind: TokenType, e: Option<Expr>, rest: Glyphs): Glyphs {
    match e
    case Some(value) => Then(kind, Show(value, rest))
    case None => rest
  }

  function ShowParams(params: seq<Parameter>, rest: Glyphs): Glyphs
    decreases params
  {
    if params == [] then rest
    else
      var more := if |params| == 1 then rest else Then(Comma, ShowParams(params[1..], rest));
      Word(params[0].name, ShowOptional(Colon, params[0].annotation, ShowOptional(Op(Assign), params[0].default, more)))
  }

  function ShowBases(bases: seq<Expr>, rest: Glyphs): Glyphs
    decreases bases
  {
    if bases == [] then rest
    else Show(bases[0], if |bases| == 1 then rest else Then(Comma, ShowBases(bases[1..], rest)))
  }

  function ShowSimple(s: Stmt, line: Glyphs): Glyphs
    requires IsSimple(s)
  {
    match s
    case ExprStmt(e) => Show(e, line)
    case AssignStmt(target, e) => Show(target, Then(Op(Assign), Show(e, line)))
    case AnnAssign(target, annotation, initial) =>
      Show(target, Then(Colon, Show(annotation, ShowOptional(Op(Assign), initial, line))))
    case PassStmt => Then(Keyword(Pass), line)
    case BreakStmt => Then(Keyword(Break), line)
    case ContinueStmt => Then(Keyword(Continue), line)
    case ReturnStmt(initial) => Then(Keyword(Return), if initial.None? then line else Show(initial.value, line))
  }

  function ShowCompound(style: Style, s: Stmt, rest: Glyphs): Glyphs
    requires !IsSimple(s)
    decreases s, 1
  {
    match s
    case IfStmt(_, _, _) => Then(Keyword(If), ShowIf(style, s, rest))
    case WhileStmt(_, _, _) => Then(Keyword(While), ShowWhile(style, s, rest))
    case ForStmt(_, _, _, _) => Then(Keyword(For), ShowFor(style, s, rest))
    case FunctionDef(_, _, _, _) => Then(Keyword(Def), ShowDef(style, s, rest))
    case ClassDef(_, _, _) => Then(Keyword(Class), ShowClass(style, s, rest))
  }

  function ShowWhile(style: Style, s: Stmt, rest: Glyphs): Glyphs
    requires s.WhileStmt?
    decreases s, 0
  {
    Show(s.e, ShowSuite(style, s.body, ShowElse(style, s.orelse, rest)))
  }

  function ShowFor(style: Style, s: Stmt, rest: Glyphs): Glyphs
    requires s.ForStmt?
    decreases s, 0
  {
    Print(s.target, 12) + Then(Op(In), Show(s.e, ShowSuite(style, s.body, ShowElse(style, s.orelse, rest))))
  }

  function ShowDef(style: Style, s: Stmt, rest: Glyphs): Glyphs
    requires s.FunctionDef?
    decreases s, 0
  {
    ShowDefHeader(s.name, s.params, s.result, ShowSuite(style, s.body, rest))
  }

  function ShowDefHeader(name: string, params: seq<Parameter>, result: Option<Expr>, rest: Glyphs): Glyphs {
    Word(name, Then(Open(Paren), ShowParams(params, Then(Closing(Paren), ShowOptional(Op(Arrow), result, rest)))))
  }

  function ShowClass(style: Style, s: Stmt, rest: Glyphs): Glyphs
    requires s.ClassDef?
    decreases s, 0
  {
    Word(s.name, ShowHeritage(s.bases, ShowSuite(style, s.body, rest)))
  }

  function ShowHeritage(bases: seq<Expr>, rest: Glyphs): Glyphs {
    if bases == [] then rest else Then(Open(Paren), ShowBases(bases, Then(Closing(Paren), rest)))
  }

  function ShowIf(style: Style, s: Stmt, rest: Glyphs): Glyphs
    requires s.IfStmt?
    decreases s, 0
  {
    Show(s.e, ShowSuite(style, s.body, ShowOrElse(style, s.orelse, rest)))
  }

  /** An if alone in an else suite may be an elif. */
  function ShowOrElse(style: Style, orelse: seq<Stmt>, rest: Glyphs): Glyphs
    decreases orelse, 3
  {
    if |orelse| == 1 && orelse[0].IfStmt? && !style.nests(rest) then Then(Keyword(Elif), ShowIf(style, orelse[0], rest))
    else ShowElse(style, orelse, rest)
  }

  function ShowElse(style: Style, orelse: seq<Stmt>, rest: Glyphs): Glyphs
    decreases orelse, 2
  {
    if orelse == [] then rest else Then(Keyword(Else), ShowSuite(style, orelse, rest))
  }

  function ShowSuite(style: Style, body: seq<Stmt>, rest: Glyphs): Glyphs
    decreases body, 1
  {
    if body != [] && AllSimple(body) && style.inline(rest) then Then(Colon, ShowLine(style, body, rest))
    else Then(Colon, Then(Newline, Then(Indent, ShowStmts(style, body, Then(Dedent, rest)))))
  }

  function EndOfLine(style: Style, rest: Glyphs): Glyphs {
    if style.trails(rest) then Then(Semicolon, Then(Newline, rest)) else Then(Newline, rest)
  }

  /** A suite on its header's line. */
  function ShowLine(style: Style, body: seq<Stmt>, rest: Glyphs): Glyphs
    requires body != [] && AllSimple(body)
    decreases body, 0
  {
    ShowSimple(body[0],
        if |body| == 1 then EndOfLine(style, rest) else Then(Semicolon, ShowLine(style, body[1..], rest)))
  }

  function ShowStmts(style: Style, body: seq<Stmt>, rest: Glyphs): Glyphs
    decreases body, 0
  {
    if body == [] then rest
    else
      var more := ShowStmts(style, body[1..], rest);
      if !IsSimple(body[0]) then ShowCompound(style, body[0], more)
      else ShowSimple(body[0], if SharesItsLine(style, body, more) then Then(Semicolon, more)
      else EndOfLine(style, more))
  }

  /** The first two statements stand on one line. */
  predicate SharesItsLine(style: Style, body: seq<Stmt>, more: Glyphs) {
    |body| > 1 && IsSimple(body[0]) && IsSimple(body[1]) && style.joins(more)
  }

  /** How many statements stand on the first line. */
  function OnTheLine(style: Style, body: seq<Stmt>, rest: Glyphs): (n: nat)
    requires body != []
    ensures 1 <= n <= |body|
    decreases body
  {
    if SharesItsLine(style, body, ShowStmts(style, body[1..], rest)) then 1 + OnTheLine(style, body[1..], rest) else 1
  }

  // ---------- Reading expressions back ----------

  /** The tokens that follow an expression in a statement. */
  predicate IsFollower(kind: TokenType) {
    kind in {Newline, Semicolon, Colon, Comma, Closing(Paren), Op(Assign), Op(Arrow)}
  }

  lemma ShowStarts(e: Expr, rest: Glyphs)
    requires Printable(e)
    ensures StartsExpression(Kind(Show(e, rest)))
  {
    PrintStarts(e, 0);
    KindOfSum(Print(e, 0), rest);
  }

  lemma FollowersEnd(rest: Glyphs)
    requires IsFollower(Kind(rest))
    ensures Ends(rest)
  {
  }

  lemma ShowReads(e: Expr, rest: Glyphs)
    requires Printable(e) && IsFollower(Kind(rest))
    ensures Expression(Show(e, rest)) == Parsed(e, rest)
    ensures Kind(rest) != Comma ==> ExpressionList(Show(e, rest)) == Parsed(e, rest)
    ensures StartsExpression(Kind(Show(e, rest)))
  {
    FollowersEnd(rest);
    ExpressionReads(e, rest);
    ShowStarts(e, rest);
    Alone(Show(e, rest), e, rest);
  }

  lemma Alone(ts: Glyphs, e: Expr, rest: Glyphs)
    requires Expression(ts) == Parsed(e, rest)
    ensures Kind(rest) != Comma ==> ExpressionList(ts) == Parsed(e, rest)
  {
  }

  lemma OptionalReads(kind: TokenType, e: Option<Expr>, rest: Glyphs)
    requires kind != Eof && AnyPrintable(e) && Kind(rest) != kind && (e.Some? ==> IsFollower(Kind(rest)))
    ensures Optional(kind, ShowOptional(kind, e, rest)) == Read(e, rest)
  {
    if e.Some? {
      AfterMark(kind, Show(e.value, rest));
      ShowReads(e.value, rest);
    }
  }

  /** What a simple statement is followed by on its line. */
  predicate EndsSimple(rest: Glyphs) {
    Kind(rest) == Newline || Kind(rest) == Semicolon
  }

  lemma InitialReads(e: Option<Expr>, rest: Glyphs)
    requires AnyPrintable(e) && EndsSimple(rest)
    ensures InitialOf(ShowOptional(Op(Assign), e, rest)) == Read(e, rest)
  {
    if e.Some? {
      AfterMark(Op(Assign), Show(e.value, rest));
      ShowReads(e.value, rest);
    }
  }

  lemma WordReads(name: string, rest: Glyphs)
    ensures NameOf(Word(name, rest)) == Read(name, rest)
  {
    assert Word(name, rest)[1..] == rest;
  }

  // ---------- Simple statements ----------

  /** No clause is waiting for what follows a statement. */
  predicate NoClause(rest: Glyphs) {
    Kind(rest) != Keyword(Else) && Kind(rest) != Keyword(Elif)
  }

  /** A statement that begins with an expression goes on by the token after it. */
  lemma ExpressionFirst(ts: Glyphs, e: Expr, more: Glyphs)
    requires StartsExpression(Kind(ts)) && ExpressionList(ts) == Parsed(e, more)
    ensures EndsSimple(more) ==> SimpleStmt(ts) == Read(ExprStmt(e), more)
    ensures Kind(more) == Op(Assign) ==> SimpleStmt(ts) == AssignmentOf(e, Next(more))
    ensures Kind(more) == Colon ==> SimpleStmt(ts) == AnnotationOf(e, Next(more))
  {
    NoKeywordFirst(ts);
    AfterFirst(ts, e, more);
  }

  lemma NoKeywordFirst(ts: Glyphs)
    requires StartsExpression(Kind(ts))
    ensures SimpleStmt(ts) == ExpressionStmt(ts)
  {
    hide ExpressionStmt, ReturnOf;
  }

  lemma AfterFirst(ts: Glyphs, e: Expr, more: Glyphs)
    requires ExpressionList(ts) == Parsed(e, more)
    ensures EndsSimple(more) ==> ExpressionStmt(ts) == Read(ExprStmt(e), more)
    ensures Kind(more) == Op(Assign) ==> ExpressionStmt(ts) == AssignmentOf(e, Next(more))
    ensures Kind(more) == Colon ==> ExpressionStmt(ts) == AnnotationOf(e, Next(more))
  {
    assert Value(ExpressionList(ts)) == Read(e, more);
  }

  lemma AssignmentEnds(target: Expr, ts: Glyphs, e: Expr, rest: Glyphs)
    requires IsAssignable(target) && ExpressionList(ts) == Parsed(e, rest)
    ensures AssignmentOf(target, ts) == Read(AssignStmt(target, e), rest)
  {
  }

  lemma AnnotationEnds(target: Expr, ts: Glyphs, annotation: Expr, tail: Glyphs, initial: Option<Expr>, rest: Glyphs)
    requires IsAssignable(target) && !target.TupleExpr?
    requires Expression(ts) == Parsed(annotation, tail) && InitialOf(tail) == Read(initial, rest)
    ensures AnnotationOf(target, ts) == Read(AnnAssign(target, annotation, initial), rest)
  {
  }

  lemma ExprStmtReads(e: Expr, line: Glyphs)
    requires Printable(e) && EndsSimple(line)
    ensures SimpleStmt(ShowSimple(ExprStmt(e), line)) == Read(ExprStmt(e), line)
  {
    ShowReads(e, line);
    ExpressionFirst(Show(e, line), e, line);
  }

  lemma AssignStmtReads(target: Expr, e: Expr, line: Glyphs)
    requires Printable(target) && IsAssignable(target) && Printable(e) && EndsSimple(line)
    ensures SimpleStmt(ShowSimple(AssignStmt(target, e), line)) == Read(AssignStmt(target, e), line)
  {
    hide Show, Expression, SimpleStmt, AssignmentOf, ExpressionList;
    var more := Then(Op(Assign), Show(e, line));
    ShowReads(e, line);
    AfterMark(Op(Assign), Show(e, line));
    ShowReads(target, more);
    ExpressionFirst(Show(target, more), target, more);
    AssignmentEnds(target, Show(e, line), e, line);
  }

  lemma AnnotationReads(target: Expr, annotation: Expr, initial: Option<Expr>, line: Glyphs)
    requires IsAssignable(target) && !target.TupleExpr? && Printable(annotation) && AnyPrintable(initial)
    requires EndsSimple(line)
    ensures AnnotationOf(target, Show(annotation, ShowOptional(Op(Assign), initial, line)))
         == Read(AnnAssign(target, annotation, initial), line)
  {
    var tail := ShowOptional(Op(Assign), initial, line);
    InitialReads(initial, line);
    OptionalStarts(Op(Assign), initial, line);
    ShowReads(annotation, tail);
    AnnotationEnds(target, Show(annotation, tail), annotation, tail, initial, line);
  }

  lemma AnnAssignReads(target: Expr, annotation: Expr, initial: Option<Expr>, line: Glyphs)
    requires Printable(target) && IsAssignable(target) && !target.TupleExpr?
    requires Printable(annotation) && AnyPrintable(initial) && EndsSimple(line)
    ensures var s := AnnAssign(target, annotation, initial); SimpleStmt(ShowSimple(s, line)) == Read(s, line)
  {
    hide Show, Expression, SimpleStmt, AnnotationOf, ExpressionList, ShowOptional, Printable;
    var tail := ShowOptional(Op(Assign), initial, line);
    var more := Then(Colon, Show(annotation, tail));
    AnnotationReads(target, annotation, initial, line);
    AfterMark(Colon, Show(annotation, tail));
    ShowReads(target, more);
    ExpressionFirst(Show(target, more), target, more);
  }

  lemma OptionalStarts(kind: TokenType, e: Option<Expr>, rest: Glyphs)
    requires kind != Eof
    ensures Kind(ShowOptional(kind, e, rest)) == if e.Some? then kind else Kind(rest)
  {
    if e.Some? {
      AfterMark(kind, Show(e.value, rest));
    }
  }

  lemma ReturnEnds(ts: Glyphs, line: Glyphs)
    requires Kind(ts) == Keyword(Return) && Next(ts) == line && EndsSimple(line)
    ensures SimpleStmt(ts) == Read(ReturnStmt(Option.None), line)
  {
  }

  lemma ReturnsValue(ts: Glyphs, value: Glyphs, e: Expr, line: Glyphs)
    requires Kind(ts) == Keyword(Return) && Next(ts) == value && StartsExpression(Kind(value))
    requires ExpressionList(value) == Parsed(e, line)
    ensures SimpleStmt(ts) == Read(ReturnStmt(Some(e)), line)
  {
    assert ReturnOf(value) == Read(ReturnStmt(Some(e)), line);
  }

  lemma ReturnReads(initial: Option<Expr>, line: Glyphs)
    requires AnyPrintable(initial) && EndsSimple(line)
    ensures SimpleStmt(ShowSimple(ReturnStmt(initial), line)) == Read(ReturnStmt(initial), line)
  {
    hide Show, SimpleStmt, ExpressionList;
    if initial.None? {
      AfterMark(Keyword(Return), line);
      ReturnEnds(Then(Keyword(Return), line), line);
    } else {
      var value := Show(initial.value, line);
      AfterMark(Keyword(Return), value);
      ShowReads(initial.value, line);
      ReturnsValue(Then(Keyword(Return), value), value, initial.value, line);
    }
  }

  lemma SimpleReads(s: Stmt, line: Glyphs)
    requires IsSimple(s) && StmtPrintable(s) && EndsSimple(line)
    ensures SimpleStmt(ShowSimple(s, line)) == Read(s, line)
  {
    match s
    case ExprStmt(e) => ExprStmtReads(e, line);
    case AssignStmt(target, e) => AssignStmtReads(target, e, line);
    case AnnAssign(target, annotation, initial) => AnnAssignReads(target, annotation, initial, line);
    case ReturnStmt(initial) => ReturnReads(initial, line);
    case PassStmt => AfterMark(Keyword(Pass), line);
    case BreakStmt => AfterMark(Keyword(Break), line);
    case ContinueStmt => AfterMark(Keyword(Continue), line);
  }

  lemma ExpressionStartsLine(ts: Glyphs)
    requires StartsExpression(Kind(ts))
    ensures !IsStructural(Kind(ts)) && Kind(ts) != Semicolon && !IsCompoundKeyword(Kind(ts)) && NoClause(ts)
  {
  }

  /** How a statement begins: with nothing that ends, opens or continues a block. */
  lemma SimpleStarts(s: Stmt, line: Glyphs)
    requires IsSimple(s) && StmtPrintable(s)
    ensures var kind := Kind(ShowSimple(s, line));
      !IsStructural(kind) && kind != Semicolon && !IsCompoundKeyword(kind) && NoClause(ShowSimple(s, line))
  {
    if s.ExprStmt? {
      ShowStarts(s.e, line);
      ExpressionStartsLine(Show(s.e, line));
    } else if s.AssignStmt? {
      ShowStarts(s.target, Then(Op(Assign), Show(s.e, line)));
      ExpressionStartsLine(ShowSimple(s, line));
    } else if s.AnnAssign? {
      ShowStarts(s.target, Then(Colon, Show(s.annotation, ShowOptional(Op(Assign), s.initial, line))));
      ExpressionStartsLine(ShowSimple(s, line));
    } else {
      assert Kind(ShowSimple(s, line)) in {Keyword(Pass), Keyword(Break), Keyword(Continue), Keyword(Return)};
    }
  }

  // ---------- Lines ----------

  lemma LineStep(done: seq<Stmt>, ts: Glyphs, s: Stmt, line: Glyphs)
    requires SimpleStmt(ts) == Read(s, line)
    ensures Kind(line) == Newline ==> LineMore(done, ts) == Read(done + [s], Next(line))
    ensures Kind(line) == Semicolon && Kind(Next(line)) == Newline
         ==> LineMore(done, ts) == Read(done + [s], Next(Next(line)))
    ensures Kind(line) == Semicolon && !EndsAStatement(Kind(Next(line)))
         ==> LineMore(done, ts) == LineMore(done + [s], Next(line))
  {
  }

  /** The last statement of a line. */
  lemma LastReads(style: Style, done: seq<Stmt>, s: Stmt, rest: Glyphs)
    requires IsSimple(s) && StmtPrintable(s)
    ensures LineMore(done, ShowSimple(s, EndOfLine(style, rest))) == Read(done + [s], rest)
  {
    hide ShowSimple, SimpleStmt;
    AfterMark(Newline, rest);
    AfterMark(Semicolon, Then(Newline, rest));
    SimpleReads(s, EndOfLine(style, rest));
    LineStep(done, ShowSimple(s, EndOfLine(style, rest)), s, EndOfLine(style, rest));
  }

  /** A statement with another one after it on its line. */
  lemma JoinedReads(done: seq<Stmt>, s: Stmt, more: Glyphs)
    requires IsSimple(s) && StmtPrintable(s) && !EndsAStatement(Kind(more))
    ensures LineMore(done, ShowSimple(s, Then(Semicolon, more))) == LineMore(done + [s], more)
  {
    hide ShowSimple, SimpleStmt;
    AfterMark(Semicolon, more);
    SimpleReads(s, Then(Semicolon, more));
    LineStep(done, ShowSimple(s, Then(Semicolon, more)), s, Then(Semicolon, more));
  }

  /** A suite on its header's line is read to the end of that line. */
  lemma {:induction false} InlineReads(style: Style, done: seq<Stmt>, body: seq<Stmt>, rest: Glyphs)
    requires body != [] && AllSimple(body) && AllStmtsPrintable(body)
    ensures LineMore(done, ShowLine(style, body, rest)) == Read(done + body, rest)
    ensures !EndsAStatement(Kind(ShowLine(style, body, rest)))
    decreases body
  {
    hide ShowSimple, LineMore;
    if |body| == 1 {
      LastReads(style, done, body[0], rest);
      SimpleStarts(body[0], EndOfLine(style, rest));
      assert body == [body[0]];
    } else {
      var more := ShowLine(style, body[1..], rest);
      InlineReads(style, done + [body[0]], body[1..], rest);
      JoinedReads(done, body[0], more);
      SimpleStarts(body[0], Then(Semicolon, more));
      Shift(done, body);
    }
  }

  lemma LineHead(style: Style, body: seq<Stmt>, rest: Glyphs)
    requires body != [] && IsSimple(body[0])
    ensures var more := ShowStmts(style, body[1..], rest);
      ShowStmts(style, body, rest)
      == ShowSimple(body[0], if SharesItsLine(style, body, more) then Then(Semicolon, more) else EndOfLine(style, more))
  {
  }

  lemma StmtsStartSimple(style: Style, body: seq<Stmt>, rest: Glyphs)
    requires body != [] && IsSimple(body[0]) && AllStmtsPrintable(body)
    ensures var ts := ShowStmts(style, body, rest);
      !IsStructural(Kind(ts)) && Kind(ts) != Semicolon && !IsCompoundKeyword(Kind(ts)) && NoClause(ts)
  {
    var more := ShowStmts(style, body[1..], rest);
    LineHead(style, body, rest);
    SimpleStarts(body[0], if SharesItsLine(style, body, more) then Then(Semicolon, more) else EndOfLine(style, more));
  }

  /** A line of a suite gives the statements printed on it, and stops where the next line
      begins. */
  lemma {:induction false} LineReads(style: Style, done: seq<Stmt>, body: seq<Stmt>, rest: Glyphs)
    requires body != [] && IsSimple(body[0]) && AllStmtsPrintable(body)
    ensures var n := OnTheLine(style, body, rest);
      LineMore(done, ShowStmts(style, body, rest)) == Read(done + body[..n], ShowStmts(style, body[n..], rest))
    decreases body
  {
    hide ShowSimple, LineMore, ShowStmts, EndOfLine, Then, StmtPrintable, NoClause;
    var more := ShowStmts(style, body[1..], rest);
    LineHead(style, body, rest);
    if SharesItsLine(style, body, more) {
      var n := OnTheLine(style, body[1..], rest);
      LineReads(style, done + [body[0]], body[1..], rest);
      StmtsStartSimple(style, body[1..], rest);
      JoinedReads(done, body[0], more);
      assert body[1..][n..] == body[1 + n..];
      assert done + [body[0]] + body[1..][..n] == done + body[..1 + n];
    } else {
      LastReads(style, done, body[0], more);
      assert body[..1] == [body[0]];
    }
  }

  // ---------- Headers ----------

  lemma ParameterReads(p: Parameter, rest: Glyphs)
    requires AnyPrintable(p.annotation) && AnyPrintable(p.default)
    requires Kind(rest) == Comma || Kind(rest) == Closing(Paren)
    ensures ParameterOf(Word(p.name, ShowOptional(Colon, p.annotation, ShowOptional(Op(Assign), p.default, rest))))
         == Read(p, rest)
  {
    var default := ShowOptional(Op(Assign), p.default, rest);
    OptionalStarts(Op(Assign), p.default, rest);
    OptionalReads(Op(Assign), p.default, rest);
    OptionalReads(Colon, p.annotation, default);
    WordReads(p.name, ShowOptional(Colon, p.annotation, default));
  }

  lemma ParamsStep(done: seq<Parameter>, ts: Glyphs, p: Parameter, more: Glyphs)
    requires ParameterOf(ts) == Read(p, more)
    ensures Kind(more) == Closing(Paren) ==> ParamsMore(done, ts) == Read(done + [p], Next(more))
    ensures Kind(more) == Comma && Kind(Next(more)) == Identifier
        ==> ParamsMore(done, ts) == ParamsMore(done + [p], Next(more))
  {
  }

  lemma FirstParameterReads(params: seq<Parameter>, closing: Glyphs)
    requires params != [] && ParamsPrintable(params) && Kind(closing) == Closing(Paren)
    ensures ParameterOf(ShowParams(params, closing))
         == Read(params[0], if |params| == 1 then closing else Then(Comma, ShowParams(params[1..], closing)))
  {
    if |params| == 1 {
      ParameterReads(params[0], closing);
    } else {
      AfterMark(Comma, ShowParams(params[1..], closing));
      ParameterReads(params[0], Then(Comma, ShowParams(params[1..], closing)));
    }
  }

  lemma ParamsStart(params: seq<Parameter>, rest: Glyphs)
    requires params != []
    ensures Kind(ShowParams(params, rest)) == Identifier
  {
  }

  lemma {:induction false} ParamsReadOn(done: seq<Parameter>, params: seq<Parameter>, closing: Glyphs)
    requires params != [] && ParamsPrintable(params) && Kind(closing) == Closing(Paren)
    ensures ParamsMore(done, ShowParams(params, closing)) == Read(done + params, Next(closing))
    decreases params
  {
    FirstParameterReads(params, closing);
    if |params| == 1 {
      ParamsStep(done, ShowParams(params, closing), params[0], closing);
      assert params == [params[0]];
    } else {
      var more := ShowParams(params[1..], closing);
      AfterMark(Comma, more);
      ParamsStart(params[1..], closing);
      ParamsStep(done, ShowParams(params, closing), params[0], Then(Comma, more));
      ParamsReadOn(done + [params[0]], params[1..], closing);
      Shift(done, params);
    }
  }

  lemma ParamsOpen(ts: Glyphs, inside: Glyphs, params: seq<Parameter>, rest: Glyphs)
    requires Kind(ts) == Open(Paren) && Next(ts) == inside && Kind(inside) == Identifier
    requires ParamsMore([], inside) == Read(params, rest)
    ensures ParamsOf(ts) == Read(params, rest)
  {
  }

  lemma NoParams(ts: Glyphs, closing: Glyphs)
    requires Kind(ts) == Open(Paren) && Next(ts) == closing && Kind(closing) == Closing(Paren)
    ensures ParamsOf(ts) == Read([], Next(closing))
  {
  }

  lemma SomeParamsRead(params: seq<Parameter>, closing: Glyphs)
    requires params != [] && ParamsPrintable(params) && Kind(closing) == Closing(Paren)
    ensures Kind(ShowParams(params, closing)) == Identifier
    ensures ParamsMore([], ShowParams(params, closing)) == Read(params, Next(closing))
  {
    ParamsReadOn([], params, closing);
    ParamsStart(params, closing);
    assert [] + params == params;
  }

  lemma ParamsRead(params: seq<Parameter>, rest: Glyphs)
    requires ParamsPrintable(params)
    ensures ParamsOf(Then(Open(Paren), ShowParams(params, Then(Closing(Paren), rest)))) == Read(params, rest)
  {
    var closing := Then(Closing(Paren), rest);
    var inside := ShowParams(params, closing);
    AfterMark(Open(Paren), inside);
    AfterMark(Closing(Paren), rest);
    if params == [] {
      NoParams(Then(Open(Paren), inside), closing);
    } else {
      SomeParamsRead(params, closing);
      ParamsOpen(Then(Open(Paren), inside), inside, params, rest);
    }
  }

  lemma DefHeaderReads(name: string, params: seq<Parameter>, result: Option<Expr>, rest: Glyphs)
    requires ParamsPrintable(params) && AnyPrintable(result) && Kind(rest) == Colon
    ensures DefHeaderOf(ShowDefHeader(name, params, result, rest)) == Read((name, params, result), rest)
  {
    var arrow := ShowOptional(Op(Arrow), result, rest);
    OptionalReads(Op(Arrow), result, rest);
    ParamsRead(params, arrow);
    WordReads(name, Then(Open(Paren), ShowParams(params, Then(Closing(Paren), arrow))));
  }

  lemma BasesStep(done: seq<Expr>, ts: Glyphs, base: Expr, more: Glyphs)
    requires Expression(ts) == Parsed(base, more)
    ensures Kind(more) == Closing(Paren) ==> BasesMore(done, ts) == Read(done + [base], Next(more))
    ensures Kind(more) == Comma && StartsExpression(Kind(Next(more)))
        ==> BasesMore(done, ts) == BasesMore(done + [base], Next(more))
  {
  }

  lemma FirstBaseReads(bases: seq<Expr>, closing: Glyphs)
    requires bases != [] && AllPrintable(bases) && Kind(closing) == Closing(Paren)
    ensures Expression(ShowBases(bases, closing))
         == Parsed(bases[0], if |bases| == 1 then closing else Then(Comma, ShowBases(bases[1..], closing)))
  {
    if |bases| == 1 {
      ShowReads(bases[0], closing);
    } else {
      AfterMark(Comma, ShowBases(bases[1..], closing));
      ShowReads(bases[0], Then(Comma, ShowBases(bases[1..], closing)));
    }
  }

  lemma {:induction false} BasesReadOn(done: seq<Expr>, bases: seq<Expr>, closing: Glyphs)
    requires bases != [] && AllPrintable(bases) && Kind(closing) == Closing(Paren)
    ensures BasesMore(done, ShowBases(bases, closing)) == Read(done + bases, Next(closing))
    decreases bases
  {
    FirstBaseReads(bases, closing);
    if |bases| == 1 {
      BasesStep(done, ShowBases(bases, closing), bases[0], closing);
      assert bases == [bases[0]];
    } else {
      var more := ShowBases(bases[1..], closing);
      AfterMark(Comma, more);
      BasesStart(bases[1..], closing);
      BasesStep(done, ShowBases(bases, closing), bases[0], Then(Comma, more));
      BasesReadOn(done + [bases[0]], bases[1..], closing);
      Shift(done, bases);
    }
  }

  lemma BasesStart(bases: seq<Expr>, rest: Glyphs)
    requires bases != [] && AllPrintable(bases)
    ensures StartsExpression(Kind(ShowBases(bases, rest)))
  {
    PrintStarts(bases[0], 0);
    KindOfSum(Print(bases[0], 0), if |bases| == 1 then rest else Then(Comma, ShowBases(bases[1..], rest)));
  }

  lemma BasesRead(bases: seq<Expr>, rest: Glyphs)
    requires bases != [] && AllPrintable(bases)
    ensures BasesOf(ShowBases(bases, Then(Closing(Paren), rest))) == Read(bases, rest)
  {
    var closing := Then(Closing(Paren), rest);
    AfterMark(Closing(Paren), rest);
    BasesStart(bases, closing);
    BasesReadOn([], bases, closing);
    assert [] + bases == bases;
  }

  lemma HeritageOpens(ts: Glyphs, name: string, heritage: Glyphs, inside: Glyphs, bases: seq<Expr>, rest: Glyphs)
    requires NameOf(ts) == Read(name, heritage) && Kind(heritage) == Open(Paren) && Next(heritage) == inside
    requires BasesOf(inside) == Read(bases, rest)
    ensures ClassHeaderOf(ts) == Read((name, bases), rest)
  {
  }

  lemma ClassHeaderReads(name: string, bases: seq<Expr>, rest: Glyphs)
    requires AllPrintable(bases) && Kind(rest) == Colon
    ensures ClassHeaderOf(Word(name, ShowHeritage(bases, rest))) == Read((name, bases), rest)
  {
    var heritage := ShowHeritage(bases, rest);
    WordReads(name, heritage);
    if bases != [] {
      var inside := ShowBases(bases, Then(Closing(Paren), rest));
      AfterMark(Open(Paren), inside);
      BasesRead(bases, rest);
      HeritageOpens(Word(name, heritage), name, heritage, inside, bases, rest);
    }
  }

  lemma ForHeaderReads(target: Expr, e: Expr, rest: Glyphs)
    requires Printable(target) && IsAssignable(target) && Printable(e) && Kind(rest) == Colon
    ensures ForHeaderOf(Print(target, 12) + Then(Op(In), Show(e, rest))) == Read((target, e), rest)
  {
    var iterable := Show(e, rest);
    ShowReads(e, rest);
    AfterMark(Op(In), iterable);
    InStops(Then(Op(In), iterable));
    Reads(target, 12, Then(Op(In), iterable));
    TargetReads(Print(target, 12) + Then(Op(In), iterable), target, Then(Op(In), iterable));
    HeaderEnds(Print(target, 12) + Then(Op(In), iterable), target, Then(Op(In), iterable), e, rest);
  }

  lemma HeaderEnds(ts: Glyphs, target: Expr, more: Glyphs, e: Expr, rest: Glyphs)
    requires Target(ts) == Parsed(target, more) && Kind(more) == Op(In)
    requires ExpressionList(Next(more)) == Parsed(e, rest)
    ensures ForHeaderOf(ts) == Read((target, e), rest)
  {
  }

  // ---------- Suites and compound statements ----------

  lemma SuiteStarts(style: Style, body: seq<Stmt>, rest: Glyphs)
    ensures Kind(ShowSuite(style, body, rest)) == Colon
  {
  }

  lemma CompoundStarts(style: Style, s: Stmt, rest: Glyphs)
    requires !IsSimple(s)
    ensures IsCompoundKeyword(Kind(ShowCompound(style, s, rest)))
  {
  }

  lemma StmtsStart(style: Style, body: seq<Stmt>, rest: Glyphs)
    requires AllStmtsPrintable(body) && NoClause(rest)
    ensures NoClause(ShowStmts(style, body, rest))
  {
    if body != [] {
      if IsSimple(body[0]) {
        StmtsStartSimple(style, body, rest);
      } else {
        CompoundStarts(style, body[0], ShowStmts(style, body[1..], rest));
      }
    }
  }

  /** The first line of a suite, or the compound statement that begins there. */
  lemma {:induction false} OneReads(style: Style, body: seq<Stmt>, rest: Glyphs)
    requires body != [] && AllStmtsPrintable(body) && NoClause(rest)
    ensures !IsStructural(Kind(ShowStmts(style, body, rest)))
    ensures var n := OnTheLine(style, body, rest);
      OneOf(ShowStmts(style, body, rest)) == Read(body[..n], ShowStmts(style, body[n..], rest))
    decreases body, 0
  {
    hide ShowCompound, LineMore;
    if IsSimple(body[0]) {
      StmtsStartSimple(style, body, rest);
      LineReads(style, [], body, rest);
      assert [] + body[..OnTheLine(style, body, rest)] == body[..OnTheLine(style, body, rest)];
    } else {
      StmtsStart(style, body[1..], rest);
      CompoundStarts(style, body[0], ShowStmts(style, body[1..], rest));
      CompoundReads(style, body[0], ShowStmts(style, body[1..], rest));
      assert body[..1] == [body[0]];
    }
  }

  lemma {:induction false} CompoundReads(style: Style, s: Stmt, rest: Glyphs)
    requires StmtPrintable(s) && NoClause(rest) && !IsSimple(s)
    ensures Kind(ShowCompound(style, s, rest)) != Eof
    ensures CompoundOf(ShowCompound(style, s, rest)) == Read(s, rest)
    decreases s, 1
  {
    if s.IfStmt? {
      IfReads(style, s, rest);
      Dispatch(Keyword(If), ShowIf(style, s, rest));
    } else if s.WhileStmt? {
      WhileReads(style, s, rest);
      Dispatch(Keyword(While), ShowWhile(style, s, rest));
    } else if s.ForStmt? {
      ForReads(style, s, rest);
      Dispatch(Keyword(For), ShowFor(style, s, rest));
    } else if s.FunctionDef? {
      DefReads(style, s, rest);
      Dispatch(Keyword(Def), ShowDef(style, s, rest));
    } else {
      ClassReads(style, s, rest);
      Dispatch(Keyword(Class), ShowClass(style, s, rest));
    }
  }

  lemma Dispatch(kind: TokenType, ts: Glyphs)
    requires IsCompoundKeyword(kind)
    ensures Kind(Then(kind, ts)) == kind
    ensures CompoundOf(Then(kind, ts))
         == (if kind == Keyword(If) then IfOf(ts) else if kind == Keyword(While) then WhileOf(ts)
             else if kind == Keyword(For) then ForOf(ts) else if kind == Keyword(Def) then DefOf(ts) else ClassOf(ts))
  {
    AfterMark(kind, ts);
  }

  lemma {:induction false} IfReads(style: Style, s: Stmt, rest: Glyphs)
    requires s.IfStmt? && StmtPrintable(s) && NoClause(rest)
    ensures IfOf(ShowIf(style, s, rest)) == Read(s, rest)
    decreases s, 0
  {
    var after := ShowOrElse(style, s.orelse, rest);
    var suite := ShowSuite(style, s.body, after);
    SuiteStarts(style, s.body, after);
    ShowReads(s.e, suite);
    SuiteReads(style, s.body, after);
    OrElseReads(style, s.orelse, rest);
    IfEnds(ShowIf(style, s, rest), s.e, suite, s.body, after, s.orelse, rest);
  }

  lemma {:induction false} OrElseReads(style: Style, orelse: seq<Stmt>, rest: Glyphs)
    requires AllStmtsPrintable(orelse) && NoClause(rest)
    ensures OrElseOf(ShowOrElse(style, orelse, rest)) == Read(orelse, rest)
    decreases orelse, 4
  {
    if |orelse| == 1 && orelse[0].IfStmt? && !style.nests(rest) {
      AfterMark(Keyword(Elif), ShowIf(style, orelse[0], rest));
      IfReads(style, orelse[0], rest);
      assert orelse == [orelse[0]];
    } else {
      if orelse != [] {
        AfterMark(Keyword(Else), ShowSuite(style, orelse, rest));
      }
      ElseReads(style, orelse, rest);
    }
  }

  lemma {:induction false} ElseReads(style: Style, orelse: seq<Stmt>, rest: Glyphs)
    requires AllStmtsPrintable(orelse) && NoClause(rest)
    ensures ElseOf(ShowElse(style, orelse, rest)) == Read(orelse, rest)
    decreases orelse, 3
  {
    if orelse != [] {
      AfterMark(Keyword(Else), ShowSuite(style, orelse, rest));
      SuiteReads(style, orelse, rest);
    }
  }

  lemma SuitesJoin(ts: Glyphs, body: seq<Stmt>, after: Glyphs, orelse: seq<Stmt>, rest: Glyphs)
    requires Suite(ts) == Read(body, after) && ElseOf(after) == Read(orelse, rest)
    ensures LoopSuitesOf(ts) == Read((body, orelse), rest)
  {
  }

  lemma WhileEnds(ts: Glyphs, e: Expr, suites: Glyphs, body: seq<Stmt>, orelse: seq<Stmt>, rest: Glyphs)
    requires Expression(ts) == Parsed(e, suites) && LoopSuitesOf(suites) == Read((body, orelse), rest)
    ensures WhileOf(ts) == Read(WhileStmt(e, body, orelse), rest)
  {
  }

  lemma ForEnds(ts: Glyphs, target: Expr, e: Expr, suites: Glyphs, body: seq<Stmt>, orelse: seq<Stmt>, rest: Glyphs)
    requires ForHeaderOf(ts) == Read((target, e), suites) && LoopSuitesOf(suites) == Read((body, orelse), rest)
    ensures ForOf(ts) == Read(ForStmt(target, e, body, orelse), rest)
  {
  }

  lemma DefEnds(
      ts: Glyphs, name: string, params: seq<Parameter>,
      result: Option<Expr>, suite: Glyphs, body: seq<Stmt>, rest: Glyphs)
    requires DefHeaderOf(ts) == Read((name, params, result), suite) && Suite(suite) == Read(body, rest)
    ensures DefOf(ts) == Read(FunctionDef(name, params, result, body), rest)
  {
  }

  lemma ClassEnds(ts: Glyphs, name: string, bases: seq<Expr>, suite: Glyphs, body: seq<Stmt>, rest: Glyphs)
    requires ClassHeaderOf(ts) == Read((name, bases), suite) && Suite(suite) == Read(body, rest)
    ensures ClassOf(ts) == Read(ClassDef(name, bases, body), rest)
  {
  }

  lemma IfEnds(ts: Glyphs, e: Expr, suite: Glyphs, body: seq<Stmt>, after: Glyphs, orelse: seq<Stmt>, rest: Glyphs)
    requires Expression(ts) == Parsed(e, suite) && Suite(suite) == Read(body, after)
        && OrElseOf(after) == Read(orelse, rest)
    ensures IfOf(ts) == Read(IfStmt(e, body, orelse), rest)
  {
  }

  lemma {:induction false} WhileReads(style: Style, s: Stmt, rest: Glyphs)
    requires s.WhileStmt? && StmtPrintable(s) && NoClause(rest)
    ensures WhileOf(ShowWhile(style, s, rest)) == Read(s, rest)
    decreases s, 0
  {
    var after := ShowElse(style, s.orelse, rest);
    var suites := ShowSuite(style, s.body, after);
    SuiteStarts(style, s.body, after);
    ShowReads(s.e, suites);
    SuiteReads(style, s.body, after);
    ElseReads(style, s.orelse, rest);
    SuitesJoin(suites, s.body, after, s.orelse, rest);
    WhileEnds(ShowWhile(style, s, rest), s.e, suites, s.body, s.orelse, rest);
  }

  lemma {:induction false} ForReads(style: Style, s: Stmt, rest: Glyphs)
    requires s.ForStmt? && StmtPrintable(s) && NoClause(rest)
    ensures ForOf(ShowFor(style, s, rest)) == Read(s, rest)
    decreases s, 0
  {
    var after := ShowElse(style, s.orelse, rest);
    var suites := ShowSuite(style, s.body, after);
    SuiteStarts(style, s.body, after);
    ForHeaderReads(s.target, s.e, suites);
    SuiteReads(style, s.body, after);
    ElseReads(style, s.orelse, rest);
    SuitesJoin(suites, s.body, after, s.orelse, rest);
    ForEnds(ShowFor(style, s, rest), s.target, s.e, suites, s.body, s.orelse, rest);
  }

  lemma {:induction false} DefReads(style: Style, s: Stmt, rest: Glyphs)
    requires s.FunctionDef? && StmtPrintable(s) && NoClause(rest)
    ensures DefOf(ShowDef(style, s, rest)) == Read(s, rest)
    decreases s, 0
  {
    var suite := ShowSuite(style, s.body, rest);
    SuiteStarts(style, s.body, rest);
    DefHeaderReads(s.name, s.params, s.result, suite);
    SuiteReads(style, s.body, rest);
    DefEnds(ShowDef(style, s, rest), s.name, s.params, s.result, suite, s.body, rest);
  }

  lemma {:induction false} ClassReads(style: Style, s: Stmt, rest: Glyphs)
    requires s.ClassDef? && StmtPrintable(s) && NoClause(rest)
    ensures ClassOf(ShowClass(style, s, rest)) == Read(s, rest)
    decreases s, 0
  {
    var suite := ShowSuite(style, s.body, rest);
    SuiteStarts(style, s.body, rest);
    ClassHeaderReads(s.name, s.bases, suite);
    SuiteReads(style, s.body, rest);
    ClassEnds(ShowClass(style, s, rest), s.name, s.bases, suite, s.body, rest);
  }

  lemma SuiteOpens(inside: Glyphs)
    ensures Suite(Then(Colon, Then(Newline, Then(Indent, inside)))) == BlockOf(Then(Indent, inside))
  {
    AfterMark(Indent, inside);
    AfterMark(Newline, Then(Indent, inside));
    AfterMark(Colon, Then(Newline, Then(Indent, inside)));
  }

  lemma SuiteGoesOn(line: Glyphs)
    requires Kind(line) != Newline
    ensures Suite(Then(Colon, line)) == LineMore([], line)
  {
    AfterMark(Colon, line);
  }

  lemma BlockEnds(ts: Glyphs, body: seq<Stmt>, closing: Glyphs)
    requires Kind(ts) == Indent && Kind(closing) == Dedent
    requires Statements([], Next(ts)) == Statements(body, closing)
    ensures BlockOf(ts) == Read(body, Next(closing))
  {
  }

  lemma {:induction false} SuiteReads(style: Style, body: seq<Stmt>, rest: Glyphs)
    requires SuitePrintable(body)
    ensures Suite(ShowSuite(style, body, rest)) == Read(body, rest)
    decreases body, 2
  {
    hide ShowStmts, ShowLine, Suite, BlockOf, Statements, LineMore;
    assert [] + body == body;
    if AllSimple(body) && style.inline(rest) {
      InlineReads(style, [], body, rest);
      SuiteGoesOn(ShowLine(style, body, rest));
    } else {
      var closing := Then(Dedent, rest);
      var inside := ShowStmts(style, body, closing);
      AfterMark(Dedent, rest);
      AfterMark(Indent, inside);
      SuiteOpens(inside);
      StatementsRead(style, [], body, closing);
      BlockEnds(Then(Indent, inside), body, closing);
    }
  }

  lemma StatementsStep(done: seq<Stmt>, ts: Glyphs, line: seq<Stmt>, more: Glyphs)
    requires !IsStructural(Kind(ts)) && OneOf(ts) == Read(line, more)
    ensures Statements(done, ts) == Statements(done + line, more)
  {
  }

  lemma {:induction false} StatementsRead(style: Style, done: seq<Stmt>, body: seq<Stmt>, rest: Glyphs)
    requires AllStmtsPrintable(body) && NoClause(rest)
    ensures Statements(done, ShowStmts(style, body, rest)) == Statements(done + body, rest)
    decreases body, 1
  {
    hide OneOf, Statements;
    if body == [] {
      assert done + body == done;
    } else {
      var n := OnTheLine(style, body, rest);
      OneReads(style, body, rest);
      StatementsStep(done, ShowStmts(style, body, rest), body[..n], ShowStmts(style, body[n..], rest));
      LaterPrintable(body, n);
      StatementsRead(style, done + body[..n], body[n..], rest);
      assert done + body[..n] + body[n..] == done + body;
    }
  }

  lemma {:induction false} LaterPrintable(body: seq<Stmt>, n: nat)
    requires AllStmtsPrintable(body) && n <= |body|
    ensures AllStmtsPrintable(body[n..])
    decreases n
  {
    if n > 0 {
      LaterPrintable(body[1..], n - 1);
      assert body[1..][n - 1..] == body[n..];
    }
  }

  /** A program printed in any style is read as itself. */
  lemma ProgramReads(style: Style, body: seq<Stmt>)
    requires AllStmtsPrintable(body)
    ensures ModuleOf(ShowStmts(style, body, Mark(Eof))) == Read(body, Mark(Eof))
  {
    StatementsRead(style, [], body, Mark(Eof));
    assert [] + body == body;
  }

  /** Two styles of one program are read as one program, and texts of different programs
      differ in every style. */
  lemma StyleIsFree(style: Style, other: Style, body: seq<Stmt>, more: seq<Stmt>)
    requires AllStmtsPrintable(body) && AllStmtsPrintable(more)
    ensures ModuleOf(ShowStmts(style, body, Mark(Eof))) == ModuleOf(ShowStmts(other, body, Mark(Eof)))
    ensures ShowStmts(style, body, Mark(Eof)) == ShowStmts(other, more, Mark(Eof)) ==> body == more
  {
    ProgramReads(style, body);
    ProgramReads(other, body);
    ProgramReads(other, more);
  }
}
