/** Parsing the minimally parenthesised form of a tree gives the tree back and stops right
    after it (sections 6.3 to 6.12 of the Python Language Reference). */
module ExpressionRoundTrip {
  import opened Options
  import opened Sequences
  import opened Tokens
  import opened Grammar

  // ---------- The printed form ----------

  /** How tightly a node binds: 0 `or`, 1 `and`, 2 `not`, 3 comparisons, 4 to 9 the binary
      levels, 10 signs, 11 `**`, 12 atoms and their trailers. */
  function Precedence(e: Expr): (k: nat)
    ensures k <= 12
  {
    match e
    case BoolOp(op, _) => if op == Or then 0 else 1
    case UnaryOp(op, _) => if op == Not then 2 else 10
    case Compare(_, _, _) => 3
    case BinOp(op, _, _) =>
      var level := BinaryLevel(Op(op));
      if level.Some? then 3 + level.value else 11
    case _ => 12
  }

  predicate IsComparisonSymbol(op: Symbol) {
    op in {Less, Greater, Equal, NotEqual, LessEqual, GreaterEqual, In, NotIn, Is, IsNot}
  }

  /** The trees the parser can build. */
  predicate Printable(e: Expr)
    decreases e
  {
    match e
    case Name(_) => true
    case Constant(kind, _) => IsLiteral(kind)
    case UnaryOp(op, x) => (op == Not || IsSign(Op(op))) && Printable(x)
    case BinOp(op, l, r) => (op == DoubleStar || BinaryLevel(Op(op)).Some?) && Printable(l) && Printable(r)
    case BoolOp(op, values) => (op == Or || op == And) && |values| >= 2 && AllPrintable(values)
    case Compare(first, ops, operands) =>
      |ops| == |operands| > 0 && (forall op :: op in ops ==> IsComparisonSymbol(op))
        && Printable(first) && AllPrintable(operands)
    case Attribute(value, _) => Printable(value)
    case Subscript(value, index) => Printable(value) && Printable(index)
    case Call(callee, args) => Printable(callee) && AllPrintable(args)
    case TupleExpr(elements) => AllPrintable(elements)
    case ListExpr(elements) => AllPrintable(elements)
    case DictExpr(entries) => EntriesPrintable(entries)
    case ListComp(element, clauses) => Printable(element) && clauses != [] && ClausesPrintable(clauses)
  }

  predicate AllPrintable(es: seq<Expr>)
    decreases es
  {
    es == [] || (Printable(es[0]) && AllPrintable(es[1..]))
  }

  predicate EntryPrintable(entry: DictEntry)
    decreases entry
  {
    Printable(entry.key) && Printable(entry.value)
  }

  predicate EntriesPrintable(entries: seq<DictEntry>)
    decreases entries
  {
    entries == [] || (EntryPrintable(entries[0]) && EntriesPrintable(entries[1..]))
  }

  predicate ClausePrintable(clause: Clause)
    decreases clause
  {
    && Printable(clause.target) && IsAssignable(clause.target)
    && Printable(clause.iterable) && AllPrintable(clause.conditions)
  }

  predicate ClausesPrintable(clauses: seq<Clause>)
    decreases clauses
  {
    clauses == [] || (ClausePrintable(clauses[0]) && ClausesPrintable(clauses[1..]))
  }

  function Mark(kind: TokenType): Glyphs {
    [Glyph(kind, "")]
  }

  /** `e` where only nodes of precedence `c` or tighter may stand bare. */
  function Print(e: Expr, c: nat): Glyphs
    decreases e, 1
  {
    if Precedence(e) < c then Mark(Open(Paren)) + Body(e) + Mark(Closing(Paren)) else Body(e)
  }

  function Body(e: Expr): Glyphs
    decreases e, 0
  {
    match e
    case Name(id) => [Glyph(Identifier, id)]
    case Constant(kind, lexeme) => [Glyph(kind, lexeme)]
    case UnaryOp(op, x) => Mark(Op(op)) + Print(x, if op == Not then 2 else 10)
    case BinOp(op, l, r) =>
      if op == DoubleStar then Print(l, 12) + Mark(Op(op)) + Print(r, 10)
      else Print(l, Precedence(e)) + Mark(Op(op)) + Print(r, Precedence(e) + 1)
    case BoolOp(op, values) => Joined(values, Op(op), Precedence(e) + 1)
    case Compare(first, ops, operands) => Print(first, 4) + Chain(ops, operands)
    case Attribute(value, attr) => Print(value, 12) + Mark(Dot) + [Glyph(Identifier, attr)]
    case Subscript(value, index) => Print(value, 12) + Mark(Open(Square)) + Index(index) + Mark(Closing(Square))
    case Call(callee, args) => Print(callee, 12) + Mark(Open(Paren)) + Joined(args, Comma, 0) + Mark(Closing(Paren))
    case TupleExpr(elements) => Mark(Open(Paren)) + Elements(elements) + Mark(Closing(Paren))
    case ListExpr(elements) => Mark(Open(Square)) + Joined(elements, Comma, 0) + Mark(Closing(Square))
    case DictExpr(entries) => Mark(Open(Brace)) + Entries(entries) + Mark(Closing(Brace))
    case ListComp(element, clauses) => Mark(Open(Square)) + Print(element, 0) + Clauses(clauses) + Mark(Closing(Square))
  }

  /** A subscript's tuple needs no parentheses. */
  function Index(e: Expr): Glyphs
    decreases e, 2
  {
    if e.TupleExpr? && e.elements != [] then Elements(e.elements) else Print(e, 0)
  }

  function Joined(es: seq<Expr>, separator: TokenType, c: nat): Glyphs
    decreases es, 0
  {
    if es == [] then []
    else if |es| == 1 then Print(es[0], c)
    else Print(es[0], c) + Mark(separator) + Joined(es[1..], separator, c)
  }

  /** A tuple's elements; a single one keeps its comma. */
  function Elements(es: seq<Expr>): Glyphs
    decreases es, 1
  {
    Joined(es, Comma, 0) + if |es| == 1 then Mark(Comma) else []
  }

  function Pair(entry: DictEntry): Glyphs
    decreases entry, 0
  {
    Print(entry.key, 0) + Mark(Colon) + Print(entry.value, 0)
  }

  function Entries(entries: seq<DictEntry>): Glyphs
    decreases entries, 0
  {
    if entries == [] then []
    else if |entries| == 1 then Pair(entries[0])
    else Pair(entries[0]) + Mark(Comma) + Entries(entries[1..])
  }

  function ForClause(clause: Clause): Glyphs
    decreases clause, 0
  {
    Mark(Keyword(For)) + Print(clause.target, 12) + Mark(Op(In))
        + Print(clause.iterable, 0) + Conditions(clause.conditions)
  }

  function Clauses(clauses: seq<Clause>): Glyphs
    decreases clauses, 0
  {
    if clauses == [] then [] else ForClause(clauses[0]) + Clauses(clauses[1..])
  }

  function Conditions(es: seq<Expr>): Glyphs
    decreases es, 0
  {
    if es == [] then [] else Mark(Keyword(If)) + Print(es[0], 0) + Conditions(es[1..])
  }

  function ComparisonWords(op: Symbol): Glyphs {
    if op == NotIn then Mark(Op(Not)) + Mark(Op(In))
    else if op == IsNot then Mark(Op(Is)) + Mark(Op(Not))
    else Mark(Op(op))
  }

  function Chain(ops: seq<Symbol>, operands: seq<Expr>): Glyphs
    decreases operands, 0
  {
    if ops == [] || operands == [] then []
    else ComparisonWords(ops[0]) + Print(operands[0], 4) + Chain(ops[1..], operands[1..])
  }

  // ---------- What may follow ----------

  /** A trailer, or a string after a string. */
  predicate IsTrailer(kind: TokenType) {
    kind == Dot || kind == Open(Square) || kind == Open(Paren) || IsString(kind)
  }

  /** The tokens a rule at level `k` would go on with after a whole operand. */
  predicate Continues(k: nat, kind: TokenType) {
    || IsTrailer(kind)
    || (k <= 11 && kind == Op(DoubleStar))
    || (BinaryLevel(kind).Some? && BinaryLevel(kind).value + 3 >= k)
    || (k <= 3 && (kind == Op(Not) || kind == Op(Is) || IsSimpleComparison(kind)))
    || (k <= 1 && kind == Op(And))
    || (k == 0 && kind == Op(Or))
  }

  predicate Stops(k: nat, rest: Glyphs) {
    !Continues(k, Kind(rest))
  }

  /** Nothing continues an expression, its rejected forms included. */
  predicate Ends(rest: Glyphs) {
    Stops(0, rest) && Kind(rest) != Keyword(If) && Kind(rest) != Op(Walrus)
  }

  function ParseAt(k: nat, ts: Glyphs): Parse<Expr>
    requires k <= 12
  {
    if k == 0 then OrTest(ts)
    else if k == 1 then AndTest(ts)
    else if k == 2 then NotTest(ts)
    else if k == 3 then Comparison(ts)
    else if k <= 9 then Binary(k - 3, ts)
    else if k == 10 then Unary(ts)
    else if k == 11 then Power(ts)
    else Postfix(ts)
  }

  // ---------- From a tighter level to a looser one ----------

  /** A looser climb goes on where a tighter one stopped. */
  lemma {:induction false} Climbs(left: Expr, minLevel: nat, ts: Glyphs, e: Expr, rest: Glyphs)
    requires BinaryMore(left, minLevel + 1, ts) == Parsed(e, rest)
    ensures BinaryMore(left, minLevel, ts) == BinaryMore(e, minLevel, rest)
    decreases |ts|
  {
    var level := BinaryLevel(Kind(ts));
    if level.Some? && level.value >= minLevel + 1 {
      var right := Binary(level.value + 1, Next(ts));
      Climbs(BinOp(Kind(ts).symbol, left, right.value), minLevel, right.rest, e, rest);
    }
  }

  /** What a climb does once its tightest part has been read. */
  lemma BinaryFrom(k: nat, ts: Glyphs, e: Expr, tail: Glyphs)
    requires 4 <= k <= 9 && ParseAt(k + 1, ts) == Parsed(e, tail)
    ensures Binary(k - 3, ts) == BinaryMore(e, k - 3, tail)
  {
    if k < 9 {
      var left := Unary(ts);
      Climbs(left.value, k - 3, left.rest, e, tail);
    }
  }

  lemma Widens(k: nat, ts: Glyphs, e: Expr, rest: Glyphs)
    requires k < 12 && ParseAt(k + 1, ts) == Parsed(e, rest) && Stops(k, rest)
    requires k == 2 ==> Kind(ts) != Op(Not)
    requires k == 10 ==> !IsSign(Kind(ts))
    ensures ParseAt(k, ts) == Parsed(e, rest)
  {
    hide Beyond, Atom, Postfix, PostfixMore, OperandOf;
    if k == 3 {
      assert ComparisonOp(rest) == Parsed(Option.None, rest);
      assert CompareMore(e, [], [], rest) == Parsed(e, rest);
    } else if 4 <= k <= 9 {
      BinaryFrom(k, ts, e, rest);
      assert BinaryMore(e, k - 3, rest) == Parsed(e, rest);
    } else if k == 11 {
      assert Kind(rest) != Op(DoubleStar);
    }
  }

  lemma TighterStops(c: nat, k: nat, rest: Glyphs)
    requires c <= k && Stops(c, rest)
    ensures Stops(k, rest)
  {
  }

  lemma {:induction false} WidensTo(from: nat, to: nat, ts: Glyphs, e: Expr, rest: Glyphs)
    requires to <= from <= 12 && ParseAt(from, ts) == Parsed(e, rest) && Stops(to, rest)
    requires to <= 10 < from ==> !IsSign(Kind(ts))
    requires to <= 2 < from ==> Kind(ts) != Op(Not)
    ensures ParseAt(to, ts) == Parsed(e, rest)
    decreases from
  {
    hide ParseAt, Stops;
    if to < from {
      TighterStops(to, from - 1, rest);
      Widens(from - 1, ts, e, rest);
      WidensTo(from - 1, to, ts, e, rest);
    }
  }

  // ---------- How printed trees start ----------

  predicate StartsExpression(kind: TokenType) {
    IsIdentifier(kind) || IsLiteral(kind) || kind.Open? || kind == Op(Not) || IsSign(kind)
  }

  lemma {:induction false} BodyStarts(e: Expr)
    requires Printable(e)
    ensures Body(e) != [] && StartsExpression(Kind(Body(e)))
    ensures Precedence(e) >= 3 ==> Kind(Body(e)) != Op(Not)
    ensures Precedence(e) >= 11 ==> !IsSign(Kind(Body(e)))
    decreases e, 0
  {
    match e
    case BinOp(op, l, _) => PrintStarts(l, if op == DoubleStar then 12 else Precedence(e));
    case BoolOp(_, values) => PrintStarts(values[0], Precedence(e) + 1);
    case Compare(first, _, _) => PrintStarts(first, 4);
    case Attribute(value, _) => PrintStarts(value, 12);
    case Subscript(value, _) => PrintStarts(value, 12);
    case Call(callee, _) => PrintStarts(callee, 12);
    case _ =>
  }

  lemma {:induction false} PrintStarts(e: Expr, c: nat)
    requires Printable(e) && c <= 12
    ensures Print(e, c) != [] && StartsExpression(Kind(Print(e, c)))
    ensures c >= 3 ==> Kind(Print(e, c)) != Op(Not)
    ensures c >= 11 ==> !IsSign(Kind(Print(e, c)))
    decreases e, 1
  {
    if Precedence(e) >= c {
      BodyStarts(e);
    }
  }

  lemma KindOfSum(a: Glyphs, b: Glyphs)
    requires a != []
    ensures Kind(a + b) == Kind(a)
  {
  }

  lemma AfterMark(kind: TokenType, ts: Glyphs)
    requires kind != Eof
    ensures Kind(Mark(kind) + ts) == kind && Next(Mark(kind) + ts) == ts
  {
  }

  /** The first of several printed trees, and the rest of them. */
  lemma JoinedHead(es: seq<Expr>, separator: TokenType, c: nat, rest: Glyphs)
    requires es != []
    ensures |es| == 1 ==> es == [es[0]] && Joined(es, separator, c) + rest == Print(es[0], c) + rest
    ensures |es| > 1 ==>
      Joined(es, separator, c) + rest == Print(es[0], c) + (Mark(separator) + (Joined(es[1..], separator, c) + rest))
  {
    if |es| > 1 {
      var a, b, d := Print(es[0], c), Mark(separator), Joined(es[1..], separator, c);
      Joins(a + b, d, rest);
      Joins(a, b, d + rest);
    }
  }

  // ---------- Reading it back ----------

  /** Parentheses are one level of their own; below them a tree is read at its own level. */
  function Rank(e: Expr, c: nat): nat {
    if Precedence(e) < c then 100 else 2 * (13 - c) + 3
  }

  lemma {:induction false} Reads(e: Expr, c: nat, rest: Glyphs)
    requires Printable(e) && c <= 12 && Stops(c, rest)
    ensures ParseAt(c, Print(e, c) + rest) == Parsed(e, rest)
    decreases e, Rank(e, c)
  {
    hide Body, Stops, Printable, OrTest, AndTest, NotTest, Comparison, Binary, Unary, Power, Postfix;
    var k, ts := Precedence(e), Print(e, c) + rest;
    TighterStops(c, 12, rest);
    if k < c {
      ParenthesesRead(e, rest);
      KindOfSum(Print(e, c), rest);
      WidensTo(12, c, ts, e, rest);
    } else if c < k {
      TighterStops(c, c + 1, rest);
      Reads(e, c + 1, rest);
      PrintStarts(e, c + 1);
      KindOfSum(Print(e, c + 1), rest);
      Widens(c, ts, e, rest);
    } else {
      OwnLevelReads(e, rest);
    }
  }

  lemma {:induction false} OwnLevelReads(e: Expr, rest: Glyphs)
    requires Printable(e) && Stops(Precedence(e), rest)
    ensures ParseAt(Precedence(e), Body(e) + rest) == Parsed(e, rest)
    decreases e, 4
  {
    hide Body, Binary, BinaryMore, OrTest, AndTest, Unary, Power, Stops;
    match e
    case BoolOp(op, values) => BoolReads(e, rest);
    case UnaryOp(op, x) => PrefixReads(e, rest);
    case Compare(_, _, _) => ComparisonReads(e, rest);
    case BinOp(op, _, _) => if op == DoubleStar { PowerReads(e, rest); } else { BinaryReads(e, rest); }
    case _ => TrailersRead(e, rest);
  }

  lemma {:induction false} PrefixReads(e: Expr, rest: Glyphs)
    requires Printable(e) && e.UnaryOp? && Stops(Precedence(e), rest)
    ensures ParseAt(Precedence(e), Body(e) + rest) == Parsed(e, rest)
    decreases e, 0
  {
    var k := Precedence(e);
    var inner := Print(e.operand, k) + rest;
    Joins(Mark(Op(e.op)), Print(e.operand, k), rest);
    AfterMark(Op(e.op), inner);
    Reads(e.operand, k, rest);
  }

  lemma {:induction false} PowerReads(e: Expr, rest: Glyphs)
    requires Printable(e) && e.BinOp? && e.op == DoubleStar && Stops(11, rest)
    ensures Power(Body(e) + rest) == Parsed(e, rest)
    decreases e, 0
  {
    var tail := Mark(Op(DoubleStar)) + (Print(e.right, 10) + rest);
    assert Body(e) + rest == Print(e.left, 12) + tail;
    AfterMark(Op(DoubleStar), Print(e.right, 10) + rest);
    Reads(e.left, 12, tail);
    Reads(e.right, 10, rest);
  }

  lemma {:induction false} BinaryReads(e: Expr, rest: Glyphs)
    requires Printable(e) && e.BinOp? && e.op != DoubleStar && Stops(Precedence(e), rest)
    ensures Binary(Precedence(e) - 3, Body(e) + rest) == Parsed(e, rest)
    decreases e, 3
  {
    Spine(e, Precedence(e), rest);
  }

  lemma ClimbStep(
      level: nat, ts: Glyphs, left: Expr, more: Glyphs, op: Symbol, operand: Glyphs, right: Expr, rest: Glyphs)
    requires Binary(level, ts) == BinaryMore(left, level, more)
    requires Kind(more) == Op(op) && Next(more) == operand && BinaryLevel(Op(op)) == Some(level)
    requires Binary(level + 1, operand) == Parsed(right, rest)
    ensures Binary(level, ts) == BinaryMore(BinOp(op, left, right), level, rest)
  {
  }

  /** A climb over a printed operand leaves off with the operand built, left to right. */
  lemma {:induction false} Spine(e: Expr, k: nat, tail: Glyphs)
    requires Printable(e) && 4 <= k <= 9 && Stops(k + 1, tail)
    ensures Binary(k - 3, Print(e, k) + tail) == BinaryMore(e, k - 3, tail)
    decreases e, if Precedence(e) == k then 2 else 101
  {
    hide Body, BinaryMore, Binary;
    if Precedence(e) == k {
      SpineGrows(e, k, tail);
    } else {
      Reads(e, k + 1, tail);
      assert Print(e, k) == Print(e, k + 1);
      BinaryFrom(k, Print(e, k) + tail, e, tail);
    }
  }

  lemma SpineTokens(e: Expr, k: nat, tail: Glyphs)
    requires Printable(e) && 4 <= k <= 9 && Precedence(e) == k
    ensures Print(e, k) + tail == Print(e.left, k) + (Mark(Op(e.op)) + (Print(e.right, k + 1) + tail))
  {
  }

  lemma {:induction false} SpineGrows(e: Expr, k: nat, tail: Glyphs)
    requires Printable(e) && 4 <= k <= 9 && Precedence(e) == k && Stops(k + 1, tail)
    ensures Binary(k - 3, Print(e, k) + tail) == BinaryMore(e, k - 3, tail)
    decreases e, 1
  {
    hide Binary, BinaryMore, Print, Body;
    var right := Print(e.right, k + 1) + tail;
    var more := Mark(Op(e.op)) + right;
    SpineTokens(e, k, tail);
    AfterMark(Op(e.op), right);
    Spine(e.left, k, more);
    TightReads(e.right, k + 1, tail);
    ClimbStep(k - 3, Print(e, k) + tail, e.left, more, e.op, right, e.right, tail);
  }

  /** A right operand, read one level tighter; past the last level only a sign can come. */
  lemma {:induction false} TightReads(e: Expr, k: nat, tail: Glyphs)
    requires Printable(e) && 5 <= k <= 10 && Stops(k, tail)
    ensures Binary(k - 3, Print(e, k) + tail) == Parsed(e, tail)
    decreases e, 102
  {
    Reads(e, k, tail);
  }

  lemma {:induction false} ExpressionReads(e: Expr, rest: Glyphs)
    requires Printable(e) && Ends(rest)
    ensures Expression(Print(e, 0) + rest) == Parsed(e, rest)
    decreases e, 40
  {
    Reads(e, 0, rest);
  }

  /** Inside parentheses a tree of any precedence is an atom. */
  lemma {:induction false} ParenAtomReads(e: Expr, rest: Glyphs)
    requires Printable(e)
    ensures Atom(Mark(Open(Paren)) + Body(e) + Mark(Closing(Paren)) + rest) == Parsed(e, rest)
    decreases e, 50
  {
    hide Body, Expression, ParenMore;
    var closing := Mark(Closing(Paren)) + rest;
    var inside := Body(e) + closing;
    assert Mark(Open(Paren)) + Body(e) + Mark(Closing(Paren)) + rest == Mark(Open(Paren)) + inside;
    AfterMark(Open(Paren), inside);
    AfterMark(Closing(Paren), rest);
    BodyStarts(e);
    KindOfSum(Body(e), closing);
    ExpressionReads(e, closing);
    ParenHolds(inside, e, closing);
    ParenthesesClose(inside, [e], false, closing, rest);
  }

  lemma {:induction false} ParenthesesRead(e: Expr, rest: Glyphs)
    requires Printable(e) && Stops(12, rest)
    ensures Postfix(Mark(Open(Paren)) + Body(e) + Mark(Closing(Paren)) + rest) == Parsed(e, rest)
    decreases e, 51
  {
    ParenAtomReads(e, rest);
  }

  // ---------- and, or ----------

  function BoolMore(op: Symbol, done: seq<Expr>, ts: Glyphs): Parse<Expr> {
    if op == Or then OrMore(done, ts) else AndMore(done, ts)
  }

  lemma {:induction false} BoolReads(e: Expr, rest: Glyphs)
    requires Printable(e) && e.BoolOp? && Stops(Precedence(e), rest)
    ensures ParseAt(Precedence(e), Body(e) + rest) == Parsed(e, rest)
    decreases e, 0
  {
    hide Print, Expression;
    var k, values := Precedence(e), e.values;
    var more := Mark(Op(e.op)) + (Joined(values[1..], Op(e.op), k + 1) + rest);
    assert Body(e) + rest == Print(values[0], k + 1) + more;
    AfterMark(Op(e.op), Joined(values[1..], Op(e.op), k + 1) + rest);
    Reads(values[0], k + 1, more);
    BoolMoreReads(e.op, [values[0]], values[1..], rest);
    assert [values[0]] + values[1..] == values;
    BoolStarts(e.op, Print(values[0], k + 1) + more, values[0], more);
  }

  lemma BoolStarts(op: Symbol, ts: Glyphs, first: Expr, more: Glyphs)
    requires op == Or || op == And
    requires ParseAt(if op == Or then 1 else 2, ts) == Parsed(first, more) && Kind(more) == Op(op)
    ensures ParseAt(if op == Or then 0 else 1, ts) == BoolMore(op, [first], more)
  {
  }

  lemma {:induction false} BoolMoreReads(op: Symbol, done: seq<Expr>, es: seq<Expr>, rest: Glyphs)
    requires (op == Or || op == And) && es != [] && AllPrintable(es) && Stops(if op == Or then 0 else 1, rest)
    ensures var k := if op == Or then 1 else 2;
      BoolMore(op, done, Mark(Op(op)) + (Joined(es, Op(op), k) + rest)) == Parsed(BoolOp(op, done + es), rest)
    decreases es, 0
  {
    hide Print, Printable;
    var k := if op == Or then 1 else 2;
    AfterMark(Op(op), Joined(es, Op(op), k) + rest);
    if |es| == 1 {
      JoinedHead(es, Op(op), k, rest);
      Reads(es[0], k, rest);
      assert BoolMore(op, done + [es[0]], rest) == Parsed(BoolOp(op, done + [es[0]]), rest);
    } else {
      var more := Mark(Op(op)) + (Joined(es[1..], Op(op), k) + rest);
      JoinedHead(es, Op(op), k, rest);
      AfterMark(Op(op), Joined(es[1..], Op(op), k) + rest);
      Reads(es[0], k, more);
      BoolMoreReads(op, done + [es[0]], es[1..], rest);
      Shift(done, es);
    }
  }

  // ---------- Comparison chains ----------

  lemma {:induction false} ComparisonReads(e: Expr, rest: Glyphs)
    requires Printable(e) && e.Compare? && Stops(3, rest)
    ensures Comparison(Body(e) + rest) == Parsed(e, rest)
    decreases e, 0
  {
    var chain := Chain(e.ops, e.operands) + rest;
    Joins(Print(e.first, 4), Chain(e.ops, e.operands), rest);
    ChainStarts(e.ops, e.operands, rest);
    Reads(e.first, 4, chain);
    CompareMoreReads(e.first, [], [], e.ops, e.operands, rest);
    assert [] + e.ops == e.ops && [] + e.operands == e.operands;
  }

  lemma ChainStarts(ops: seq<Symbol>, operands: seq<Expr>, rest: Glyphs)
    requires |ops| == |operands| && forall op :: op in ops ==> IsComparisonSymbol(op)
    requires ops == [] ==> Stops(4, rest)
    ensures Stops(4, Chain(ops, operands) + rest)
  {
    hide Print, Beyond;
    if ops != [] {
      assert ops[0] in ops;
      var words := ComparisonWords(ops[0]);
      assert Kind(Chain(ops, operands) + rest) == Kind(words);
    } else {
      assert [] + rest == rest;
    }
  }

  lemma WordsRead(op: Symbol, ts: Glyphs)
    requires IsComparisonSymbol(op) && Kind(ts) != Op(Not)
    ensures ComparisonOp(ComparisonWords(op) + ts) == Parsed(Some(op), ts)
  {
    if op == NotIn {
      Joins(Mark(Op(Not)), Mark(Op(In)), ts);
      AfterMark(Op(Not), Mark(Op(In)) + ts);
      AfterMark(Op(In), ts);
    } else if op == IsNot {
      Joins(Mark(Op(Is)), Mark(Op(Not)), ts);
      AfterMark(Op(Is), Mark(Op(Not)) + ts);
      AfterMark(Op(Not), ts);
    } else {
      AfterMark(Op(op), ts);
    }
  }

  lemma ChainHead(ops: seq<Symbol>, es: seq<Expr>, rest: Glyphs)
    requires |ops| == |es| > 0
    ensures Chain(ops, es) + rest
         == ComparisonWords(ops[0]) + (Print(es[0], 4) + (Chain(ops[1..], es[1..]) + rest))
  {
    var a, b, c := ComparisonWords(ops[0]), Print(es[0], 4), Chain(ops[1..], es[1..]);
    Joins(a + b, c, rest);
    Joins(a, b, c + rest);
  }

  lemma CompareStep(
      first: Expr, doneOps: seq<Symbol>, done: seq<Expr>,
      ts: Glyphs, op: Symbol, operand: Glyphs, x: Expr, rest: Glyphs)
    requires ComparisonOp(ts) == Parsed(Some(op), operand) && Binary(1, operand) == Parsed(x, rest)
    ensures CompareMore(first, doneOps, done, ts) == CompareMore(first, doneOps + [op], done + [x], rest)
  {
  }

  lemma CompareStops(first: Expr, ops: seq<Symbol>, operands: seq<Expr>, rest: Glyphs)
    requires ops != [] && Stops(3, rest)
    ensures CompareMore(first, ops, operands, rest) == Parsed(Compare(first, ops, operands), rest)
  {
    assert ComparisonOp(rest) == Parsed(Option.None, rest);
  }

  lemma {:induction false} CompareMoreReads(
      first: Expr, doneOps: seq<Symbol>, done: seq<Expr>, ops: seq<Symbol>, es: seq<Expr>, rest: Glyphs)
    requires |ops| == |es| && (forall op :: op in ops ==> IsComparisonSymbol(op)) && AllPrintable(es) && Stops(3, rest)
    requires doneOps + ops != []
    ensures CompareMore(first, doneOps, done, Chain(ops, es) + rest)
         == Parsed(Compare(first, doneOps + ops, done + es), rest)
    decreases es, 0
  {
    if ops == [] {
      assert Chain(ops, es) + rest == rest && doneOps + ops == doneOps && done + es == done;
      CompareStops(first, doneOps, done, rest);
    } else {
      var chain := Chain(ops[1..], es[1..]) + rest;
      var operand := Print(es[0], 4) + chain;
      ChainHead(ops, es, rest);
      assert ops[0] in ops;
      PrintStarts(es[0], 4);
      KindOfSum(Print(es[0], 4), chain);
      WordsRead(ops[0], operand);
      ChainStarts(ops[1..], es[1..], rest);
      Reads(es[0], 4, chain);
      CompareStep(first, doneOps, done, ComparisonWords(ops[0]) + operand, ops[0], operand, es[0], chain);
      CompareMoreReads(first, doneOps + [ops[0]], done + [es[0]], ops[1..], es[1..], rest);
      Shift(done, es);
      Shift(doneOps, ops);
    }
  }

  // ---------- Atoms and trailers ----------

  lemma {:induction false} TrailersRead(e: Expr, rest: Glyphs)
    requires Printable(e) && Precedence(e) == 12 && Stops(12, rest)
    ensures Postfix(Body(e) + rest) == Parsed(e, rest)
    decreases e, 2
  {
    Trailer(e, rest);
  }

  /** Reading a printed primary leaves off with the primary built, whatever follows it. */
  lemma {:induction false} Trailer(e: Expr, tail: Glyphs)
    requires Printable(e) && !IsString(Kind(tail))
    ensures Postfix(Print(e, 12) + tail) == PostfixMore(e, tail)
    decreases e, if Precedence(e) == 12 then 1 else 101
  {
    if Precedence(e) < 12 {
      ParenAtomReads(e, tail);
    } else {
      if e.Attribute? {
        AttributeReads(e, tail);
      } else if e.Subscript? {
        SubscriptReads(e, tail);
      } else if e.Call? {
        CallReads(e, tail);
      } else if e.TupleExpr? {
        TupleReads(e, tail);
      } else if e.ListExpr? {
        ListReads(e, tail);
      } else if e.DictExpr? {
        DictReads(e, tail);
      } else if e.ListComp? {
        ListCompReads(e, tail);
      } else {
        assert Next(Body(e) + tail) == tail;
      }
    }
  }

  lemma {:induction false} AttributeReads(e: Expr, tail: Glyphs)
    requires Printable(e) && e.Attribute?
    ensures Postfix(Body(e) + tail) == PostfixMore(e, tail)
    decreases e, 0
  {
    var name := [Glyph(Identifier, e.attr)] + tail;
    var more := Mark(Dot) + name;
    assert Body(e) + tail == Print(e.value, 12) + more;
    AfterMark(Dot, name);
    assert Next(name) == tail;
    Trailer(e.value, more);
  }

  lemma SubscriptStep(value: Expr, inside: Glyphs, index: Expr, closing: Glyphs, rest: Glyphs)
    requires StartsExpression(Kind(inside)) && ExpressionList(inside) == Parsed(index, closing)
    requires Kind(closing) == Closing(Square) && Next(closing) == rest
    ensures SubscriptOf(value, inside) == Parsed(Subscript(value, index), rest)
  {
  }

  lemma PostfixStep(ts: Glyphs, value: Expr, more: Glyphs, e: Expr, rest: Glyphs)
    requires Postfix(ts) == PostfixMore(value, more)
    requires Kind(more) == Open(Square) || Kind(more) == Open(Paren)
    requires (if Kind(more) == Open(Square) then SubscriptOf(value, Next(more)) else CallOf(value, Next(more)))
         == Parsed(e, rest)
    ensures Postfix(ts) == PostfixMore(e, rest)
  {
  }

  lemma {:induction false} SubscriptReads(e: Expr, tail: Glyphs)
    requires Printable(e) && e.Subscript?
    ensures Postfix(Body(e) + tail) == PostfixMore(e, tail)
    decreases e, 0
  {
    var closing := Mark(Closing(Square)) + tail;
    var inside := Index(e.index) + closing;
    var more := Mark(Open(Square)) + inside;
    FivePieces(Print(e.value, 12), Mark(Open(Square)), Index(e.index), Mark(Closing(Square)), tail);
    AfterMark(Open(Square), inside);
    AfterMark(Closing(Square), tail);
    Trailer(e.value, more);
    IndexReads(e.index, closing);
    SubscriptStep(e.value, inside, e.index, closing, tail);
    PostfixStep(Print(e.value, 12) + more, e.value, more, e, tail);
  }

  lemma {:induction false} IndexReads(e: Expr, rest: Glyphs)
    requires Printable(e) && Kind(rest) == Closing(Square)
    ensures ExpressionList(Index(e) + rest) == Parsed(e, rest)
    ensures StartsExpression(Kind(Index(e) + rest))
    decreases e, 60
  {
    if e.TupleExpr? && |e.elements| == 1 {
      Joins(Joined(e.elements, Comma, 0), Mark(Comma), rest);
      SingleIndexReads(e.elements[0], rest);
      JoinedHead(e.elements, Comma, 0, Mark(Comma) + rest);
      assert e.elements == [e.elements[0]];
    } else if e.TupleExpr? && e.elements != [] {
      assert Joined(e.elements, Comma, 0) + [] == Joined(e.elements, Comma, 0);
      TupleIndexReads(e.elements, rest);
    } else {
      PrintStarts(e, 0);
      KindOfSum(Print(e, 0), rest);
      ExpressionReads(e, rest);
    }
  }

  lemma {:induction false} SingleIndexReads(x: Expr, rest: Glyphs)
    requires Printable(x) && Kind(rest) == Closing(Square)
    ensures ExpressionList(Print(x, 0) + (Mark(Comma) + rest)) == Parsed(TupleExpr([x]), rest)
    ensures StartsExpression(Kind(Print(x, 0) + (Mark(Comma) + rest)))
    decreases x, 60
  {
    hide Print, Expression, Printable;
    var more := Mark(Comma) + rest;
    PrintStarts(x, 0);
    KindOfSum(Print(x, 0), more);
    AfterMark(Comma, rest);
    ExpressionReads(x, more);
    ListStarts(Print(x, 0) + more, x, more);
  }

  lemma {:induction false} TupleIndexReads(es: seq<Expr>, rest: Glyphs)
    requires AllPrintable(es) && |es| > 1 && Kind(rest) == Closing(Square)
    ensures ExpressionList(Joined(es, Comma, 0) + rest) == Parsed(TupleExpr(es), rest)
    ensures StartsExpression(Kind(Joined(es, Comma, 0) + rest))
    decreases es, 1
  {
    hide Print, Expression, Printable, ListMore;
    var more := Mark(Comma) + (Joined(es[1..], Comma, 0) + rest);
    JoinedStarts(es, rest);
    JoinedHead(es, Comma, 0, rest);
    AfterMark(Comma, Joined(es[1..], Comma, 0) + rest);
    ExpressionReads(es[0], more);
    ListStarts(Joined(es, Comma, 0) + rest, es[0], more);
    ListMoreReads([es[0]], es[1..], rest);
    assert [es[0]] + es[1..] == es;
  }

  lemma ListStarts(ts: Glyphs, first: Expr, more: Glyphs)
    requires Expression(ts) == Parsed(first, more) && Kind(more) == Comma
    ensures ExpressionList(ts) == ListMore([first], more)
  {
  }

  lemma {:induction false} JoinedStarts(es: seq<Expr>, rest: Glyphs)
    requires es != [] && AllPrintable(es)
    ensures StartsExpression(Kind(Joined(es, Comma, 0) + rest))
  {
    PrintStarts(es[0], 0);
    assert Kind(Joined(es, Comma, 0) + rest) == Kind(Print(es[0], 0));
  }

  lemma ListStep(done: seq<Expr>, ts: Glyphs, here: Glyphs, x: Expr, more: Glyphs)
    requires Kind(ts) == Comma && Next(ts) == here && !EndsASequence(Kind(here))
    requires Expression(here) == Parsed(x, more)
    ensures ListMore(done, ts) == ListMore(done + [x], more)
    ensures ElementsMore(done, ts) == ElementsMore(done + [x], more)
  {
  }

  lemma {:induction false} ListMoreReads(done: seq<Expr>, es: seq<Expr>, rest: Glyphs)
    requires es != [] && AllPrintable(es) && Kind(rest) == Closing(Square)
    ensures ListMore(done, Mark(Comma) + (Joined(es, Comma, 0) + rest)) == Parsed(TupleExpr(done + es), rest)
    decreases es, 0
  {
    hide Print, Expression, ListMore;
    AfterMark(Comma, Joined(es, Comma, 0) + rest);
    JoinedStarts(es, rest);
    if |es| == 1 {
      JoinedHead(es, Comma, 0, rest);
      ExpressionReads(es[0], rest);
      ListStep(done, Mark(Comma) + (Joined(es, Comma, 0) + rest), Joined(es, Comma, 0) + rest, es[0], rest);
      NoMoreElements(done + es, rest);
    } else {
      var more := Mark(Comma) + (Joined(es[1..], Comma, 0) + rest);
      JoinedHead(es, Comma, 0, rest);
      AfterMark(Comma, Joined(es[1..], Comma, 0) + rest);
      ExpressionReads(es[0], more);
      ListStep(done, Mark(Comma) + (Joined(es, Comma, 0) + rest), Joined(es, Comma, 0) + rest, es[0], more);
      ListMoreReads(done + [es[0]], es[1..], rest);
      Shift(done, es);
    }
  }

  /** The arguments are read: the climb over trailers goes on from the call. */
  lemma CallCloses(e: Expr, more: Glyphs, inside: Glyphs, closing: Glyphs, tail: Glyphs)
    requires e.Call? && Kind(more) == Open(Paren) && Next(more) == inside
    requires Kind(closing) == Closing(Paren) && Next(closing) == tail
    requires if e.args == [] then inside == closing
      else Kind(inside) != Closing(Paren) && ArgsMore([], inside) == Parsed(e.args, closing)
    ensures PostfixMore(e.callee, more) == PostfixMore(e, tail)
  {
    hide Expression, ArgsMore;
  }

  lemma {:induction false} CallReads(e: Expr, tail: Glyphs)
    requires Printable(e) && e.Call?
    ensures Postfix(Body(e) + tail) == PostfixMore(e, tail)
    decreases e, 0
  {
    hide Print, Postfix, PostfixMore, ArgsMore;
    var closing := Mark(Closing(Paren)) + tail;
    var inside := Joined(e.args, Comma, 0) + closing;
    var more := Mark(Open(Paren)) + inside;
    FivePieces(Print(e.callee, 12), Mark(Open(Paren)), Joined(e.args, Comma, 0), Mark(Closing(Paren)), tail);
    AfterMark(Open(Paren), inside);
    AfterMark(Closing(Paren), tail);
    Trailer(e.callee, more);
    if e.args == [] {
      assert inside == closing;
      CallCloses(e, more, inside, closing, tail);
    } else {
      JoinedStarts(e.args, closing);
      ArgsMoreReads([], e.args, closing);
      assert [] + e.args == e.args;
      CallCloses(e, more, inside, closing, tail);
    }
  }

  lemma ArgsStep(done: seq<Expr>, ts: Glyphs, x: Expr, more: Glyphs, next: Glyphs)
    requires !EndsASequence(Kind(ts)) && Expression(ts) == Parsed(x, more)
    requires Kind(more) == Comma && Next(more) == next && Kind(next) != Closing(Paren)
    ensures ArgsMore(done, ts) == ArgsMore(done + [x], next)
    ensures ParenMore(done, ts) == ParenMore(done + [x], next)
  {
  }

  lemma {:induction false} ArgsMoreReads(done: seq<Expr>, es: seq<Expr>, rest: Glyphs)
    requires es != [] && AllPrintable(es) && Kind(rest) == Closing(Paren)
    ensures ArgsMore(done, Joined(es, Comma, 0) + rest) == Parsed(done + es, rest)
    decreases es, 0
  {
    hide Print, Expression, ParenMore;
    JoinedStarts(es, rest);
    if |es| == 1 {
      JoinedHead(es, Comma, 0, rest);
      ExpressionReads(es[0], rest);
    } else {
      var more := Mark(Comma) + (Joined(es[1..], Comma, 0) + rest);
      JoinedHead(es, Comma, 0, rest);
      AfterMark(Comma, Joined(es[1..], Comma, 0) + rest);
      ExpressionReads(es[0], more);
      JoinedStarts(es[1..], rest);
      ArgsStep(done, Joined(es, Comma, 0) + rest, es[0], more, Joined(es[1..], Comma, 0) + rest);
      ArgsMoreReads(done + [es[0]], es[1..], rest);
      Shift(done, es);
    }
  }

  lemma {:induction false} TupleReads(e: Expr, tail: Glyphs)
    requires Printable(e) && e.TupleExpr?
    ensures Postfix(Body(e) + tail) == PostfixMore(e, tail)
    decreases e, 0
  {
    var closing := Mark(Closing(Paren)) + tail;
    var inside := Elements(e.elements) + closing;
    Joins(Mark(Open(Paren)) + Elements(e.elements), Mark(Closing(Paren)), tail);
    Joins(Mark(Open(Paren)), Elements(e.elements), closing);
    AfterMark(Open(Paren), inside);
    ElementsRead(e.elements, tail);
    assert e == TupleExpr(e.elements);
  }

  lemma {:induction false} OneElementReads(es: seq<Expr>, closing: Glyphs, tail: Glyphs)
    requires AllPrintable(es) && |es| == 1
    requires Kind(closing) == Closing(Paren) && Next(closing) == tail
    ensures ParenAtom(Elements(es) + closing) == Parsed(TupleExpr(es), tail)
    decreases es, 0
  {
    hide Print, Expression, ParenMore, Printable, ParenAtom;
    var x, more := es[0], Mark(Comma) + closing;
    JoinedHead(es, Comma, 0, more);
    Joins(Joined(es, Comma, 0), Mark(Comma), closing);
    PrintStarts(x, 0);
    KindOfSum(Print(x, 0), more);
    AfterMark(Comma, closing);
    ExpressionReads(x, more);
    OneInParentheses(Elements(es) + closing, x, more, closing, tail);
    assert es == [x];
  }

  lemma {:induction false} ElementsRead(es: seq<Expr>, tail: Glyphs)
    requires AllPrintable(es)
    ensures ParenAtom(Elements(es) + (Mark(Closing(Paren)) + tail)) == Parsed(TupleExpr(es), tail)
    decreases es, 1
  {
    hide Print, ParenMore, ParenAtom;
    var closing := Mark(Closing(Paren)) + tail;
    AfterMark(Closing(Paren), tail);
    if es == [] {
      assert Elements(es) + closing == closing;
      NothingInside(closing, tail);
    } else if |es| == 1 {
      OneElementReads(es, closing, tail);
    } else {
      ParenMoreReads([], es, closing);
      JoinedStarts(es, closing);
      assert Elements(es) == Joined(es, Comma, 0);
      assert [] + es == es;
      ParenthesesClose(Elements(es) + closing, es, true, closing, tail);
    }
  }

  lemma NothingInside(closing: Glyphs, rest: Glyphs)
    requires Kind(closing).Closing? && Next(closing) == rest
    ensures Kind(closing) == Closing(Paren) ==> ParenAtom(closing) == Parsed(TupleExpr([]), rest)
    ensures Kind(closing) == Closing(Square) ==> BracketAtom(closing) == Parsed(ListExpr([]), rest)
    ensures Kind(closing) == Closing(Brace) ==> BraceAtom(closing) == Parsed(DictExpr([]), rest)
  {
  }

  lemma ParenHolds(inside: Glyphs, e: Expr, closing: Glyphs)
    requires !EndsASequence(Kind(inside)) && Expression(inside) == Parsed(e, closing) && Kind(closing) == Closing(Paren)
    ensures ParenMore([], inside) == Parsed(([e], false), closing)
  {
    hide Expression;
    assert [] + [e] == [e];
  }

  lemma ParenthesesClose(inside: Glyphs, es: seq<Expr>, comma: bool, closing: Glyphs, rest: Glyphs)
    requires Kind(inside) != Closing(Paren) && ParenMore([], inside) == Parsed((es, comma), closing)
    requires Kind(closing) == Closing(Paren) && Next(closing) == rest
    ensures es != []
    ensures ParenAtom(inside) == Parsed(if comma then TupleExpr(es) else es[0], rest)
  {
  }

  lemma OneInParentheses(inside: Glyphs, x: Expr, more: Glyphs, closing: Glyphs, rest: Glyphs)
    requires !EndsASequence(Kind(inside)) && Kind(inside) != Closing(Paren)
    requires Expression(inside) == Parsed(x, more) && Kind(more) == Comma && Next(more) == closing
    requires Kind(closing) == Closing(Paren) && Next(closing) == rest
    ensures ParenAtom(inside) == Parsed(TupleExpr([x]), rest)
  {
    assert [] + [x] == [x];
    ParenthesesClose(inside, [x], true, closing, rest);
  }

  lemma {:induction false} ParenMoreReads(done: seq<Expr>, es: seq<Expr>, rest: Glyphs)
    requires es != [] && AllPrintable(es) && Kind(rest) == Closing(Paren) && |done| + |es| > 1
    ensures ParenMore(done, Joined(es, Comma, 0) + rest) == Parsed((done + es, true), rest)
    decreases es, 0
  {
    hide Print, Expression;
    JoinedStarts(es, rest);
    if |es| == 1 {
      JoinedHead(es, Comma, 0, rest);
      ExpressionReads(es[0], rest);
    } else {
      var more := Mark(Comma) + (Joined(es[1..], Comma, 0) + rest);
      JoinedHead(es, Comma, 0, rest);
      AfterMark(Comma, Joined(es[1..], Comma, 0) + rest);
      ExpressionReads(es[0], more);
      JoinedStarts(es[1..], rest);
      ArgsStep(done, Joined(es, Comma, 0) + rest, es[0], more, Joined(es[1..], Comma, 0) + rest);
      ParenMoreReads(done + [es[0]], es[1..], rest);
      Shift(done, es);
    }
  }

  lemma {:induction false} ListReads(e: Expr, tail: Glyphs)
    requires Printable(e) && e.ListExpr?
    ensures Postfix(Body(e) + tail) == PostfixMore(e, tail)
    decreases e, 0
  {
    var closing := Mark(Closing(Square)) + tail;
    var inside := Joined(e.elements, Comma, 0) + closing;
    Joins(Mark(Open(Square)) + Joined(e.elements, Comma, 0), Mark(Closing(Square)), tail);
    Joins(Mark(Open(Square)), Joined(e.elements, Comma, 0), closing);
    AfterMark(Open(Square), inside);
    ListElementsRead(e.elements, tail);
    assert e == ListExpr(e.elements);
  }

  lemma {:induction false} ListElementsRead(es: seq<Expr>, tail: Glyphs)
    requires AllPrintable(es)
    ensures BracketAtom(Joined(es, Comma, 0) + (Mark(Closing(Square)) + tail)) == Parsed(ListExpr(es), tail)
    decreases es, 1
  {
    hide Expression, Print, BracketAtom, ElementsMore;
    var closing := Mark(Closing(Square)) + tail;
    AfterMark(Closing(Square), tail);
    if es == [] {
      assert Joined(es, Comma, 0) + closing == closing;
      NothingInside(closing, tail);
    } else {
      JoinedStarts(es, closing);
      JoinedHead(es, Comma, 0, closing);
      if |es| == 1 {
        ExpressionReads(es[0], closing);
        assert es == [es[0]];
        NoMoreElements(es, closing);
        DisplayCloses(Joined(es, Comma, 0) + closing, es, closing, closing, tail);
      } else {
        var more := Mark(Comma) + (Joined(es[1..], Comma, 0) + closing);
        AfterMark(Comma, Joined(es[1..], Comma, 0) + closing);
        ExpressionReads(es[0], more);
        ElementsMoreReads([es[0]], es[1..], closing);
        assert [es[0]] + es[1..] == es;
        DisplayCloses(Joined(es, Comma, 0) + closing, es, more, closing, tail);
      }
    }
  }

  lemma NoMoreElements(done: seq<Expr>, closing: Glyphs)
    requires Kind(closing) == Closing(Square)
    ensures ElementsMore(done, closing) == Parsed(done, closing)
    ensures ListMore(done, closing) == Parsed(TupleExpr(done), closing)
  {
  }

  lemma DisplayCloses(inside: Glyphs, es: seq<Expr>, more: Glyphs, closing: Glyphs, rest: Glyphs)
    requires es != [] && !EndsASequence(Kind(inside)) && Expression(inside) == Parsed(es[0], more)
    requires Kind(more) != Keyword(For) && ElementsMore([es[0]], more) == Parsed(es, closing)
    requires Kind(closing) == Closing(Square) && Next(closing) == rest
    ensures BracketAtom(inside) == Parsed(ListExpr(es), rest)
  {
  }

  lemma {:induction false} ElementsMoreReads(done: seq<Expr>, es: seq<Expr>, rest: Glyphs)
    requires es != [] && AllPrintable(es) && Kind(rest) == Closing(Square)
    ensures ElementsMore(done, Mark(Comma) + (Joined(es, Comma, 0) + rest)) == Parsed(done + es, rest)
    decreases es, 0
  {
    hide Print, Expression, ElementsMore;
    AfterMark(Comma, Joined(es, Comma, 0) + rest);
    JoinedStarts(es, rest);
    if |es| == 1 {
      JoinedHead(es, Comma, 0, rest);
      ExpressionReads(es[0], rest);
      ListStep(done, Mark(Comma) + (Joined(es, Comma, 0) + rest), Joined(es, Comma, 0) + rest, es[0], rest);
      NoMoreElements(done + es, rest);
    } else {
      var more := Mark(Comma) + (Joined(es[1..], Comma, 0) + rest);
      JoinedHead(es, Comma, 0, rest);
      AfterMark(Comma, Joined(es[1..], Comma, 0) + rest);
      ExpressionReads(es[0], more);
      ListStep(done, Mark(Comma) + (Joined(es, Comma, 0) + rest), Joined(es, Comma, 0) + rest, es[0], more);
      ElementsMoreReads(done + [es[0]], es[1..], rest);
      Shift(done, es);
    }
  }

  // ---------- Dict displays ----------

  lemma PairTokens(entry: DictEntry, rest: Glyphs)
    ensures Pair(entry) + rest == Print(entry.key, 0) + (Mark(Colon) + (Print(entry.value, 0) + rest))
  {
    var a, b, c := Print(entry.key, 0), Mark(Colon), Print(entry.value, 0);
    Joins(a + b, c, rest);
    Joins(a, b, c + rest);
  }

  lemma EntryEnds(ts: Glyphs, key: Expr, colon: Glyphs, value: Expr, rest: Glyphs)
    requires Expression(ts) == Parsed(key, colon) && Kind(colon) == Colon
        && Expression(Next(colon)) == Parsed(value, rest)
    ensures Entry(ts) == Parsed(DictEntry(key, value), rest)
  {
  }

  lemma {:induction false} EntryReads(entry: DictEntry, rest: Glyphs)
    requires EntryPrintable(entry) && Ends(rest)
    ensures Entry(Pair(entry) + rest) == Parsed(entry, rest)
    ensures StartsExpression(Kind(Pair(entry) + rest))
    decreases entry, 0
  {
    hide Print, Expression, Printable;
    var value := Print(entry.value, 0) + rest;
    var colon := Mark(Colon) + value;
    PairTokens(entry, rest);
    AfterMark(Colon, value);
    PrintStarts(entry.key, 0);
    KindOfSum(Print(entry.key, 0), colon);
    ExpressionReads(entry.key, colon);
    ExpressionReads(entry.value, rest);
    EntryEnds(Pair(entry) + rest, entry.key, colon, entry.value, rest);
  }

  lemma EntriesHead(entries: seq<DictEntry>, rest: Glyphs)
    requires entries != []
    ensures |entries| == 1 ==> entries == [entries[0]] && Entries(entries) + rest == Pair(entries[0]) + rest
    ensures |entries| > 1 ==>
      Entries(entries) + rest == Pair(entries[0]) + (Mark(Comma) + (Entries(entries[1..]) + rest))
  {
    if |entries| > 1 {
      var a, b, c := Pair(entries[0]), Mark(Comma), Entries(entries[1..]);
      Joins(a + b, c, rest);
      Joins(a, b, c + rest);
    }
  }

  /** The first of some entries is read; a comma follows it when there are more. */
  lemma {:induction false} FirstEntryReads(entries: seq<DictEntry>, rest: Glyphs)
    requires entries != [] && EntriesPrintable(entries) && Kind(rest) == Closing(Brace)
    ensures Entry(Entries(entries) + rest)
         == Parsed(entries[0], if |entries| == 1 then rest else Mark(Comma) + (Entries(entries[1..]) + rest))
    ensures StartsExpression(Kind(Entries(entries) + rest))
    decreases entries, 0
  {
    hide Pair, Entry;
    EntriesHead(entries, rest);
    if |entries| == 1 {
      EntryReads(entries[0], rest);
    } else {
      AfterMark(Comma, Entries(entries[1..]) + rest);
      EntryReads(entries[0], Mark(Comma) + (Entries(entries[1..]) + rest));
    }
  }

  lemma EntriesStep(done: seq<DictEntry>, ts: Glyphs, here: Glyphs, entry: DictEntry, more: Glyphs)
    requires Kind(ts) == Comma && Next(ts) == here && !EndsASequence(Kind(here))
    requires Entry(here) == Parsed(entry, more)
    ensures EntriesMore(done, ts) == EntriesMore(done + [entry], more)
  {
  }

  lemma {:induction false} EntriesMoreRead(done: seq<DictEntry>, entries: seq<DictEntry>, rest: Glyphs)
    requires entries != [] && EntriesPrintable(entries) && Kind(rest) == Closing(Brace)
    ensures EntriesMore(done, Mark(Comma) + (Entries(entries) + rest)) == Parsed(done + entries, rest)
    decreases entries, 1
  {
    hide Entries, Entry;
    var here := Entries(entries) + rest;
    AfterMark(Comma, here);
    FirstEntryReads(entries, rest);
    if |entries| == 1 {
      EntriesStep(done, Mark(Comma) + here, here, entries[0], rest);
      assert entries == [entries[0]];
    } else {
      EntriesStep(done, Mark(Comma) + here, here, entries[0], Mark(Comma) + (Entries(entries[1..]) + rest));
      EntriesMoreRead(done + [entries[0]], entries[1..], rest);
      Shift(done, entries);
    }
  }

  lemma NoMoreEntries(done: seq<DictEntry>, closing: Glyphs)
    requires Kind(closing) == Closing(Brace)
    ensures EntriesMore(done, closing) == Parsed(done, closing)
  {
  }

  lemma BraceCloses(inside: Glyphs, entries: seq<DictEntry>, more: Glyphs, closing: Glyphs, rest: Glyphs)
    requires entries != [] && !EndsASequence(Kind(inside)) && Entry(inside) == Parsed(entries[0], more)
    requires Kind(more) != Keyword(For) && EntriesMore([entries[0]], more) == Parsed(entries, closing)
    requires Kind(closing) == Closing(Brace) && Next(closing) == rest
    ensures BraceAtom(inside) == Parsed(DictExpr(entries), rest)
  {
    hide Entry;
  }

  lemma {:induction false} EntriesRead(entries: seq<DictEntry>, tail: Glyphs)
    requires EntriesPrintable(entries)
    ensures BraceAtom(Entries(entries) + (Mark(Closing(Brace)) + tail)) == Parsed(DictExpr(entries), tail)
    decreases entries, 2
  {
    hide Entry, Pair, BraceAtom, EntriesMore, Printable, EntryPrintable;
    var closing := Mark(Closing(Brace)) + tail;
    AfterMark(Closing(Brace), tail);
    if entries == [] {
      assert Entries(entries) + closing == closing;
      NothingInside(closing, tail);
    } else {
      FirstEntryReads(entries, closing);
      if |entries| == 1 {
        assert entries == [entries[0]];
        NoMoreEntries(entries, closing);
        BraceCloses(Entries(entries) + closing, entries, closing, closing, tail);
      } else {
        var more := Mark(Comma) + (Entries(entries[1..]) + closing);
        AfterMark(Comma, Entries(entries[1..]) + closing);
        EntriesMoreRead([entries[0]], entries[1..], closing);
        assert [entries[0]] + entries[1..] == entries;
        BraceCloses(Entries(entries) + closing, entries, more, closing, tail);
      }
    }
  }

  lemma {:induction false} DictReads(e: Expr, tail: Glyphs)
    requires Printable(e) && e.DictExpr?
    ensures Postfix(Body(e) + tail) == PostfixMore(e, tail)
    decreases e, 0
  {
    hide Entries, BraceAtom;
    var closing := Mark(Closing(Brace)) + tail;
    var inside := Entries(e.entries) + closing;
    Joins(Mark(Open(Brace)) + Entries(e.entries), Mark(Closing(Brace)), tail);
    Joins(Mark(Open(Brace)), Entries(e.entries), closing);
    AfterMark(Open(Brace), inside);
    EntriesRead(e.entries, tail);
    assert e == DictExpr(e.entries);
  }

  // ---------- Comprehensions ----------

  lemma InStops(ts: Glyphs)
    requires Kind(ts) == Op(In)
    ensures Stops(12, ts)
  {
  }

  lemma TargetReads(ts: Glyphs, target: Expr, rest: Glyphs)
    requires Postfix(ts) == Parsed(target, rest) && IsAssignable(target) && Kind(rest) != Comma
    ensures Target(ts) == Parsed(target, rest)
  {
  }

  lemma ConditionsStep(done: seq<Expr>, ts: Glyphs, here: Glyphs, x: Expr, more: Glyphs)
    requires Kind(ts) == Keyword(If) && Next(ts) == here && OrTest(here) == Parsed(x, more)
    ensures ConditionsMore(done, ts) == ConditionsMore(done + [x], more)
  {
  }

  /** A clause's iterable or condition ends where the next condition, the next clause or
      the bracket begins. */
  predicate ClosesTest(kind: TokenType) {
    kind == Keyword(If) || kind == Keyword(For) || kind == Closing(Square)
  }

  lemma ConditionsStart(es: seq<Expr>, rest: Glyphs)
    requires ClosesTest(Kind(rest))
    ensures ClosesTest(Kind(Conditions(es) + rest)) && Stops(0, Conditions(es) + rest)
  {
    if es == [] {
      assert Conditions(es) + rest == rest;
    } else {
      assert Kind(Conditions(es) + rest) == Keyword(If);
    }
  }

  lemma {:induction false} ConditionsRead(done: seq<Expr>, es: seq<Expr>, rest: Glyphs)
    requires AllPrintable(es) && (Kind(rest) == Keyword(For) || Kind(rest) == Closing(Square))
    ensures ConditionsMore(done, Conditions(es) + rest) == Parsed(done + es, rest)
    decreases es, 0
  {
    hide Print, OrTest;
    if es == [] {
      assert Conditions(es) + rest == rest && done + es == done;
    } else {
      var more := Conditions(es[1..]) + rest;
      var here := Print(es[0], 0) + more;
      Joins(Mark(Keyword(If)) + Print(es[0], 0), Conditions(es[1..]), rest);
      Joins(Mark(Keyword(If)), Print(es[0], 0), more);
      AfterMark(Keyword(If), here);
      ConditionsStart(es[1..], rest);
      Reads(es[0], 0, more);
      ConditionsStep(done, Mark(Keyword(If)) + here, here, es[0], more);
      ConditionsRead(done + [es[0]], es[1..], rest);
      Shift(done, es);
    }
  }

  lemma ClauseEnds(
      ts: Glyphs, target: Expr, word: Glyphs, iterable: Expr, tests: Glyphs, conditions: seq<Expr>, rest: Glyphs)
    requires Target(ts) == Parsed(target, word) && Kind(word) == Op(In)
    requires OrTest(Next(word)) == Parsed(iterable, tests) && ConditionsMore([], tests) == Parsed(conditions, rest)
    ensures ClauseOf(ts) == Parsed(Clause(target, iterable, conditions), rest)
  {
  }

  lemma ClauseTokens(clause: Clause, rest: Glyphs)
    ensures ForClause(clause) + rest
         == Mark(Keyword(For)) + (Print(clause.target, 12)
            + (Mark(Op(In)) + (Print(clause.iterable, 0) + (Conditions(clause.conditions) + rest))))
  {
    var a, b, c := Mark(Keyword(For)), Print(clause.target, 12), Mark(Op(In));
    var d, f := Print(clause.iterable, 0), Conditions(clause.conditions);
    FivePieces(a + b, c, d, f, rest);
    Joins(a, b, c + (d + (f + rest)));
  }

  lemma {:induction false} ClauseReads(clause: Clause, rest: Glyphs)
    requires ClausePrintable(clause) && (Kind(rest) == Keyword(For) || Kind(rest) == Closing(Square))
    ensures Kind(ForClause(clause) + rest) == Keyword(For)
    ensures ClauseOf(Next(ForClause(clause) + rest)) == Parsed(clause, rest)
    decreases clause, 0
  {
    hide Print, Target, OrTest, ConditionsMore, Postfix, ForClause, Conditions, Printable;
    var tests := Conditions(clause.conditions) + rest;
    var iterable := Print(clause.iterable, 0) + tests;
    var word := Mark(Op(In)) + iterable;
    var target := Print(clause.target, 12) + word;
    ClauseTokens(clause, rest);
    AfterMark(Keyword(For), target);
    AfterMark(Op(In), iterable);
    InStops(word);
    Reads(clause.target, 12, word);
    TargetReads(target, clause.target, word);
    ConditionsStart(clause.conditions, rest);
    Reads(clause.iterable, 0, tests);
    ConditionsRead([], clause.conditions, rest);
    assert [] + clause.conditions == clause.conditions;
    ClauseEnds(target, clause.target, word, clause.iterable, tests, clause.conditions, rest);
  }

  lemma ClausesStep(element: Expr, done: seq<Clause>, ts: Glyphs, clause: Clause, more: Glyphs)
    requires Kind(ts) == Keyword(For) && ClauseOf(Next(ts)) == Parsed(clause, more)
    ensures ClausesMore(element, done, ts) == ClausesMore(element, done + [clause], more)
  {
  }

  lemma ClausesStart(clauses: seq<Clause>, rest: Glyphs)
    ensures Kind(Clauses(clauses) + rest) == if clauses == [] then Kind(rest) else Keyword(For)
  {
    if clauses == [] {
      assert Clauses(clauses) + rest == rest;
    } else {
      ClauseTokens(clauses[0], []);
      assert ForClause(clauses[0]) == ForClause(clauses[0]) + [];
    }
  }

  lemma {:induction false} ClausesRead(element: Expr, done: seq<Clause>, clauses: seq<Clause>, rest: Glyphs)
    requires ClausesPrintable(clauses) && Kind(rest) == Closing(Square)
    ensures ClausesMore(element, done, Clauses(clauses) + rest) == Parsed(ListComp(element, done + clauses), Next(rest))
    decreases clauses, 0
  {
    hide ForClause, ClauseOf, ClausePrintable;
    if clauses == [] {
      assert Clauses(clauses) + rest == rest && done + clauses == done;
    } else {
      var more := Clauses(clauses[1..]) + rest;
      Joins(ForClause(clauses[0]), Clauses(clauses[1..]), rest);
      ClausesStart(clauses[1..], rest);
      ClauseReads(clauses[0], more);
      ClausesStep(element, done, ForClause(clauses[0]) + more, clauses[0], more);
      ClausesRead(element, done + [clauses[0]], clauses[1..], rest);
      Shift(done, clauses);
    }
  }

  lemma BracketHolds(inside: Glyphs, element: Expr, more: Glyphs)
    requires !EndsASequence(Kind(inside)) && Expression(inside) == Parsed(element, more) && Kind(more) == Keyword(For)
    ensures BracketAtom(inside) == ClausesMore(element, [], more)
  {
    hide Expression, ClausesMore;
  }

  lemma {:induction false} ListCompReads(e: Expr, tail: Glyphs)
    requires Printable(e) && e.ListComp?
    ensures Postfix(Body(e) + tail) == PostfixMore(e, tail)
    decreases e, 0
  {
    hide Print, Clauses, BracketAtom, Expression, ClausesMore;
    var closing := Mark(Closing(Square)) + tail;
    var more := Clauses(e.clauses) + closing;
    var inside := Print(e.element, 0) + more;
    FivePieces(Mark(Open(Square)), Print(e.element, 0), Clauses(e.clauses), Mark(Closing(Square)), tail);
    AfterMark(Open(Square), inside);
    AfterMark(Closing(Square), tail);
    ClausesStart(e.clauses, closing);
    PrintStarts(e.element, 0);
    KindOfSum(Print(e.element, 0), more);
    ExpressionReads(e.element, more);
    BracketHolds(inside, e.element, more);
    ClausesRead(e.element, [], e.clauses, closing);
    assert [] + e.clauses == e.clauses;
    assert e == ListComp(e.element, e.clauses);
  }
}
