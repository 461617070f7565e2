/** What the emitter's text ought to be, piece by piece: the text of calls, suites, function
    definitions and whole modules in terms of the lowered tree, and how each grows by one
    more argument, statement or definition. */
module EmissionText {
  import opened Options
  import opened Sequences
  import opened Numbers
  import opened CompareRuntime
  import opened Values
  import opened Syntax
  import opened CppMachine
  import opened Lowering
  import opened CppText
  import opened Compiler

  function ExprText(x: Option<CppExpr>): Option<Text> {
    if x.Some? then Some(PrintExpr(x.value)) else None
  }

  function BlockText(x: Option<seq<CppStmt>>): Option<Text> {
    if x.Some? then Some(PrintBlock(x.value)) else None
  }

  function ExprSize(e: Expr): (n: nat)
    ensures n > 0
    decreases e
  {
    match e
    case Unary(_, x) => 1 + ExprSize(x)
    case Binary(_, l, r) => 1 + ExprSize(l) + ExprSize(r)
    case Compare(first, rest) => 1 + ExprSize(first) + LinksSize(rest)
    case BoolOp(_, values) => 1 + ExprsSize(values)
    case Call(_, args) => 1 + ExprsSize(args)
    case _ => 1
  }

  function LinksSize(rest: Links): nat
    decreases rest
  {
    if rest.NoLinks? then 0 else ExprSize(rest.operand) + LinksSize(rest.more)
  }

  function ExprsSize(es: seq<Expr>): nat
    decreases es
  {
    if es == [] then 0 else ExprSize(es[0]) + ExprsSize(es[1..])
  }

  /** The arguments of a call, widened to `params` unless the callee is a builtin. */
  function LowerCallArgs(types: Types, args: seq<Expr>, params: Option<seq<Kind>>): (r: Option<seq<CppExpr>>)
    requires params.Some? ==> |params.value| == |args|
    ensures r.Some? ==> |r.value| == |args|
  {
    if params.None? then LowerAll(types, args) else LowerArgs(types, args, params.value)
  }

  function ArgsText(xs: Option<seq<CppExpr>>): Option<Text> {
    if xs.Some? then Some(PrintArgs(xs.value)) else None
  }

  function Head(callee: string): Token {
    if callee == "print" then Fn(PrintFunction) else if callee == "len" then Fn(LenFunction) else Ident(Mangle(callee))
  }

  predicate CalleeAccepted(types: Types, e: Expr, isStatement: bool)
    requires e.Call?
  {
    if e.callee == "print" then isStatement
    else if e.callee == "len" then true
    else
      && !IsListed(e.callee, REFUSED_BUILTINS) && IsManglable(e.callee)
      && e.callee in types.functions && |types.functions[e.callee].params| == |e.args|
  }

  /** The declared parameters arguments are raised into; builtins have an overload for
      every argument type instead. */
  function ParamsOf(types: Types, callee: string): Option<seq<Kind>> {
    if callee == "print" || callee == "len" || callee !in types.functions then None
    else Some(types.functions[callee].params)
  }

  lemma CallText(o: Text, callee: string, xs: seq<CppExpr>)
    ensures o + [Head(callee)] + [Open] + PrintArgs(xs) + [Close]
         == o + ([Head(callee), Open] + PrintArgs(xs) + [Close])
  {
    assert o + [Head(callee)] + [Open] == o + [Head(callee), Open];
    Encloses(o, [Head(callee), Open], PrintArgs(xs), [Close]);
  }

  function Separator(i: nat, n: nat): Text {
    if 0 < i < n then [Comma] else []
  }

  function LowerArg(types: Types, args: seq<Expr>, params: Option<seq<Kind>>, i: nat): Option<CppExpr>
    requires i < |args| && (params.Some? ==> |params.value| == |args|)
  {
    if params.None? then LowerExpr(types, args[i], false) else LowerWidened(types, args[i], params.value[i])
  }

  /** The output and the refusal flag at one moment. */
  datatype Written = Written(out: Text, failed: bool)

  /** With arguments `i` on still to write, the output lacks exactly their text. */
  ghost predicate ArgsPending(
      types: Types, args: seq<Expr>, params: Option<seq<Kind>>, i: nat, now: Written, start: Written)
    requires i <= |args| && (params.Some? ==> |params.value| == |args|)
  {
    var xs, rest := LowerCallArgs(types, args, params), LowerCallArgs(types, args[i..], Drop(params, i));
    && (now.failed || rest.None?) == (start.failed || xs.None?)
    && (!now.failed && rest.Some? ==>
          now.out + Separator(i, |args|) + PrintArgs(rest.value) == start.out + PrintArgs(xs.value))
  }

  lemma ArgsStep(
      types: Types, args: seq<Expr>, params: Option<seq<Kind>>, i: nat, was: Written, now: Written, start: Written)
    requires i < |args| && (params.Some? ==> |params.value| == |args|)
    requires ArgsPending(types, args, params, i, was, start)
    requires var x := LowerArg(types, args, params, i);
      now.failed == (was.failed || x.None?)
      && (!now.failed ==> now.out == (if i == 0 then was.out else was.out + [Comma]) + PrintExpr(x.value))
    ensures ArgsPending(types, args, params, i + 1, now, start)
  {
    var x, xs := LowerArg(types, args, params, i), LowerCallArgs(types, args[i + 1..], Drop(params, i + 1));
    RestOfArgs(types, args, params, i);
    assert was.out + [] == was.out;
    if x.Some? && xs.Some? {
      ArgWritten(was.out + Separator(i, |args|), x.value, xs.value);
    }
  }

  lemma ArgsEnds(types: Types, args: seq<Expr>, params: Option<seq<Kind>>, now: Written, start: Written)
    requires params.Some? ==> |params.value| == |args|
    ensures ArgsPending(types, args, params, 0, start, start)
    ensures ArgsPending(types, args, params, |args|, now, start) ==>
      var xs := LowerCallArgs(types, args, params);
      now.failed == (start.failed || xs.None?) && (!now.failed ==> now.out == start.out + PrintArgs(xs.value))
  {
    assert args[0..] == args;
    if params.Some? {
      assert params.value[0..] == params.value;
    }
  }

  lemma RestOfArgs(types: Types, args: seq<Expr>, params: Option<seq<Kind>>, i: nat)
    requires i < |args| && (params.Some? ==> |params.value| == |args|)
    ensures var x, xs := LowerArg(types, args, params, i), LowerCallArgs(types, args[i + 1..], Drop(params, i + 1));
      LowerCallArgs(types, args[i..], Drop(params, i))
        == if x.Some? && xs.Some? then Some([x.value] + xs.value) else None
  {
    assert args[i..][0] == args[i] && args[i..][1..] == args[i + 1..];
    if params.Some? {
      assert params.value[i..][1..] == params.value[i + 1..];
    }
  }

  lemma SingleLink(types: Types, rest: Links)
    requires rest.Link? && rest.more.NoLinks? && rest.op.Some?
    ensures ChainSupported(rest)
    ensures var x := LowerExpr(types, rest.operand, false);
      LowerLinks(types, rest) == if x.Some? then Some(CppLink(rest.op.value, x.value, NoCppLinks)) else None
  {
    assert ChainSupported(rest.more);
    assert LowerLinks(types, rest.more) == Some(NoCppLinks);
  }

  lemma {:induction false} ArgIsSmaller(args: seq<Expr>, i: nat)
    requires i < |args|
    ensures ExprSize(args[i]) <= ExprsSize(args)
  {
    if i > 0 {
      ArgIsSmaller(args[1..], i - 1);
    }
  }

  function Drop<T>(xs: Option<seq<T>>, i: nat): Option<seq<T>>
    requires xs.Some? ==> i <= |xs.value|
  {
    if xs.Some? then Some(xs.value[i..]) else None
  }

  lemma EnclosesTwo(o: Text, a: Text, x: Text, b: Text, y: Text, c: Text)
    ensures o + a + x + b + y + c == o + (a + x + b + y + c)
  {
  }

  lemma LinkWritten(o: Text, op: CompareOp, operand: CppExpr, more: CppLinks, n: nat)
    ensures var last := more.NoCppLinks?;
      var whole := o + [AutoRef, Temp(n + 1), Equals, Open] + PrintExpr(operand) + [Close, Semi]
                   + (if last then [ReturnWord] else [IfWord, Open, Bang, Fn(TruthyFunction), Open])
                   + LinkTest(op, n) + (if last then [Semi] else [Close, Close] + RETURN_FALSE);
      whole + PrintLinks(more, n + 1) == o + PrintLinks(CppLink(op, operand, more), n)
  {
    var a, x, b := [AutoRef, Temp(n + 1), Equals, Open], PrintExpr(operand), [Close, Semi];
    var m, test := a + x + b, LinkTest(op, n);
    Encloses(o, a, x, b);
    if more.NoCppLinks? {
      Encloses(o + m, [ReturnWord], test, [Semi]);
      Joins(o, m, [ReturnWord] + test + [Semi]);
    } else {
      var c, d, rest := [IfWord, Open, Bang, Fn(TruthyFunction), Open],
          [Close, Close] + RETURN_FALSE, PrintLinks(more, n + 1);
      Encloses(o + m, c, test, d);
      Joins(c + test, [Close, Close], RETURN_FALSE);
      Joins(o, m, c + test + d);
      Joins(o, m + (c + test + d), rest);
      Joins(m, c + test + d, rest);
    }
  }

  lemma ArgWritten(o: Text, x: CppExpr, xs: seq<CppExpr>)
    ensures o + PrintExpr(x) + (if xs == [] then [] else [Comma]) + PrintArgs(xs) == o + PrintArgs([x] + xs)
  {
    assert ([x] + xs)[1..] == xs;
    if xs != [] {
      Encloses(o, PrintExpr(x), [Comma], PrintArgs(xs));
    } else {
      assert o + PrintExpr(x) + [] + [] == o + PrintExpr(x);
    }
  }

  /** With statements `i` on still to write, the output lacks exactly their text. */
  ghost predicate SuitePending(site: Site, body: seq<Stmt>, i: nat, now: Written, start: Written)
    requires i <= |body|
  {
    var all, rest := LowerBlock(site, body), LowerBlock(site, body[i..]);
    && (now.failed || rest.None?) == (start.failed || all.None?)
    && (!now.failed && rest.Some? ==> now.out + PrintBlock(rest.value) == start.out + PrintBlock(all.value))
  }

  lemma SuiteStep(site: Site, body: seq<Stmt>, i: nat, was: Written, now: Written, start: Written)
    requires i < |body| && SuitePending(site, body, i, was, start)
    requires var x := LowerStmt(site, body[i]);
      now.failed == (was.failed || x.None?) && (!now.failed ==> now.out == was.out + PrintBlock(x.value))
    ensures SuitePending(site, body, i + 1, now, start)
  {
    assert body[i..][0] == body[i] && body[i..][1..] == body[i + 1..];
    var x, xs := LowerStmt(site, body[i]), LowerBlock(site, body[i + 1..]);
    if x.Some? && xs.Some? {
      PrintBlockAppends(x.value, xs.value);
      Joins(was.out, PrintBlock(x.value), PrintBlock(xs.value));
    }
  }

  lemma SuiteEnds(site: Site, body: seq<Stmt>, now: Written, start: Written)
    ensures SuitePending(site, body, 0, start, start)
    ensures SuitePending(site, body, |body|, now, start) ==>
      var all := LowerBlock(site, body);
      now.failed == (start.failed || all.None?) && (!now.failed ==> now.out == start.out + PrintBlock(all.value))
  {
    assert body[0..] == body;
  }

  /** An `if` up to the end of its first suite. */
  function ThenText(c: CppExpr, x: seq<CppStmt>): Text {
    [IfWord] + PrintCondition(c) + [LBrace] + PrintBlock(x)
  }

  lemma IfText(o: Text, c: CppExpr, x: seq<CppStmt>)
    ensures o + ThenText(c, x) + [RBrace] == o + PrintBlock([CppIf(c, x, [])])
  {
    PrintSingle(CppIf(c, x, []));
    Joins(o, ThenText(c, x), [RBrace]);
  }

  lemma IfElseText(o: Text, c: CppExpr, x: seq<CppStmt>, y: seq<CppStmt>)
    requires y != []
    ensures o + ThenText(c, x) + [RBrace, ElseWord, LBrace] + PrintBlock(y) + [RBrace]
         == o + PrintBlock([CppIf(c, x, y)])
  {
    PrintSingle(CppIf(c, x, y));
    EnclosesTwo(o, ThenText(c, x), [RBrace, ElseWord, LBrace], [], PrintBlock(y), [RBrace]);
    assert o + ThenText(c, x) + [RBrace, ElseWord, LBrace] + [] == o + ThenText(c, x) + [RBrace, ElseWord, LBrace];
    assert ThenText(c, x) + [RBrace, ElseWord, LBrace] + [] == ThenText(c, x) + [RBrace, ElseWord, LBrace];
  }

  /** An `and` or `or`, and when it is refused. */
  lemma LogicText(o: Text, types: Types, e: Expr)
    requires e.BoolOp?
    ensures TypeOf(types, e).None? || |e.values| != 2 ==> LowerExpr(types, e, false).None?
    ensures TypeOf(types, e).Some? && |e.values| == 2 ==>
      var x, y := LowerExpr(types, e.values[0], false), LowerExpr(types, e.values[1], false);
      if x.None? || y.None? then LowerExpr(types, e, false).None?
      else LowerExpr(types, e, false).Some?
           && o + [Fn(LogicFunction(e.isAnd)), Open] + PrintExpr(x.value) + [Comma, ThunkHead, LBrace, ReturnWord]
              + PrintExpr(y.value) + [Semi, RBrace, Close]
              == o + PrintExpr(LowerExpr(types, e, false).value)
  {
    hide TypeOf;
    if TypeOf(types, e).Some? && |e.values| == 2 {
      var x, y := LowerExpr(types, e.values[0], false), LowerExpr(types, e.values[1], false);
      if x.Some? && y.Some? {
        EnclosesTwo(o, [Fn(LogicFunction(e.isAnd)), Open], PrintExpr(x.value),
                    [Comma, ThunkHead, LBrace, ReturnWord], PrintExpr(y.value), [Semi, RBrace, Close]);
      }
    }
  }

  /** A loop, and what it is wrapped in when it has an else clause. */
  lemma LoopLowers(site: Site, s: Stmt)
    requires s.While?
    ensures var c, y := LowerExpr(site.types, s.cond, false), LowerBlock(site, s.orelse);
      var x := LowerBlock(site.(depth := site.depth + 1, hasElse := s.orelse != []), s.body);
      LowerStmt(site, s) ==
        if c.None? || x.None? then None
        else if s.orelse == [] then Some([CppWhile(c.value, x.value)])
        else if y.None? then None
        else Some([CppBlock([DeclareFlag(site.depth), CppWhile(c.value, x.value), IfNotFlag(site.depth, y.value)])])
  {
  }

  lemma WhileText(o: Text, c: CppExpr, x: seq<CppStmt>)
    ensures o + [WhileWord] + PrintCondition(c) + [LBrace] + PrintBlock(x) + [RBrace] == o + PrintStmt(CppWhile(c, x))
  {
    EnclosesTwo(o, [WhileWord], PrintCondition(c), [LBrace], PrintBlock(x), [RBrace]);
  }

  lemma LoopElseText(o: Text, n: nat, c: CppExpr, x: seq<CppStmt>, y: seq<CppStmt>)
    ensures o + [LBrace] + PrintStmt(DeclareFlag(n)) + PrintStmt(CppWhile(c, x))
            + PrintStmt(IfNotFlag(n, y)) + [RBrace]
         == o + PrintBlock([CppBlock([DeclareFlag(n), CppWhile(c, x), IfNotFlag(n, y)])])
  {
    var a, b, d := DeclareFlag(n), CppWhile(c, x), IfNotFlag(n, y);
    var body := [a, b, d];
    assert body[1..] == [b, d] && [b, d][1..] == [d];
    PrintSingle(d);
    PrintSingle(CppBlock(body));
    var A, B, D := PrintStmt(a), PrintStmt(b), PrintStmt(d);
    assert PrintBlock(body) == A + (B + D);
    Joins([LBrace], A, B + D);
    Joins([LBrace] + A, B, D);
    EnclosesTwo(o, [LBrace], A, B, D, [RBrace]);
  }

  /** A definition's text from its pieces. */
  lemma DefinitionText(o: Text, types: Types, locals: map<string, Kind>, maybeUnbound: set<string>, s: Stmt)
    requires s.FunctionDef? && LowerFunction(types, locals, maybeUnbound, s).Some?
    ensures var table, result := FunctionTable(types, locals, s).value, s.resultType.kind.value;
      var site := Site(Types(types.globals, locals, types.functions),
          ParamSlots(TypedParams(s.params)) + SlotsOf(table), result, 0, false);
      LowerBlock(site, s.body).Some?
      && o + SignatureText(s) + [LBrace] + DeclarationsText(table) + PrintBlock(LowerBlock(site, s.body).value)
         + PrintBlock(Tail(result)) + [RBrace]
         == o + FunctionText(types, locals, maybeUnbound, s).value
  {
    var f := LowerFunction(types, locals, maybeUnbound, s).value;
    var table, result := FunctionTable(types, locals, s).value, s.resultType.kind.value;
    var site := Site(Types(types.globals, locals, types.functions),
        ParamSlots(TypedParams(s.params)) + SlotsOf(table), result, 0, false);
    var a, b, d, x, y := SignatureText(s), [LBrace],
        DeclarationsText(table), PrintBlock(LowerBlock(site, s.body).value),
                         PrintBlock(Tail(result));
    PrintBlockAppends(LowerBlock(site, s.body).value, Tail(result));
    EnclosesTwo(o, a, b, d, x + y, [RBrace]);
    Joins(o + a + b + d, x, y);
  }

  /** What refuses a definition. */
  lemma RefusedDefinition(types: Types, locals: map<string, Kind>, maybeUnbound: set<string>, s: Stmt)
    requires s.FunctionDef?
    ensures FunctionText(types, locals, maybeUnbound, s).Some? <==> LowerFunction(types, locals, maybeUnbound, s).Some?
    ensures !SignatureSupported(s) ==> LowerFunction(types, locals, maybeUnbound, s).None?
    ensures SignatureSupported(s) ==>
      var inner, names := Types(types.globals, locals, types.functions), set id | id in ParamIds(s.params);
      var table := FunctionTable(types, locals, s);
      LowerFunction(types, locals, maybeUnbound, s).Some? <==>
        (table.Some? && CheckBlock(s.body, IdsOf(table.value), names).ok
         && CheckBlock(s.body, maybeUnbound - IdsOf(table.value) - names, {}).ok
         && LowerBlock(Site(inner, ParamSlots(TypedParams(s.params)) + SlotsOf(table.value),
                            s.resultType.kind.value, 0, false), s.body).Some?)
  {
    hide Collect, CheckBlock, LowerBlock;
  }

  lemma TailText(o: Text, result: Kind)
    ensures o + PrintBlock(Tail(result)) == if result == NoneKind then o + [ReturnWord, NoneObject, Semi] else o
  {
    if result == NoneKind {
      PrintSingle(CppReturn(NoneLiteral));
      assert Tail(result) == [CppReturn(NoneLiteral)];
    } else {
      assert o + [] == o;
    }
  }

  lemma {:induction false} SlotsSnoc(params: seq<Param>, p: Param)
    ensures ParamSlots(TypedParams(params + [p])) == map[p.id := ParamKind(p)] + ParamSlots(TypedParams(params))
  {
    var all := params + [p];
    assert TypedParams(all)[1..] == TypedParams(all[1..]);
    if params == [] {
      assert all == [p];
    } else {
      assert all[1..] == params[1..] + [p];
      assert TypedParams(params)[1..] == TypedParams(params[1..]);
      SlotsSnoc(params[1..], p);
    }
  }

  /** With statements `i` on still to write into main, the output lacks exactly their text. */
  ghost predicate MainPending(site: Site, body: seq<Stmt>, i: nat, now: Written, start: Written)
    requires i <= |body|
  {
    var all, rest := LowerMain(site, body), LowerMain(site, body[i..]);
    && (now.failed || rest.None?) == (start.failed || all.None?)
    && (!now.failed && rest.Some? ==> now.out + PrintBlock(rest.value) == start.out + PrintBlock(all.value))
  }

  lemma MainStep(site: Site, body: seq<Stmt>, i: nat, was: Written, now: Written, start: Written)
    requires i < |body| && MainPending(site, body, i, was, start)
    requires if body[i].FunctionDef? then now == was else
        var x := LowerStmt(site, body[i]);
        now.failed == (was.failed || x.None?) && (!now.failed ==> now.out == was.out + PrintBlock(x.value))
    ensures MainPending(site, body, i + 1, now, start)
  {
    assert body[i..][0] == body[i] && body[i..][1..] == body[i + 1..];
    if !body[i].FunctionDef? {
      var x, xs := LowerStmt(site, body[i]), LowerMain(site, body[i + 1..]);
      if x.Some? && xs.Some? {
        PrintBlockAppends(x.value, xs.value);
        Joins(was.out, PrintBlock(x.value), PrintBlock(xs.value));
      }
    }
  }

  lemma MainEnds(site: Site, body: seq<Stmt>, now: Written, start: Written)
    ensures MainPending(site, body, 0, start, start)
    ensures MainPending(site, body, |body|, now, start) ==>
      var all := LowerMain(site, body);
      now.failed == (start.failed || all.None?) && (!now.failed ==> now.out == start.out + PrintBlock(all.value))
  {
    assert body[0..] == body;
  }

  /** Every name read in an expression, in source order: NameReadCollector. */
  function NamesRead(e: Expr): seq<string>
    decreases e
  {
    match e
    case Name(id) => [id]
    case Unary(_, x) => NamesRead(x)
    case Binary(_, l, r) => NamesRead(l) + NamesRead(r)
    case Compare(first, rest) => NamesRead(first) + NamesReadInLinks(rest)
    case BoolOp(_, values) => NamesReadInAll(values)
    case Call(callee, args) => [callee] + NamesReadInAll(args)
    case _ => []
  }

  function NamesReadInAll(es: seq<Expr>): seq<string>
    decreases es
  {
    if es == [] then [] else NamesRead(es[0]) + NamesReadInAll(es[1..])
  }

  function NamesReadInLinks(rest: Links): seq<string>
    decreases rest
  {
    if rest.NoLinks? then [] else NamesRead(rest.operand) + NamesReadInLinks(rest.more)
  }

  lemma {:induction false} NamesReadAreReads(e: Expr)
    ensures forall id :: id in NamesRead(e) <==> id in Reads(e)
    decreases e
  {
    match e
    case Unary(_, x) => NamesReadAreReads(x);
    case Binary(_, l, r) => NamesReadAreReads(l); NamesReadAreReads(r);
    case Compare(first, rest) => NamesReadAreReads(first); NamesInLinksAreReads(rest);
    case BoolOp(_, values) => NamesInAllAreReads(values);
    case Call(_, args) => NamesInAllAreReads(args);
    case _ =>
  }

  lemma {:induction false} NamesInAllAreReads(es: seq<Expr>)
    ensures forall id :: id in NamesReadInAll(es) <==> id in ReadsAll(es)
    decreases es
  {
    if es != [] {
      NamesReadAreReads(es[0]);
      NamesInAllAreReads(es[1..]);
    }
  }

  lemma {:induction false} NamesInLinksAreReads(rest: Links)
    ensures forall id :: id in NamesReadInLinks(rest) <==> id in LinkReads(rest)
    decreases rest
  {
    if rest.Link? {
      NamesReadAreReads(rest.operand);
      NamesInLinksAreReads(rest.more);
    }
  }

  /** Watching no name, the walk refuses nothing. */
  lemma {:induction false} NothingToWatch(body: seq<Stmt>, bound: set<string>)
    ensures CheckBlock(body, {}, bound).ok
    decreases body, 0
  {
    if body != [] {
      NothingToWatchIn(body[0], bound);
      NothingToWatch(body[1..], CheckStmt(body[0], {}, bound).bound);
    }
  }

  lemma {:induction false} NothingToWatchIn(s: Stmt, bound: set<string>)
    ensures CheckStmt(s, {}, bound).ok
    decreases s, 0
  {
    if s.If? || s.While? {
      NothingToWatch(s.body, bound);
      NothingToWatch(s.orelse, bound);
    }
  }

  // ---------- The text of a module ----------

  function ParamsText(params: seq<Param>): Text {
    if params == [] then []
    else ParamsText(params[..|params| - 1]) + (if |params| > 1 then [Comma] else []) + ParamText(params[|params| - 1])
  }

  function ParamText(p: Param): Text {
    [Class(ParamKind(p)), Ident(Mangle(p.id))]
  }

  function SignatureText(s: Stmt): Text
    requires s.FunctionDef? && SignatureSupported(s)
  {
    [Class(s.resultType.kind.value), Ident(Mangle(s.id)), Open] + ParamsText(s.params) + [Close]
  }

  function DeclarationsText(table: seq<ScopeVariable>): Text {
    if table == [] then []
    else
      var last := table[|table| - 1];
      DeclarationsText(table[..|table| - 1]) + [Class(last.kind), Ident(Mangle(last.id)), Semi]
  }

  function FunctionTable(types: Types, locals: map<string, Kind>, s: Stmt): Option<seq<ScopeVariable>>
    requires s.FunctionDef?
  {
    var names := set id | id in ParamIds(s.params);
    Collect(CollectMode(Types(types.globals, locals, types.functions), names, true), s.body, [], false)
  }

  function FunctionText(types: Types, locals: map<string, Kind>, maybeUnbound: set<string>, s: Stmt): Option<Text>
    requires s.FunctionDef?
  {
    var f := LowerFunction(types, locals, maybeUnbound, s);
    if f.None? then None
    else Some(SignatureText(s) + [LBrace] + DeclarationsText(FunctionTable(types, locals, s).value)
              + PrintBlock(f.value.body) + [RBrace])
  }

  function PrototypesText(body: seq<Stmt>): Option<Text> {
    if body == [] then Some([])
    else
      var front, s := PrototypesText(body[..|body| - 1]), body[|body| - 1];
      if front.None? || !s.FunctionDef? then front
      else if SignatureSupported(s) then Some(front.value + SignatureText(s) + [Semi])
      else None
  }

  predicate DefinitionsHaveTypes(localTypes: map<string, map<string, Kind>>, body: seq<Stmt>) {
    forall i :: 0 <= i < |body| && body[i].FunctionDef? ==> body[i].id in localTypes
  }

  function DefinitionsText(
      types: Types, localTypes: map<string, map<string, Kind>>,
      maybeUnbound: set<string>, body: seq<Stmt>): Option<Text>
    requires DefinitionsHaveTypes(localTypes, body)
  {
    if body == [] then Some([])
    else
      var s := body[|body| - 1];
      var front := DefinitionsText(types, localTypes, maybeUnbound, body[..|body| - 1]);
      if front.None? || !s.FunctionDef? then front
      else
        var text := FunctionText(types, localTypes[s.id], maybeUnbound, s);
        if text.Some? then Some(front.value + text.value) else None
  }

  const MAIN_OPENS: Text := [IntWord, MainWord, Open, Close, LBrace]
  const MAIN_CLOSES: Text := [ReturnWord, Zero, Semi, RBrace]

  function ModuleTable(types: Types, body: seq<Stmt>): Option<seq<ScopeVariable>> {
    Collect(CollectMode(ModuleTypes(types), {}, false), body, [], false)
  }

  function MaybeUnbound(table: seq<ScopeVariable>, body: seq<Stmt>): set<string> {
    IdsOf(table) - CheckBlock(body, IdsOf(table), {}).bound
  }

  predicate PreludeAccepts(types: Types, body: seq<Stmt>) {
    var table := ModuleTable(types, body);
    table.Some? && CheckBlock(body, IdsOf(table.value), {}).ok
  }

  /** The whole file for an accepted module. */
  function ModuleText(types: Types, localTypes: map<string, map<string, Kind>>, body: seq<Stmt>): Option<Text>
    requires DefinitionsHaveTypes(localTypes, body)
  {
    var program := LowerModule(types, localTypes, body);
    if program.None? then None
    else
      var table := ModuleTable(types, body).value;
      DefinitionsTextExists(types, localTypes, MaybeUnbound(table, body), body);
      Some([Include] + DeclarationsText(table) + PrototypesText(body).value
           + DefinitionsText(types, localTypes, MaybeUnbound(table, body), body).value
           + MAIN_OPENS + PrintBlock(program.value.main) + MAIN_CLOSES)
  }

  lemma ModuleFromPieces(types: Types, localTypes: map<string, map<string, Kind>>, body: seq<Stmt>)
    requires DefinitionsHaveTypes(localTypes, body) && PreludeAccepts(types, body)
    ensures var table := ModuleTable(types, body).value;
      var main := LowerMain(ModuleSite(types, SlotsOf(table)), body);
      var definitions := DefinitionsText(types, localTypes, MaybeUnbound(table, body), body);
      && (definitions.Some? ==> PrototypesText(body).Some?)
      && ModuleText(types, localTypes, body)
         == if definitions.Some? && main.Some? then
              Some([Include] + DeclarationsText(table) + PrototypesText(body).value + definitions.value
                   + MAIN_OPENS + PrintBlock(main.value) + MAIN_CLOSES)
            else None
  {
    DefinitionsTextExists(types, localTypes, MaybeUnbound(ModuleTable(types, body).value, body), body);
  }

  lemma {:induction false} DefinitionsTextExists(
      types: Types, localTypes: map<string, map<string, Kind>>, maybeUnbound: set<string>, body: seq<Stmt>)
    requires DefinitionsHaveTypes(localTypes, body)
    ensures DefinitionsText(types, localTypes, maybeUnbound, body).Some?
        <==> LowerFunctions(types, localTypes, maybeUnbound, body).Some?
    ensures LowerFunctions(types, localTypes, maybeUnbound, body).Some? ==> PrototypesText(body).Some?
  {
    if body != [] {
      DefinitionsTextExists(types, localTypes, maybeUnbound, body[..|body| - 1]);
      LowerFunctionsSnoc(types, localTypes, maybeUnbound, body);
    }
  }

  /** All definitions are lowered exactly when all but the last are, and the last is. */
  lemma {:induction false} LowerFunctionsSnoc(
      types: Types, localTypes: map<string, map<string, Kind>>, maybeUnbound: set<string>, body: seq<Stmt>)
    requires DefinitionsHaveTypes(localTypes, body) && body != []
    ensures var s := body[|body| - 1];
      LowerFunctions(types, localTypes, maybeUnbound, body).Some? <==>
        (LowerFunctions(types, localTypes, maybeUnbound, body[..|body| - 1]).Some?
         && (s.FunctionDef? ==> LowerFunction(types, localTypes[s.id], maybeUnbound, s).Some?))
  {
    if |body| > 1 {
      assert body[1..][..|body| - 2] == body[..|body| - 1][1..];
      LowerFunctionsSnoc(types, localTypes, maybeUnbound, body[1..]);
    } else {
      assert body[1..] == [] && body[..0] == [];
    }
  }

  lemma DefinitionsSnoc(
      o: Text, types: Types, localTypes: map<string, map<string, Kind>>,
      maybeUnbound: set<string>, body: seq<Stmt>, i: nat)
    requires DefinitionsHaveTypes(localTypes, body) && i < |body| && body[i].FunctionDef?
    requires DefinitionsText(types, localTypes, maybeUnbound, body[..i]).Some?
    ensures var front := DefinitionsText(types, localTypes, maybeUnbound, body[..i]).value;
      var text := FunctionText(types, localTypes[body[i].id], maybeUnbound, body[i]);
      var now := DefinitionsText(types, localTypes, maybeUnbound, body[..i + 1]);
      now.Some? == text.Some? && (text.Some? ==> o + now.value == o + front + text.value)
  {
    assert body[..i + 1][..i] == body[..i];
    var text := FunctionText(types, localTypes[body[i].id], maybeUnbound, body[i]);
    if text.Some? {
      Joins(o, DefinitionsText(types, localTypes, maybeUnbound, body[..i]).value, text.value);
    }
  }

  /** A refused signature refuses the module, whatever follows it. */
  lemma {:induction false} PrototypesStop(body: seq<Stmt>, n: nat)
    requires n <= |body| && PrototypesText(body[..n]).None?
    ensures PrototypesText(body).None?
  {
    if n == |body| {
      assert body[..n] == body;
    } else {
      assert body[..|body| - 1][..n] == body[..n];
      PrototypesStop(body[..|body| - 1], n);
    }
  }

  lemma {:induction false} DefinitionsStop(
      types: Types, localTypes: map<string, map<string, Kind>>, maybeUnbound: set<string>, body: seq<Stmt>, n: nat)
    requires DefinitionsHaveTypes(localTypes, body) && n <= |body|
    requires DefinitionsText(types, localTypes, maybeUnbound, body[..n]).None?
    ensures DefinitionsText(types, localTypes, maybeUnbound, body).None?
  {
    if n == |body| {
      assert body[..n] == body;
    } else {
      assert body[..|body| - 1][..n] == body[..n];
      DefinitionsStop(types, localTypes, maybeUnbound, body[..|body| - 1], n);
    }
  }

  /** A statement's lowering is never empty, so suites are empty together. */
  lemma LoweredSuiteIsEmptyWith(site: Site, body: seq<Stmt>)
    requires LowerBlock(site, body).Some?
    ensures LowerBlock(site, body).value == [] <==> body == []
  {
    if body != [] {
      LoweredStatementIsNotEmpty(site, body[0]);
    }
  }

  lemma LoweredStatementIsNotEmpty(site: Site, s: Stmt)
    requires LowerStmt(site, s).Some?
    ensures LowerStmt(site, s).value != []
  {
  }

  lemma PrintSingle(s: CppStmt)
    ensures PrintBlock([s]) == PrintStmt(s)
  {
    assert [s][1..] == [];
    assert PrintStmt(s) + [] == PrintStmt(s);
  }
}
