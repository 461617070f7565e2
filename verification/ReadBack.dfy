/** Reading the emitted text: a recursive-descent reader of the C++ the emitter writes, and
    the round trip. Every emitted expression and statement reads back as the tree it was
    written from and stops right after it, so no other tree has the same text. */
module ReadBack {
  import opened Options
  import opened Sequences
  import opened CompareRuntime
  import opened StrRuntime
  import opened Values
  import opened CppMachine
  import opened CppText

  datatype Read<T> = Read(value: T, rest: Text) | Unreadable

  function After(ts: Text, prefix: Text): Option<Text> {
    if prefix <= ts then Some(ts[|prefix|..]) else None
  }

  lemma AfterPrefix(prefix: Text, rest: Text)
    ensures After(prefix + rest, prefix) == Some(rest)
  {
  }

  function Unmangle(mangled: string): string {
    if |mangled| >= 3 then mangled[3..] else mangled
  }

  /** `value` followed by `closing`. */
  function Closed<T>(r: Read<T>, closing: Text): (c: Read<T>)
    ensures c.Read? ==> r.Read? && c.value == r.value && |c.rest| <= |r.rest|
  {
    if r.Unreadable? then Unreadable
    else
      var rest := After(r.rest, closing);
      if rest.Some? then Read(r.value, rest.value) else Unreadable
  }

  // ---------- Expressions ----------

  function ReadLiteral(k: Kind, ts: Text): (r: Read<CppExpr>)
    ensures r.Read? ==> |r.rest| < |ts|
  {
    match k
    case NoneKind => Unreadable
    case StrKind => ReadStrLiteral(ts)
    case BoolKind =>
      if |ts| >= 3 && ts[0] == Open && ts[1].Truth? && ts[2] == Close then Read(BoolLiteral(ts[1].b), ts[3..])
      else Unreadable
    case IntKind =>
      if |ts| >= 3 && ts[0] == Open && ts[1].Number? && ts[2] == Close then Read(IntLiteral(ts[1].digits), ts[3..])
      else Unreadable
    case FloatKind =>
      if |ts| >= 3 && ts[0] == Open && ts[1].Number? && ts[2] == Close then Read(FloatLiteral(ts[1].digits), ts[3..])
      else Unreadable
  }

  /** Quoted bytes and their count. */
  function ReadStrLiteral(ts: Text): (r: Read<CppExpr>)
    ensures r.Read? ==> |r.rest| < |ts|
  {
    var body := After(ts, [Open, StdString, Open]);
    if body.None? || |body.value| < 3 || !body.value[0].Quoted? || body.value[1] != Comma then Unreadable
    else
      var bytes := ReadOctals(body.value[0].body);
      if bytes.None? || body.value[2] != Number(Decimal(|bytes.value|)) then Unreadable
      else Closed(Read(StrLiteral(bytes.value), body.value[3..]), [Close, Close])
  }

  const LAMBDA_OPENS: Text := [LambdaHead, LBrace, AutoRef, Temp(0), Equals, Open]

  function ReadExpr(ts: Text): (r: Read<CppExpr>)
    ensures r.Read? ==> |r.rest| < |ts|
    decreases |ts|, 0
  {
    if ts == [] then Unreadable
    else
      match ts[0]
      case Class(k) => ReadLiteral(k, ts[1..])
      case NoneObject => Read(NoneLiteral, ts[1..])
      case Fn(f) => if |ts| > 1 && ts[1] == Open then ReadCall(f, ts[2..]) else Unreadable
      case Ident(mangled) =>
        if |ts| > 1 && ts[1] == Open then
          var args := ReadArgs(ts[2..]);
          if args.Read? then Read(UserCall(Unmangle(mangled), args.value), args.rest) else Unreadable
        else Read(Variable(Unmangle(mangled)), ts[1..])
      case Open => ReadLambda(ts[1..])
      case _ => Unreadable
  }

  function ReadLambda(ts: Text): (r: Read<CppExpr>)
    ensures r.Read? ==> |r.rest| < |ts|
    decreases |ts|, 1
  {
    var body := After(ts, LAMBDA_OPENS);
    if body.Some? then ReadLambdaBody(body.value) else Unreadable
  }

  function ReadLambdaBody(ts: Text): (r: Read<CppExpr>)
    ensures r.Read? ==> |r.rest| < |ts|
    decreases |ts|, 1
  {
    var first := Closed(ReadExpr(ts), [Close, Semi]);
    if first.Unreadable? then Unreadable
    else
      var none := first.rest != [] && first.rest[0] == RBrace;
      var links :=
        Closed(if none then Read(NoCppLinks, first.rest) else ReadLinks(first.rest, 0), [RBrace, Open, Close, Close]);
      if links.Read? then Read(CompareLambda(first.value, links.value), links.rest) else Unreadable
  }

  function ReadCall(f: RuntimeFunction, ts: Text): (r: Read<CppExpr>)
    ensures r.Read? ==> |r.rest| <= |ts|
    decreases |ts|, 3
  {
    match f
    case UnaryFunction(op) =>
      var x := Closed(ReadExpr(ts), [Close]);
      if x.Read? then Read(UnaryCall(op, x.value), x.rest) else Unreadable
    case ToIntFunction =>
      var x := Closed(ReadExpr(ts), [Close]);
      if x.Read? then Read(ToInt(x.value), x.rest) else Unreadable
    case ToFloatFunction =>
      var x := Closed(ReadExpr(ts), [Close]);
      if x.Read? then Read(ToFloat(x.value), x.rest) else Unreadable
    case BinaryFunction(op) =>
      var xy := ReadTwo(ts, [Comma], [Close]);
      if xy.Read? then Read(BinaryCall(op, xy.value.0, xy.value.1), xy.rest) else Unreadable
    case CompareFunction(op) =>
      var xy := ReadTwo(ts, [Comma], [Close]);
      if xy.Read? then Read(CompareCall(op, xy.value.0, xy.value.1), xy.rest) else Unreadable
    case LogicFunction(isAnd) =>
      var xy := ReadTwo(ts, [Comma, ThunkHead, LBrace, ReturnWord], [Semi, RBrace, Close]);
      if xy.Read? then Read(LogicCall(isAnd, xy.value.0, xy.value.1), xy.rest) else Unreadable
    case PrintFunction =>
      var args := ReadArgs(ts);
      if args.Read? then Read(PrintCall(args.value), args.rest) else Unreadable
    case LenFunction =>
      var args := ReadArgs(ts);
      if args.Read? then Read(LenCall(args.value), args.rest) else Unreadable
    case TruthyFunction => Unreadable
  }

  function ReadTwo(ts: Text, between: Text, closing: Text): (r: Read<(CppExpr, CppExpr)>)
    ensures r.Read? ==> |r.rest| < |ts|
    decreases |ts|, 1
  {
    var x := Closed(ReadExpr(ts), between);
    if x.Unreadable? then Unreadable
    else
      var y := Closed(ReadExpr(x.rest), closing);
      if y.Read? then Read((x.value, y.value), y.rest) else Unreadable
  }

  /** Arguments up to and with the closing parenthesis. */
  function ReadArgs(ts: Text): (r: Read<seq<CppExpr>>)
    ensures r.Read? ==> |r.rest| < |ts|
    decreases |ts|, 2
  {
    if ts == [] then Unreadable
    else if ts[0] == Close then Read([], ts[1..])
    else ReadMoreArgs(ts)
  }

  function ReadMoreArgs(ts: Text): (r: Read<seq<CppExpr>>)
    ensures r.Read? ==> |r.rest| < |ts|
    decreases |ts|, 1
  {
    var x := ReadExpr(ts);
    if x.Unreadable? || x.rest == [] then Unreadable
    else if x.rest[0] == Close then Read([x.value], x.rest[1..])
    else if x.rest[0] != Comma then Unreadable
    else
      var xs := ReadMoreArgs(x.rest[1..]);
      if xs.Read? then Read([x.value] + xs.value, xs.rest) else Unreadable
  }

  function ReadLinks(ts: Text, n: nat): (r: Read<CppLinks>)
    ensures r.Read? ==> |r.rest| < |ts|
    decreases |ts|, 1
  {
    var body := After(ts, [AutoRef, Temp(n + 1), Equals, Open]);
    if body.None? then Unreadable
    else
      var x := Closed(ReadExpr(body.value), [Close, Semi]);
      if x.Unreadable? then Unreadable
      else
        var last := After(x.rest, [ReturnWord]);
        if last.Some? then
          var op := ReadTest(last.value, n, [Semi]);
          if op.Read? then Read(CppLink(op.value, x.value, NoCppLinks), op.rest) else Unreadable
        else
          var guarded := After(x.rest, [IfWord, Open, Bang, Fn(TruthyFunction), Open]);
          if guarded.None? then Unreadable
          else
            var op := ReadTest(guarded.value, n, [Close, Close] + RETURN_FALSE);
            if op.Unreadable? then Unreadable
            else
              var more := ReadLinks(op.rest, n + 1);
              if more.Read? then Read(CppLink(op.value, x.value, more.value), more.rest) else Unreadable
  }

  function ReadTest(ts: Text, n: nat, closing: Text): (r: Read<CompareOp>)
    ensures r.Read? ==> |r.rest| < |ts|
  {
    if ts == [] || !ts[0].Fn? || !ts[0].f.CompareFunction? then Unreadable
    else Closed(Read(ts[0].f.cop, ts[1..]), [Open, Temp(n), Comma, Temp(n + 1), Close] + closing)
  }

  // ---------- Expressions read back ----------

  /** What may follow an expression. */
  predicate Follows(rest: Text) {
    rest != [] && (rest[0] == Close || rest[0] == Comma || rest[0] == Semi)
  }

  lemma StartOf(e: CppExpr)
    ensures PrintExpr(e) != []
    ensures var t := PrintExpr(e)[0];
      t.Class? || t.NoneObject? || t.Fn? || t.Ident? || t.Open?
  {
  }

  lemma {:induction false} ExprReads(e: CppExpr, rest: Text)
    requires Follows(rest)
    ensures ReadExpr(PrintExpr(e) + rest) == Read(e, rest)
    decreases e, 1
  {
    match e
    case UnaryCall(op, arg) => OneReads(e, UnaryFunction(op), arg, rest);
    case ToInt(arg) => OneReads(e, ToIntFunction, arg, rest);
    case ToFloat(arg) => OneReads(e, ToFloatFunction, arg, rest);
    case BinaryCall(op, left, right) => TwoRead(e, BinaryFunction(op), left, [Comma], right, [Close], rest);
    case CompareCall(op, left, right) => TwoRead(e, CompareFunction(op), left, [Comma], right, [Close], rest);
    case LogicCall(isAnd, left, thunk) =>
      TwoRead(e, LogicFunction(isAnd), left, [Comma, ThunkHead, LBrace, ReturnWord],
          thunk, [Semi, RBrace, Close], rest);
    case CompareLambda(_, _) => LambdaReads(e, rest);
    case PrintCall(args) => CallReads(e, Fn(PrintFunction), args, rest);
    case LenCall(args) => CallReads(e, Fn(LenFunction), args, rest);
    case UserCall(id, args) => CallReads(e, Ident(Mangle(id)), args, rest);
    case _ => AtomReads(e, rest);
  }

  lemma CallOpens(head: Token, body: Text)
    requires head.Fn? || head.Ident?
    ensures head.Fn? ==> ReadExpr([head, Open] + body) == ReadCall(head.f, body)
    ensures head.Ident? ==>
      ReadExpr([head, Open] + body) ==
        var args := ReadArgs(body);
        if args.Read? then Read(UserCall(Unmangle(head.mangled), args.value), args.rest) else Unreadable
  {
    assert ([head, Open] + body)[2..] == body;
  }

  lemma AtomReads(e: CppExpr, rest: Text)
    requires e.IntLiteral? || e.FloatLiteral? || e.BoolLiteral? || e.StrLiteral? || e.NoneLiteral? || e.Variable?
    requires Follows(rest)
    ensures ReadExpr(PrintExpr(e) + rest) == Read(e, rest)
  {
    var ts := PrintExpr(e) + rest;
    if e.StrLiteral? {
      StrReads(e.bytes, rest);
    } else if e.Variable? {
      assert ts[1..] == rest && Mangle(e.id)[3..] == e.id;
    } else if e.NoneLiteral? {
      assert ts[1..] == rest;
    } else {
      assert ts[1..][3..] == rest;
    }
  }

  lemma {:induction false} CallReads(e: CppExpr, head: Token, args: seq<CppExpr>, rest: Text)
    requires (e.PrintCall? || e.LenCall? || e.UserCall?) && e.args == args
    requires head == (match e
                      case PrintCall(_) => Fn(PrintFunction)
                      case LenCall(_) => Fn(LenFunction)
                      case UserCall(id, _) => Ident(Mangle(id))
                      case _ => Open)
    ensures ReadExpr(PrintExpr(e) + rest) == Read(e, rest)
    decreases e, 0
  {
    var body := PrintArgs(args) + ([Close] + rest);
    ArgsRead(args, rest);
    CallOpens(head, body);
    FourPieces([head, Open], PrintArgs(args), [Close], rest);
    assert PrintExpr(e) == [head, Open] + PrintArgs(args) + [Close];
    if e.UserCall? {
      assert Mangle(e.id)[3..] == e.id;
    }
  }

  lemma StrReads(bytes: seq<Byte>, rest: Text)
    ensures ReadLiteral(StrKind, (PrintExpr(StrLiteral(bytes)) + rest)[1..]) == Read(StrLiteral(bytes), rest)
  {
    var body := [Quoted(OctalEscapes(bytes)), Comma, Number(Decimal(|bytes|))] + ([Close, Close] + rest);
    assert (PrintExpr(StrLiteral(bytes)) + rest)[1..] == [Open, StdString, Open] + body;
    AfterPrefix([Open, StdString, Open], body);
    assert body[3..] == [Close, Close] + rest;
    AfterPrefix([Close, Close], rest);
    OctalsReadBack(bytes);
  }

  lemma {:induction false} OneReads(e: CppExpr, f: RuntimeFunction, x: CppExpr, rest: Text)
    requires x < e && (e.UnaryCall? || e.ToInt? || e.ToFloat?) && e.arg == x
    requires f == if e.UnaryCall? then UnaryFunction(e.uop) else if e.ToInt? then ToIntFunction else ToFloatFunction
    ensures ReadExpr(PrintExpr(e) + rest) == Read(e, rest)
    decreases e, 0
  {
    var body := PrintExpr(x) + ([Close] + rest);
    FourPieces([Fn(f), Open], PrintExpr(x), [Close], rest);
    CallOpens(Fn(f), body);
    ExprReads(x, [Close] + rest);
    AfterPrefix([Close], rest);
  }

  lemma BothEnd(ts: Text, x: CppExpr, between: Text, second: Text, y: CppExpr, closing: Text, rest: Text)
    requires ReadExpr(ts) == Read(x, between + second) && ReadExpr(second) == Read(y, closing + rest)
    ensures ReadTwo(ts, between, closing) == Read((x, y), rest)
  {
    AfterPrefix(between, second);
    AfterPrefix(closing, rest);
  }

  lemma {:induction false} TwoRead(
      e: CppExpr, f: RuntimeFunction, x: CppExpr, between: Text, y: CppExpr, closing: Text, rest: Text)
    requires x < e && y < e && Follows(between) && Follows(closing)
    requires PrintExpr(e) == [Fn(f), Open] + PrintExpr(x) + between + PrintExpr(y) + closing
    requires match e
             case BinaryCall(op, l, r) =>
               f == BinaryFunction(op) && x == l && y == r && between == [Comma] && closing == [Close]
             case CompareCall(op, l, r) =>
               f == CompareFunction(op) && x == l && y == r && between == [Comma] && closing == [Close]
             case LogicCall(isAnd, l, r) =>
               f == LogicFunction(isAnd) && x == l && y == r
               && between == [Comma, ThunkHead, LBrace, ReturnWord] && closing == [Semi, RBrace, Close]
             case _ => false
    ensures ReadExpr(PrintExpr(e) + rest) == Read(e, rest)
    decreases e, 0
  {
    var second := PrintExpr(y) + (closing + rest);
    var body := PrintExpr(x) + (between + second);
    SixPieces([Fn(f), Open], PrintExpr(x), between, PrintExpr(y), closing, rest);
    CallOpens(Fn(f), body);
    ExprReads(x, between + second);
    ExprReads(y, closing + rest);
    BothEnd(body, x, between, second, y, closing, rest);
  }

  lemma {:induction false} ArgsRead(args: seq<CppExpr>, rest: Text)
    ensures ReadArgs(PrintArgs(args) + ([Close] + rest)) == Read(args, rest)
    decreases args, 1
  {
    var ts := PrintArgs(args) + ([Close] + rest);
    if args == [] {
      assert ts == [Close] + rest;
    } else {
      StartOf(args[0]);
      assert ts[0] == PrintExpr(args[0])[0];
      MoreArgsRead(args, rest);
    }
  }

  lemma ArgsTokens(args: seq<CppExpr>, rest: Text)
    requires |args| > 1
    ensures PrintArgs(args) + rest == PrintExpr(args[0]) + ([Comma] + (PrintArgs(args[1..]) + rest))
  {
    FourPieces(PrintExpr(args[0]), [Comma], PrintArgs(args[1..]), rest);
  }

  lemma ArgsGoOn(ts: Text, x: CppExpr, more: Text, xs: seq<CppExpr>, rest: Text)
    requires ReadExpr(ts) == Read(x, [Comma] + more) && ReadMoreArgs(more) == Read(xs, rest)
    ensures ReadMoreArgs(ts) == Read([x] + xs, rest)
  {
    HeadAndRest(Comma, more);
  }

  lemma ArgsEnd(ts: Text, x: CppExpr, rest: Text)
    requires ReadExpr(ts) == Read(x, [Close] + rest)
    ensures ReadMoreArgs(ts) == Read([x], rest)
  {
    HeadAndRest(Close, rest);
  }

  lemma {:induction false} MoreArgsRead(args: seq<CppExpr>, rest: Text)
    requires args != []
    ensures ReadMoreArgs(PrintArgs(args) + ([Close] + rest)) == Read(args, rest)
    decreases args, 0
  {
    if |args| == 1 {
      ExprReads(args[0], [Close] + rest);
      ArgsEnd(PrintArgs(args) + ([Close] + rest), args[0], rest);
      assert args == [args[0]];
    } else {
      var more := PrintArgs(args[1..]) + ([Close] + rest);
      ArgsTokens(args, [Close] + rest);
      ExprReads(args[0], [Comma] + more);
      MoreArgsRead(args[1..], rest);
      ArgsGoOn(PrintArgs(args) + ([Close] + rest), args[0], more, args[1..], rest);
      assert args == [args[0]] + args[1..];
    }
  }

  lemma LambdaTokens(e: CppExpr, rest: Text)
    requires e.CompareLambda?
    ensures PrintExpr(e) + rest
         == [Open] + (LAMBDA_OPENS
            + (PrintExpr(e.first) + ([Close, Semi] + (PrintLinks(e.rest, 0) + ([RBrace, Open, Close, Close] + rest)))))
  {
    var x, links, closing := PrintExpr(e.first), PrintLinks(e.rest, 0), [RBrace, Open, Close, Close];
    LambdaHeadTokens();
    SixPieces([Open] + LAMBDA_OPENS, x, [Close, Semi], links, closing, rest);
    Joins([Open], LAMBDA_OPENS, x + ([Close, Semi] + (links + (closing + rest))));
  }

  lemma LambdaHeadTokens()
    ensures [Open, LambdaHead, LBrace, AutoRef, Temp(0), Equals, Open] == [Open] + LAMBDA_OPENS
  {
  }

  lemma SixPieces(a: Text, b: Text, c: Text, d: Text, e: Text, f: Text)
    ensures a + b + c + d + e + f == a + (b + (c + (d + (e + f))))
  {
  }

  lemma LambdaOpens(body: Text)
    ensures ReadExpr([Open] + (LAMBDA_OPENS + body)) == ReadLambdaBody(body)
  {
    var ts := [Open] + (LAMBDA_OPENS + body);
    HeadAndRest(Open, LAMBDA_OPENS + body);
    AfterPrefix(LAMBDA_OPENS, body);
    assert ReadExpr(ts) == ReadLambda(ts[1..]);
  }

  lemma {:induction false} LambdaReads(e: CppExpr, rest: Text)
    requires e.CompareLambda?
    ensures ReadExpr(PrintExpr(e) + rest) == Read(e, rest)
    decreases e, 0
  {
    var closing := [RBrace, Open, Close, Close];
    var links := PrintLinks(e.rest, 0) + (closing + rest);
    var body := PrintExpr(e.first) + ([Close, Semi] + links);
    LambdaTokens(e, rest);
    LambdaOpens(body);
    ExprReads(e.first, [Close, Semi] + links);
    AfterPrefix([Close, Semi], links);
    AfterPrefix(closing, rest);
    if e.rest.NoCppLinks? {
      assert links == closing + rest;
    } else {
      LinksStart(e.rest, 0, closing + rest);
      LinksRead(e.rest, 0, closing + rest);
    }
  }

  lemma LinksStart(links: CppLinks, n: nat, rest: Text)
    requires links.CppLink?
    ensures var ts := PrintLinks(links, n) + rest;
      ts != [] && ts[0] == AutoRef
  {
  }

  lemma LastLinkTokens(links: CppLinks, n: nat, rest: Text)
    requires links.CppLink? && links.more.NoCppLinks?
    ensures PrintLinks(links, n) + rest
         == [AutoRef, Temp(n + 1), Equals, Open]
            + (PrintExpr(links.operand) + ([Close, Semi] + ([ReturnWord] + (LinkTest(links.op, n) + ([Semi] + rest)))))
  {
    var a, x, c, t := [AutoRef, Temp(n + 1), Equals, Open],
        PrintExpr(links.operand), [Close, Semi], LinkTest(links.op, n);
    SixPieces(a, x, c, [ReturnWord] + t, [Semi], rest);
    SixPieces([], [], [], [ReturnWord], t, [Semi] + rest);
    assert a + x + c + ([ReturnWord] + t + [Semi]) == a + x + c + ([ReturnWord] + t) + [Semi];
  }

  lemma InnerLinkTokens(links: CppLinks, n: nat, rest: Text)
    requires links.CppLink? && links.more.CppLink?
    ensures PrintLinks(links, n) + rest
         == [AutoRef, Temp(n + 1), Equals, Open]
            + (PrintExpr(links.operand) + ([Close, Semi] + ([IfWord, Open, Bang, Fn(TruthyFunction), Open]
            + (LinkTest(links.op, n) + (([Close, Close] + RETURN_FALSE) + (PrintLinks(links.more, n + 1) + rest))))))
  {
    var a, x, c, t := [AutoRef, Temp(n + 1), Equals, Open],
        PrintExpr(links.operand), [Close, Semi], LinkTest(links.op, n);
    var g, closing, more := [IfWord, Open, Bang, Fn(TruthyFunction), Open],
        [Close, Close] + RETURN_FALSE, PrintLinks(links.more, n + 1);
    assert g + t + [Close, Close] + RETURN_FALSE + more == g + (t + (closing + more));
    SixPieces(a, x, c, g, t + (closing + more), rest);
    assert t + (closing + more) + rest == t + (closing + (more + rest));
    assert a + x + c + (g + (t + (closing + more))) == a + x + c + g + (t + (closing + more));
  }

  /** A last link, given its pieces. */
  lemma LastLinkEnds(ts: Text, n: nat, x: CppExpr, test: Text, op: CompareOp, rest: Text)
    requires After(ts, [AutoRef, Temp(n + 1), Equals, Open]).Some?
    requires Closed(ReadExpr(After(ts, [AutoRef, Temp(n + 1), Equals, Open]).value), [Close, Semi])
          == Read(x, [ReturnWord] + test)
    requires ReadTest(test, n, [Semi]) == Read(op, rest)
    ensures ReadLinks(ts, n) == Read(CppLink(op, x, NoCppLinks), rest)
  {
    AfterPrefix([ReturnWord], test);
  }

  lemma InnerLinkEnds(ts: Text, n: nat, x: CppExpr, test: Text, op: CompareOp, inner: Text, more: CppLinks, rest: Text)
    requires After(ts, [AutoRef, Temp(n + 1), Equals, Open]).Some?
    requires Closed(ReadExpr(After(ts, [AutoRef, Temp(n + 1), Equals, Open]).value), [Close, Semi])
          == Read(x, [IfWord, Open, Bang, Fn(TruthyFunction), Open] + test)
    requires ReadTest(test, n, [Close, Close] + RETURN_FALSE) == Read(op, inner)
    requires ReadLinks(inner, n + 1) == Read(more, rest)
    ensures ReadLinks(ts, n) == Read(CppLink(op, x, more), rest)
  {
    var guard := [IfWord, Open, Bang, Fn(TruthyFunction), Open];
    assert (guard + test)[0] == IfWord;
    AfterPrefix(guard, test);
  }

  lemma {:induction false} OperandReads(x: CppExpr, n: nat, after: Text)
    ensures var ts := [AutoRef, Temp(n + 1), Equals, Open] + (PrintExpr(x) + ([Close, Semi] + after));
      && After(ts, [AutoRef, Temp(n + 1), Equals, Open]).Some?
      && Closed(ReadExpr(After(ts, [AutoRef, Temp(n + 1), Equals, Open]).value), [Close, Semi]) == Read(x, after)
    decreases x, 2
  {
    AfterPrefix([AutoRef, Temp(n + 1), Equals, Open], PrintExpr(x) + ([Close, Semi] + after));
    ExprReads(x, [Close, Semi] + after);
    AfterPrefix([Close, Semi], after);
  }

  lemma {:induction false} LinksRead(links: CppLinks, n: nat, rest: Text)
    requires links.CppLink?
    ensures ReadLinks(PrintLinks(links, n) + rest, n) == Read(links, rest)
    decreases links
  {
    if links.more.NoCppLinks? {
      var test := LinkTest(links.op, n) + ([Semi] + rest);
      LastLinkTokens(links, n, rest);
      OperandReads(links.operand, n, [ReturnWord] + test);
      TestReads(links.op, n, [Semi], rest);
      LastLinkEnds(PrintLinks(links, n) + rest, n, links.operand, test, links.op, rest);
    } else {
      var guard, closing := [IfWord, Open, Bang, Fn(TruthyFunction), Open], [Close, Close] + RETURN_FALSE;
      var more := PrintLinks(links.more, n + 1) + rest;
      var test := LinkTest(links.op, n) + (closing + more);
      InnerLinkTokens(links, n, rest);
      OperandReads(links.operand, n, guard + test);
      TestReads(links.op, n, closing, more);
      LinksRead(links.more, n + 1, rest);
      InnerLinkEnds(PrintLinks(links, n) + rest, n, links.operand, test, links.op, more, links.more, rest);
    }
  }

  lemma TestReads(op: CompareOp, n: nat, closing: Text, rest: Text)
    ensures ReadTest(LinkTest(op, n) + (closing + rest), n, closing) == Read(op, rest)
  {
    var ts := LinkTest(op, n) + (closing + rest);
    assert ts[1..] == [Open, Temp(n), Comma, Temp(n + 1), Close] + closing + rest;
    AfterPrefix([Open, Temp(n), Comma, Temp(n + 1), Close] + closing, rest);
  }

  // ---------- Statements ----------

  function ReadCondition(ts: Text): (r: Read<CppExpr>)
    ensures r.Read? ==> |r.rest| < |ts|
  {
    var cond := After(ts, [Open, Fn(TruthyFunction), Open]);
    if cond.Some? then Closed(ReadExpr(cond.value), [Close, Close, LBrace]) else Unreadable
  }

  /** The statements that hold no expression and no other statement. */
  predicate StartsSmall(t: Token) {
    t == Semi || t == BreakWord || t == ContinueWord || t == BoolWord || t.Flag?
  }

  function ReadSmall(ts: Text): (r: Read<CppStmt>)
    requires ts != []
    ensures r.Read? ==> |r.rest| < |ts|
  {
    match ts[0]
    case Semi => Read(CppEmpty, ts[1..])
    case BreakWord => Closed(Read(CppBreak, ts[1..]), [Semi])
    case ContinueWord => Closed(Read(CppContinue, ts[1..]), [Semi])
    case Flag(n) => Closed(Read(SetFlag(n), ts[1..]), [Equals, Truth(true), Semi])
    case BoolWord =>
      if |ts| > 1 && ts[1].Flag? then Closed(Read(DeclareFlag(ts[1].n), ts[2..]), [Equals, Truth(false), Semi])
      else Unreadable
    case _ => Unreadable
  }

  function ReadStmt(ts: Text): (r: Read<CppStmt>)
    ensures r.Read? ==> |r.rest| < |ts|
    decreases |ts|, 0
  {
    if ts == [] then Unreadable
    else if StartsSmall(ts[0]) then ReadSmall(ts)
    else if ts[0] == ReturnWord then
      var e := Closed(ReadExpr(ts[1..]), [Semi]);
      if e.Read? then Read(CppReturn(e.value), e.rest) else Unreadable
    else if ts[0] == LBrace then
      var body := ReadBlock(ts[1..]);
      if body.Read? then Read(CppBlock(body.value), body.rest) else Unreadable
    else if ts[0] == WhileWord then
      var cond := ReadCondition(ts[1..]);
      if cond.Unreadable? then Unreadable
      else
        var body := ReadBlock(cond.rest);
        if body.Read? then Read(CppWhile(cond.value, body.value), body.rest) else Unreadable
    else if ts[0] == IfWord then ReadAfterIf(ts[1..])
    else ReadOther(ts)
  }

  /** An assignment, or an expression statement. */
  function ReadOther(ts: Text): (r: Read<CppStmt>)
    requires ts != []
    ensures r.Read? ==> |r.rest| < |ts|
  {
    if ts[0].Ident? && |ts| > 1 && ts[1] == Equals then
      var e := Closed(ReadExpr(ts[2..]), [Semi]);
      if e.Read? then Read(CppAssign(Unmangle(ts[0].mangled), e.value), e.rest) else Unreadable
    else
      var e := Closed(ReadExpr(ts), [Semi]);
      if e.Read? then Read(CppExprStmt(e.value), e.rest) else Unreadable
  }

  /** After `if`: a flag's negation, or a condition. */
  function ReadAfterIf(ts: Text): (r: Read<CppStmt>)
    ensures r.Read? ==> |r.rest| < |ts|
    decreases |ts|, 2
  {
    if |ts| > 1 && ts[1] == Bang then ReadIfNotFlag(ts) else ReadIf(ts)
  }

  function ReadIfNotFlag(ts: Text): (r: Read<CppStmt>)
    ensures r.Read? ==> |r.rest| < |ts|
    decreases |ts|, 1
  {
    if |ts| < 5 || ts[0] != Open || ts[1] != Bang || !ts[2].Flag? || ts[3] != Close || ts[4] != LBrace then Unreadable
    else
      var body := ReadBlock(ts[5..]);
      if body.Read? then Read(IfNotFlag(ts[2].n, body.value), body.rest) else Unreadable
  }

  function ReadIf(ts: Text): (r: Read<CppStmt>)
    ensures r.Read? ==> |r.rest| < |ts|
    decreases |ts|, 1
  {
    var cond := ReadCondition(ts);
    if cond.Unreadable? then Unreadable
    else
      var body := ReadBlock(cond.rest);
      if body.Unreadable? then Unreadable
      else
        var orelse := After(body.rest, [ElseWord, LBrace]);
        if orelse.None? then Read(CppIf(cond.value, body.value, []), body.rest)
        else
          var suite := ReadBlock(orelse.value);
          if suite.Read? then Read(CppIf(cond.value, body.value, suite.value), suite.rest) else Unreadable
  }

  /** Statements up to and with the closing brace. */
  function ReadBlock(ts: Text): (r: Read<seq<CppStmt>>)
    ensures r.Read? ==> |r.rest| < |ts|
    decreases |ts|, 1
  {
    if ts == [] then Unreadable
    else if ts[0] == RBrace then Read([], ts[1..])
    else
      var s := ReadStmt(ts);
      if s.Unreadable? then Unreadable
      else
        var more := ReadBlock(s.rest);
        if more.Read? then Read([s.value] + more.value, more.rest) else Unreadable
  }

  // ---------- Statements read back ----------

  /** No `else` can attach to what came before. */
  predicate NoElse(rest: Text) {
    rest == [] || rest[0] != ElseWord
  }

  lemma StartOfStmt(s: CppStmt)
    ensures PrintStmt(s) != []
    ensures var t := PrintStmt(s)[0];
      t != RBrace && t != ElseWord
  {
    if s.CppExprStmt? {
      StartOf(s.e);
    }
  }

  lemma ConditionReads(e: CppExpr, rest: Text)
    ensures ReadCondition(PrintCondition(e) + ([LBrace] + rest)) == Read(e, rest)
    ensures PrintCondition(e)[1] != Bang
  {
    var body := PrintExpr(e) + ([Close, Close, LBrace] + rest);
    assert [Close, Close] + ([LBrace] + rest) == [Close, Close, LBrace] + rest;
    FourPieces([Open, Fn(TruthyFunction), Open], PrintExpr(e), [Close, Close], [LBrace] + rest);
    AfterPrefix([Open, Fn(TruthyFunction), Open], body);
    ExprReads(e, [Close, Close, LBrace] + rest);
    AfterPrefix([Close, Close, LBrace], rest);
  }

  lemma {:induction false} StmtReads(s: CppStmt, rest: Text)
    requires NoElse(rest)
    ensures ReadStmt(PrintStmt(s) + rest) == Read(s, rest)
    decreases s, 1
  {
    match s
    case CppExprStmt(e) => ExprStmtReads(e, rest);
    case CppAssign(_, _) => AssignReads(s, rest);
    case CppReturn(_) => ReturnReads(s, rest);
    case CppIf(_, _, _) => IfReads(s, rest);
    case CppWhile(_, _) => WhileReads(s, rest);
    case CppBlock(body) =>
      BlockReads(body, rest);
      NestedReads(body, rest);
    case IfNotFlag(n, body) => IfNotFlagReads(s, rest);
    case _ => SmallReads(s, rest);
  }

  lemma SmallReads(s: CppStmt, rest: Text)
    requires s.CppEmpty? || s.CppBreak? || s.CppContinue? || s.DeclareFlag? || s.SetFlag?
    ensures ReadStmt(PrintStmt(s) + rest) == Read(s, rest)
  {
    if s.DeclareFlag? || s.SetFlag? {
      FlagReads(s, rest);
    } else {
      WordReads(s, rest);
    }
    SmallStmtReads(PrintStmt(s) + rest);
  }

  lemma SmallStmtReads(ts: Text)
    requires ts != [] && StartsSmall(ts[0])
    ensures ReadStmt(ts) == ReadSmall(ts)
  {
  }

  lemma WordReads(s: CppStmt, rest: Text)
    requires s.CppEmpty? || s.CppBreak? || s.CppContinue?
    ensures var ts := PrintStmt(s) + rest; StartsSmall(ts[0]) && ReadSmall(ts) == Read(s, rest)
  {
    var ts := PrintStmt(s) + rest;
    if s.CppEmpty? {
      assert ts[1..] == rest;
    } else {
      assert ts[1..] == [Semi] + rest;
      AfterPrefix([Semi], rest);
    }
  }

  lemma FlagReads(s: CppStmt, rest: Text)
    requires s.DeclareFlag? || s.SetFlag?
    ensures var ts := PrintStmt(s) + rest; StartsSmall(ts[0]) && ReadSmall(ts) == Read(s, rest)
  {
    var ts := PrintStmt(s) + rest;
    if s.DeclareFlag? {
      assert ts[2..] == [Equals, Truth(false), Semi] + rest;
      AfterPrefix([Equals, Truth(false), Semi], rest);
    } else {
      assert ts[1..] == [Equals, Truth(true), Semi] + rest;
      AfterPrefix([Equals, Truth(true), Semi], rest);
    }
  }

  lemma HeadAndRest(t: Token, x: Text)
    ensures ([t] + x)[0] == t && ([t] + x)[1..] == x
  {
  }

  lemma OtherStmtReads(ts: Text)
    requires ts != [] && (ts[0].Class? || ts[0].NoneObject? || ts[0].Fn? || ts[0].Ident? || ts[0].Open?)
    ensures ReadStmt(ts) == ReadOther(ts)
  {
  }

  lemma IfStmtReads(ts: Text)
    requires ts != [] && ts[0] == IfWord
    ensures ReadStmt(ts) == ReadAfterIf(ts[1..])
  {
  }

  lemma BlockStmtReads(ts: Text)
    requires ts != [] && ts[0] == LBrace
    ensures var body := ReadBlock(ts[1..]);
      ReadStmt(ts) == if body.Read? then Read(CppBlock(body.value), body.rest) else Unreadable
  {
  }

  lemma WhileStmtReads(ts: Text)
    requires ts != [] && ts[0] == WhileWord && ReadCondition(ts[1..]).Read?
    ensures var cond := ReadCondition(ts[1..]);
      var body := ReadBlock(cond.rest);
      ReadStmt(ts) == if body.Read? then Read(CppWhile(cond.value, body.value), body.rest) else Unreadable
  {
  }

  lemma ReturnStmtReads(ts: Text)
    requires ts != [] && ts[0] == ReturnWord
    ensures var e := Closed(ReadExpr(ts[1..]), [Semi]);
      ReadStmt(ts) == if e.Read? then Read(CppReturn(e.value), e.rest) else Unreadable
  {
  }

  lemma IfOpens(after: Text)
    requires |after| > 1 && after[1] != Bang
    ensures ReadStmt([IfWord] + after) == ReadIf(after)
  {
    var ts := [IfWord] + after;
    IfStmtReads(ts);
    assert ts[1..] == after;
  }

  lemma AssignReads(s: CppStmt, rest: Text)
    requires s.CppAssign?
    ensures ReadStmt(PrintStmt(s) + rest) == Read(s, rest)
  {
    FourPieces([Ident(Mangle(s.id)), Equals], PrintExpr(s.e), [Semi], rest);
    EndsReads(s.e, rest);
    assert (PrintStmt(s) + rest)[2..] == PrintExpr(s.e) + ([Semi] + rest) && Mangle(s.id)[3..] == s.id;
  }

  lemma ReturnReads(s: CppStmt, rest: Text)
    requires s.CppReturn?
    ensures ReadStmt(PrintStmt(s) + rest) == Read(s, rest)
  {
    FourPieces([ReturnWord], PrintExpr(s.e), [Semi], rest);
    EndsReads(s.e, rest);
    HeadAndRest(ReturnWord, PrintExpr(s.e) + ([Semi] + rest));
    ReturnStmtReads(PrintStmt(s) + rest);
  }

  lemma NestedReads(body: seq<CppStmt>, rest: Text)
    requires ReadBlock(PrintBlock(body) + ([RBrace] + rest)) == Read(body, rest)
    ensures ReadStmt(PrintStmt(CppBlock(body)) + rest) == Read(CppBlock(body), rest)
  {
    FourPieces([LBrace], PrintBlock(body), [RBrace], rest);
    HeadAndRest(LBrace, PrintBlock(body) + ([RBrace] + rest));
    BlockStmtReads(PrintStmt(CppBlock(body)) + rest);
  }

  lemma EndsReads(e: CppExpr, rest: Text)
    ensures Closed(ReadExpr(PrintExpr(e) + ([Semi] + rest)), [Semi]) == Read(e, rest)
  {
    ExprReads(e, [Semi] + rest);
    AfterPrefix([Semi], rest);
  }

  /** An expression statement never looks like an assignment. */
  lemma ExprStmtReads(e: CppExpr, rest: Text)
    ensures ReadStmt(PrintStmt(CppExprStmt(e)) + rest) == Read(CppExprStmt(e), rest)
  {
    var ts := PrintExpr(e) + ([Semi] + rest);
    FourPieces([], PrintExpr(e), [Semi], rest);
    assert PrintStmt(CppExprStmt(e)) + rest == ts;
    StartOf(e);
    EndsReads(e, rest);
    assert ts[0] == PrintExpr(e)[0];
    OtherStmtReads(ts);
    if ts[0].Ident? {
      assert e.Variable? || e.UserCall?;
      assert ts[1] == if e.Variable? then Semi else Open;
    }
  }

  lemma {:induction false} IfReads(s: CppStmt, rest: Text)
    requires s.CppIf? && NoElse(rest)
    ensures ReadStmt(PrintStmt(s) + rest) == Read(s, rest)
    decreases s, 0
  {
    var tail := ElseTail(s, rest);
    var inner := PrintBlock(s.body) + ([RBrace] + tail);
    IfTokens(s, rest);
    ConditionReads(s.cond, inner);
    IfOpens(PrintCondition(s.cond) + ([LBrace] + inner));
    BlockReads(s.body, tail);
    if s.orelse != [] {
      BlockReads(s.orelse, rest);
      AfterPrefix([ElseWord, LBrace], PrintBlock(s.orelse) + ([RBrace] + rest));
    }
  }

  function ElseTail(s: CppStmt, rest: Text): Text
    requires s.CppIf?
  {
    if s.orelse == [] then rest else [ElseWord, LBrace] + (PrintBlock(s.orelse) + ([RBrace] + rest))
  }

  lemma IfTokens(s: CppStmt, rest: Text)
    requires s.CppIf?
    ensures PrintStmt(s) + rest
         == [IfWord] + (PrintCondition(s.cond) + ([LBrace] + (PrintBlock(s.body) + ([RBrace] + ElseTail(s, rest)))))
  {
    var c, x, y := PrintCondition(s.cond), PrintBlock(s.body), PrintBlock(s.orelse);
    if s.orelse == [] {
      SixPieces([IfWord], c, [LBrace], x, [RBrace], rest);
    } else {
      var z := y + ([RBrace] + rest);
      FourPieces([IfWord] + c + [LBrace] + x + [RBrace, ElseWord, LBrace], y, [RBrace], rest);
      SixPieces([IfWord], c, [LBrace], x, [RBrace, ElseWord, LBrace], z);
      FourPieces([RBrace], [ElseWord, LBrace], z, []);
      assert [RBrace] + [ElseWord, LBrace] == [RBrace, ElseWord, LBrace];
      assert [RBrace, ElseWord, LBrace] + z == [RBrace] + ([ElseWord, LBrace] + z);
    }
  }

  lemma {:induction false} WhileReads(s: CppStmt, rest: Text)
    requires s.CppWhile?
    ensures ReadStmt(PrintStmt(s) + rest) == Read(s, rest)
    decreases s, 0
  {
    var c, inner := PrintCondition(s.cond), PrintBlock(s.body) + ([RBrace] + rest);
    SixPieces([WhileWord], c, [LBrace], PrintBlock(s.body), [RBrace], rest);
    HeadAndRest(WhileWord, c + ([LBrace] + inner));
    ConditionReads(s.cond, inner);
    WhileStmtReads([WhileWord] + (c + ([LBrace] + inner)));
    BlockReads(s.body, rest);
  }

  lemma {:induction false} IfNotFlagReads(s: CppStmt, rest: Text)
    requires s.IfNotFlag?
    ensures ReadStmt(PrintStmt(s) + rest) == Read(s, rest)
    decreases s, 0
  {
    var inner := PrintBlock(s.body) + ([RBrace] + rest);
    FourPieces([IfWord, Open, Bang, Flag(s.n), Close, LBrace], PrintBlock(s.body), [RBrace], rest);
    var ts := PrintStmt(s) + rest;
    IfStmtReads(ts);
    assert ts[1..][1] == Bang && ts[1..][5..] == inner;
    BlockReads(s.body, rest);
  }

  lemma {:induction false} BlockReads(body: seq<CppStmt>, rest: Text)
    ensures ReadBlock(PrintBlock(body) + ([RBrace] + rest)) == Read(body, rest)
    decreases body, 0
  {
    var ts := PrintBlock(body) + ([RBrace] + rest);
    if body == [] {
      assert ts == [RBrace] + rest;
    } else {
      var more := PrintBlock(body[1..]) + ([RBrace] + rest);
      assert ts == PrintStmt(body[0]) + more;
      StartOfStmt(body[0]);
      assert ts[0] == PrintStmt(body[0])[0];
      if |body| > 1 {
        StartOfStmt(body[1]);
        assert more[0] == PrintStmt(body[1])[0];
      }
      StmtReads(body[0], more);
      BlockReads(body[1..], rest);
      assert body == [body[0]] + body[1..];
    }
  }

  /** Two statement lists with the same text are the same. */
  lemma TextDeterminesTheTree(a: seq<CppStmt>, b: seq<CppStmt>)
    requires PrintBlock(a) == PrintBlock(b)
    ensures a == b
  {
    BlockReads(a, []);
    BlockReads(b, []);
  }
}
