/** The emitter itself: a visitor that appends to its output, sets a flag when it refuses,
    and saves and restores its context around every scope and loop. Each visit is proved
    to write exactly the lowering of its node.
    src/domain/codegen/emitter_expressions.cpp, emitter_statements.cpp, emitter_module.cpp. */
module CodeEmitter {
  import opened Options
  import opened Sequences
  import opened Numbers
  import opened StrRuntime
  import opened CompareRuntime
  import opened Values
  import opened Syntax
  import opened Literals
  import opened CppMachine
  import opened Lowering
  import opened CppText
  import opened EmissionText
  import opened Compiler

  /** The fields that visits change and put back. */
  datatype Context = Context(loopDepth: nat, loopHasElse: bool,
      inConditionalBlock: bool, statementExpression: Option<Expr>)

  class Emitter {
    const moduleTypes: Types
    const localTypes: map<string, map<string, Kind>>
    var types: Types
    var out: Text
    var failed: bool
    var loopDepth: nat
    var loopHasElse: bool
    var atModuleLevel: bool
    var inConditionalBlock: bool
    var functionDeclared: map<string, Kind>
    var moduleDeclared: map<string, Kind>
    var moduleUnbound: set<string>
    var returnType: Kind
    var statementExpression: Option<Expr>

    constructor (moduleTypes: Types, localTypes: map<string, map<string, Kind>>)
      ensures this.moduleTypes == moduleTypes && this.localTypes == localTypes
      ensures out == [] && !failed && loopDepth == 0 && !loopHasElse && statementExpression == None
    {
      this.moduleTypes, this.localTypes := moduleTypes, localTypes;
      types, out, failed := ModuleTypes(moduleTypes), [], false;
      loopDepth, loopHasElse, atModuleLevel, inConditionalBlock := 0, false, true, false;
      functionDeclared, moduleDeclared, moduleUnbound := map[], map[], {};
      returnType, statementExpression := NoneKind, None;
    }

    ghost function Kept(): Context
      reads `loopDepth, `loopHasElse, `inConditionalBlock, `statementExpression
    {
      Context(loopDepth, loopHasElse, inConditionalBlock, statementExpression)
    }

    /** The fields that only a function definition changes and puts back. */
    ghost function KeptScope(): (Types, Kind, bool, map<string, Kind>)
      reads `types, `returnType, `atModuleLevel, `functionDeclared
    {
      (types, returnType, atModuleLevel, functionDeclared)
    }

    /** What the fields say about the place the next statement is emitted in. */
    ghost function SiteNow(): Site
      reads `types, `atModuleLevel, `moduleDeclared, `functionDeclared, `returnType, `loopDepth, `loopHasElse
    {
      Site(types, if atModuleLevel then moduleDeclared else functionDeclared, returnType, loopDepth, loopHasElse)
    }

    /** This visit refused, or wrote exactly `x`. */
    ghost predicate Wrote(before: Text, hadFailed: bool, x: Option<Text>)
      reads `out, `failed
    {
      failed == (hadFailed || x.None?) && (!failed ==> out == before + x.value)
    }

    /** `e` is the statement's own expression or lies strictly inside it. */
    ghost predicate Within(e: Expr)
      reads `statementExpression
    {
      statementExpression.Some? ==> e == statementExpression.value || ExprSize(e) < ExprSize(statementExpression.value)
    }

    /** Only a loop has an else clause. */
    predicate InLoop()
      reads `loopHasElse, `loopDepth
    {
      loopHasElse ==> loopDepth > 0
    }

    method Write(text: Text)
      modifies `out
      ensures out == old(out) + text
    {
      out := out + text;
    }

    method Refuse()
      modifies `failed
      ensures failed
    {
      failed := true;
    }

    // ---------- Expressions ----------

    method EmitExpr(e: Expr)
      requires Within(e)
      modifies `out, `failed
      ensures Wrote(old(out), old(failed), ExprText(LowerExpr(types, e, statementExpression == Some(e))))
      decreases ExprSize(e), 3
    {
      match e
      case Const(lit) => EmitConstant(lit);
      case Name(id) =>
        if IsManglable(id) && TypeOf(types, e).Some? { Write([Ident(Mangle(id))]); } else { Refuse(); }
      case Unary(_, _) => EmitUnary(e);
      case Binary(_, _, _) => EmitBinary(e);
      case Compare(_, _) => EmitCompare(e);
      case BoolOp(_, _) => EmitBoolOp(e);
      case Call(_, _) => EmitCall(e);
      case OtherExpr => Refuse();
    }

    method EmitConstant(lit: Literal)
      modifies `out, `failed
      ensures Wrote(old(out), old(failed), ExprText(LowerExpr(types, Const(lit), false)))
    {
      match lit
      case IntLit(lexeme) =>
        var digits := StripUnderscores(lexeme);
        var decimal := AreDecimalDigits(digits);
        var interior := AreUnderscoresInterior(lexeme);
        if !decimal {
          Refuse();
        } else if !interior || !LeadingZeroIsTranslatable(digits) {
          Refuse();
        } else {
          Write([Class(IntKind), Open]);
          Write([Number(digits)]);
          Write([Close]);
        }
      case FloatLit(lexeme) =>
        var interior := AreUnderscoresInterior(lexeme);
        if !interior {
          Refuse();
        } else {
          var digits := StripUnderscores(lexeme);
          Write([Class(FloatKind), Open]);
          Write([Number(digits)]);
          Write([Close]);
        }
      case BoolLit(b) => Write([Class(BoolKind), Open, Truth(b), Close]);
      case NoneLit => Write([NoneObject]);
      case StrLit(text) =>
        var bytes := Encode(text);
        var body := AsOctalEscapes(bytes);
        Write([Class(StrKind), Open, StdString, Open]);
        Write([Quoted(body), Comma]);
        Write([Number(Decimal(|bytes|)), Close, Close]);
      case OtherLit => Refuse();
    }

    method EmitUnary(e: Expr)
      requires e.Unary? && Within(e)
      modifies `out, `failed
      ensures Wrote(old(out), old(failed), ExprText(LowerExpr(types, e, false)))
      decreases ExprSize(e), 0
    {
      if e.uop == UnaryMinus || e.uop == UnaryPlus {
        var result := TypeOf(types, e);
        if result.None? {
          Refuse();
          return;
        }
        Write([Fn(UnaryFunction(e.uop)), Open]);
        EmitOperandWidened(e.operand, result.value);
        Write([Close]);
        ghost var x := LowerOperand(types, e.operand, result.value);
        if x.Some? {
          Encloses(old(out), [Fn(UnaryFunction(e.uop)), Open], PrintExpr(x.value), [Close]);
        }
      } else if e.uop == Not {
        Write([Fn(UnaryFunction(Not)), Open]);
        EmitExpr(e.operand);
        Write([Close]);
        ghost var x := LowerExpr(types, e.operand, false);
        if x.Some? {
          Encloses(old(out), [Fn(UnaryFunction(Not)), Open], PrintExpr(x.value), [Close]);
        }
      } else {
        Refuse();
      }
    }

    method EmitOperandWidened(operand: Expr, result: Kind)
      requires Within(operand) && statementExpression != Some(operand)
      modifies `out, `failed
      ensures Wrote(old(out), old(failed), ExprText(LowerOperand(types, operand, result)))
      decreases ExprSize(operand), 4
    {
      var widen := TypeOf(types, operand) == Some(BoolKind) && result != BoolKind;
      if widen {
        Write([Fn(ToIntFunction), Open]);
      }
      EmitExpr(operand);
      if widen {
        Write([Close]);
        ghost var x := LowerExpr(types, operand, false);
        if x.Some? {
          Encloses(old(out), [Fn(ToIntFunction), Open], PrintExpr(x.value), [Close]);
        }
      }
    }

    method EmitValueWidened(value: Expr, target: Kind)
      requires Within(value) && statementExpression != Some(value)
      modifies `out, `failed
      ensures Wrote(old(out), old(failed), ExprText(LowerWidened(types, value, target)))
      decreases ExprSize(value), 4
    {
      var kind := TypeOf(types, value);
      var widen := kind.Some? && Widens(kind.value, target);
      if !widen && kind.Some? && kind.value != target {
        Refuse();
        return;
      }
      if widen {
        Write([Fn(if target == IntKind then ToIntFunction else ToFloatFunction), Open]);
      }
      EmitExpr(value);
      if widen {
        Write([Close]);
        ghost var x := LowerExpr(types, value, false);
        if x.Some? {
          Encloses(old(out), [Fn(if target == IntKind then ToIntFunction else ToFloatFunction), Open],
              PrintExpr(x.value), [Close]);
        }
      }
    }

    method EmitBinary(e: Expr)
      requires e.Binary? && Within(e)
      modifies `out, `failed
      ensures Wrote(old(out), old(failed), ExprText(LowerExpr(types, e, false)))
      decreases ExprSize(e), 1
    {
      if e.bop == DoubleStar {
        EmitPower(e);
        return;
      }
      var result := TypeOf(types, e);
      if e.bop == OtherBinary {
        Refuse();
      } else if result.None? {
        Refuse();
      } else if e.bop == Percent && TypeOf(types, e.left) == Some(StrKind) {
        Refuse();
      } else {
        Write([Fn(BinaryFunction(e.bop)), Open]);
        EmitOperandWidened(e.left, result.value);
        Write([Comma]);
        EmitOperandWidened(e.right, result.value);
        Write([Close]);
        ghost var x, y := LowerOperand(types, e.left, result.value), LowerOperand(types, e.right, result.value);
        if x.Some? && y.Some? {
          EnclosesTwo(old(out), [Fn(BinaryFunction(e.bop)), Open],
              PrintExpr(x.value), [Comma], PrintExpr(y.value), [Close]);
        }
      }
    }

    method EmitPower(e: Expr)
      requires e.Binary? && e.bop == DoubleStar && Within(e)
      modifies `out, `failed
      ensures Wrote(old(out), old(failed), ExprText(LowerExpr(types, e, false)))
      decreases ExprSize(e), 0
    {
      var result := TypeOf(types, e);
      if !(e.right.Const? && e.right.lit.IntLit?) {
        Refuse();
      } else if TypeOf(types, e.left).None? {
        Refuse();
      } else if result.None? {
        Refuse();
      } else {
        Write([Fn(BinaryFunction(DoubleStar)), Open]);
        EmitOperandWidened(e.left, result.value);
        Write([Comma]);
        EmitOperandWidened(e.right, result.value);
        Write([Close]);
        ghost var x, y := LowerOperand(types, e.left, result.value), LowerOperand(types, e.right, result.value);
        if x.Some? && y.Some? {
          EnclosesTwo(old(out), [Fn(BinaryFunction(e.bop)), Open],
              PrintExpr(x.value), [Comma], PrintExpr(y.value), [Close]);
        }
      }
    }

    method EmitCompare(e: Expr)
      requires e.Compare? && Within(e)
      modifies `out, `failed
      ensures Wrote(old(out), old(failed), ExprText(LowerExpr(types, e, false)))
      decreases ExprSize(e), 2
    {
      if e.rest.NoLinks? {
        Refuse();
        return;
      }
      var comparable, supported := CheckChain(e.first, e.rest);
      if !comparable {
        Refuse();
        return;
      }
      if e.rest.more.NoLinks? {
        EmitComparison(e);
        return;
      }
      if !supported {
        Refuse();
        return;
      }
      EmitChain(e);
    }

    method EmitComparison(e: Expr)
      requires e.Compare? && e.rest.Link? && e.rest.more.NoLinks? && Within(e)
      requires ChainComparable(types, TypeOf(types, e.first), e.rest)
      modifies `out, `failed
      ensures Wrote(old(out), old(failed), ExprText(LowerExpr(types, e, false)))
      decreases ExprSize(e), 0
    {
      if e.rest.op.None? {
        Refuse();
        return;
      }
      assert LinksSize(e.rest) == ExprSize(e.rest.operand) + LinksSize(e.rest.more);
      Write([Fn(CompareFunction(e.rest.op.value)), Open]);
      EmitExpr(e.first);
      Write([Comma]);
      EmitExpr(e.rest.operand);
      Write([Close]);
      ghost var x, y := LowerExpr(types, e.first, false), LowerExpr(types, e.rest.operand, false);
      SingleLink(types, e.rest);
      if x.Some? && y.Some? {
        EnclosesTwo(old(out), [Fn(CompareFunction(e.rest.op.value)), Open], PrintExpr(x.value), [Comma],
                    PrintExpr(y.value), [Close]);
      }
    }

    method EmitChain(e: Expr)
      requires e.Compare? && e.rest.Link? && e.rest.more.Link? && Within(e)
      requires ChainComparable(types, TypeOf(types, e.first), e.rest) && ChainSupported(e.rest)
      modifies `out, `failed
      ensures Wrote(old(out), old(failed), ExprText(LowerExpr(types, e, false)))
      decreases ExprSize(e), 1
    {
      hide PrintLinks, LowerLinks, ChainSupported;
      Write([Open, LambdaHead, LBrace, AutoRef, Temp(0), Equals, Open]);
      EmitExpr(e.first);
      Write([Close, Semi]);
      EmitLinks(e);
      Write([RBrace, Open, Close, Close]);
      ghost var x, xs := LowerExpr(types, e.first, false), LowerLinks(types, e.rest);
      if x.Some? && xs.Some? {
        EnclosesTwo(old(out), [Open, LambdaHead, LBrace, AutoRef, Temp(0), Equals, Open],
            PrintExpr(x.value), [Close, Semi],
                    PrintLinks(xs.value, 0), [RBrace, Open, Close, Close]);
      }
    }

    /** The two scans visit(Compare) makes before it writes: a runtime comparison for each
        adjacent pair, and a runtime function for each operator. */
    method CheckChain(first: Expr, rest: Links) returns (comparable: bool, supported: bool)
      ensures comparable == ChainComparable(types, TypeOf(types, first), rest)
      ensures supported == ChainSupported(rest)
    {
      var previous, link := TypeOf(types, first), rest;
      comparable := true;
      while link.Link? && comparable
        invariant ChainComparable(types, TypeOf(types, first), rest)
             == (comparable && ChainComparable(types, previous, link))
        decreases link
      {
        var kind := TypeOf(types, link.operand);
        comparable := previous.Some? && kind.Some? && Comparable(previous.value, kind.value);
        previous, link := kind, link.more;
      }
      link, supported := rest, true;
      while link.Link? && supported
        invariant ChainSupported(rest) == (supported && ChainSupported(link))
        decreases link
      {
        supported := link.op.Some?;
        link := link.more;
      }
    }

    /** The temporaries and tests of a chain, one round per link. */
    method EmitLinks(e: Expr)
      requires e.Compare? && Within(e) && ChainSupported(e.rest)
      modifies `out, `failed
      ensures var xs := LowerLinks(types, e.rest);
        Wrote(old(out), old(failed), if xs.Some? then Some(PrintLinks(xs.value, 0)) else None)
      decreases ExprSize(e), 0
    {
      var link, index := e.rest, 0;
      while link.Link?
        invariant LinksSize(link) < ExprSize(e) && ChainSupported(link)
        invariant (failed || LowerLinks(types, link).None?) == (old(failed) || LowerLinks(types, e.rest).None?)
        invariant !failed && LowerLinks(types, link).Some? ==>
          out + PrintLinks(LowerLinks(types, link).value, index)
            == old(out) + PrintLinks(LowerLinks(types, e.rest).value, 0)
        decreases link
      {
        ghost var start, x, xs := out, LowerExpr(types, link.operand, false), LowerLinks(types, link.more);
        assert LinksSize(link) == ExprSize(link.operand) + LinksSize(link.more);
        var last := link.more.NoLinks?;
        Write([AutoRef, Temp(index + 1), Equals, Open]);
        EmitExpr(link.operand);
        Write([Close, Semi]);
        Write(if last then [ReturnWord] else [IfWord, Open, Bang, Fn(TruthyFunction), Open]);
        Write(LinkTest(link.op.value, index));
        Write(if last then [Semi] else [Close, Close] + RETURN_FALSE);
        if x.Some? && xs.Some? {
          LinkWritten(start, link.op.value, x.value, xs.value, index);
        }
        index, link := index + 1, link.more;
      }
    }

    method EmitBoolOp(e: Expr)
      requires e.BoolOp? && Within(e)
      modifies `out, `failed
      ensures Wrote(old(out), old(failed), ExprText(LowerExpr(types, e, false)))
      decreases ExprSize(e), 0
    {
      hide LowerExpr, PrintExpr, TypeOf;
      LogicText(out, types, e);
      if TypeOf(types, e).None? {
        Refuse();
        return;
      }
      if |e.values| != 2 {
        Refuse();
        return;
      }
      ArgIsSmaller(e.values, 0);
      ArgIsSmaller(e.values, 1);
      Write([Fn(LogicFunction(e.isAnd)), Open]);
      EmitExpr(e.values[0]);
      Write([Comma, ThunkHead, LBrace, ReturnWord]);
      EmitExpr(e.values[1]);
      Write([Semi, RBrace, Close]);
    }

    method EmitCall(e: Expr)
      requires e.Call? && Within(e)
      modifies `out, `failed
      ensures Wrote(old(out), old(failed), ExprText(LowerExpr(types, e, statementExpression == Some(e))))
      decreases ExprSize(e), 2
    {
      var ok := EmitCallee(e);
      if !ok {
        return;
      }
      var params := ParamsOf(types, e.callee);
      Write([Open]);
      EmitArgs(e, params);
      Write([Close]);
      ghost var xs := LowerCallArgs(types, e.args, params);
      if xs.Some? {
        CallText(old(out), e.callee, xs.value);
      }
    }

    /** The callee's name, unless this is not a call the emitter can write. */
    method EmitCallee(e: Expr) returns (ok: bool)
      requires e.Call? && Within(e)
      modifies `out, `failed
      ensures ok == CalleeAccepted(types, e, statementExpression == Some(e)) && failed == (old(failed) || !ok)
      ensures ok ==> out == old(out) + [Head(e.callee)]
    {
      var name := e.callee;
      if name == "print" && statementExpression != Some(e) {
        Refuse();
        return false;
      }
      if name == "print" || name == "len" {
        Write([Fn(if name == "print" then PrintFunction else LenFunction)]);
        return true;
      }
      if IsListed(name, REFUSED_BUILTINS) {
        Refuse();
        return false;
      }
      if !IsManglable(name) {
        Refuse();
        return false;
      }
      if name !in types.functions || |types.functions[name].params| != |e.args| {
        Refuse();
        return false;
      }
      Write([Ident(Mangle(name))]);
      ok := true;
    }

    method EmitArgs(e: Expr, params: Option<seq<Kind>>)
      requires e.Call? && Within(e)
      requires params.Some? ==> |params.value| == |e.args|
      modifies `out, `failed
      ensures Wrote(old(out), old(failed), ArgsText(LowerCallArgs(types, e.args, params)))
      decreases ExprSize(e), 1
    {
      var first := true;
      ArgsEnds(types, e.args, params, Written(out, failed), Written(out, failed));
      for i := 0 to |e.args|
        invariant first == (i == 0)
        invariant ArgsPending(types, e.args, params, i, Written(out, failed), Written(old(out), old(failed)))
      {
        ghost var start := Written(out, failed);
        EmitArg(e, params, i, first);
        first := false;
        ArgsStep(types, e.args, params, i, start, Written(out, failed), Written(old(out), old(failed)));
      }
      ArgsEnds(types, e.args, params, Written(out, failed), Written(old(out), old(failed)));
    }

    method EmitArg(e: Expr, params: Option<seq<Kind>>, i: nat, first: bool)
      requires e.Call? && Within(e) && i < |e.args| && first == (i == 0)
      requires params.Some? ==> |params.value| == |e.args|
      modifies `out, `failed
      ensures Wrote(if first then old(out) else old(out) + [Comma],
          old(failed), ExprText(LowerArg(types, e.args, params, i)))
      decreases ExprSize(e), 0
    {
      ArgIsSmaller(e.args, i);
      if !first {
        Write([Comma]);
      }
      if params.None? {
        EmitExpr(e.args[i]);
      } else {
        EmitValueWidened(e.args[i], params.value[i]);
      }
    }

    // ---------- The two analyses ----------

    method CheckReads(e: Expr, locals: set<string>, bound: set<string>)
      modifies `failed
      ensures failed == (old(failed) || !ReadsAreBound(Reads(e), locals, bound))
    {
      var names := NamesRead(e);
      NamesReadAreReads(e);
      for i := 0 to |names|
        invariant failed == old(failed)
        invariant forall k :: 0 <= k < i && names[k] in locals ==> names[k] in bound
      {
        if names[i] in locals && names[i] !in bound {
          Refuse();
          return;
        }
      }
    }

    /** `bound` goes in as the names bound on entry and comes out as those bound where the
        suite falls through; `leaves` says that it never does. */
    method CheckDefiniteAssignment(body: seq<Stmt>, locals: set<string>, bound: set<string>)
      returns (leaves: bool, after: set<string>)
      modifies `failed
      ensures failed == (old(failed) || !CheckBlock(body, locals, bound).ok)
      ensures !failed
           ==> leaves == CheckBlock(body, locals, bound).leaves && after == CheckBlock(body, locals, bound).bound
      decreases body
    {
      after := bound;
      for i := 0 to |body|
        invariant failed ==> old(failed) || !CheckBlock(body, locals, bound).ok
        invariant !failed ==> !old(failed) && CheckBlock(body, locals, bound) == CheckBlock(body[i..], locals, after)
      {
        if failed {
          return false, after;
        }
        assert body[i..][0] == body[i] && body[i..][1..] == body[i + 1..];
        var s := body[i];
        match s {
          case ExprStmt(e) =>
            CheckReads(e, locals, after);
          case Return(result) =>
            if result.Some? {
              CheckReads(result.value, locals, after);
            }
            return true, after;
          case Break => return true, after;
          case Continue => return true, after;
          case If(cond, suite, orelse) =>
            CheckReads(cond, locals, after);
            var thenLeaves, thenBound := CheckDefiniteAssignment(suite, locals, after);
            var elseLeaves, elseBound := CheckDefiniteAssignment(orelse, locals, after);
            if thenLeaves && elseLeaves {
              return true, after;
            }
            after := if thenLeaves then elseBound else if elseLeaves then thenBound else thenBound * elseBound;
          case While(cond, suite, orelse) =>
            CheckReads(cond, locals, after);
            var _, _ := CheckDefiniteAssignment(suite, locals, after);
            var _, _ := CheckDefiniteAssignment(orelse, locals, after);
          case Assign(_, value) =>
            CheckReads(value, locals, after);
            after := after + BoundName(s);
          case AnnAssign(_, _, initial) =>
            if initial.Some? {
              CheckReads(initial.value, locals, after);
            }
            after := after + BoundName(s);
          case Pass =>
          case FunctionDef(_, _, _, _) =>
          case OtherStmt =>
        }
      }
      leaves := false;
    }

    method CollectScopeVariables(
        body: seq<Stmt>, alreadyDeclared: set<string>,
        variables: seq<ScopeVariable>, preferLiveArm: bool, inDeadArm: bool)
      returns (ok: bool, table: seq<ScopeVariable>)
      modifies `failed
      ensures var r := Collect(CollectMode(types, alreadyDeclared, preferLiveArm), body, variables, inDeadArm);
        ok == r.Some? && (ok ==> table == r.value)
      ensures failed == (old(failed) || !ok)
      decreases body
    {
      ghost var mode := CollectMode(types, alreadyDeclared, preferLiveArm);
      table := variables;
      for i := 0 to |body|
        invariant failed == old(failed)
        invariant Collect(mode, body, variables, inDeadArm) == Collect(mode, body[i..], table, inDeadArm)
      {
        assert body[i..][0] == body[i] && body[i..][1..] == body[i + 1..];
        var s := body[i];
        if s.If? || s.While? {
          var header := GuardOf(s.cond);
          ok, table :=
            CollectScopeVariables(s.body, alreadyDeclared, table, preferLiveArm, inDeadArm || header == AlwaysFalse);
          if !ok {
            return false, table;
          }
          ok, table :=
            CollectScopeVariables(s.orelse, alreadyDeclared, table, preferLiveArm, inDeadArm || header == AlwaysTrue);
          if !ok {
            return false, table;
          }
        } else if s.Assign? || s.AnnAssign? {
          if s.target.NameTarget? && IsManglable(s.target.id) && s.target.id !in alreadyDeclared {
            ok, table := RecordVariable(s, table, preferLiveArm, inDeadArm);
            if !ok {
              return false, table;
            }
          }
        }
      }
      ok := true;
    }

    method RecordVariable(s: Stmt, variables: seq<ScopeVariable>, preferLiveArm: bool, inDeadArm: bool)
      returns (ok: bool, table: seq<ScopeVariable>)
      requires (s.Assign? || s.AnnAssign?) && s.target.NameTarget?
      modifies `failed
      ensures var kind := if s.Assign? then TypeOf(types, s.value) else s.kind;
        var r := Record(CollectMode(types, {}, preferLiveArm), variables,
                        Occurrence(s.target.id, kind, inDeadArm, s.AnnAssign?));
        ok == r.Some? && (ok ==> table == r.value)
      ensures failed == (old(failed) || !ok)
    {
      table := variables;
      var seen := IndexOf(variables, s.target.id);
      var replacesDeadArmType := seen.Some? && variables[seen.value].fromDeadArm && !inDeadArm;
      if seen.Some? && !replacesDeadArmType {
        return true, table;
      }
      var kind := if s.Assign? then TypeOf(types, s.value) else s.kind;
      if kind.None? {
        Refuse();
        return false, table;
      }
      if replacesDeadArmType {
        table := table[seen.value := ScopeVariable(s.target.id, kind.value, false)];
        return true, table;
      }
      var openToReplacement := preferLiveArm && inDeadArm && s.Assign?;
      table := table + [ScopeVariable(s.target.id, kind.value, openToReplacement)];
      ok := true;
    }

    // ---------- Statements ----------

    method EmitStmt(s: Stmt, ghost site: Site)
      requires statementExpression == None && site == SiteNow() && InLoop()
      requires s.FunctionDef? ==> !atModuleLevel || inConditionalBlock
      modifies `out, `failed, `loopDepth, `loopHasElse, `inConditionalBlock, `statementExpression
      ensures Kept() == old(Kept()) && site == SiteNow()
      ensures Wrote(old(out), old(failed), BlockText(LowerStmt(site, s)))
      decreases s, 1
    {
      match s
      case ExprStmt(e) => EmitExprStmt(e, site);
      case Assign(target, value) =>
        EmitAssignment(target, value, None, site);
      case AnnAssign(target, kind, initial) => EmitAnnAssign(s, site);
      case Pass =>
        PrintSingle(CppEmpty);
        Write([Semi]);
      case Break => EmitBreak(site);
      case Continue =>
        PrintSingle(CppContinue);
        Write([ContinueWord, Semi]);
      case Return(result) => EmitReturn(result, site);
      case If(_, _, _) => EmitIf(s, site);
      case While(_, _, _) => EmitWhile(s, site);
      case FunctionDef(_, _, _, _) => Refuse();
      case OtherStmt => Refuse();
    }

    method EmitExprStmt(e: Expr, ghost site: Site)
      requires statementExpression == None && site == SiteNow()
      modifies `out, `failed, `statementExpression
      ensures statementExpression == None
      ensures Wrote(old(out), old(failed), BlockText(LowerStmt(site, ExprStmt(e))))
    {
      var enclosing := statementExpression;
      statementExpression := Some(e);
      EmitExpr(e);
      statementExpression := enclosing;
      Write([Semi]);
      ghost var x := LowerExpr(types, e, true);
      if x.Some? {
        PrintSingle(CppExprStmt(x.value));
        Joins(old(out), PrintExpr(x.value), [Semi]);
      }
    }

    method EmitAssignment(target: Target, value: Expr, declared: Option<Kind>, ghost site: Site)
      requires statementExpression == None && site == SiteNow()
      modifies `out, `failed
      ensures Wrote(old(out), old(failed), BlockText(LowerAssignment(site, target, value, declared)))
    {
      if target.OtherTarget? {
        Refuse();
        return;
      }
      if !IsManglable(target.id) {
        Refuse();
        return;
      }
      var declaredHere := if atModuleLevel then moduleDeclared else functionDeclared;
      var kind := if target.id in declaredHere then Some(declaredHere[target.id]) else None;
      if kind.None? {
        kind := if declared.Some? then declared else TypeOf(types, value);
      }
      if kind.None? {
        Refuse();
        return;
      }
      Write([Ident(Mangle(target.id)), Equals]);
      EmitValueWidened(value, kind.value);
      Write([Semi]);
      ghost var x := LowerWidened(types, value, kind.value);
      if x.Some? {
        PrintSingle(CppAssign(target.id, x.value));
        Encloses(old(out), [Ident(Mangle(target.id)), Equals], PrintExpr(x.value), [Semi]);
      }
    }

    method EmitAnnAssign(s: Stmt, ghost site: Site)
      requires s.AnnAssign? && statementExpression == None && site == SiteNow()
      modifies `out, `failed
      ensures Wrote(old(out), old(failed), BlockText(LowerStmt(site, s)))
    {
      if s.initial.None? {
        PrintSingle(CppEmpty);
        Write([Semi]);
        return;
      }
      var declaredHere := if atModuleLevel then moduleDeclared else functionDeclared;
      if s.kind.None? && !(s.target.NameTarget? && s.target.id in declaredHere) {
        Refuse();
        return;
      }
      EmitAssignment(s.target, s.initial.value, s.kind, site);
    }

    method EmitBreak(ghost site: Site)
      requires InLoop() && site == SiteNow()
      modifies `out
      ensures Wrote(old(out), failed, BlockText(LowerStmt(site, Break)))
    {
      if loopHasElse {
        ghost var raised := SetFlag(loopDepth - 1);
        PrintBlockAppends([raised], [CppBreak]);
        PrintSingle(raised);
        PrintSingle(CppBreak);
        Write([Flag(loopDepth - 1), Equals, Truth(true), Semi, BreakWord, Semi]);
        return;
      }
      PrintSingle(CppBreak);
      Write([BreakWord, Semi]);
    }

    method EmitReturn(result: Option<Expr>, ghost site: Site)
      requires statementExpression == None && site == SiteNow()
      modifies `out, `failed
      ensures Wrote(old(out), old(failed), BlockText(LowerStmt(site, Return(result))))
    {
      if result.None? {
        PrintSingle(CppReturn(NoneLiteral));
        Write([ReturnWord, NoneObject, Semi]);
        return;
      }
      Write([ReturnWord]);
      EmitValueWidened(result.value, returnType);
      Write([Semi]);
      ghost var x := LowerWidened(types, result.value, returnType);
      if x.Some? {
        PrintSingle(CppReturn(x.value));
        Encloses(old(out), [ReturnWord], PrintExpr(x.value), [Semi]);
      }
    }

    method EmitCondition(cond: Expr)
      requires statementExpression == None
      modifies `out, `failed
      ensures var c := LowerExpr(types, cond, false);
        Wrote(old(out), old(failed), if c.Some? then Some(PrintCondition(c.value)) else None)
    {
      Write([Open, Fn(TruthyFunction), Open]);
      EmitExpr(cond);
      Write([Close, Close]);
      ghost var c := LowerExpr(types, cond, false);
      if c.Some? {
        Encloses(old(out), [Open, Fn(TruthyFunction), Open], PrintExpr(c.value), [Close, Close]);
      }
    }

    method EmitSuite(body: seq<Stmt>, ghost site: Site)
      requires statementExpression == None && site == SiteNow() && InLoop() && (!atModuleLevel || inConditionalBlock)
      modifies `out, `failed, `loopDepth, `loopHasElse, `inConditionalBlock, `statementExpression
      ensures Kept() == old(Kept()) && site == SiteNow()
      ensures Wrote(old(out), old(failed), BlockText(LowerBlock(site, body)))
      decreases body, 0
    {
      SuiteEnds(site, body, Written(out, failed), Written(out, failed));
      for i := 0 to |body|
        invariant Kept() == old(Kept()) && site == SiteNow()
        invariant SuitePending(site, body, i, Written(out, failed), Written(old(out), old(failed)))
      {
        ghost var was := Written(out, failed);
        EmitStmt(body[i], site);
        SuiteStep(site, body, i, was, Written(out, failed), Written(old(out), old(failed)));
      }
      SuiteEnds(site, body, Written(out, failed), Written(old(out), old(failed)));
    }

    method EmitIf(s: Stmt, ghost site: Site)
      requires s.If? && statementExpression == None && site == SiteNow() && InLoop()
      modifies `out, `failed, `loopDepth, `loopHasElse, `inConditionalBlock, `statementExpression
      ensures Kept() == old(Kept()) && site == SiteNow()
      ensures Wrote(old(out), old(failed), BlockText(LowerStmt(site, s)))
      decreases s, 0
    {
      ghost var c, x, y := LowerExpr(types, s.cond, false), LowerBlock(site, s.body), LowerBlock(site, s.orelse);
      EmitThen(s.cond, s.body, site);
      if s.orelse == [] {
        Write([RBrace]);
        if c.Some? && x.Some? {
          IfText(old(out), c.value, x.value);
        }
        return;
      }
      Write([RBrace, ElseWord, LBrace]);
      var outerConditional := inConditionalBlock;
      inConditionalBlock := true;
      EmitSuite(s.orelse, site);
      inConditionalBlock := outerConditional;
      Write([RBrace]);
      if c.Some? && x.Some? && y.Some? {
        LoweredSuiteIsEmptyWith(site, s.orelse);
        IfElseText(old(out), c.value, x.value, y.value);
      }
    }

    method EmitThen(cond: Expr, body: seq<Stmt>, ghost site: Site)
      requires statementExpression == None && site == SiteNow() && InLoop()
      modifies `out, `failed, `loopDepth, `loopHasElse, `inConditionalBlock, `statementExpression
      ensures Kept() == old(Kept()) && site == SiteNow()
      ensures var c, x := LowerExpr(types, cond, false), LowerBlock(site, body);
        Wrote(old(out), old(failed), if c.Some? && x.Some? then Some(ThenText(c.value, x.value)) else None)
      decreases body, 1
    {
      ghost var c, x := LowerExpr(types, cond, false), LowerBlock(site, body);
      Write([IfWord]);
      EmitCondition(cond);
      Write([LBrace]);
      var outerConditional := inConditionalBlock;
      inConditionalBlock := true;
      EmitSuite(body, site);
      inConditionalBlock := outerConditional;
      if c.Some? && x.Some? {
        Encloses(old(out), [IfWord], PrintCondition(c.value), [LBrace]);
        Joins(old(out), [IfWord] + PrintCondition(c.value) + [LBrace], PrintBlock(x.value));
      }
    }

    method EmitWhile(s: Stmt, ghost site: Site)
      requires s.While? && statementExpression == None && site == SiteNow() && InLoop()
      modifies `out, `failed, `loopDepth, `loopHasElse, `inConditionalBlock, `statementExpression
      ensures Kept() == old(Kept()) && site == SiteNow()
      ensures Wrote(old(out), old(failed), BlockText(LowerStmt(site, s)))
      decreases s, 0
    {
      hide LowerStmt, LowerExpr, LowerBlock, PrintExpr, PrintBlock;
      var hasElse := s.orelse != [];
      LoopLowers(site, s);
      ghost var c, y := LowerExpr(types, s.cond, false), LowerBlock(site, s.orelse);
      ghost var x := LowerBlock(site.(depth := site.depth + 1, hasElse := hasElse), s.body);
      if !hasElse {
        EmitLoop(s.cond, s.body, false, site);
        if c.Some? && x.Some? {
          PrintSingle(CppWhile(c.value, x.value));
        }
        return;
      }
      var flag := loopDepth;
      Write([LBrace]);
      Write([BoolWord, Flag(flag), Equals, Truth(false), Semi]);
      EmitLoop(s.cond, s.body, true, site);
      EmitLoopElse(s.orelse, flag, site);
      Write([RBrace]);
      if c.Some? && x.Some? && y.Some? {
        LoopElseText(old(out), flag, c.value, x.value, y.value);
      }
    }

    method EmitLoopElse(orelse: seq<Stmt>, flag: nat, ghost site: Site)
      requires statementExpression == None && site == SiteNow() && InLoop()
      modifies `out, `failed, `loopDepth, `loopHasElse, `inConditionalBlock, `statementExpression
      ensures Kept() == old(Kept()) && site == SiteNow()
      ensures var y := LowerBlock(site, orelse);
        Wrote(old(out), old(failed), if y.Some? then Some(PrintStmt(IfNotFlag(flag, y.value))) else None)
      decreases orelse, 1
    {
      ghost var y := LowerBlock(site, orelse);
      Write([IfWord, Open, Bang, Flag(flag), Close, LBrace]);
      var outerConditional := inConditionalBlock;
      inConditionalBlock := true;
      EmitSuite(orelse, site);
      inConditionalBlock := outerConditional;
      Write([RBrace]);
      if y.Some? {
        Encloses(old(out), [IfWord, Open, Bang, Flag(flag), Close, LBrace], PrintBlock(y.value), [RBrace]);
      }
    }

    /** The `while` itself. Its own breaks see `hasElse`; the enclosing loop's are back
        after it. */
    method EmitLoop(cond: Expr, body: seq<Stmt>, hasElse: bool, ghost site: Site)
      requires statementExpression == None && site == SiteNow() && InLoop()
      modifies `out, `failed, `loopDepth, `loopHasElse, `inConditionalBlock, `statementExpression
      ensures Kept() == old(Kept()) && site == SiteNow()
      ensures var c, x := LowerExpr(types, cond, false),
          LowerBlock(site.(depth := site.depth + 1, hasElse := hasElse), body);
        Wrote(old(out), old(failed), if c.Some? && x.Some? then Some(PrintStmt(CppWhile(c.value, x.value))) else None)
      decreases body, 2
    {
      hide LowerExpr, LowerBlock, PrintExpr, PrintBlock, PrintStmt, PrintCondition;
      ghost var c, x := LowerExpr(types, cond, false),
          LowerBlock(site.(depth := site.depth + 1, hasElse := hasElse), body);
      Write([WhileWord]);
      EmitCondition(cond);
      Write([LBrace]);
      EmitLoopBody(body, hasElse, site);
      Write([RBrace]);
      if !failed {
        WhileText(old(out), c.value, x.value);
      }
    }

    method EmitLoopBody(body: seq<Stmt>, hasElse: bool, ghost site: Site)
      requires statementExpression == None && site == SiteNow() && InLoop()
      modifies `out, `failed, `loopDepth, `loopHasElse, `inConditionalBlock, `statementExpression
      ensures Kept() == old(Kept()) && site == SiteNow()
      ensures Wrote(old(out), old(failed),
          BlockText(LowerBlock(site.(depth := site.depth + 1, hasElse := hasElse), body)))
      decreases body, 1
    {
      hide LowerBlock, PrintBlock;
      loopDepth := loopDepth + 1;
      var outerLoopHasElse := loopHasElse;
      var outerConditional := inConditionalBlock;
      loopHasElse := hasElse;
      inConditionalBlock := true;
      EmitSuite(body, site.(depth := site.depth + 1, hasElse := hasElse));
      loopHasElse := outerLoopHasElse;
      loopDepth := loopDepth - 1;
      inConditionalBlock := outerConditional;
    }

    // ---------- Functions ----------

    method WriteSignature(s: Stmt) returns (ok: bool)
      requires s.FunctionDef?
      modifies `out, `failed
      ensures ok == SignatureSupported(s) && failed == (old(failed) || !ok)
      ensures ok ==> out == old(out) + SignatureText(s)
    {
      if !IsManglable(s.id) {
        Refuse();
        return false;
      }
      if !s.resultType.Annotated? {
        Refuse();
        return false;
      }
      if s.resultType.kind.None? {
        Refuse();
        return false;
      }
      var head: Text := [Class(s.resultType.kind.value), Ident(Mangle(s.id)), Open];
      Write(head);
      var first := true;
      for i := 0 to |s.params|
        invariant failed == old(failed) && first == (i == 0)
        invariant forall k :: 0 <= k < i ==> ParamSupported(s.params[k])
        invariant out == old(out) + head + ParamsText(s.params[..i])
      {
        if !ParamSupported(s.params[i]) {
          Refuse();
          return false;
        }
        assert s.params[..i + 1][..i] == s.params[..i];
        if !first {
          Write([Comma]);
        }
        first := false;
        Write(ParamText(s.params[i]));
      }
      assert s.params[..|s.params|] == s.params;
      Write([Close]);
      Encloses(old(out), head, ParamsText(s.params), [Close]);
      ok := true;
    }

    /** The parameters' slots, and their names. */
    method DeclareParameters(params: seq<Param>) returns (names: set<string>)
      modifies `functionDeclared
      ensures functionDeclared == ParamSlots(TypedParams(params))
      ensures names == set id | id in ParamIds(params)
    {
      functionDeclared, names := map[], {};
      for i := 0 to |params|
        invariant functionDeclared == ParamSlots(TypedParams(params[..i]))
        invariant names == set k | 0 <= k < i :: params[k].id
      {
        assert params[..i + 1] == params[..i] + [params[i]];
        SlotsSnoc(params[..i], params[i]);
        functionDeclared := map[params[i].id := ParamKind(params[i])] + functionDeclared;
        names := names + {params[i].id};
      }
      assert params[..|params|] == params;
      ghost var ids := ParamIds(params);
      forall id | id in ids ensures id in names {
        var k :| 0 <= k < |ids| && ids[k] == id;
        assert params[k].id == id;
      }
      forall id | id in names ensures id in ids {
        var k :| 0 <= k < |params| && params[k].id == id;
        assert ids[k] == id;
      }
    }

    /** The declaration prologue of a scope, recorded in `slots` as it is written. */
    method WriteDeclarations(table: seq<ScopeVariable>, slots: map<string, Kind>)
      returns (after: map<string, Kind>, names: set<string>)
      modifies `out
      ensures out == old(out) + DeclarationsText(table)
      ensures after == slots + SlotsOf(table) && names == IdsOf(table)
    {
      after, names := slots, {};
      for i := 0 to |table|
        invariant out == old(out) + DeclarationsText(table[..i])
        invariant after == slots + SlotsOf(table[..i]) && names == set k | 0 <= k < i :: table[k].id
      {
        assert table[..i + 1][..i] == table[..i];
        Write([Class(table[i].kind), Ident(Mangle(table[i].id)), Semi]);
        after := after[table[i].id := table[i].kind];
        names := names + {table[i].id};
      }
      assert table[..|table|] == table;
    }

    /** The two walks over a function body, before any of it is emitted. */
    method CheckFunctionBody(body: seq<Stmt>, table: seq<ScopeVariable>, parameterNames: set<string>)
      modifies `failed
      ensures failed == (old(failed) || !CheckBlock(body, IdsOf(table), parameterNames).ok
                         || !CheckBlock(body, moduleUnbound - IdsOf(table) - parameterNames, {}).ok)
    {
      var localNames: set<string> := {};
      for i := 0 to |table|
        invariant localNames == set k | 0 <= k < i :: table[k].id
      {
        localNames := localNames + {table[i].id};
      }
      assert localNames == IdsOf(table);
      var _, _ := CheckDefiniteAssignment(body, localNames, parameterNames);
      if moduleUnbound == {} {
        NothingToWatch(body, {});
        assert moduleUnbound - IdsOf(table) - parameterNames == {};
      }
      if !failed && moduleUnbound != {} {
        var reachesGlobal := moduleUnbound - localNames - parameterNames;
        var _, _ := CheckDefiniteAssignment(body, reachesGlobal, {});
      }
    }

    /** visit(FunctionDef) at module level, the one place where it does not refuse. */
    method EmitFunctionDef(s: Stmt)
      requires s.FunctionDef? && s.id in localTypes
      requires atModuleLevel && !inConditionalBlock && statementExpression == None
      requires loopDepth == 0 && !loopHasElse && types == ModuleTypes(moduleTypes)
      modifies `out, `failed, `types, `returnType, `atModuleLevel,
          `functionDeclared, `loopDepth, `loopHasElse, `inConditionalBlock, `statementExpression
      ensures Kept() == old(Kept()) && KeptScope() == old(KeptScope())
      ensures Wrote(old(out), old(failed), FunctionText(moduleTypes, localTypes[s.id], moduleUnbound, s))
    {
      hide LowerFunction, FunctionText, DeclarationsText, LowerBlock, PrintBlock,
          SignatureText, FunctionTable, SlotsOf, ParamSlots, TypedParams, Tail;
      RefusedDefinition(moduleTypes, localTypes[s.id], moduleUnbound, s);
      var ok := WriteSignature(s);
      if !ok {
        return;
      }
      Write([LBrace]);
      var outerDeclared, outerReturnType, outerTypes := functionDeclared, returnType, types;
      returnType, atModuleLevel := s.resultType.kind.value, false;
      types := Types(moduleTypes.globals, localTypes[s.id], moduleTypes.functions);
      EmitBody(s);
      returnType, atModuleLevel, types, functionDeclared := outerReturnType, true, outerTypes, outerDeclared;
      Write([RBrace]);
      if !failed {
        DefinitionText(old(out), moduleTypes, localTypes[s.id], moduleUnbound, s);
      }
    }

    method EmitBody(s: Stmt)
      requires s.FunctionDef? && s.id in localTypes && SignatureSupported(s)
      requires !atModuleLevel && !inConditionalBlock && statementExpression == None && loopDepth == 0 && !loopHasElse
      requires types == Types(moduleTypes.globals, localTypes[s.id], moduleTypes.functions)
      requires returnType == s.resultType.kind.value
      modifies `out, `failed, `functionDeclared, `loopDepth, `loopHasElse, `inConditionalBlock, `statementExpression
      ensures Kept() == old(Kept())
      ensures failed == (old(failed) || LowerFunction(moduleTypes, localTypes[s.id], moduleUnbound, s).None?)
      ensures !failed ==>
        var table := FunctionTable(moduleTypes, localTypes[s.id], s).value;
        var site := Site(types, ParamSlots(TypedParams(s.params)) + SlotsOf(table), returnType, 0, false);
        LowerBlock(site, s.body).Some?
        && out == old(out) + DeclarationsText(table)
            + PrintBlock(LowerBlock(site, s.body).value) + PrintBlock(Tail(returnType))
    {
      hide LowerFunction, LowerBlock, PrintBlock, Collect, CheckBlock, FunctionText, DeclarationsText;
      RefusedDefinition(moduleTypes, localTypes[s.id], moduleUnbound, s);
      var parameterNames := DeclareParameters(s.params);
      var ok, table := CollectScopeVariables(s.body, parameterNames, [], true, false);
      if !ok {
        return;
      }
      CheckFunctionBody(s.body, table, parameterNames);
      if failed {
        return;
      }
      var slots, names := WriteDeclarations(table, functionDeclared);
      functionDeclared := slots;
      ghost var site := SiteNow();
      EmitSuite(s.body, site);
      TailText(out, returnType);
      if returnType == NoneKind {
        Write([ReturnWord, NoneObject, Semi]);
      }
    }

    // ---------- Modules ----------

    method WritePrototypes(body: seq<Stmt>) returns (ok: bool)
      modifies `out, `failed
      ensures ok == PrototypesText(body).Some? && failed == (old(failed) || !ok)
      ensures ok ==> out == old(out) + PrototypesText(body).value
    {
      for i := 0 to |body|
        invariant failed == old(failed)
        invariant PrototypesText(body[..i]).Some? && out == old(out) + PrototypesText(body[..i]).value
      {
        assert body[..i + 1][..i] == body[..i];
        if body[i].FunctionDef? {
          ok := WriteSignature(body[i]);
          if !ok {
            PrototypesStop(body, i + 1);
            return false;
          }
          Write([Semi]);
        }
      }
      assert body[..|body|] == body;
      ok := true;
    }

    method WriteDefinitions(body: seq<Stmt>)
      requires DefinitionsHaveTypes(localTypes, body)
      requires atModuleLevel && !inConditionalBlock && statementExpression == None && loopDepth == 0 && !loopHasElse
      requires types == ModuleTypes(moduleTypes) && !failed
      modifies `out, `failed, `types, `returnType, `atModuleLevel,
          `functionDeclared, `loopDepth, `loopHasElse, `inConditionalBlock, `statementExpression
      ensures Kept() == old(Kept()) && KeptScope() == old(KeptScope())
      ensures Wrote(old(out), false, DefinitionsText(moduleTypes, localTypes, moduleUnbound, body))
    {
      for i := 0 to |body|
        invariant Kept() == old(Kept()) && KeptScope() == old(KeptScope())
        invariant !failed && Wrote(old(out), false, DefinitionsText(moduleTypes, localTypes, moduleUnbound, body[..i]))
      {
        assert body[..i + 1][..i] == body[..i];
        if body[i].FunctionDef? {
          EmitFunctionDef(body[i]);
          DefinitionsSnoc(old(out), moduleTypes, localTypes, moduleUnbound, body, i);
          if failed {
            DefinitionsStop(moduleTypes, localTypes, moduleUnbound, body, i + 1);
            return;
          }
        }
      }
      assert body[..|body|] == body;
    }

    method EmitMain(body: seq<Stmt>, ghost site: Site)
      requires atModuleLevel && !inConditionalBlock && statementExpression == None && loopDepth == 0 && !loopHasElse
      requires site == SiteNow() && !failed
      modifies `out, `failed, `loopDepth, `loopHasElse, `inConditionalBlock, `statementExpression
      ensures Kept() == old(Kept()) && site == SiteNow()
      ensures Wrote(old(out), false, BlockText(LowerMain(site, body)))
    {
      MainEnds(site, body, Written(out, failed), Written(out, failed));
      for i := 0 to |body|
        invariant Kept() == old(Kept()) && site == SiteNow() && !failed
        invariant MainPending(site, body, i, Written(out, failed), Written(old(out), false))
      {
        ghost var was := Written(out, failed);
        if !body[i].FunctionDef? {
          EmitStmt(body[i], site);
        }
        MainStep(site, body, i, was, Written(out, failed), Written(old(out), false));
        if failed {
          return;
        }
      }
      MainEnds(site, body, Written(out, failed), Written(old(out), false));
    }

    /** The include, the file-scope declarations and the module body's own walk. */
    method EmitPrelude(body: seq<Stmt>) returns (ok: bool)
      requires statementExpression == None
      modifies `out, `failed, `atModuleLevel, `inConditionalBlock,
          `functionDeclared, `moduleDeclared, `moduleUnbound, `types
      ensures failed == !ok && atModuleLevel && !inConditionalBlock && types == ModuleTypes(moduleTypes)
      ensures ok == PreludeAccepts(moduleTypes, body)
      ensures ok ==>
        var table := ModuleTable(moduleTypes, body).value;
        out == [Include] + DeclarationsText(table) && moduleDeclared == SlotsOf(table)
        && moduleUnbound == MaybeUnbound(table, body)
    {
      out, failed, atModuleLevel, inConditionalBlock := [], false, true, false;
      functionDeclared, moduleDeclared, moduleUnbound := map[], map[], {};
      types := ModuleTypes(moduleTypes);
      Write([Include]);
      assert out == [Include];
      var table;
      ok, table := CollectScopeVariables(body, {}, [], false, false);
      if !ok {
        return;
      }
      var slots, names := WriteDeclarations(table, moduleDeclared);
      assert slots == SlotsOf(table);
      moduleDeclared := slots;
      var _, bound := CheckDefiniteAssignment(body, names, {});
      if failed {
        return false;
      }
      moduleUnbound := names - bound;
    }

    /** emit_module: the text of the module, exactly when it is accepted. The emitter is
        ready for another module afterwards. */
    method EmitModule(body: seq<Stmt>) returns (text: Option<Text>)
      requires DefinitionsHaveTypes(localTypes, body)
      requires loopDepth == 0 && !loopHasElse && statementExpression == None && returnType == NoneKind
      modifies this
      ensures loopDepth == 0 && !loopHasElse && statementExpression == None && returnType == NoneKind
      ensures text == ModuleText(moduleTypes, localTypes, body)
    {
      var ok := EmitPrelude(body);
      if !ok {
        return None;
      }
      ghost var table := ModuleTable(moduleTypes, body).value;
      ghost var site := ModuleSite(moduleTypes, SlotsOf(table));
      DefinitionsTextExists(moduleTypes, localTypes, moduleUnbound, body);
      ModuleFromPieces(moduleTypes, localTypes, body);
      ok := WritePrototypes(body);
      if !ok {
        return None;
      }
      WriteDefinitions(body);
      if failed {
        return None;
      }
      Write(MAIN_OPENS);
      EmitMain(body, site);
      if failed {
        return None;
      }
      Write(MAIN_CLOSES);
      text := Some(out);
    }
  }
}
