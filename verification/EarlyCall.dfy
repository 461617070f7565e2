/** The documented gap of src/domain/codegen/emitter.h:366-372, on a concrete module:

      def g() -> int:
          return t
      print(g())
      t: int = 5

    The emitter accepts it, Python stops at the unbound global, and the executable prints
    the default-constructed one. */
module EarlyCall {
  import opened Options
  import opened Numbers
  import opened IntRuntime
  import opened FloatRuntime
  import opened Values
  import opened Syntax
  import opened Literals
  import opened PythonMachine
  import opened CppMachine
  import opened Lowering
  import opened Simulation
  import opened Compiler
  import opened ReturnPaths

  const RETURN_T: Stmt := Return(Some(Name("t")))
  const DEFINE_G: Stmt := FunctionDef("g", [], Annotated(Some(IntKind)), [RETURN_T])
  const CALL_G: Expr := Call("g", [])
  const PRINT_G: Stmt := ExprStmt(Call("print", [CALL_G]))
  const ASSIGN_T: Stmt := AnnAssign(NameTarget("t"), Some(IntKind), Some(FIVE))
  const FIVE: Expr := Const(IntLit("5"))
  const EARLY: seq<Stmt> := [DEFINE_G, PRINT_G, ASSIGN_T]
  const G: Function := Function([], [RETURN_T])

  const TYPES: Types := Types(map["t" := IntKind], map[], map["g" := Signature([], IntKind)])
  const LOCAL_TYPES: map<string, map<string, Kind>> := map["g" := map[]]

  const CPP_G: CppFunction := CppFunction([], IntKind, map[], [CppReturn(Variable("t"))])
  const CPP_PRINT_G: CppStmt := CppExprStmt(PrintCall([UserCall("g", [])]))
  const CPP_ASSIGN_T: CppStmt := CppAssign("t", IntLiteral("5"))
  const EMITTED: Program := Program(map["t" := IntKind], map["g" := CPP_G], [CPP_PRINT_G, CPP_ASSIGN_T])

  lemma NamesDiffer()
    ensures "g" != "print" && "g" != "len" && "g" != "t" && "t" != "print"
    ensures IsManglable("g") && IsManglable("t")
  {
    assert "g"[0] != "t"[0] && |"t"| != |"print"|;
  }

  lemma Suffixes()
    ensures EARLY[1..] == [PRINT_G, ASSIGN_T] && [PRINT_G, ASSIGN_T][1..] == [ASSIGN_T] && [ASSIGN_T][1..] == []
    ensures [RETURN_T][1..] == []
  {
  }

  // ---------- Python ----------

  lemma EarlyFunctions()
    ensures FunctionsOf(EARLY) == map["g" := G] && LocalNames(G) == {}
  {
    Suffixes();
    assert FunctionsOf([ASSIGN_T]) == map[];
    assert FunctionsOf([PRINT_G, ASSIGN_T]) == map[];
    assert AssignedNames([RETURN_T]) == {};
  }

  lemma CallFails(ops: FloatOps, fuel: nat, st: State)
    requires fuel > 0 && st.globals == map[] && "g" in st.defined
    ensures var ctx := Ctx(ops, true, map["g" := G], ModuleScope);
      Eval(fuel, ctx, st, CALL_G) == Evaluated(Raised(UnboundGlobal("t")), st.output)
  {
    var ctx := Ctx(ops, true, map["g" := G], ModuleScope);
    var inner, entered := Inside(ctx, G), Entered(st, G, [], st.output);
    EarlyFunctions();
    NamesDiffer();
    assert EvalArgs(fuel, ctx, st, []) == Evaluated(Got([]), st.output);
    assert Eval(fuel - 1, inner, entered, Name("t")).result == Raised(UnboundGlobal("t"));
    assert Exec(fuel - 1, inner, entered, RETURN_T) == Executed(Failed(UnboundGlobal("t")), entered);
    assert ExecBlock(fuel - 1, inner, entered, [RETURN_T]) == Executed(Failed(UnboundGlobal("t")), entered);
  }

  lemma PythonStopsAtTheGlobal(ops: FloatOps, fuel: nat)
    requires fuel > 0
    ensures var x := RunModule(fuel, Ctx(ops, true, FunctionsOf(EARLY), ModuleScope), EARLY);
      x.outcome == Failed(UnboundGlobal("t")) && x.state.output == []
  {
    var ctx := Ctx(ops, true, map["g" := G], ModuleScope);
    var st, defined := State(map[], map[], {}, []), State(map[], map[], {"g"}, []);
    EarlyFunctions();
    Suffixes();
    CallFails(ops, fuel, defined);
    assert EvalArgs(fuel, ctx, defined, [CALL_G]) == Evaluated(Raised(UnboundGlobal("t")), []);
    assert Eval(fuel, ctx, defined, PRINT_G.e) == Evaluated(Raised(UnboundGlobal("t")), []);
    assert Exec(fuel, ctx, defined, PRINT_G) == Executed(Failed(UnboundGlobal("t")), defined);
    assert ExecBlock(fuel, ctx, defined, [PRINT_G, ASSIGN_T]) == Executed(Failed(UnboundGlobal("t")), defined);
    assert Exec(fuel, ctx, st, DEFINE_G) == Executed(Normal, defined);
    assert ExecBlock(fuel, ctx, st, EARLY) == Executed(Failed(UnboundGlobal("t")), defined);
  }

  // ---------- C++ ----------

  lemma CppCallGivesZero(ops: FloatOps, fuel: nat, st: CppState)
    requires fuel > 0 && st.globals == map["t" := CppInt(Plain(0))] && st.locals == map[]
    ensures CppEval(fuel, CppCtx(ops, map["g" := CPP_G]), st, UserCall("g", []))
         == CppEvaluated(Ok(CppInt(Plain(0))), st.output)
  {
    var ctx := CppCtx(ops, map["g" := CPP_G]);
    var entered := CppEntered(st, CPP_G, [], st.output);
    assert entered.locals == map[];
    assert CppEvalArgs(fuel, ctx, st, []) == CppEvaluated(Ok([]), st.output);
    assert CppEval(fuel - 1, ctx, entered, Variable("t")) == CppEvaluated(Ok(CppInt(Plain(0))), st.output);
    CppExecSingle(fuel - 1, ctx, entered, CppReturn(Variable("t")));
    assert CppExec(fuel - 1, ctx, entered, CppReturn(Variable("t")))
         == CppExecuted(CppReturned(CppInt(Plain(0))), entered);
  }

  lemma CppOneArg(fuel: nat, ctx: CppCtx, st: CppState, e: CppExpr, v: CppValue)
    requires CppEval(fuel, ctx, st, e) == CppEvaluated(Ok(v), st.output)
    ensures CppEvalArgs(fuel, ctx, st, [e]) == CppEvaluated(Ok([v]), st.output)
  {
    assert [e][1..] == [] && st.(output := st.output) == st && [v] + [] == [v];
    assert CppEvalArgs(fuel, ctx, st, []) == CppEvaluated(Ok([]), st.output);
  }

  lemma ExecutablePrintsZero(ops: FloatOps, fuel: nat)
    requires fuel > 0
    ensures var y := RunProgram(fuel, ops, EMITTED);
      y.outcome == CppNormal && y.state.output == [[IntText(0)]]
  {
    var ctx := CppCtx(ops, map["g" := CPP_G]);
    var st := CppState(Defaults(EMITTED.globals), map[], [], []);
    assert st.globals == map["t" := CppInt(Plain(0))];
    var printed := st.(output := [[IntText(0)]]);
    var ended := printed.(globals := printed.globals["t" := CppInt(Plain(5))]);
    CppPrintsZero(ops, fuel, st);
    CppAssignsFive(fuel, ctx, printed);
    CppTwoStatements(fuel, ctx, st, CPP_PRINT_G, CPP_ASSIGN_T, printed, ended);
  }

  lemma CppPrintsZero(ops: FloatOps, fuel: nat, st: CppState)
    requires fuel > 0 && st.globals == map["t" := CppInt(Plain(0))] && st.locals == map[] && st.output == []
    ensures CppExec(fuel, CppCtx(ops, map["g" := CPP_G]), st, CPP_PRINT_G)
         == CppExecuted(CppNormal, st.(output := [[IntText(0)]]))
  {
    var ctx := CppCtx(ops, map["g" := CPP_G]);
    CppCallGivesZero(ops, fuel, st);
    CppOneArg(fuel, ctx, st, UserCall("g", []), CppInt(Plain(0)));
    assert [CppInt(Plain(0))][1..] == [];
    assert CppPrintedLine([CppInt(Plain(0))]) == [IntText(0)];
  }

  lemma CppAssignsFive(fuel: nat, ctx: CppCtx, st: CppState)
    requires "t" in st.globals && st.globals["t"].CppInt? && st.locals == map[]
    ensures CppExec(fuel, ctx, st, CPP_ASSIGN_T)
         == CppExecuted(CppNormal, st.(globals := st.globals["t" := CppInt(Plain(5))]))
  {
    FiveReads();
    assert CppEval(fuel, ctx, st, IntLiteral("5")) == CppEvaluated(Ok(CppInt(Plain(5))), st.output);
  }

  lemma CppTwoStatements(fuel: nat, ctx: CppCtx, st: CppState, a: CppStmt, b: CppStmt, middle: CppState, end: CppState)
    requires CppExec(fuel, ctx, st, a) == CppExecuted(CppNormal, middle)
    requires CppExec(fuel, ctx, middle, b) == CppExecuted(CppNormal, end)
    ensures CppExecBlock(fuel, ctx, st, [a, b]) == CppExecuted(CppNormal, end)
  {
    CppExecAppends(fuel, ctx, st, [a], [b]);
    CppExecSingle(fuel, ctx, st, a);
    CppExecSingle(fuel, ctx, middle, b);
    assert [a] + [b] == [a, b];
  }

  lemma FiveReads()
    ensures IntLiteralValue("5") == Ok(CppInt(Plain(5))) && Translatable("5") && WithoutUnderscores("5") == "5"
    ensures IsIntegerLexeme("5") && IntegerValue("5") == 5
  {
    assert "5"[..0] == "";
    assert WithoutUnderscores("") == "";
    assert Positional(10, "") == 0;
    assert Positional(10, "5") == 5;
  }

  // ---------- The emitter ----------

  lemma GlobalTable()
    ensures Collect(CollectMode(ModuleTypes(TYPES), {}, false), EARLY, [], false)
         == Some([ScopeVariable("t", IntKind, false)])
    ensures SlotsOf([ScopeVariable("t", IntKind, false)]) == TYPES.globals
    ensures IdsOf([ScopeVariable("t", IntKind, false)]) == {"t"}
  {
    var mode, variable := CollectMode(ModuleTypes(TYPES), {}, false), ScopeVariable("t", IntKind, false);
    Suffixes();
    NamesDiffer();
    assert OccurrenceOf(mode, ASSIGN_T, false) == Some(Occurrence("t", Some(IntKind), false, true));
    assert [] + [variable] == [variable];
    assert CollectStmt(mode, ASSIGN_T, [], false) == Some([variable]);
    assert Collect(mode, [ASSIGN_T], [], false) == Some([variable]);
    assert Collect(mode, [PRINT_G, ASSIGN_T], [], false) == Some([variable]);
    assert [variable][..0] == [];
    assert SlotsOf([]) == map[];
    assert [variable][0].id == "t";
  }

  lemma GlobalIsBoundAtTheEnd()
    ensures CheckBlock(EARLY, {"t"}, {}) == Flow(true, false, {"t"})
  {
    Suffixes();
    NamesDiffer();
    assert CheckBlock([ASSIGN_T], {"t"}, {}) == Flow(true, false, {"t"});
    assert ReadsAll([]) == {} && [CALL_G][1..] == [];
    assert Reads(CALL_G) == {"g"};
    assert "t" != "print";
    assert Reads(PRINT_G.e) == {"print", "g"};
    assert CheckBlock([PRINT_G, ASSIGN_T], {"t"}, {}) == Flow(true, false, {"t"});
  }

  lemma NoLocals(mode: CollectMode)
    ensures Collect(mode, [RETURN_T], [], false) == Some([])
  {
    Suffixes();
    assert CollectStmt(mode, RETURN_T, [], false) == Some([]);
  }

  lemma FunctionIsLowered()
    ensures SignatureSupported(DEFINE_G) && LowerFunction(TYPES, map[], {}, DEFINE_G) == Some(CPP_G)
  {
    var names := set id | id in ParamIds([]);
    var mode := CollectMode(Types(TYPES.globals, map[], TYPES.functions), names, true);
    Suffixes();
    NamesDiffer();
    assert names == {};
    NoLocals(mode);
    assert IdsOf([]) == {} && SlotsOf([]) == map[];
    assert CheckBlock([RETURN_T], {}, {}).ok;
    var site := FunctionSite(TYPES, map[], IntKind);
    assert LowerBlock(site, []) == Some([]);
    assert LowerExpr(site.types, Name("t"), false) == Some(Variable("t"));
    assert LowerStmt(site, RETURN_T) == Some([CppReturn(Variable("t"))]);
    assert [CppReturn(Variable("t"))] + [] == [CppReturn(Variable("t"))];
    assert LowerBlock(site, [RETURN_T]) == Some([CppReturn(Variable("t"))]);
    assert Tail(IntKind) == [];
    assert ParamSlots(TypedParams([])) + SlotsOf([]) == map[];
    var nothing: set<string> := {};
    assert nothing - nothing - names == nothing;
    assert [CppReturn(Variable("t"))] + Tail(IntKind) == CPP_G.body;
  }

  lemma AssignmentIsLowered(site: Site)
    requires site == ModuleSite(TYPES, TYPES.globals)
    ensures LowerStmt(site, ASSIGN_T) == Some([CPP_ASSIGN_T]) && StmtTyped(site, ASSIGN_T)
  {
    NamesDiffer();
    FiveIsLowered(site.types);
    assert LowerAssignment(site, NameTarget("t"), FIVE, Some(IntKind)) == Some([CPP_ASSIGN_T]);
  }

  lemma FiveIsLowered(types: Types)
    ensures TypeOf(types, FIVE) == Some(IntKind) && LowerWidened(types, FIVE, IntKind) == Some(IntLiteral("5"))
  {
    hide IsIntegerLexeme, IntegerValue, Translatable, WithoutUnderscores;
    FiveReads();
  }

  lemma MainIsLowered()
    ensures LowerMain(ModuleSite(TYPES, TYPES.globals), EARLY) == Some(EMITTED.main)
    ensures MainTyped(ModuleSite(TYPES, TYPES.globals), EARLY)
  {
    var site := ModuleSite(TYPES, TYPES.globals);
    AssignmentIsLowered(site);
    PrintIsLowered(site);
    TwoStatementsAreLowered(site, DEFINE_G, PRINT_G, ASSIGN_T, CPP_PRINT_G, CPP_ASSIGN_T);
  }

  lemma PrintIsLowered(site: Site)
    requires site == ModuleSite(TYPES, TYPES.globals)
    ensures LowerStmt(site, PRINT_G) == Some([CPP_PRINT_G]) && StmtTyped(site, PRINT_G)
  {
    CallIsLowered(site.types);
  }

  lemma LowerMainStep(site: Site, s: Stmt, rest: seq<Stmt>, a: seq<CppStmt>, b: seq<CppStmt>)
    requires !s.FunctionDef? && LowerStmt(site, s) == Some(a) && LowerMain(site, rest) == Some(b)
    requires StmtTyped(site, s) && MainTyped(site, rest)
    ensures LowerMain(site, [s] + rest) == Some(a + b) && MainTyped(site, [s] + rest)
  {
    assert ([s] + rest)[1..] == rest;
  }

  lemma DefinitionIsSkipped(site: Site, definition: Stmt, rest: seq<Stmt>)
    requires definition.FunctionDef? && MainTyped(site, rest)
    ensures LowerMain(site, [definition] + rest) == LowerMain(site, rest) && MainTyped(site, [definition] + rest)
  {
    assert ([definition] + rest)[1..] == rest;
  }

  lemma TwoStatementsAreLowered(site: Site, definition: Stmt, s: Stmt, t: Stmt, x: CppStmt, y: CppStmt)
    requires definition.FunctionDef? && !s.FunctionDef? && !t.FunctionDef?
    requires LowerStmt(site, s) == Some([x]) && LowerStmt(site, t) == Some([y])
    requires StmtTyped(site, s) && StmtTyped(site, t)
    ensures LowerMain(site, [definition, s, t]) == Some([x, y]) && MainTyped(site, [definition, s, t])
  {
    LowerMainStep(site, t, [], [y], []);
    assert [t] + [] == [t] && [y] + [] == [y];
    LowerMainStep(site, s, [t], [x], [y]);
    assert [s] + [t] == [s, t] && [x] + [y] == [x, y];
    DefinitionIsSkipped(site, definition, [s, t]);
    assert [definition] + [s, t] == [definition, s, t];
  }

  lemma CallIsLowered(types: Types)
    requires types == ModuleTypes(TYPES)
    ensures LowerExpr(types, PRINT_G.e, true) == Some(PrintCall([UserCall("g", [])]))
    ensures TypeOf(types, PRINT_G.e) == Some(NoneKind)
  {
    hide TypeOf, LowerArgs;
    NamesDiffer();
    PrintIsTyped(types);
    InnerCallIsLowered(types);
    assert [CALL_G][1..] == [];
    assert LowerAll(types, []) == Some([]);
    assert [UserCall("g", [])] + [] == [UserCall("g", [])];
    assert LowerAll(types, [CALL_G]) == Some([UserCall("g", [])]);
  }

  lemma InnerCallIsLowered(types: Types)
    requires types == ModuleTypes(TYPES)
    ensures LowerExpr(types, CALL_G, false) == Some(UserCall("g", []))
  {
    hide TypeOf, IsListed, IsManglable;
    NamesDiffer();
    NotRefused();
    assert LowerArgs(types, [], []) == Some([]);
  }

  lemma PrintIsTyped(types: Types)
    requires types == ModuleTypes(TYPES)
    ensures TypeOf(types, CALL_G) == Some(IntKind) && TypeOf(types, PRINT_G.e) == Some(NoneKind)
  {
    NamesDiffer();
    assert "print" !in types.functions && "print" !in types.globals && "g" !in types.globals;
    assert AllTyped(types, []) && [CALL_G][1..] == [];
  }

  lemma NotRefused()
    ensures !IsListed("g", REFUSED_BUILTINS)
  {
    LongNamesOnly("g", REFUSED_BUILTINS);
  }

  /** A one-letter name is not listed among longer ones. */
  lemma {:induction false} LongNamesOnly(name: string, table: seq<string>)
    requires |name| == 1 && forall i :: 0 <= i < |table| ==> |table[i]| > 1
    ensures !IsListed(name, table)
  {
    if table != [] {
      assert |table[0]| > 1;
      forall i | 0 <= i < |table[1..]| ensures |table[1..][i]| > 1 {
        assert table[1..][i] == table[i + 1];
      }
      LongNamesOnly(name, table[1..]);
    }
  }

  lemma DefinitionIsChecked()
    ensures DefinitionChecked(TYPES, LOCAL_TYPES, DEFINE_G)
  {
    NamesDiffer();
    EarlyFunctions();
    Suffixes();
    var names := set id | id in ParamIds([]);
    NoLocals(CollectMode(Types(TYPES.globals, map[], TYPES.functions), names, true));
    assert AssignedNames([RETURN_T]) == {};
    assert ParamSlots(TypedParams([])) + SlotsOf([]) == map[];
    var site := FunctionSite(TYPES, map[], IntKind);
    assert StmtTyped(site, RETURN_T);
    assert BlockTyped(site, []);
  }

  lemma DefinitionsArePlaced()
    ensures WellPlaced(EARLY, false, false) && TYPES.globals.Keys !! TYPES.functions.Keys
  {
    Suffixes();
    NamesDiffer();
    assert WellPlaced([ASSIGN_T], false, false) && WellPlaced([PRINT_G, ASSIGN_T], false, false);
  }

  lemma ModuleIsAccepted()
    ensures Compiler.Checked(TYPES, LOCAL_TYPES, EARLY) && LowerModule(TYPES, LOCAL_TYPES, EARLY) == Some(EMITTED)
  {
    GlobalTable();
    GlobalIsBoundAtTheEnd();
    FunctionIsLowered();
    MainIsLowered();
    Suffixes();
    EarlyFunctions();
    NamesDiffer();
    assert LowerFunctions(TYPES, LOCAL_TYPES, {}, [ASSIGN_T]) == Some(map[]);
    assert LowerFunctions(TYPES, LOCAL_TYPES, {}, [PRINT_G, ASSIGN_T]) == Some(map[]);
    assert LowerFunctions(TYPES, LOCAL_TYPES, {}, EARLY) == Some(map["g" := CPP_G]);
    assert {"t"} - {"t"} == {};
    DefinitionIsChecked();
    DefinitionsArePlaced();
    assert AssignedNames(EARLY) == {"t"} by {
      assert AssignedNames([ASSIGN_T]) == {"t"};
      assert AssignedNames([PRINT_G, ASSIGN_T]) == {"t"};
    }
  }

  /** An accepted module on which the executable does not do what Python does. */
  lemma AnEarlyCallReadsTheDefault(ops: FloatOps, fuel: nat)
    requires fuel > 0
    ensures Compiler.Checked(TYPES, LOCAL_TYPES, EARLY) && LowerModule(TYPES, LOCAL_TYPES, EARLY) == Some(EMITTED)
    ensures RunModule(fuel, Ctx(ops, true, FunctionsOf(EARLY), ModuleScope), EARLY).outcome
         == Failed(UnboundGlobal("t"))
    ensures var y := RunProgram(fuel, ops, EMITTED);
      y.outcome == CppNormal && y.state.output == [[IntText(0)]]
  {
    ModuleIsAccepted();
    PythonStopsAtTheGlobal(ops, fuel);
    ExecutablePrintsZero(ops, fuel);
  }
}
