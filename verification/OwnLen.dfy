/** A module with a len of its own, for any text:

      def len(s: str) -> int:
          return 5
      print(len(text))

    The type checker and the emitter accept it. Python prints 5, and the executable the
    length of the text. */
module OwnLen {
  import opened Options
  import opened Numbers
  import opened IntRuntime
  import opened StrRuntime
  import opened FloatRuntime
  import opened Values
  import opened Syntax
  import opened Literals
  import opened PythonMachine
  import opened CppMachine
  import opened Lowering
  import opened Simulation
  import opened ReturnPaths
  import opened Compiler
  import opened OwnBuiltins
  import EarlyCall

  const FIVE: Expr := EarlyCall.FIVE
  const RETURN_FIVE: Stmt := Return(Some(FIVE))
  const PARAM_S: Param := Param("s", Annotated(Some(StrKind)), false)
  const DEFINE_LEN: Stmt := FunctionDef("len", [PARAM_S], Annotated(Some(IntKind)), [RETURN_FIVE])
  const LEN: Function := Function(["s"], [RETURN_FIVE])

  const TYPES: Types := Types(map[], map[], map["len" := Signature([StrKind], IntKind)])
  const LOCAL_TYPES: map<string, map<string, Kind>> := map["len" := map["s" := StrKind]]
  const CPP_LEN: CppFunction := CppFunction([("s", StrKind)], IntKind, map[], [CppReturn(IntLiteral("5"))])

  function CallLen(text: seq<Scalar>): Expr {
    Call("len", [Const(StrLit(text))])
  }

  function PrintLen(text: seq<Scalar>): Stmt {
    ExprStmt(Call("print", [CallLen(text)]))
  }

  function OwnLenModule(text: seq<Scalar>): seq<Stmt> {
    [DEFINE_LEN, PrintLen(text)]
  }

  function CppCallLen(text: seq<Scalar>): CppExpr {
    LenCall([StrLiteral(Encode(text))])
  }

  function Emitted(text: seq<Scalar>): Program {
    Program(map[], map["len" := CPP_LEN], [CppExprStmt(PrintCall([CppCallLen(text)]))])
  }

  lemma NamesDiffer()
    ensures "s" != "print" && "s" != "len" && "print" != "len"
    ensures IsManglable("s") && IsManglable("len")
  {
    assert |"s"| != |"print"| && |"s"| != |"len"| && |"print"| != |"len"|;
  }

  lemma Suffixes(text: seq<Scalar>)
    ensures OwnLenModule(text)[1..] == [PrintLen(text)] && [PrintLen(text)][1..] == [] && [RETURN_FIVE][1..] == []
  {
  }

  // ---------- Python ----------

  lemma Functions(text: seq<Scalar>)
    ensures FunctionsOf(OwnLenModule(text)) == map["len" := LEN]
  {
    Suffixes(text);
    assert FunctionsOf([PrintLen(text)]) == map[];
    assert ParamIds([PARAM_S]) == ["s"] by {
      assert [PARAM_S][1..] == [];
    }
  }

  lemma BodyGivesFive(fuel: nat, ctx: Ctx, st: State)
    ensures !ctx.cap ==> ExecBlock(fuel, ctx, st, [RETURN_FIVE]) == Executed(Returned(PyInt(5)), st)
  {
    hide IntegerValue, IsIntegerLexeme;
    EarlyCall.FiveReads();
    assert Eval(fuel, ctx, st, FIVE) == Evaluated(Got(PyInt(5)), st.output);
    assert Exec(fuel, ctx, st, RETURN_FIVE) == Executed(Returned(PyInt(5)), st);
  }

  lemma OneArg(fuel: nat, ctx: Ctx, st: State, e: Expr, v: Value)
    requires Eval(fuel, ctx, st, e) == Evaluated(Got(v), st.output)
    ensures EvalArgs(fuel, ctx, st, [e]) == Evaluated(Got([v]), st.output)
  {
    EvalArgsStep(fuel, ctx, st, [e]);
    assert [e][1..] == [] && st.(output := st.output) == st && [v] + [] == [v];
    assert EvalArgs(fuel, ctx, st, []) == Evaluated(Got([]), st.output);
  }

  lemma OwnLenGivesFive(fuel: nat, ctx: Ctx, st: State, text: seq<Scalar>)
    requires fuel > 0 && Resolve(ctx, st, "len") == Got(Own(LEN)) && !ctx.cap
    ensures Eval(fuel, ctx, st, CallLen(text)) == Evaluated(Got(PyInt(5)), st.output)
  {
    OneArg(fuel, ctx, st, Const(StrLit(text)), PyStr(text));
    UserCallRuns(fuel, ctx, st, "len", [Const(StrLit(text))], LEN);
    BodyGivesFive(fuel - 1, Inside(ctx, LEN), Entered(st, LEN, [PyStr(text)], st.output));
  }

  lemma PythonPrintsFive(ops: FloatOps, text: seq<Scalar>, fuel: nat)
    requires fuel > 0
    ensures var x := RunModule(fuel, Ctx(ops, false, FunctionsOf(OwnLenModule(text)), ModuleScope), OwnLenModule(text));
      x.outcome == Normal && x.state.output == [[IntText(5)]]
  {
    hide Eval, EvalArgs;
    var ctx := Ctx(ops, false, map["len" := LEN], ModuleScope);
    var st, defined := State(map[], map[], {}, []), State(map[], map[], {"len"}, []);
    Functions(text);
    Suffixes(text);
    NamesDiffer();
    OwnLenGivesFive(fuel, ctx, defined, text);
    OneArg(fuel, ctx, defined, CallLen(text), PyInt(5));
    PrintsOne(fuel, ctx, defined, CallLen(text), PyInt(5));
    var printed := defined.(output := [] + [[IntText(5)]]);
    assert Exec(fuel, ctx, st, DEFINE_LEN) == Executed(Normal, defined);
    assert Exec(fuel, ctx, defined, PrintLen(text)) == Executed(Normal, printed);
    assert ExecBlock(fuel, ctx, defined, [PrintLen(text)]) == Executed(Normal, printed);
    assert ExecBlock(fuel, ctx, st, OwnLenModule(text)) == Executed(Normal, printed);
  }

  lemma PrintsOne(fuel: nat, ctx: Ctx, st: State, e: Expr, v: Value)
    requires EvalArgs(fuel, ctx, st, [e]) == Evaluated(Got([v]), st.output) && Resolve(ctx, st, "print") == Got(Builtin)
    ensures Exec(fuel, ctx, st, ExprStmt(Call("print", [e])))
         == Executed(Normal, st.(output := st.output + [[PyPrinted(v)]]))
  {
    assert [v][1..] == [] && PrintedLine([v]) == [PyPrinted(v)];
    assert Eval(fuel, ctx, st, Call("print", [e])) == EvalCall(fuel, ctx, st, "print", [e]);
  }

  // ---------- C++ ----------

  lemma ExecutablePrintsTheLength(ops: FloatOps, text: seq<Scalar>, fuel: nat)
    requires |text| <= INT64_MAX
    ensures var y := RunProgram(fuel, ops, Emitted(text));
      y.outcome == CppNormal && y.state.output == [[IntText(|text|)]]
  {
    hide CppEval, CppEvalArgs, Encode;
    var ctx, st := CppCtx(ops, map["len" := CPP_LEN]), CppState(Defaults(map[]), map[], [], []);
    CppLenGivesTheLength(fuel, ctx, st, text);
    EarlyCall.CppOneArg(fuel, ctx, st, CppCallLen(text), CppInt(Plain(|text|)));
    CppExecSingle(fuel, ctx, st, CppExprStmt(PrintCall([CppCallLen(text)])));
    assert [CppInt(Plain(|text|))][1..] == [];
    assert CppPrintedLine([CppInt(Plain(|text|))]) == [IntText(|text|)];
  }

  lemma CppLenGivesTheLength(fuel: nat, ctx: CppCtx, st: CppState, text: seq<Scalar>)
    requires |text| <= INT64_MAX
    ensures CppEval(fuel, ctx, st, CppCallLen(text)) == CppEvaluated(Ok(CppInt(Plain(|text|))), st.output)
  {
    hide Encode;
    var literal := StrLiteral(Encode(text));
    EarlyCall.CppOneArg(fuel, ctx, st, literal, CppStr(Encode(text)));
    LenOf(fuel, ctx, st, [literal], text, st.output);
  }

  // ---------- The type checker and the emitter ----------

  function Inner(): Types {
    Types(map[], map["s" := StrKind], TYPES.functions)
  }

  lemma NoVariables(mode: CollectMode, text: seq<Scalar>)
    ensures Collect(mode, [RETURN_FIVE], [], false) == Some([])
    ensures Collect(mode, OwnLenModule(text), [], false) == Some([])
  {
    Suffixes(text);
    assert CollectStmt(mode, RETURN_FIVE, [], false) == Some([]);
    assert CollectStmt(mode, DEFINE_LEN, [], false) == Some([]);
    assert CollectStmt(mode, PrintLen(text), [], false) == Some([]);
    assert Collect(mode, [PrintLen(text)], [], false) == Some([]);
  }

  lemma NothingCollected()
    ensures forall mode :: Collect(mode, [RETURN_FIVE], [], false) == Some([])
  {
    forall mode ensures Collect(mode, [RETURN_FIVE], [], false) == Some([]) {
      NoVariables(mode, []);
    }
  }

  lemma Parameters()
    ensures ParamIds([PARAM_S]) == ["s"] && TypedParams([PARAM_S]) == [("s", StrKind)]
    ensures SignatureSupported(DEFINE_LEN) && ParamSlots([("s", StrKind)]) == map["s" := StrKind]
    ensures (set id | id in ParamIds([PARAM_S])) == {"s"}
  {
    NamesDiffer();
    assert [PARAM_S][1..] == [] && ParamIds([]) == [] && TypedParams([]) == [];
    assert ParamSupported(PARAM_S) && [("s", StrKind)][1..] == [];
  }

  lemma BodyIsLowered()
    ensures var site := FunctionSite(TYPES, map["s" := StrKind], IntKind);
      LowerBlock(site, [RETURN_FIVE]) == Some([CppReturn(IntLiteral("5"))]) && BlockTyped(site, [RETURN_FIVE])
  {
    hide TypeOf, LowerExpr, LowerWidened;
    var site := FunctionSite(TYPES, map["s" := StrKind], IntKind);
    EarlyCall.FiveIsLowered(site.types);
    assert [RETURN_FIVE][1..] == [] && LowerBlock(site, []) == Some([]);
    assert LowerStmt(site, RETURN_FIVE) == Some([CppReturn(IntLiteral("5"))]);
    assert [CppReturn(IntLiteral("5"))] + [] == [CppReturn(IntLiteral("5"))];
    assert BlockTyped(site, []);
  }

  lemma FunctionIsLowered()
    ensures LowerFunction(TYPES, map["s" := StrKind], {}, DEFINE_LEN) == Some(CPP_LEN)
  {
    var mode := CollectMode(Inner(), {"s"}, true);
    Parameters();
    NoVariables(mode, []);
    BodyIsLowered();
    assert IdsOf([]) == {} && SlotsOf([]) == map[];
    assert CheckBlock([RETURN_FIVE], {}, {"s"}).ok && CheckBlock([RETURN_FIVE], {}, {}).ok;
    var nothing: set<string> := {};
    assert nothing - nothing - {"s"} == nothing;
    assert map["s" := StrKind] + SlotsOf([]) == map["s" := StrKind];
    assert Tail(IntKind) == [] && [CppReturn(IntLiteral("5"))] + [] == CPP_LEN.body;
    assert FunctionSite(TYPES, map["s" := StrKind], IntKind) == Site(Inner(), map["s" := StrKind], IntKind, 0, false);
  }

  lemma CallsAreTyped(types: Types, text: seq<Scalar>)
    requires types == ModuleTypes(TYPES)
    ensures TypeOf(types, CallLen(text)) == Some(IntKind)
    ensures TypeOf(types, PrintLen(text).e) == Some(NoneKind)
  {
    NamesDiffer();
    assert types.functions.Keys == {"len"} && types.globals.Keys == {} && types.locals.Keys == {};
    assert AllTyped(types, []) && [Const(StrLit(text))][1..] == [] && [CallLen(text)][1..] == [];
    assert AllTyped(types, [Const(StrLit(text))]);
    assert TypeOf(types, CallLen(text)) == Some(IntKind);
    assert AllTyped(types, [CallLen(text)]);
  }

  lemma PrintIsLowered(site: Site, text: seq<Scalar>)
    requires site == ModuleSite(TYPES, TYPES.globals)
    ensures LowerStmt(site, PrintLen(text)) == Some(Emitted(text).main) && StmtTyped(site, PrintLen(text))
  {
    hide TypeOf;
    CallsAreTyped(site.types, text);
    NamesDiffer();
    LowersOne(site.types, Const(StrLit(text)), StrLiteral(Encode(text)));
    LowersOne(site.types, CallLen(text), CppCallLen(text));
  }

  lemma LowersOne(types: Types, e: Expr, x: CppExpr)
    requires LowerExpr(types, e, false) == Some(x)
    ensures LowerAll(types, [e]) == Some([x])
  {
    assert [e][1..] == [] && [x] + [] == [x] && LowerAll(types, []) == Some([]);
  }

  lemma MainIsLowered(text: seq<Scalar>)
    ensures LowerMain(ModuleSite(TYPES, TYPES.globals), OwnLenModule(text)) == Some(Emitted(text).main)
    ensures MainTyped(ModuleSite(TYPES, TYPES.globals), OwnLenModule(text))
  {
    var site := ModuleSite(TYPES, TYPES.globals);
    PrintIsLowered(site, text);
    assert LowerMain(site, []) == Some([]) && MainTyped(site, []);
    EarlyCall.LowerMainStep(site, PrintLen(text), [], Emitted(text).main, []);
    assert [PrintLen(text)] + [] == [PrintLen(text)] && Emitted(text).main + [] == Emitted(text).main;
    EarlyCall.DefinitionIsSkipped(site, DEFINE_LEN, [PrintLen(text)]);
    assert [DEFINE_LEN] + [PrintLen(text)] == OwnLenModule(text);
  }

  lemma DefinitionIsChecked()
    ensures DefinitionChecked(TYPES, LOCAL_TYPES, DEFINE_LEN)
  {
    hide TypeOf, StmtTyped;
    Parameters();
    BodyIsLowered();
    NoSlots();
    assert AssignedNames([RETURN_FIVE]) == {} by { NothingAssigned(); }
    assert map["s" := StrKind] + map[] == map["s" := StrKind];
    assert [RETURN_FIVE][1..] == [];
    NothingCollected();
    assert DistinctParams([PARAM_S]) && WellPlaced([RETURN_FIVE], false, true) && AlwaysReturns(Inner(), [RETURN_FIVE]);
  }

  lemma NoSlots()
    ensures SlotsOf([]) == map[]
  {
  }

  lemma NothingAssigned()
    ensures AssignedNames([RETURN_FIVE]) == {}
  {
    assert [RETURN_FIVE][1..] == [];
  }

  lemma WalkAccepts(text: seq<Scalar>)
    ensures CheckBlock(OwnLenModule(text), {}, {}) == Flow(true, false, {})
    ensures WellPlaced(OwnLenModule(text), false, false) && AssignedNames(OwnLenModule(text)) == {}
  {
    Suffixes(text);
    assert CheckBlock([PrintLen(text)], {}, {}) == Flow(true, false, {});
    assert WellPlaced([PrintLen(text)], false, false) && AssignedNames([PrintLen(text)]) == {};
  }

  lemma ModuleIsAccepted(text: seq<Scalar>)
    ensures Compiler.Checked(TYPES, LOCAL_TYPES, OwnLenModule(text))
    ensures LowerModule(TYPES, LOCAL_TYPES, OwnLenModule(text)) == Some(Emitted(text))
  {
    hide LowerMain, LowerFunction, CheckBlock, Collect, DefinitionChecked, WellPlaced, MainTyped, AssignedNames;
    NoVariables(CollectMode(ModuleTypes(TYPES), {}, false), text);
    assert IdsOf([]) == {} && SlotsOf([]) == map[];
    FunctionIsLowered();
    MainIsLowered(text);
    Suffixes(text);
    Functions(text);
    WalkAccepts(text);
    DefinitionIsChecked();
    assert LowerFunctions(TYPES, LOCAL_TYPES, {}, [PrintLen(text)]) == Some(map[]);
    assert LowerFunctions(TYPES, LOCAL_TYPES, {}, OwnLenModule(text)) == Some(map["len" := CPP_LEN]);
    var nothing: set<string> := {};
    assert nothing - nothing == nothing;
  }

  /** An accepted module on which the executable does what Python does for exactly the texts
      whose length its own len happens to give. */
  lemma OwnLenIsIgnored(ops: FloatOps, text: seq<Scalar>, fuel: nat)
    requires fuel > 0 && |text| <= INT64_MAX
    ensures Compiler.Checked(TYPES, LOCAL_TYPES, OwnLenModule(text))
    ensures LowerModule(TYPES, LOCAL_TYPES, OwnLenModule(text)) == Some(Emitted(text))
    ensures CallsItsOwn(OwnLenModule(text), "len")
    ensures var x := RunModule(fuel, Ctx(ops, false, FunctionsOf(OwnLenModule(text)), ModuleScope), OwnLenModule(text));
      var y := RunProgram(fuel, ops, Emitted(text));
      && x.outcome == Normal && y.outcome == CppNormal
      && x.state.output == [[IntText(5)]] && y.state.output == [[IntText(|text|)]]
      && (x.state.output == y.state.output <==> |text| == 5)
  {
    ModuleIsAccepted(text);
    PythonPrintsFive(ops, text, fuel);
    ExecutablePrintsTheLength(ops, text, fuel);
    Functions(text);
    Suffixes(text);
    assert AnyCalls([CallLen(text)], "len");
    assert BlockCalls([PrintLen(text)], "len");
    assert [[IntText(5)]][0][0] == IntText(5) && [[IntText(|text|)]][0][0] == IntText(|text|);
  }
}
