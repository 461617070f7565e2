/** emit_module and visit(FunctionDef): whole modules, and the compiler's contract. */
module Compiler {
  import opened Options
  import opened Numbers
  import opened IntRuntime
  import opened FloatRuntime
  import opened Values
  import opened Syntax
  import opened PythonMachine
  import opened CppMachine
  import opened Lowering
  import opened ScopeVariables
  import opened DefiniteAssignment
  import opened Simulation
  import opened GlobalReads
  import opened ReturnPaths
  import opened HiddenPrint
  import ExactInts

  /** The emitted file: file-scope variables, function definitions, and main's body. */
  datatype Program = Program(globals: map<string, Kind>, functions: map<string, CppFunction>, main: seq<CppStmt>)

  // ---------- Emission ----------

  function ParamIds(params: seq<Param>): (r: seq<string>)
    ensures |r| == |params|
    ensures forall i :: 0 <= i < |r| ==> r[i] == params[i].id
  {
    if params == [] then [] else [params[0].id] + ParamIds(params[1..])
  }

  /** write_signature's demands of one parameter. */
  predicate ParamSupported(p: Param) {
    p.annotation.Annotated? && p.annotation.kind.Some? && !p.hasDefault && IsManglable(p.id)
  }

  function ParamKind(p: Param): Kind {
    if ParamSupported(p) then p.annotation.kind.value else NoneKind
  }

  function TypedParams(params: seq<Param>): (r: seq<(string, Kind)>)
    ensures |r| == |params|
    ensures forall i :: 0 <= i < |r| ==> r[i] == (params[i].id, ParamKind(params[i]))
  {
    if params == [] then [] else [(params[0].id, ParamKind(params[0]))] + TypedParams(params[1..])
  }

  predicate SignatureSupported(s: Stmt)
    requires s.FunctionDef?
  {
    && IsManglable(s.id) && s.resultType.Annotated? && s.resultType.kind.Some?
    && forall i :: 0 <= i < |s.params| ==> ParamSupported(s.params[i])
  }

  function ParamSlots(params: seq<(string, Kind)>): map<string, Kind> {
    if params == [] then map[] else ParamSlots(params[1..])[params[0].0 := params[0].1]
  }

  /** visit(FunctionDef). `maybeUnbound`: the globals the module body may never assign. */
  function LowerFunction(
      types: Types, locals: map<string, Kind>, maybeUnbound: set<string>, s: Stmt): Option<CppFunction>
    requires s.FunctionDef?
  {
    if !SignatureSupported(s) then None
    else
      var params := TypedParams(s.params);
      var names := set id | id in ParamIds(s.params);
      var inner := Types(types.globals, locals, types.functions);
      var table := Collect(CollectMode(inner, names, true), s.body, [], false);
      if table.None? then None
      else
        var declared := IdsOf(table.value);
        if !CheckBlock(s.body, declared, names).ok then None
        else if !CheckBlock(s.body, maybeUnbound - declared - names, {}).ok then None
        else
          var slots := ParamSlots(params) + SlotsOf(table.value);
          var body := LowerBlock(Site(inner, slots, s.resultType.kind.value, 0, false), s.body);
          if body.None? then None
          else Some(CppFunction(params, s.resultType.kind.value, SlotsOf(table.value),
                                body.value + Tail(s.resultType.kind.value)))
  }

  function LowerFunctions(
      types: Types, localTypes: map<string, map<string, Kind>>, maybeUnbound: set<string>, body: seq<Stmt>):
      Option<map<string, CppFunction>>
  {
    if body == [] then Some(map[])
    else
      var rest := LowerFunctions(types, localTypes, maybeUnbound, body[1..]);
      if !body[0].FunctionDef? || rest.None? then rest
      else if body[0].id !in localTypes then None
      else
        var f := LowerFunction(types, localTypes[body[0].id], maybeUnbound, body[0]);
        if f.Some? then Some(rest.value[body[0].id := f.value]) else None
  }

  /** main() carries every statement but the function definitions. */
  function LowerMain(site: Site, body: seq<Stmt>): Option<seq<CppStmt>> {
    if body == [] then Some([])
    else if body[0].FunctionDef? then LowerMain(site, body[1..])
    else
      var x, xs := LowerStmt(site, body[0]), LowerMain(site, body[1..]);
      if x.Some? && xs.Some? then Some(x.value + xs.value) else None
  }

  function ModuleTypes(types: Types): Types {
    Types(types.globals, map[], types.functions)
  }

  function ModuleSite(types: Types, slots: map<string, Kind>): Site {
    Site(ModuleTypes(types), slots, NoneKind, 0, false)
  }

  /** emit_module. `types` and `localTypes` are the TypeMap's verdicts. */
  function LowerModule(types: Types, localTypes: map<string, map<string, Kind>>, body: seq<Stmt>): Option<Program> {
    var table := Collect(CollectMode(ModuleTypes(types), {}, false), body, [], false);
    if table.None? then None
    else
      var names := IdsOf(table.value);
      var flow := CheckBlock(body, names, {});
      if !flow.ok then None
      else
        var functions := LowerFunctions(types, localTypes, names - flow.bound, body);
        var main := LowerMain(ModuleSite(types, SlotsOf(table.value)), body);
        if functions.None? || main.None? then None
        else Some(Program(SlotsOf(table.value), functions.value, main.value))
  }

  /** Running the executable: every global default-constructed, then main. */
  function RunProgram(fuel: nat, ops: FloatOps, program: Program): CppExecuted {
    CppExecBlock(fuel, CppCtx(ops, program.functions),
                 CppState(Defaults(program.globals), map[], [], []), program.main)
  }

  // ---------- What the front end has established ----------

  function FunctionOf(s: Stmt): Function
    requires s.FunctionDef?
  {
    Function(ParamIds(s.params), s.body)
  }

  function FunctionsOf(body: seq<Stmt>): map<string, Function> {
    if body == [] then map[]
    else
      var rest := FunctionsOf(body[1..]);
      if body[0].FunctionDef? then rest[body[0].id := FunctionOf(body[0])] else rest
  }

  predicate DistinctParams(params: seq<Param>) {
    forall i, j :: 0 <= i < j < |params| ==> params[i].id != params[j].id
  }

  /** One checked definition: its signature and the types of its names are the ones the
      TypeMap holds, its body type-checks, and unless it is to give None every path through
      it returns. */
  predicate DefinitionChecked(types: Types, localTypes: map<string, map<string, Kind>>, s: Stmt)
    requires s.FunctionDef?
  {
    && s.id in types.functions && s.id in localTypes
    && DistinctParams(s.params) && WellPlaced(s.body, false, true)
    && (forall id :: id in AssignedNames(s.body) ==> IsManglable(id))
    && (SignatureSupported(s) ==>
          var params, locals := TypedParams(s.params), localTypes[s.id];
          var names := set id | id in ParamIds(s.params);
          var table :=
            Collect(CollectMode(Types(types.globals, locals, types.functions), names, true), s.body, [], false);
          && types.functions[s.id].result == s.resultType.kind.value
          && |types.functions[s.id].params| == |params|
          && (forall i :: 0 <= i < |params| ==> types.functions[s.id].params[i] == params[i].1)
          && (table.Some? ==> locals == ParamSlots(params) + SlotsOf(table.value))
          && (s.resultType.kind.value != NoneKind
              ==> AlwaysReturns(Types(types.globals, locals, types.functions), s.body))
          && BlockTyped(FunctionSite(types, locals, s.resultType.kind.value), s.body))
  }

  /** What the type checker guarantees of a module it accepts: one definition per function
      name, which no variable shares, every name's slot type equal to the type its reads
      carry, and every statement typed. Non-ASCII identifiers are never assigned or
      annotated, and break, continue and return stand where Python allows them. */
  predicate Checked(types: Types, localTypes: map<string, map<string, Kind>>, body: seq<Stmt>) {
    && types.functions.Keys == FunctionsOf(body).Keys == localTypes.Keys
    && types.globals.Keys !! types.functions.Keys
    && WellPlaced(body, false, false)
    && (forall i, j :: 0 <= i < j < |body| && body[i].FunctionDef? && body[j].FunctionDef? ==> body[i].id != body[j].id)
    && (forall i :: 0 <= i < |body| && body[i].FunctionDef? ==> DefinitionChecked(types, localTypes, body[i]))
    && (forall id :: id in AssignedNames(body) ==> IsManglable(id))
    && (var table := Collect(CollectMode(ModuleTypes(types), {}, false), body, [], false);
        table.Some? ==> types.globals == SlotsOf(table.value))
    && MainTyped(ModuleSite(types, types.globals), body)
  }

  predicate MainTyped(site: Site, body: seq<Stmt>) {
    body == [] || ((body[0].FunctionDef? || StmtTyped(site, body[0])) && MainTyped(site, body[1..]))
  }

  // ---------- The two programs are linked ----------

  lemma {:induction false} ParamSlotsKeys(params: seq<Param>)
    ensures ParamSlots(TypedParams(params)).Keys == set id | id in ParamIds(params)
    ensures Ids(TypedParams(params)) == ParamIds(params)
  {
    if params != [] {
      assert TypedParams(params)[1..] == TypedParams(params[1..]);
      assert ParamIds(params) == [params[0].id] + ParamIds(params[1..]);
      ParamSlotsKeys(params[1..]);
    }
  }

  lemma {:induction false} ParamSlotsHold(params: seq<Param>, i: nat)
    requires i < |params| && DistinctParams(params)
    ensures var slots := ParamSlots(TypedParams(params));
      params[i].id in slots && slots[params[i].id] == ParamKind(params[i])
  {
    assert TypedParams(params)[1..] == TypedParams(params[1..]);
    if i > 0 {
      assert params[1..][i - 1] == params[i] && params[0].id != params[i].id;
      ParamSlotsHold(params[1..], i - 1);
    }
  }

  /** The names of an accepted function: parameters and collected locals make up exactly
      its local names, and the walk the emitter made is the one its soundness needs. */
  lemma NamesOfFunction(types: Types, locals: map<string, Kind>, maybeUnbound: set<string>, s: Stmt)
    requires s.FunctionDef? && LowerFunction(types, locals, maybeUnbound, s).Some?
    requires forall id :: id in AssignedNames(s.body) ==> IsManglable(id)
    ensures var f, cf := FunctionOf(s), LowerFunction(types, locals, maybeUnbound, s).value;
      var slots := ParamSlots(TypedParams(s.params)) + cf.locals;
      slots.Keys == LocalNames(f) && cf.locals == (map id | id in slots && id !in f.params :: slots[id])
    ensures FunctionChecked(FunctionOf(s))
  {
    var f := FunctionOf(s);
    var names := set id | id in ParamIds(s.params);
    var mode := CollectMode(Types(types.globals, locals, types.functions), names, true);
    var table := Collect(mode, s.body, [], false).value;
    CollectedNames(mode, s.body, table);
    ParamSlotsKeys(s.params);
    assert names == ParameterNames(f);
  }

  /** An emitted function is linked to its Python original. */
  lemma EmittedFunctionIsLinked(
      types: Types, localTypes: map<string, map<string, Kind>>, maybeUnbound: set<string>, s: Stmt)
    requires s.FunctionDef? && DefinitionChecked(types, localTypes, s)
    requires LowerFunction(types, localTypes[s.id], maybeUnbound, s).Some?
    ensures FunctionLinked(types, localTypes[s.id], FunctionOf(s), types.functions[s.id],
                           LowerFunction(types, localTypes[s.id], maybeUnbound, s).value)
    ensures FunctionChecked(FunctionOf(s))
  {
    var f, cf, locals := FunctionOf(s), LowerFunction(types, localTypes[s.id], maybeUnbound, s).value, localTypes[s.id];
    NamesOfFunction(types, locals, maybeUnbound, s);
    ParamSlotsKeys(s.params);
    assert locals == ParamSlots(TypedParams(s.params)) + cf.locals;
    forall i | 0 <= i < |f.params| ensures locals[f.params[i]] == types.functions[s.id].params[i] {
      ParamSlotsHold(s.params, i);
      assert f.params[i] !in cf.locals;
    }
  }

  ghost predicate EmittedAndLinked(
      types: Types, localTypes: map<string, map<string, Kind>>, id: string, f: Function, cf: CppFunction)
  {
    && id in types.functions && id in localTypes
    && FunctionLinked(types, localTypes[id], f, types.functions[id], cf)
    && FunctionChecked(f)
  }

  lemma {:induction false} FunctionsAreLinked(
      types: Types, localTypes: map<string, map<string, Kind>>, maybeUnbound: set<string>, body: seq<Stmt>)
    requires forall i :: 0 <= i < |body| && body[i].FunctionDef? ==> DefinitionChecked(types, localTypes, body[i])
    requires LowerFunctions(types, localTypes, maybeUnbound, body).Some?
    ensures var cpp := LowerFunctions(types, localTypes, maybeUnbound, body).value;
      cpp.Keys == FunctionsOf(body).Keys
    ensures var cpp, functions := LowerFunctions(types, localTypes, maybeUnbound, body).value, FunctionsOf(body);
      forall id :: id in functions ==> EmittedAndLinked(types, localTypes, id, functions[id], cpp[id])
  {
    if body != [] {
      FunctionsAreLinked(types, localTypes, maybeUnbound, body[1..]);
      if body[0].FunctionDef? {
        EmittedFunctionIsLinked(types, localTypes, maybeUnbound, body[0]);
      }
    }
  }

  lemma {:induction false} LoweredIsFlat(site: Site, body: seq<Stmt>)
    requires LowerBlock(site, body).Some?
    ensures NoDefinitions(body)
    decreases body, 0
  {
    if body != [] {
      LoweredStmtIsFlat(site, body[0]);
      LoweredIsFlat(site, body[1..]);
    }
  }

  lemma {:induction false} LoweredStmtIsFlat(site: Site, s: Stmt)
    requires LowerStmt(site, s).Some?
    ensures IsNoDefinition(s)
    decreases s, 0
  {
    match s
    case If(_, body, orelse) => LoweredIsFlat(site, body); LoweredIsFlat(site, orelse);
    case While(_, body, orelse) => LoweredIsFlat(InLoop(site, s), body); LoweredIsFlat(site, orelse);
    case _ =>
  }

  lemma {:induction false} MainIsFlat(site: Site, body: seq<Stmt>)
    requires LowerMain(site, body).Some?
    ensures DefinesOnTop(body)
  {
    if body != [] {
      if !body[0].FunctionDef? {
        LoweredStmtIsFlat(site, body[0]);
      }
      MainIsFlat(site, body[1..]);
      assert forall i :: 1 <= i < |body| ==> body[i] == body[1..][i - 1];
    }
  }

  // ---------- main ----------

  lemma {:induction false} MainSimulates(w: World, site: Site, st: State, cst: CppState, fuel: nat, body: seq<Stmt>)
    requires Linked(w) && SiteFits(w, site) && Matched(w, st, cst) && !site.hasElse
    requires MainTyped(site, body) && LowerMain(site, body).Some?
    ensures RunMatches(w, site, ExecBlock(fuel, w.ctx, st, body),
                       CppExecBlock(fuel, w.cpp, cst, LowerMain(site, body).value), cst.flags)
    decreases body
  {
    if body != [] {
      var x := Exec(fuel, w.ctx, st, body[0]);
      if body[0].FunctionDef? {
        MainSimulates(w, site, x.state, cst, fuel, body[1..]);
      } else {
        var a, b := LowerStmt(site, body[0]).value, LowerMain(site, body[1..]).value;
        StmtSimulates(w, site, st, cst, fuel, body[0]);
        CppExecAppends(fuel, w.cpp, cst, a, b);
        if x.outcome.Normal? {
          MainSimulates(w, site, x.state, CppExecBlock(fuel, w.cpp, cst, a).state, fuel, body[1..]);
        }
      }
    }
  }

  /** Python's run of a module, up to where the executable has to part from it. */
  function ModuleCtx(ops: FloatOps, body: seq<Stmt>): Ctx {
    Ctx(ops, true, FunctionsOf(body), ModuleScope)
  }

  /** The world of a module, as the emitter has it, and its emitted program. */
  function ModuleWorld(
      ops: FloatOps, types: Types, localTypes: map<string, map<string, Kind>>, body: seq<Stmt>, program: Program): World
  {
    World(Emitted(ModuleCtx(ops, body)), CppCtx(ops, program.functions), ModuleTypes(types), localTypes)
  }

  lemma ModuleIsLinked(
      ops: FloatOps, types: Types, localTypes: map<string, map<string, Kind>>, body: seq<Stmt>, program: Program)
    requires ops.Faithful() && Checked(types, localTypes, body)
    requires LowerModule(types, localTypes, body) == Some(program)
    ensures Linked(ModuleWorld(ops, types, localTypes, body, program))
    ensures program.globals == types.globals
    ensures CheckBlock(body, types.globals.Keys, {}).ok
    ensures FunctionsChecked(ModuleCtx(ops, body)) && Flat(ModuleCtx(ops, body)) && DefinesOnTop(body)
  {
    var w := ModuleWorld(ops, types, localTypes, body, program);
    var mode := CollectMode(ModuleTypes(types), {}, false);
    var table := Collect(mode, body, [], false).value;
    CollectedNames(mode, body, table);
    var maybeUnbound := IdsOf(table) - CheckBlock(body, IdsOf(table), {}).bound;
    FunctionsAreLinked(types, localTypes, maybeUnbound, body);
    forall id ensures LinkedAt(w, id) {
      if id in w.ctx.functions {
        assert EmittedAndLinked(types, localTypes, id, w.ctx.functions[id], w.cpp.functions[id]);
        assert FunctionSite(types, localTypes[id], types.functions[id].result)
            == FunctionSite(w.types, localTypes[id], types.functions[id].result);
      }
    }
    forall id | id in FunctionsOf(body)
      ensures NoDefinitions(FunctionsOf(body)[id].body) && FunctionChecked(FunctionsOf(body)[id])
    {
      assert EmittedAndLinked(types, localTypes, id, FunctionsOf(body)[id], program.functions[id]);
      LoweredIsFlat(FunctionSite(types, localTypes[id], types.functions[id].result), FunctionsOf(body)[id].body);
    }
    MainIsFlat(ModuleSite(types, types.globals), body);
  }

  /** How the process ends for a Python outcome: zero for a normal end, non-zero by a trap. */
  predicate SameEnding(x: Outcome, y: CppOutcome) {
    match x
    case Normal => y.CppNormal?
    case Failed(ZeroDivision) => y == CppStopped(Trapped)
    case Failed(Overflow64) => y == CppStopped(Trapped)
    case Failed(OutOfFuel) => y == CppStopped(Exhausted)
    case _ => false
  }

  /** A run the contract does not cover: a function reached a global or a function before
      the module bound it, the emitter took a call for another, or a result for which the
      runtime is not CPython's algorithm. */
  predicate Uncovered(x: Outcome) {
    x.Failed? && (IsMissing(x.failure) || x.failure.Shadowed? || x.failure.Outside?)
  }

  /** The executable does what Python does with no print but the builtin. */
  lemma ExecutableDoesWhatIsEmitted(
      ops: FloatOps, types: Types, localTypes: map<string, map<string, Kind>>,
      body: seq<Stmt>, program: Program, fuel: nat)
    requires ops.Faithful() && Checked(types, localTypes, body)
    requires LowerModule(types, localTypes, body) == Some(program)
    ensures var e := RunModule(fuel, Emitted(ModuleCtx(ops, body)), body);
      var y := RunProgram(fuel, ops, program);
      && (Uncovered(e.outcome) || (SameEnding(e.outcome, y.outcome) && e.state.output == y.state.output))
      && (e.outcome.Failed? && e.outcome.failure.UnboundGlobal? ==> e.outcome.failure.name in types.globals)
  {
    var w := ModuleWorld(ops, types, localTypes, body, program);
    var site := ModuleSite(types, types.globals);
    var st, cst := State(map[], map[], {}, []), CppState(Defaults(program.globals), map[], [], []);
    ModuleIsLinked(ops, types, localTypes, body, program);
    DefaultsHaveTheirKind(program.globals);
    MainSimulates(w, site, st, cst, fuel, body);
    BlockRunsSoundly(fuel, w.ctx, st, body, types.globals.Keys, {});
    WellPlacedRuns(fuel, w.ctx, st, body, false, false);
  }

  /** That is Python's run, unless it calls a print of the module's own. */
  lemma EmittedIsPython(
      ops: FloatOps, types: Types, localTypes: map<string, map<string, Kind>>,
      body: seq<Stmt>, program: Program, fuel: nat)
    requires ops.Faithful() && Checked(types, localTypes, body)
    requires LowerModule(types, localTypes, body) == Some(program)
    ensures var x := RunModule(fuel, ModuleCtx(ops, body), body);
      var e := RunModule(fuel, Emitted(ModuleCtx(ops, body)), body);
      x == e || (x.outcome == Failed(Shadowed("print")) && |x.state.output| < |e.state.output|)
  {
    ModuleIsLinked(ops, types, localTypes, body, program);
    ModuleParts(fuel, ModuleCtx(ops, body), State(map[], map[], {}, []), body);
  }

  /** The compiler's contract, for every module it accepts and every amount of fuel: the
      executable prints what Python prints and ends as Python ends, where an int leaving
      64 bits counts as an ending. No run reads an unassigned name of its own scope, and
      the emitted program never meets a missing overload, an undeclared flag or a
      mistyped variable. */
  lemma CompiledModuleBehavesLikePython(
      ops: FloatOps, types: Types, localTypes: map<string, map<string, Kind>>,
      body: seq<Stmt>, program: Program, fuel: nat)
    requires ops.Faithful() && Checked(types, localTypes, body)
    requires LowerModule(types, localTypes, body) == Some(program)
    ensures var x, y := RunModule(fuel, ModuleCtx(ops, body), body), RunProgram(fuel, ops, program);
      Uncovered(x.outcome) || (SameEnding(x.outcome, y.outcome) && x.state.output == y.state.output)
  {
    ExecutableDoesWhatIsEmitted(ops, types, localTypes, body, program, fuel);
    EmittedIsPython(ops, types, localTypes, body, program, fuel);
  }

  // ---------- CPython itself ----------

  /** The run gets as far as a call that the emitter takes for another. */
  predicate ReachesOwnBuiltin(ops: FloatOps, body: seq<Stmt>, fuel: nat) {
    var o := RunModule(fuel, ModuleCtx(ops, body), body).outcome;
    o.Failed? && o.failure.Shadowed?
  }

  /** As long as the executable has not trapped, it has printed exactly what CPython, whose
      ints have no bound, prints, and it ends the same way. */
  lemma WithoutATrapItIsCPython(
      ops: FloatOps, types: Types, localTypes: map<string, map<string, Kind>>,
      body: seq<Stmt>, program: Program, fuel: nat)
    requires ops.Faithful() && Checked(types, localTypes, body)
    requires LowerModule(types, localTypes, body) == Some(program)
    requires RunProgram(fuel, ops, program).outcome != CppStopped(Trapped)
    ensures var x := RunModule(fuel, Ctx(ops, false, FunctionsOf(body), ModuleScope), body);
      var y := RunProgram(fuel, ops, program);
      || ReachesOwnBuiltin(ops, body, fuel)
      || Uncovered(x.outcome)
      || (SameEnding(x.outcome, y.outcome) && x.state.output == y.state.output)
  {
    CompiledModuleBehavesLikePython(ops, types, localTypes, body, program, fuel);
    ExactInts.BlockIsExact(fuel, ModuleCtx(ops, body), State(map[], map[], {}, []), body);
  }

  // ---------- When no call comes too early ----------

  lemma FunctionAvoidsUnbound(
      types: Types, localTypes: map<string, map<string, Kind>>, maybeUnbound: set<string>, s: Stmt)
    requires s.FunctionDef? && DefinitionChecked(types, localTypes, s)
    requires LowerFunction(types, localTypes[s.id], maybeUnbound, s).Some?
    ensures AvoidsUnbound(FunctionOf(s), maybeUnbound)
  {
    var names := set id | id in ParamIds(s.params);
    var mode := CollectMode(Types(types.globals, localTypes[s.id], types.functions), names, true);
    var table := Collect(mode, s.body, [], false).value;
    CollectedNames(mode, s.body, table);
    assert maybeUnbound - IdsOf(table) - names == maybeUnbound - LocalNames(FunctionOf(s));
  }

  lemma {:induction false} FunctionsAvoidUnbound(
      types: Types, localTypes: map<string, map<string, Kind>>, maybeUnbound: set<string>, body: seq<Stmt>)
    requires forall i :: 0 <= i < |body| && body[i].FunctionDef? ==> DefinitionChecked(types, localTypes, body[i])
    requires LowerFunctions(types, localTypes, maybeUnbound, body).Some?
    ensures AllAvoid(FunctionsOf(body), maybeUnbound)
  {
    if body != [] {
      FunctionsAvoidUnbound(types, localTypes, maybeUnbound, body[1..]);
      if body[0].FunctionDef? {
        FunctionAvoidsUnbound(types, localTypes, maybeUnbound, body[0]);
      }
    }
  }

  lemma {:induction false} DefinitionsAdd(a: seq<Stmt>, b: seq<Stmt>)
    ensures FunctionsOf(a + b).Keys == DefinedBy(a) + FunctionsOf(b).Keys
  {
    if a == [] {
      assert a + b == b;
    } else {
      assert (a + b)[1..] == a[1..] + b;
      DefinitionsAdd(a[1..], b);
    }
  }

  lemma {:induction false} WalkAppends(a: seq<Stmt>, b: seq<Stmt>, locals: set<string>, bound: set<string>)
    ensures var first := CheckBlock(a, locals, bound);
      CheckBlock(a + b, locals, bound)
        == if first.ok && !first.leaves then CheckBlock(b, locals, first.bound) else first
    decreases a
  {
    if a == [] {
      assert a + b == b;
    } else {
      assert (a + b)[1..] == a[1..] + b;
      WalkAppends(a[1..], b, locals, CheckStmt(a[0], locals, bound).bound);
    }
  }

  /** After such an opening no run meets a global or a function that is not bound yet. */
  lemma PrologueBindsInTime(
      ops: FloatOps, types: Types, localTypes: map<string, map<string, Kind>>,
      prologue: seq<Stmt>, rest: seq<Stmt>, program: Program, fuel: nat)
    requires ops.Faithful() && Checked(types, localTypes, prologue + rest)
    requires LowerModule(types, localTypes, prologue + rest) == Some(program)
    requires IsPrologue(prologue) && FunctionsOf(rest) == map[]
    requires CheckBlock(prologue + rest, types.globals.Keys, {}).bound
         <= CheckBlock(prologue, types.globals.Keys, {}).bound
    ensures var x := RunModule(fuel, ModuleCtx(ops, prologue + rest), prologue + rest);
      x.outcome.Failed? ==> !IsMissing(x.outcome.failure)
  {
    hide FunctionsOf, Linked, Flat, DefinesOnTop, ModuleWorld;
    var body, names := prologue + rest, types.globals.Keys;
    var ctx, st := ModuleCtx(ops, body), State(map[], map[], {}, []);
    MissingNamesAreKnown(ops, types, localTypes, body, program, fuel);
    ModuleIsLinked(ops, types, localTypes, body, program);
    var table := Collect(CollectMode(ModuleTypes(types), {}, false), body, [], false).value;
    CollectedNames(CollectMode(ModuleTypes(types), {}, false), body, table);
    var watched := names - CheckBlock(body, names, {}).bound;
    FunctionsAvoidUnbound(types, localTypes, watched, body);
    DefinitionsAdd(prologue, rest);
    WalkAppends(prologue, rest, names, {});
    ExecAppends(fuel, ctx, st, prologue, rest);
    PrologueRuns(fuel, ctx, st, prologue);
    BlockRunsSoundly(fuel, ctx, st, prologue, names, {});
    var x := ExecBlock(fuel, ctx, st, prologue);
    if x.outcome.Normal? {
      BlockFindsGlobals(fuel, ctx, x.state, rest, names, watched, {});
    }
  }

  /** A caller can see in advance that no call comes too early: the module opens with its
      definitions and with statements that call none of them, however nested, and those
      bind every global that its walk holds bound at the end. Then nothing is left
      uncovered but Outside, and a call that the emitter takes for another. */
  lemma PrologueCoversEveryCall(
      ops: FloatOps, types: Types, localTypes: map<string, map<string, Kind>>,
      prologue: seq<Stmt>, rest: seq<Stmt>, program: Program, fuel: nat)
    requires ops.Faithful() && Checked(types, localTypes, prologue + rest)
    requires LowerModule(types, localTypes, prologue + rest) == Some(program)
    requires IsPrologue(prologue) && FunctionsOf(rest) == map[]
    requires CheckBlock(prologue + rest, types.globals.Keys, {}).bound
         <= CheckBlock(prologue, types.globals.Keys, {}).bound
    ensures var x := RunModule(fuel, ModuleCtx(ops, prologue + rest), prologue + rest);
      var y := RunProgram(fuel, ops, program);
      || x.outcome == Failed(Outside)
      || ReachesOwnBuiltin(ops, prologue + rest, fuel)
      || (SameEnding(x.outcome, y.outcome) && x.state.output == y.state.output)
  {
    hide FunctionsOf, IsPrologue;
    CompiledModuleBehavesLikePython(ops, types, localTypes, prologue + rest, program, fuel);
    PrologueBindsInTime(ops, types, localTypes, prologue, rest, program, fuel);
  }

  /** An unbound global is always one the checker knows. */
  lemma MissingNamesAreKnown(
      ops: FloatOps, types: Types, localTypes: map<string, map<string, Kind>>,
      body: seq<Stmt>, program: Program, fuel: nat)
    requires ops.Faithful() && Checked(types, localTypes, body)
    requires LowerModule(types, localTypes, body) == Some(program)
    ensures var x := RunModule(fuel, ModuleCtx(ops, body), body);
      x.outcome.Failed? && x.outcome.failure.UnboundGlobal? ==> x.outcome.failure.name in types.globals
  {
    ExecutableDoesWhatIsEmitted(ops, types, localTypes, body, program, fuel);
    EmittedIsPython(ops, types, localTypes, body, program, fuel);
  }
}
