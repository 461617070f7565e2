/** Reading a whole emitted file: its declarations, prototypes, definitions and main() give
    back the program it was written from. */
module ModuleReadBack {
  import opened Options
  import opened Sequences
  import opened Values
  import opened Syntax
  import opened CppMachine
  import opened Lowering
  import opened CppText
  import opened Compiler
  import opened EmissionText
  import opened ReadBack

  type Slots = seq<(string, Kind)>

  datatype Prototype = Prototype(result: Kind, id: string, params: Slots)

  datatype Definition = Definition(prototype: Prototype, slots: Slots, body: seq<CppStmt>)

  datatype File = File(globals: Slots, prototypes: seq<Prototype>, definitions: seq<Definition>, main: seq<CppStmt>)

  // ---------- What a file means ----------

  function SlotMap(slots: Slots): map<string, Kind> {
    if slots == [] then map[] else SlotMap(slots[..|slots| - 1])[slots[|slots| - 1].0 := slots[|slots| - 1].1]
  }

  function FunctionOfDefinition(d: Definition): CppFunction {
    CppFunction(d.prototype.params, d.prototype.result, SlotMap(d.slots), d.body)
  }

  function FunctionMap(ds: seq<Definition>): map<string, CppFunction> {
    if ds == [] then map[] else FunctionMap(ds[1..])[ds[0].prototype.id := FunctionOfDefinition(ds[0])]
  }

  function ProgramOf(file: File): Program {
    Program(SlotMap(file.globals), FunctionMap(file.definitions), file.main)
  }

  // ---------- Writing a file ----------

  function PrintSlot(slot: (string, Kind)): Text {
    [Class(slot.1), Ident(Mangle(slot.0)), Semi]
  }

  function PrintSlots(slots: Slots): Text {
    if slots == [] then [] else PrintSlot(slots[0]) + PrintSlots(slots[1..])
  }

  function PrintParams(params: Slots): Text {
    if params == [] then []
    else [Class(params[0].1), Ident(Mangle(params[0].0))]
         + (if |params| == 1 then [] else [Comma] + PrintParams(params[1..]))
  }

  function PrintPrototype(s: Prototype): Text {
    [Class(s.result), Ident(Mangle(s.id)), Open] + (PrintParams(s.params) + [Close])
  }

  function PrintPrototypes(ss: seq<Prototype>): Text {
    if ss == [] then [] else PrintPrototype(ss[0]) + ([Semi] + PrintPrototypes(ss[1..]))
  }

  function PrintDefinition(d: Definition): Text {
    PrintPrototype(d.prototype) + ([LBrace] + (PrintSlots(d.slots) + (PrintBlock(d.body) + [RBrace])))
  }

  function PrintDefinitions(ds: seq<Definition>): Text {
    if ds == [] then [] else PrintDefinition(ds[0]) + PrintDefinitions(ds[1..])
  }

  function PrintMain(body: seq<CppStmt>): Text {
    MAIN_OPENS + (PrintBlock(body) + MAIN_CLOSES)
  }

  function PrintFile(file: File): Text {
    [Include] + (PrintSlots(file.globals)
                 + (PrintPrototypes(file.prototypes) + (PrintDefinitions(file.definitions) + PrintMain(file.main))))
  }

  // ---------- Reading a file ----------

  predicate StartsSlot(ts: Text) {
    |ts| >= 3 && ts[0].Class? && ts[1].Ident? && ts[2] == Semi
  }

  /** As many declarations as there are. */
  function ReadSlots(ts: Text): (r: (Slots, Text))
    ensures |r.1| <= |ts|
    decreases |ts|
  {
    if StartsSlot(ts) then
      var more := ReadSlots(ts[3..]);
      ([(Unmangle(ts[1].mangled), ts[0].kind)] + more.0, more.1)
    else ([], ts)
  }

  function ReadParams(ts: Text): (r: Read<Slots>)
    ensures r.Read? ==> |r.rest| < |ts|
    decreases |ts|
  {
    if ts == [] then Unreadable
    else if ts[0] == Close then Read([], ts[1..])
    else if |ts| < 3 || !ts[0].Class? || !ts[1].Ident? then Unreadable
    else
      var param := (Unmangle(ts[1].mangled), ts[0].kind);
      if ts[2] == Close then Read([param], ts[3..])
      else if ts[2] != Comma then Unreadable
      else
        var more := ReadParams(ts[3..]);
        if more.Unreadable? then Unreadable else Read([param] + more.value, more.rest)
  }

  function ReadPrototype(ts: Text): (r: Read<Prototype>)
    ensures r.Read? ==> |r.rest| < |ts|
  {
    if |ts| < 3 || !ts[0].Class? || !ts[1].Ident? || ts[2] != Open then Unreadable
    else
      var params := ReadParams(ts[3..]);
      if params.Unreadable? then Unreadable
      else Read(Prototype(ts[0].kind, Unmangle(ts[1].mangled), params.value), params.rest)
  }

  /** As many prototypes as there are. */
  function ReadPrototypes(ts: Text): (r: (seq<Prototype>, Text))
    ensures |r.1| <= |ts|
    decreases |ts|
  {
    var s := Closed(ReadPrototype(ts), [Semi]);
    if s.Unreadable? then ([], ts)
    else
      var more := ReadPrototypes(s.rest);
      ([s.value] + more.0, more.1)
  }

  function ReadDefinition(ts: Text): (r: Read<Definition>)
    ensures r.Read? ==> |r.rest| < |ts|
  {
    var s := Closed(ReadPrototype(ts), [LBrace]);
    if s.Unreadable? then Unreadable
    else
      var slots := ReadSlots(s.rest);
      var body := ReadBlock(slots.1);
      if body.Unreadable? then Unreadable else Read(Definition(s.value, slots.0, body.value), body.rest)
  }

  function ReadDefinitions(ts: Text): (r: Read<seq<Definition>>)
    ensures r.Read? ==> |r.rest| <= |ts|
    decreases |ts|
  {
    if ts == [] || !ts[0].Class? then Read([], ts)
    else
      var d := ReadDefinition(ts);
      if d.Unreadable? then Unreadable
      else
        var more := ReadDefinitions(d.rest);
        if more.Unreadable? then Unreadable else Read([d.value] + more.value, more.rest)
  }

  /** The statements of main(), up to the return that ends it. */
  function ReadMain(ts: Text): (r: Option<seq<CppStmt>>)
    decreases |ts|
  {
    if ts == MAIN_CLOSES then Some([])
    else
      var s := ReadStmt(ts);
      if s.Unreadable? then None
      else
        var more := ReadMain(s.rest);
        if more.None? then None else Some([s.value] + more.value)
  }

  function ReadFile(ts: Text): Option<File> {
    var body := After(ts, [Include]);
    if body.None? then None
    else
      var globals := ReadSlots(body.value);
      var prototypes := ReadPrototypes(globals.1);
      var definitions := ReadDefinitions(prototypes.1);
      if definitions.Unreadable? then None
      else
        var inside := After(definitions.rest, MAIN_OPENS);
        if inside.None? then None
        else
          var main := ReadMain(inside.value);
          if main.None? then None else Some(File(globals.0, prototypes.0, definitions.value, main.value))
  }

  // ---------- A written file reads back ----------

  lemma {:induction false} SlotsRead(slots: Slots, rest: Text)
    requires !StartsSlot(rest)
    ensures ReadSlots(PrintSlots(slots) + rest) == (slots, rest)
  {
    if slots == [] {
      assert PrintSlots(slots) + rest == rest;
    } else {
      var ts, more := PrintSlots(slots) + rest, PrintSlots(slots[1..]) + rest;
      assert ts == PrintSlot(slots[0]) + more;
      assert ts[3..] == more;
      SlotsRead(slots[1..], rest);
      assert [slots[0]] + slots[1..] == slots;
    }
  }

  lemma {:induction false} ParamsRead(params: Slots, rest: Text)
    ensures ReadParams(PrintParams(params) + ([Close] + rest)) == Read(params, rest)
  {
    var ts := PrintParams(params) + ([Close] + rest);
    if params == [] {
      assert ts == [Close] + rest;
    } else if |params| == 1 {
      assert ts == [Class(params[0].1), Ident(Mangle(params[0].0)), Close] + rest;
      assert ts[3..] == rest;
      assert [params[0]] == params;
    } else {
      var more := PrintParams(params[1..]) + ([Close] + rest);
      assert ts == [Class(params[0].1), Ident(Mangle(params[0].0)), Comma] + more;
      assert ts[3..] == more && more != [] && ts[2] == Comma;
      ParamsRead(params[1..], rest);
      assert [params[0]] + params[1..] == params;
    }
  }

  lemma PrototypeReads(s: Prototype, rest: Text)
    ensures ReadPrototype(PrintPrototype(s) + rest) == Read(s, rest)
    ensures (PrintPrototype(s) + rest)[0].Class? && !StartsSlot(PrintPrototype(s) + rest)
  {
    var ts, inside := PrintPrototype(s) + rest, PrintParams(s.params) + ([Close] + rest);
    assert ts == [Class(s.result), Ident(Mangle(s.id)), Open] + inside;
    assert ts[3..] == inside;
    ParamsRead(s.params, rest);
  }

  /** What follows the prototypes is none. */
  predicate NoPrototype(ts: Text) {
    Closed(ReadPrototype(ts), [Semi]).Unreadable?
  }

  lemma {:induction false} PrototypesRead(ss: seq<Prototype>, rest: Text)
    requires NoPrototype(rest)
    ensures ReadPrototypes(PrintPrototypes(ss) + rest) == (ss, rest)
  {
    if ss == [] {
      assert PrintPrototypes(ss) + rest == rest;
    } else {
      var more := PrintPrototypes(ss[1..]) + rest;
      assert PrintPrototypes(ss) + rest == PrintPrototype(ss[0]) + ([Semi] + more);
      PrototypeReads(ss[0], [Semi] + more);
      AfterPrefix([Semi], more);
      PrototypesRead(ss[1..], rest);
      assert [ss[0]] + ss[1..] == ss;
    }
  }

  /** No statement looks like a declaration. */
  lemma BlockIsNoSlot(body: seq<CppStmt>, rest: Text)
    ensures !StartsSlot(PrintBlock(body) + ([RBrace] + rest))
  {
    var ts := PrintBlock(body) + ([RBrace] + rest);
    if body == [] {
      assert ts == [RBrace] + rest;
    } else {
      StmtIsNoSlot(body[0], PrintBlock(body[1..]) + ([RBrace] + rest));
      assert ts == PrintStmt(body[0]) + (PrintBlock(body[1..]) + ([RBrace] + rest));
    }
  }

  lemma StmtIsNoSlot(s: CppStmt, rest: Text)
    ensures !StartsSlot(PrintStmt(s) + rest)
  {
    hide PrintBlock, PrintArgs;
    StartOfStmt(s);
    assert (PrintStmt(s) + rest)[0] == PrintStmt(s)[0];
    if s.CppExprStmt? {
      if PrintExpr(s.e)[0].Class? {
        assert (PrintStmt(s) + rest)[1] == PrintExpr(s.e)[1] == Open;
      }
    }
  }

  lemma DefinitionReads(d: Definition, rest: Text)
    ensures ReadDefinition(PrintDefinition(d) + rest) == Read(d, rest)
    ensures (PrintDefinition(d) + rest)[0].Class? && !StartsSlot(PrintDefinition(d) + rest)
    ensures NoPrototype(PrintDefinition(d) + rest)
  {
    hide ReadPrototype, PrintPrototype, ReadBlock, PrintBlock, PrintSlots;
    var body := PrintBlock(d.body) + ([RBrace] + rest);
    var inside := PrintSlots(d.slots) + body;
    DefinitionTokens(d, rest);
    PrototypeReads(d.prototype, [LBrace] + inside);
    AfterPrefix([LBrace], inside);
    assert ([LBrace] + inside)[0] != [Semi][0];
    BlockIsNoSlot(d.body, rest);
    SlotsRead(d.slots, body);
    BlockReads(d.body, rest);
  }

  lemma DefinitionTokens(d: Definition, rest: Text)
    ensures PrintDefinition(d) + rest
         == PrintPrototype(d.prototype) + ([LBrace] + (PrintSlots(d.slots) + (PrintBlock(d.body) + ([RBrace] + rest))))
  {
    var a, b, c, x := PrintPrototype(d.prototype), PrintSlots(d.slots), PrintBlock(d.body), [LBrace];
    Joins(c, [RBrace], rest);
    Joins(b, c + [RBrace], rest);
    Joins(x, b + (c + [RBrace]), rest);
    Joins(a, x + (b + (c + [RBrace])), rest);
  }

  lemma {:induction false} DefinitionsRead(ds: seq<Definition>, rest: Text)
    requires rest != [] && !rest[0].Class?
    ensures ReadDefinitions(PrintDefinitions(ds) + rest) == Read(ds, rest)
    ensures NoPrototype(PrintDefinitions(ds) + rest) && !StartsSlot(PrintDefinitions(ds) + rest)
  {
    hide PrintDefinition, ReadDefinition;
    if ds == [] {
      assert PrintDefinitions(ds) + rest == rest;
    } else {
      var more := PrintDefinitions(ds[1..]) + rest;
      Joins(PrintDefinition(ds[0]), PrintDefinitions(ds[1..]), rest);
      DefinitionReads(ds[0], more);
      DefinitionsRead(ds[1..], rest);
      assert [ds[0]] + ds[1..] == ds;
    }
  }

  lemma {:induction false} MainReads(body: seq<CppStmt>)
    ensures ReadMain(PrintBlock(body) + MAIN_CLOSES) == Some(body)
    ensures NoElse(PrintBlock(body) + MAIN_CLOSES)
  {
    if body == [] {
      assert PrintBlock(body) + MAIN_CLOSES == MAIN_CLOSES;
    } else {
      var more := PrintBlock(body[1..]) + MAIN_CLOSES;
      var ts := PrintBlock(body) + MAIN_CLOSES;
      Joins(PrintStmt(body[0]), PrintBlock(body[1..]), MAIN_CLOSES);
      StartOfStmt(body[0]);
      assert ts[0] == PrintStmt(body[0])[0] && |ts| > |MAIN_CLOSES|;
      MainReads(body[1..]);
      StmtReads(body[0], more);
      assert [body[0]] + body[1..] == body;
    }
  }

  /** A file reads back whole. */
  lemma FileReads(file: File)
    ensures ReadFile(PrintFile(file)) == Some(file)
  {
    var main := PrintMain(file.main);
    var definitions := PrintDefinitions(file.definitions) + main;
    var prototypes := PrintPrototypes(file.prototypes) + definitions;
    AfterPrefix([Include], PrintSlots(file.globals) + prototypes);
    MainOpens(file.main);
    DefinitionsRead(file.definitions, main);
    PrototypesRead(file.prototypes, definitions);
    PrototypesAreNoSlots(file.prototypes, definitions);
    SlotsRead(file.globals, prototypes);
    AfterPrefix(MAIN_OPENS, PrintBlock(file.main) + MAIN_CLOSES);
    MainReads(file.main);
  }

  lemma MainOpens(body: seq<CppStmt>)
    ensures PrintMain(body) != [] && PrintMain(body)[0] == IntWord
  {
  }

  lemma PrototypesAreNoSlots(ss: seq<Prototype>, rest: Text)
    requires !StartsSlot(rest)
    ensures !StartsSlot(PrintPrototypes(ss) + rest)
  {
    if ss == [] {
      assert PrintPrototypes(ss) + rest == rest;
    } else {
      Joins(PrintPrototype(ss[0]), [Semi] + PrintPrototypes(ss[1..]), rest);
      PrototypeReads(ss[0], [Semi] + PrintPrototypes(ss[1..]) + rest);
    }
  }

  // ---------- The emitter's file ----------

  function SlotsIn(table: seq<ScopeVariable>): Slots {
    if table == [] then [] else SlotsIn(table[..|table| - 1]) + [(table[|table| - 1].id, table[|table| - 1].kind)]
  }

  function PrototypeIn(s: Stmt): Prototype
    requires s.FunctionDef? && SignatureSupported(s)
  {
    Prototype(s.resultType.kind.value, s.id, TypedParams(s.params))
  }

  function PrototypesIn(body: seq<Stmt>): seq<Prototype>
    requires PrototypesText(body).Some?
  {
    if body == [] then []
    else
      var s := body[|body| - 1];
      PrototypesIn(body[..|body| - 1]) + if s.FunctionDef? then [PrototypeIn(s)] else []
  }

  function DefinitionIn(types: Types, locals: map<string, Kind>, maybeUnbound: set<string>, s: Stmt): Definition
    requires s.FunctionDef? && LowerFunction(types, locals, maybeUnbound, s).Some?
  {
    Definition(PrototypeIn(s), SlotsIn(FunctionTable(types, locals, s).value),
               LowerFunction(types, locals, maybeUnbound, s).value.body)
  }

  function DefinitionsIn(
      types: Types, localTypes: map<string, map<string, Kind>>,
      maybeUnbound: set<string>, body: seq<Stmt>): seq<Definition>
    requires LowerFunctions(types, localTypes, maybeUnbound, body).Some?
  {
    if body == [] then []
    else
      var rest := DefinitionsIn(types, localTypes, maybeUnbound, body[1..]);
      if !body[0].FunctionDef? then rest
      else [DefinitionIn(types, localTypes[body[0].id], maybeUnbound, body[0])] + rest
  }

  lemma {:induction false} PrintSlotsSnoc(slots: Slots, slot: (string, Kind))
    ensures PrintSlots(slots + [slot]) == PrintSlots(slots) + PrintSlot(slot)
    decreases slots
  {
    if slots == [] {
      assert slots + [slot] == [slot] && [slot][1..] == [];
    } else {
      assert (slots + [slot])[1..] == slots[1..] + [slot];
      PrintSlotsSnoc(slots[1..], slot);
    }
  }

  lemma {:induction false} DeclarationsAreSlots(table: seq<ScopeVariable>)
    ensures DeclarationsText(table) == PrintSlots(SlotsIn(table)) && SlotMap(SlotsIn(table)) == SlotsOf(table)
  {
    if table != [] {
      var n := |table| - 1;
      DeclarationsAreSlots(table[..n]);
      PrintSlotsSnoc(SlotsIn(table[..n]), (table[n].id, table[n].kind));
      assert SlotsIn(table)[..|SlotsIn(table)| - 1] == SlotsIn(table[..n]);
    }
  }

  lemma {:induction false} PrintParamsSnoc(params: Slots, p: (string, Kind))
    ensures PrintParams(params + [p])
         == PrintParams(params) + (if params == [] then [] else [Comma]) + [Class(p.1), Ident(Mangle(p.0))]
    decreases params
  {
    if params == [] {
      assert params + [p] == [p];
    } else {
      assert (params + [p])[1..] == params[1..] + [p];
      PrintParamsSnoc(params[1..], p);
      if |params| == 1 {
        assert params[1..] == [];
      }
    }
  }

  lemma {:induction false} TypedParamsSnoc(params: seq<Param>)
    requires params != []
    ensures var n := |params| - 1;
      TypedParams(params) == TypedParams(params[..n]) + [(params[n].id, ParamKind(params[n]))]
  {
  }

  lemma {:induction false} ParamsArePrinted(params: seq<Param>)
    ensures ParamsText(params) == PrintParams(TypedParams(params))
  {
    if params != [] {
      var n := |params| - 1;
      ParamsArePrinted(params[..n]);
      TypedParamsSnoc(params);
      PrintParamsSnoc(TypedParams(params[..n]), (params[n].id, ParamKind(params[n])));
    }
  }

  lemma PrototypeIsPrinted(s: Stmt)
    requires s.FunctionDef? && SignatureSupported(s)
    ensures SignatureText(s) == PrintPrototype(PrototypeIn(s))
  {
    ParamsArePrinted(s.params);
  }

  lemma {:induction false} PrintPrototypesSnoc(ss: seq<Prototype>, s: Prototype)
    ensures PrintPrototypes(ss + [s]) == PrintPrototypes(ss) + (PrintPrototype(s) + [Semi])
    decreases ss
  {
    if ss == [] {
      assert ss + [s] == [s] && [s][1..] == [];
    } else {
      assert (ss + [s])[1..] == ss[1..] + [s];
      PrintPrototypesSnoc(ss[1..], s);
      var a, b, c := PrintPrototype(ss[0]), PrintPrototypes(ss[1..]), PrintPrototype(s) + [Semi];
      Joins([Semi], b, c);
      Joins(a, [Semi] + b, c);
    }
  }

  lemma {:induction false} PrototypesArePrinted(body: seq<Stmt>)
    requires PrototypesText(body).Some?
    ensures PrototypesText(body).value == PrintPrototypes(PrototypesIn(body))
  {
    if body != [] {
      var s, front := body[|body| - 1], body[..|body| - 1];
      PrototypesArePrinted(front);
      if s.FunctionDef? {
        PrototypeIsPrinted(s);
        PrintPrototypesSnoc(PrototypesIn(front), PrototypeIn(s));
        Joins(PrototypesText(front).value, SignatureText(s), [Semi]);
      } else {
        assert PrototypesIn(front) + [] == PrototypesIn(front);
      }
    }
  }

  lemma FunctionIsPrinted(types: Types, locals: map<string, Kind>, maybeUnbound: set<string>, s: Stmt)
    requires s.FunctionDef? && LowerFunction(types, locals, maybeUnbound, s).Some?
    ensures var d := DefinitionIn(types, locals, maybeUnbound, s);
      FunctionText(types, locals, maybeUnbound, s) == Some(PrintDefinition(d))
      && FunctionOfDefinition(d) == LowerFunction(types, locals, maybeUnbound, s).value
  {
    var d, table := DefinitionIn(types, locals, maybeUnbound, s), FunctionTable(types, locals, s).value;
    PrototypeIsPrinted(s);
    DeclarationsAreSlots(table);
    FivePieces(SignatureText(s), [LBrace], DeclarationsText(table), PrintBlock(d.body), [RBrace]);
  }

  lemma {:induction false} PrintDefinitionsAppends(a: seq<Definition>, b: seq<Definition>)
    ensures PrintDefinitions(a + b) == PrintDefinitions(a) + PrintDefinitions(b)
    decreases a
  {
    if a == [] {
      assert a + b == b;
    } else {
      assert (a + b)[1..] == a[1..] + b;
      PrintDefinitionsAppends(a[1..], b);
      Joins(PrintDefinition(a[0]), PrintDefinitions(a[1..]), PrintDefinitions(b));
    }
  }

  /** The text of one more definition, or of none. */
  function OneDefinition(
      types: Types, localTypes: map<string, map<string, Kind>>, maybeUnbound: set<string>, s: Stmt): seq<Definition>
    requires s.FunctionDef? ==> s.id in localTypes && LowerFunction(types, localTypes[s.id], maybeUnbound, s).Some?
  {
    if s.FunctionDef? then [DefinitionIn(types, localTypes[s.id], maybeUnbound, s)] else []
  }

  lemma {:induction false} DefinitionsInSnoc(
      types: Types, localTypes: map<string, map<string, Kind>>, maybeUnbound: set<string>, body: seq<Stmt>)
    requires DefinitionsHaveTypes(localTypes, body) && body != []
    requires LowerFunctions(types, localTypes, maybeUnbound, body).Some?
    ensures var s, front := body[|body| - 1], body[..|body| - 1];
      && LowerFunctions(types, localTypes, maybeUnbound, front).Some?
      && (s.FunctionDef? ==> LowerFunction(types, localTypes[s.id], maybeUnbound, s).Some?)
      && DefinitionsIn(types, localTypes, maybeUnbound, body)
         == DefinitionsIn(types, localTypes, maybeUnbound, front) + OneDefinition(types, localTypes, maybeUnbound, s)
  {
    LowerFunctionsSnoc(types, localTypes, maybeUnbound, body);
    var front := body[..|body| - 1];
    if |body| == 1 {
      assert body[1..] == [] && front == [];
    } else {
      assert body[1..][..|body| - 2] == front[1..];
      DefinitionsInSnoc(types, localTypes, maybeUnbound, body[1..]);
    }
  }

  lemma {:induction false} DefinitionsArePrinted(
      types: Types, localTypes: map<string, map<string, Kind>>, maybeUnbound: set<string>, body: seq<Stmt>)
    requires DefinitionsHaveTypes(localTypes, body)
    requires LowerFunctions(types, localTypes, maybeUnbound, body).Some?
    ensures DefinitionsText(types, localTypes, maybeUnbound, body)
         == Some(PrintDefinitions(DefinitionsIn(types, localTypes, maybeUnbound, body)))
  {
    if body != [] {
      var s, front := body[|body| - 1], body[..|body| - 1];
      DefinitionsInSnoc(types, localTypes, maybeUnbound, body);
      DefinitionsArePrinted(types, localTypes, maybeUnbound, front);
      var done := DefinitionsIn(types, localTypes, maybeUnbound, front);
      if s.FunctionDef? {
        var d := DefinitionIn(types, localTypes[s.id], maybeUnbound, s);
        FunctionIsPrinted(types, localTypes[s.id], maybeUnbound, s);
        PrintDefinitionsAppends(done, [d]);
        assert PrintDefinitions([d]) == PrintDefinition(d);
      } else {
        assert done + [] == done;
      }
    }
  }

  lemma {:induction false} FunctionsAreMapped(
      types: Types, localTypes: map<string, map<string, Kind>>, maybeUnbound: set<string>, body: seq<Stmt>)
    requires LowerFunctions(types, localTypes, maybeUnbound, body).Some?
    ensures FunctionMap(DefinitionsIn(types, localTypes, maybeUnbound, body))
         == LowerFunctions(types, localTypes, maybeUnbound, body).value
  {
    if body != [] {
      FunctionsAreMapped(types, localTypes, maybeUnbound, body[1..]);
      if body[0].FunctionDef? {
        var rest := DefinitionsIn(types, localTypes, maybeUnbound, body[1..]);
        var d := DefinitionIn(types, localTypes[body[0].id], maybeUnbound, body[0]);
        FunctionIsPrinted(types, localTypes[body[0].id], maybeUnbound, body[0]);
        assert ([d] + rest)[1..] == rest;
      }
    }
  }

  /** The file written for an accepted module, piece by piece. */
  lemma ModuleIsPrinted(types: Types, localTypes: map<string, map<string, Kind>>, body: seq<Stmt>) returns (file: File)
    requires DefinitionsHaveTypes(localTypes, body) && LowerModule(types, localTypes, body).Some?
    ensures ModuleText(types, localTypes, body) == Some(PrintFile(file))
    ensures LowerModule(types, localTypes, body) == Some(ProgramOf(file))
  {
    var table, program := ModuleTable(types, body).value, LowerModule(types, localTypes, body).value;
    var unbound := MaybeUnbound(table, body);
    DefinitionsTextExists(types, localTypes, unbound, body);
    DeclarationsAreSlots(table);
    PrototypesArePrinted(body);
    DefinitionsArePrinted(types, localTypes, unbound, body);
    FunctionsAreMapped(types, localTypes, unbound, body);
    file := File(SlotsIn(table), PrototypesIn(body), DefinitionsIn(types, localTypes, unbound, body), program.main);
    FilePieces(DeclarationsText(table), PrototypesText(body).value,
               DefinitionsText(types, localTypes, unbound, body).value, PrintBlock(program.main));
  }

  lemma FilePieces(a: Text, b: Text, c: Text, d: Text)
    ensures [Include] + a + b + c + MAIN_OPENS + d + MAIN_CLOSES
         == [Include] + (a + (b + (c + (MAIN_OPENS + (d + MAIN_CLOSES)))))
  {
    Joins([Include] + a + b + c + MAIN_OPENS, d, MAIN_CLOSES);
    Joins([Include] + a + b + c, MAIN_OPENS, d + MAIN_CLOSES);
    FivePieces([Include], a, b, c, MAIN_OPENS + (d + MAIN_CLOSES));
  }

  /** The text of an emitted file is read back as the program the module was lowered to. */
  lemma ModuleReadsBack(types: Types, localTypes: map<string, map<string, Kind>>, body: seq<Stmt>)
    requires DefinitionsHaveTypes(localTypes, body) && LowerModule(types, localTypes, body).Some?
    ensures ModuleText(types, localTypes, body).Some?
    ensures var file := ReadFile(ModuleText(types, localTypes, body).value);
      file.Some? && Some(ProgramOf(file.value)) == LowerModule(types, localTypes, body)
  {
    var file := ModuleIsPrinted(types, localTypes, body);
    FileReads(file);
  }

  /** So two modules with the same emitted text are the same program. */
  lemma TextDeterminesTheProgram(
      types: Types, localTypes: map<string, map<string, Kind>>, body: seq<Stmt>,
      types': Types, localTypes': map<string, map<string, Kind>>, body': seq<Stmt>)
    requires DefinitionsHaveTypes(localTypes, body) && DefinitionsHaveTypes(localTypes', body')
    requires ModuleText(types, localTypes, body).Some?
    requires ModuleText(types, localTypes, body) == ModuleText(types', localTypes', body')
    ensures LowerModule(types, localTypes, body) == LowerModule(types', localTypes', body')
  {
    ModuleReadsBack(types, localTypes, body);
    ModuleReadsBack(types', localTypes', body');
  }
}
