/** src/domain/semantic/type_checker.cpp, always_returns and its helpers: the return-path
    check, and what the emitter takes from it. No run of a body that the check accepts
    falls off its end, through any nest of decided guards, endless loops, loop else clauses
    and conditions narrowed by an enclosing loop. */
module ReturnPaths {
  import opened Options
  import opened Values
  import opened Syntax
  import opened Literals
  import opened PythonMachine
  import opened Lowering

  // ---------- Where break, continue and return may stand ----------

  /** What Python's own compiler demands (sections 7.6, 7.9 and 7.10 of the Python Language
      Reference). */
  predicate WellPlaced(body: seq<Stmt>, inLoop: bool, inFunction: bool)
    decreases body, 0
  {
    body == [] || (StmtWellPlaced(body[0], inLoop, inFunction) && WellPlaced(body[1..], inLoop, inFunction))
  }

  predicate StmtWellPlaced(s: Stmt, inLoop: bool, inFunction: bool)
    decreases s, 0
  {
    match s
    case Break => inLoop
    case Continue => inLoop
    case Return(_) => inFunction
    case If(_, body, orelse) => WellPlaced(body, inLoop, inFunction) && WellPlaced(orelse, inLoop, inFunction)
    case While(_, body, orelse) => WellPlaced(body, true, inFunction) && WellPlaced(orelse, inLoop, inFunction)
    case _ => true
  }

  predicate Placed(outcome: Outcome, inLoop: bool, inFunction: bool) {
    match outcome
    case Broke => inLoop
    case Continued => inLoop
    case Returned(_) => inFunction
    case _ => true
  }

  lemma {:induction false} WellPlacedRuns(
      fuel: nat, ctx: Ctx, st: State, body: seq<Stmt>, inLoop: bool, inFunction: bool)
    requires WellPlaced(body, inLoop, inFunction)
    ensures Placed(ExecBlock(fuel, ctx, st, body).outcome, inLoop, inFunction)
    decreases fuel, body, 0
  {
    if body != [] {
      WellPlacedStmtRuns(fuel, ctx, st, body[0], inLoop, inFunction);
      WellPlacedRuns(fuel, ctx, Exec(fuel, ctx, st, body[0]).state, body[1..], inLoop, inFunction);
    }
  }

  lemma {:induction false} WellPlacedStmtRuns(fuel: nat, ctx: Ctx, st: State, s: Stmt, inLoop: bool, inFunction: bool)
    requires StmtWellPlaced(s, inLoop, inFunction)
    ensures Placed(Exec(fuel, ctx, st, s).outcome, inLoop, inFunction)
    decreases fuel, s, 1
  {
    if s.If? {
      var st' := st.(output := Eval(fuel, ctx, st, s.cond).output);
      WellPlacedRuns(fuel, ctx, st', s.body, inLoop, inFunction);
      WellPlacedRuns(fuel, ctx, st', s.orelse, inLoop, inFunction);
    } else if s.While? {
      WellPlacedLoopRuns(fuel, ctx, st, s, inLoop, inFunction);
      WellPlacedRuns(fuel, ctx, ExecLoop(fuel, ctx, st, s).state, s.orelse, inLoop, inFunction);
    }
  }

  lemma {:induction false} WellPlacedLoopRuns(fuel: nat, ctx: Ctx, st: State, s: Stmt, inLoop: bool, inFunction: bool)
    requires s.While? && StmtWellPlaced(s, inLoop, inFunction)
    ensures var o := ExecLoop(fuel, ctx, st, s).outcome;
      !o.Continued? && (o.Returned? ==> inFunction)
    decreases fuel, s, 0
  {
    var st' := st.(output := Eval(fuel, ctx, st, s.cond).output);
    WellPlacedRuns(fuel, ctx, st', s.body, true, inFunction);
    var x := ExecBlock(fuel, ctx, st', s.body);
    if fuel > 0 && (x.outcome.Normal? || x.outcome.Continued?) {
      WellPlacedLoopRuns(fuel - 1, ctx, x.state, s, inLoop, inFunction);
    }
  }

  // ---------- The check ----------

  /** narrowing_guard_verdict: the name that an enclosing loop's condition holds true. */
  function NarrowedVerdict(e: Expr, narrowed: Option<string>): GuardVerdict {
    if narrowed.None? then Unknown
    else if e == Name(narrowed.value) then AlwaysTrue
    else if e == Unary(Not, Name(narrowed.value)) then AlwaysFalse
    else Unknown
  }

  /** guard_verdict. */
  function Verdict(e: Expr, narrowed: Option<string>): GuardVerdict {
    if GuardOf(e) != Unknown then GuardOf(e) else NarrowedVerdict(e, narrowed)
  }

  /** contains_reachable_break: a break of the loop that `body` belongs to, with no
      statement before it that always leaves. */
  predicate CanBreak(body: seq<Stmt>, narrowed: Option<string>)
    decreases body, 0
  {
    body != []
    && (StmtCanBreak(body[0], narrowed) || (!StmtLeaves(body[0], narrowed) && CanBreak(body[1..], narrowed)))
  }

  /** A nested loop keeps its own breaks, but not those of its else clause. */
  predicate StmtCanBreak(s: Stmt, narrowed: Option<string>)
    decreases s, 0
  {
    match s
    case Break => true
    case If(cond, body, orelse) =>
      || (Verdict(cond, narrowed) != AlwaysFalse && CanBreak(body, narrowed))
      || (Verdict(cond, narrowed) != AlwaysTrue && CanBreak(orelse, narrowed))
    case While(_, _, orelse) => CanBreak(orelse, None)
    case _ => false
  }

  /** always_leaves_branch, inside a function and a loop. */
  predicate Leaves(body: seq<Stmt>, narrowed: Option<string>)
    decreases body, 0
  {
    body != [] && (StmtLeaves(body[0], narrowed) || Leaves(body[1..], narrowed))
  }

  /** statement_always_leaves. */
  predicate StmtLeaves(s: Stmt, narrowed: Option<string>)
    decreases s, 0
  {
    match s
    case Return(_) => true
    case Break => true
    case Continue => true
    case If(cond, body, orelse) =>
      (match Verdict(cond, narrowed)
       case AlwaysTrue => Leaves(body, narrowed)
       case AlwaysFalse => Leaves(orelse, narrowed)
       case Unknown => orelse != [] && Leaves(body, None) && Leaves(orelse, None))
    case While(cond, body, orelse) =>
      || (GuardOf(cond) == AlwaysTrue && !CanBreak(body, None))
      || ((GuardOf(cond) == AlwaysFalse || !CanBreak(body, None)) && Leaves(orelse, narrowed))
    case _ => false
  }

  /** for_each_own_scope_binding: assignments and annotations, and nested definitions. */
  function Rebinds(body: seq<Stmt>): set<string>
    decreases body, 0
  {
    if body == [] then {} else StmtRebinds(body[0]) + Rebinds(body[1..])
  }

  function StmtRebinds(s: Stmt): set<string>
    decreases s, 0
  {
    match s
    case If(_, body, orelse) => Rebinds(body) + Rebinds(orelse)
    case While(_, body, orelse) => Rebinds(body) + Rebinds(orelse)
    case FunctionDef(id, _, _, _) => {id}
    case _ => AssignedName(s)
  }

  /** loop_narrows_truthy: a loop over a bool variable that its body never rebinds. */
  function NarrowsTruthy(types: Types, s: Stmt): Option<string>
    requires s.While?
  {
    if s.cond.Name? && TypeOfName(types, s.cond.id) == Some(BoolKind) && s.cond.id !in Rebinds(s.body)
    then Some(s.cond.id) else None
  }

  predicate AlwaysReturns(types: Types, body: seq<Stmt>)
    decreases body, 0
  {
    body != [] && (StmtReturns(types, body[0]) || AlwaysReturns(types, body[1..]))
  }

  /** An else clause runs unless its loop is left by a break. */
  predicate StmtReturns(types: Types, s: Stmt)
    decreases s, 0
  {
    match s
    case Return(_) => true
    case If(cond, body, orelse) =>
      (match GuardOf(cond)
       case AlwaysTrue => AlwaysReturns(types, body)
       case AlwaysFalse => AlwaysReturns(types, orelse)
       case Unknown => orelse != [] && AlwaysReturns(types, body) && AlwaysReturns(types, orelse))
    case While(cond, body, orelse) =>
      || (GuardOf(cond) == AlwaysTrue && !CanBreak(body, None))
      || (orelse != [] && (GuardOf(cond) == AlwaysFalse || !CanBreak(body, NarrowsTruthy(types, s)))
          && AlwaysReturns(types, orelse))
    case _ => false
  }

  // ---------- What a run keeps of a name ----------

  lemma {:induction false} AssignedIsRebound(body: seq<Stmt>)
    ensures AssignedNames(body) <= Rebinds(body)
    decreases body, 0
  {
    if body != [] {
      AssignedStmtIsRebound(body[0]);
      AssignedIsRebound(body[1..]);
    }
  }

  lemma {:induction false} AssignedStmtIsRebound(s: Stmt)
    ensures AssignedName(s) <= StmtRebinds(s)
    decreases s, 0
  {
    if s.If? || s.While? {
      AssignedIsRebound(s.body);
      AssignedIsRebound(s.orelse);
    }
  }

  predicate SameName(ctx: Ctx, st: State, x: Executed, id: string) {
    Lookup(ctx, x.state, id) == Lookup(ctx, st, id)
  }

  lemma {:induction false} BlockKeepsName(fuel: nat, ctx: Ctx, st: State, body: seq<Stmt>, id: string)
    requires id !in AssignedNames(body)
    ensures SameName(ctx, st, ExecBlock(fuel, ctx, st, body), id)
    decreases fuel, body, 0
  {
    if body != [] {
      StmtKeepsName(fuel, ctx, st, body[0], id);
      BlockKeepsName(fuel, ctx, Exec(fuel, ctx, st, body[0]).state, body[1..], id);
    }
  }

  lemma {:induction false} StmtKeepsName(fuel: nat, ctx: Ctx, st: State, s: Stmt, id: string)
    requires id !in AssignedName(s)
    ensures SameName(ctx, st, Exec(fuel, ctx, st, s), id)
    decreases fuel, s, 1
  {
    if s.If? {
      var st' := st.(output := Eval(fuel, ctx, st, s.cond).output);
      BlockKeepsName(fuel, ctx, st', s.body, id);
      BlockKeepsName(fuel, ctx, st', s.orelse, id);
    } else if s.While? {
      LoopKeepsName(fuel, ctx, st, s, id);
      BlockKeepsName(fuel, ctx, ExecLoop(fuel, ctx, st, s).state, s.orelse, id);
    }
  }

  lemma {:induction false} LoopKeepsName(fuel: nat, ctx: Ctx, st: State, s: Stmt, id: string)
    requires s.While? && id !in AssignedName(s)
    ensures SameName(ctx, st, ExecLoop(fuel, ctx, st, s), id)
    decreases fuel, s, 0
  {
    var st' := st.(output := Eval(fuel, ctx, st, s.cond).output);
    BlockKeepsName(fuel, ctx, st', s.body, id);
    var x := ExecBlock(fuel, ctx, st', s.body);
    if fuel > 0 && (x.outcome.Normal? || x.outcome.Continued?) {
      LoopKeepsName(fuel - 1, ctx, x.state, s, id);
    }
  }

  /** The narrowed name is true now, and `names` are not to include it. */
  predicate Narrowed(ctx: Ctx, st: State, narrowed: Option<string>, names: set<string>) {
    narrowed.Some? ==>
      && narrowed.value !in names
      && var r := Lookup(ctx, st, narrowed.value);
         r.Got? && r.value.Truthy()
  }

  /** A verdict, narrowed or not, is the truth of the condition. */
  lemma VerdictIsTheTruth(fuel: nat, ctx: Ctx, st: State, e: Expr, narrowed: Option<string>)
    requires Narrowed(ctx, st, narrowed, {})
    ensures var r := Eval(fuel, ctx, st, e).result;
      Verdict(e, narrowed) != Unknown ==> r.Got? && r.value.Truthy() == (Verdict(e, narrowed) == AlwaysTrue)
  {
    GuardIsTheTruth(fuel, ctx, st, e);
    if GuardOf(e) == Unknown && e.Unary? && narrowed.Some? {
      assert Eval(fuel, ctx, st, Name(narrowed.value)).result == Lookup(ctx, st, narrowed.value);
    }
  }

  // ---------- Soundness ----------

  /** No break, where none is reachable. */
  lemma {:induction false} NeverBreaks(fuel: nat, ctx: Ctx, st: State, body: seq<Stmt>, narrowed: Option<string>)
    requires Narrowed(ctx, st, narrowed, AssignedNames(body)) && !CanBreak(body, narrowed)
    ensures !ExecBlock(fuel, ctx, st, body).outcome.Broke?
    decreases fuel, body, 0
  {
    if body != [] {
      var s, x := body[0], Exec(fuel, ctx, st, body[0]);
      StmtNeverBreaks(fuel, ctx, st, s, narrowed);
      if StmtLeaves(s, narrowed) {
        StmtNeverEnds(fuel, ctx, st, s, narrowed);
      } else if x.outcome.Normal? {
        if narrowed.Some? {
          StmtKeepsName(fuel, ctx, st, s, narrowed.value);
        }
        NeverBreaks(fuel, ctx, x.state, body[1..], narrowed);
      }
    }
  }

  lemma {:induction false} StmtNeverBreaks(fuel: nat, ctx: Ctx, st: State, s: Stmt, narrowed: Option<string>)
    requires Narrowed(ctx, st, narrowed, AssignedName(s)) && !StmtCanBreak(s, narrowed)
    ensures !Exec(fuel, ctx, st, s).outcome.Broke?
    decreases fuel, s, 1
  {
    if s.If? {
      var r := Eval(fuel, ctx, st, s.cond);
      var st' := st.(output := r.output);
      VerdictIsTheTruth(fuel, ctx, st, s.cond, narrowed);
      if r.result.Got? {
        NeverBreaks(fuel, ctx, st', if r.result.value.Truthy() then s.body else s.orelse, narrowed);
      }
    } else if s.While? {
      NeverBreaks(fuel, ctx, ExecLoop(fuel, ctx, st, s).state, s.orelse, None);
    }
  }

  /** No falling through, where every path leaves. */
  lemma {:induction false} NeverEnds(fuel: nat, ctx: Ctx, st: State, body: seq<Stmt>, narrowed: Option<string>)
    requires Narrowed(ctx, st, narrowed, AssignedNames(body)) && Leaves(body, narrowed)
    ensures !ExecBlock(fuel, ctx, st, body).outcome.Normal?
    decreases fuel, body, 0
  {
    var s, x := body[0], Exec(fuel, ctx, st, body[0]);
    if StmtLeaves(s, narrowed) {
      StmtNeverEnds(fuel, ctx, st, s, narrowed);
    } else if x.outcome.Normal? {
      if narrowed.Some? {
        StmtKeepsName(fuel, ctx, st, s, narrowed.value);
      }
      NeverEnds(fuel, ctx, x.state, body[1..], narrowed);
    }
  }

  lemma {:induction false} StmtNeverEnds(fuel: nat, ctx: Ctx, st: State, s: Stmt, narrowed: Option<string>)
    requires Narrowed(ctx, st, narrowed, AssignedName(s)) && StmtLeaves(s, narrowed)
    ensures !Exec(fuel, ctx, st, s).outcome.Normal?
    decreases fuel, s, 1
  {
    if s.If? {
      var r := Eval(fuel, ctx, st, s.cond);
      var st' := st.(output := r.output);
      VerdictIsTheTruth(fuel, ctx, st, s.cond, narrowed);
      if r.result.Got? {
        var live := if r.result.value.Truthy() then s.body else s.orelse;
        NeverEnds(fuel, ctx, st', live, if Verdict(s.cond, narrowed) == Unknown then None else narrowed);
      }
    } else if s.While? {
      var x := ExecLoop(fuel, ctx, st, s);
      if GuardOf(s.cond) == AlwaysFalse {
        NeverTurns(fuel, ctx, st, s);
      } else {
        LoopNeverBreaks(fuel, ctx, st, s, None);
      }
      if GuardOf(s.cond) == AlwaysTrue {
        TurnsForEver(fuel, ctx, st, s);
      } else if x.outcome.Normal? {
        if narrowed.Some? {
          LoopKeepsName(fuel, ctx, st, s, narrowed.value);
        }
        NeverEnds(fuel, ctx, x.state, s.orelse, narrowed);
      }
    }
  }

  /** A condition that narrows a name does so at every turn. */
  lemma {:induction false} LoopNeverBreaks(fuel: nat, ctx: Ctx, st: State, s: Stmt, narrowed: Option<string>)
    requires s.While? && !CanBreak(s.body, narrowed)
    requires narrowed.Some? ==> s.cond == Name(narrowed.value) && narrowed.value !in AssignedNames(s.body)
    ensures !ExecLoop(fuel, ctx, st, s).outcome.Broke?
    decreases fuel, s, 0
  {
    var r := Eval(fuel, ctx, st, s.cond);
    var st' := st.(output := r.output);
    if r.result.Got? && r.result.value.Truthy() {
      NeverBreaks(fuel, ctx, st', s.body, narrowed);
      var x := ExecBlock(fuel, ctx, st', s.body);
      if fuel > 0 && (x.outcome.Normal? || x.outcome.Continued?) {
        LoopNeverBreaks(fuel - 1, ctx, x.state, s, narrowed);
      }
    }
  }

  lemma {:induction false} TurnsForEver(fuel: nat, ctx: Ctx, st: State, s: Stmt)
    requires s.While? && GuardOf(s.cond) == AlwaysTrue
    ensures !ExecLoop(fuel, ctx, st, s).outcome.Normal?
    decreases fuel
  {
    GuardIsTheTruth(fuel, ctx, st, s.cond);
    var x := ExecBlock(fuel, ctx, st.(output := Eval(fuel, ctx, st, s.cond).output), s.body);
    if fuel > 0 && (x.outcome.Normal? || x.outcome.Continued?) {
      TurnsForEver(fuel - 1, ctx, x.state, s);
    }
  }

  lemma NeverTurns(fuel: nat, ctx: Ctx, st: State, s: Stmt)
    requires s.While? && GuardOf(s.cond) == AlwaysFalse
    ensures ExecLoop(fuel, ctx, st, s).outcome.Normal?
  {
    GuardIsTheTruth(fuel, ctx, st, s.cond);
  }

  /** What the check promises: no run of an accepted body falls off its end. */
  lemma {:induction false} NeverFallsOff(types: Types, fuel: nat, ctx: Ctx, st: State, body: seq<Stmt>)
    requires AlwaysReturns(types, body)
    ensures !ExecBlock(fuel, ctx, st, body).outcome.Normal?
    decreases body, 0
  {
    var x := Exec(fuel, ctx, st, body[0]);
    if StmtReturns(types, body[0]) {
      StmtNeverFallsThrough(types, fuel, ctx, st, body[0]);
    } else if x.outcome.Normal? {
      NeverFallsOff(types, fuel, ctx, x.state, body[1..]);
    }
  }

  lemma {:induction false} StmtNeverFallsThrough(types: Types, fuel: nat, ctx: Ctx, st: State, s: Stmt)
    requires StmtReturns(types, s)
    ensures !Exec(fuel, ctx, st, s).outcome.Normal?
    decreases s, 0
  {
    if s.If? {
      var r := Eval(fuel, ctx, st, s.cond);
      var st' := st.(output := r.output);
      GuardIsTheTruth(fuel, ctx, st, s.cond);
      if r.result.Got? {
        NeverFallsOff(types, fuel, ctx, st', if r.result.value.Truthy() then s.body else s.orelse);
      }
    } else if s.While? {
      var x, narrowed := ExecLoop(fuel, ctx, st, s), NarrowsTruthy(types, s);
      if GuardOf(s.cond) == AlwaysTrue && !CanBreak(s.body, None) {
        TurnsForEver(fuel, ctx, st, s);
        LoopNeverBreaks(fuel, ctx, st, s, None);
      } else {
        if GuardOf(s.cond) == AlwaysFalse {
          NeverTurns(fuel, ctx, st, s);
        } else {
          AssignedIsRebound(s.body);
          LoopNeverBreaks(fuel, ctx, st, s, narrowed);
        }
        if x.outcome.Normal? {
          NeverFallsOff(types, fuel, ctx, x.state, s.orelse);
        }
      }
    }
  }
}
