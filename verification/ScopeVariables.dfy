/** collect_scope_variables: which names a scope declares, in what order, and which
    assignment decides each name's type. */
module ScopeVariables {
  import opened Options
  import opened Values
  import opened Syntax
  import opened Literals
  import opened Lowering

  /** The assignments of a scope in source order, at every if/while depth. An arm a literal
      guard rules out is dead, and so is everything inside it. */
  function Occurrences(mode: CollectMode, body: seq<Stmt>, dead: bool): seq<Occurrence>
    decreases body, 0
  {
    if body == [] then [] else OccurrencesIn(mode, body[0], dead) + Occurrences(mode, body[1..], dead)
  }

  function OccurrencesIn(mode: CollectMode, s: Stmt, dead: bool): seq<Occurrence>
    decreases s, 0
  {
    match s
    case If(cond, body, orelse) =>
      Occurrences(mode, body, dead || GuardOf(cond) == AlwaysFalse)
      + Occurrences(mode, orelse, dead || GuardOf(cond) == AlwaysTrue)
    case While(cond, body, orelse) =>
      Occurrences(mode, body, dead || GuardOf(cond) == AlwaysFalse)
      + Occurrences(mode, orelse, dead || GuardOf(cond) == AlwaysTrue)
    case _ =>
      var o := OccurrenceOf(mode, s, dead);
      if o.Some? then [o.value] else []
  }

  // ---------- The declaration table a scope ought to have ----------

  function FirstOf(occs: seq<Occurrence>, id: string): Option<Occurrence> {
    if occs == [] then None
    else
      var n := |occs| - 1;
      var earlier := FirstOf(occs[..n], id);
      if earlier.Some? then earlier else if occs[n].id == id then Some(occs[n]) else None
  }

  function FirstLive(occs: seq<Occurrence>, id: string): Option<Occurrence> {
    if occs == [] then None
    else
      var n := |occs| - 1;
      var earlier := FirstLive(occs[..n], id);
      if earlier.Some? then earlier else if occs[n].id == id && !occs[n].dead then Some(occs[n]) else None
  }

  /** The names assigned, each once, in the order of their first assignments. */
  function DistinctIds(occs: seq<Occurrence>): seq<string> {
    if occs == [] then []
    else
      var n := |occs| - 1;
      var ids := DistinctIds(occs[..n]);
      if occs[n].id in ids then ids else ids + [occs[n].id]
  }

  /** Only an unannotated assignment in a dead arm of a function leaves the choice open. */
  predicate LeavesOpen(mode: CollectMode, o: Occurrence) {
    mode.preferLiveArm && o.dead && !o.annotated
  }

  /** The assignment whose type the declaration carries: the first one, unless it leaves the
      choice open and a live one follows. */
  function Decider(mode: CollectMode, occs: seq<Occurrence>, id: string): Option<Occurrence> {
    var first, live := FirstOf(occs, id), FirstLive(occs, id);
    if first.Some? && LeavesOpen(mode, first.value) && live.Some? then live else first
  }

  function Declaration(mode: CollectMode, occs: seq<Occurrence>, id: string): Option<ScopeVariable> {
    var first, live, decider := FirstOf(occs, id), FirstLive(occs, id), Decider(mode, occs, id);
    if first.None? || first.value.kind.None? || decider.value.kind.None? then None
    else Some(ScopeVariable(id, decider.value.kind.value, LeavesOpen(mode, first.value) && live.None?))
  }

  /** `table` declares exactly the assigned names, in order, each with its deciding type. */
  ghost predicate IsTable(mode: CollectMode, occs: seq<Occurrence>, table: seq<ScopeVariable>) {
    && |table| == |DistinctIds(occs)|
    && forall i :: 0 <= i < |table| ==>
         table[i].id == DistinctIds(occs)[i] && Some(table[i]) == Declaration(mode, occs, table[i].id)
  }

  /** Some name has no representable type where its type is decided. */
  ghost predicate HasUntyped(mode: CollectMode, occs: seq<Occurrence>) {
    exists id :: id in DistinctIds(occs) && Declaration(mode, occs, id).None?
  }

  // ---------- Collection is that table ----------

  function RecordAll(
      mode: CollectMode, variables: seq<ScopeVariable>, occs: seq<Occurrence>): Option<seq<ScopeVariable>> {
    if occs == [] then Some(variables)
    else
      var before := RecordAll(mode, variables, occs[..|occs| - 1]);
      if before.Some? then Record(mode, before.value, occs[|occs| - 1]) else None
  }

  lemma {:induction false} RecordAllAppends(
      mode: CollectMode, variables: seq<ScopeVariable>, a: seq<Occurrence>, b: seq<Occurrence>)
    ensures var mid := RecordAll(mode, variables, a);
      RecordAll(mode, variables, a + b) == if mid.Some? then RecordAll(mode, mid.value, b) else None
    decreases b
  {
    if b == [] {
      assert a + b == a;
    } else {
      assert (a + b)[..|a + b| - 1] == a + b[..|b| - 1];
      RecordAllAppends(mode, variables, a, b[..|b| - 1]);
    }
  }

  lemma {:induction false} CollectFoldsOccurrences(
      mode: CollectMode, body: seq<Stmt>, variables: seq<ScopeVariable>, dead: bool)
    ensures Collect(mode, body, variables, dead) == RecordAll(mode, variables, Occurrences(mode, body, dead))
    decreases body, 0
  {
    if body != [] {
      CollectStmtFolds(mode, body[0], variables, dead);
      RecordAllAppends(mode, variables, OccurrencesIn(mode, body[0], dead), Occurrences(mode, body[1..], dead));
      var after := CollectStmt(mode, body[0], variables, dead);
      if after.Some? {
        CollectFoldsOccurrences(mode, body[1..], after.value, dead);
      }
    }
  }

  lemma {:induction false} CollectStmtFolds(mode: CollectMode, s: Stmt, variables: seq<ScopeVariable>, dead: bool)
    ensures CollectStmt(mode, s, variables, dead) == RecordAll(mode, variables, OccurrencesIn(mode, s, dead))
    decreases s, 0
  {
    if s.If? || s.While? {
      var dead1, dead2 := dead || GuardOf(s.cond) == AlwaysFalse, dead || GuardOf(s.cond) == AlwaysTrue;
      CollectFoldsOccurrences(mode, s.body, variables, dead1);
      RecordAllAppends(mode, variables, Occurrences(mode, s.body, dead1), Occurrences(mode, s.orelse, dead2));
      var mid := Collect(mode, s.body, variables, dead1);
      if mid.Some? {
        CollectFoldsOccurrences(mode, s.orelse, mid.value, dead2);
      }
    } else {
      var o := OccurrenceOf(mode, s, dead);
      if o.Some? {
        assert [o.value][..0] == [];
        assert RecordAll(mode, variables, []) == Some(variables);
      }
    }
  }

  lemma {:induction false} FirstsAgree(occs: seq<Occurrence>, id: string)
    ensures FirstOf(occs, id).Some? <==> id in DistinctIds(occs)
    ensures FirstOf(occs, id).Some? ==> FirstOf(occs, id).value.id == id
    ensures FirstLive(occs, id).Some? ==> id in DistinctIds(occs) && !FirstLive(occs, id).value.dead
    ensures FirstOf(occs, id).Some? && !FirstOf(occs, id).value.dead ==> FirstLive(occs, id) == FirstOf(occs, id)
  {
    if occs != [] {
      FirstsAgree(occs[..|occs| - 1], id);
    }
  }

  lemma {:induction false} IdsAreDistinct(occs: seq<Occurrence>)
    ensures forall i, j :: 0 <= i < j < |DistinctIds(occs)| ==> DistinctIds(occs)[i] != DistinctIds(occs)[j]
  {
    if occs != [] {
      IdsAreDistinct(occs[..|occs| - 1]);
    }
  }

  /** One more assignment changes the declaration of its own name only. */
  lemma OthersUnchanged(mode: CollectMode, occs: seq<Occurrence>, o: Occurrence, id: string)
    requires id != o.id
    ensures Declaration(mode, occs + [o], id) == Declaration(mode, occs, id)
  {
    assert (occs + [o])[..|occs|] == occs;
  }

  lemma OwnDeclaration(mode: CollectMode, occs: seq<Occurrence>, o: Occurrence)
    ensures var was, now := Declaration(mode, occs, o.id), Declaration(mode, occs + [o], o.id);
      var kind := o.kind;
      if FirstOf(occs, o.id).None? then
        now == if kind.None? then None else Some(ScopeVariable(o.id, kind.value, LeavesOpen(mode, o)))
      else if was.None? then now.None?
      else if was.value.fromDeadArm && !o.dead then
        now == if kind.None? then None else Some(ScopeVariable(o.id, kind.value, false))
      else now == was
  {
    assert (occs + [o])[..|occs|] == occs;
    FirstsAgree(occs, o.id);
  }

  /** A table for the assignments so far, and one more recorded, is a table for all of them. */
  lemma RecordKeepsTheTable(mode: CollectMode, occs: seq<Occurrence>, o: Occurrence, table: seq<ScopeVariable>)
    requires IsTable(mode, occs, table)
    ensures var r := Record(mode, table, o);
      if r.Some? then IsTable(mode, occs + [o], r.value) else Declaration(mode, occs + [o], o.id).None?
  {
    var ids, ids' := DistinctIds(occs), DistinctIds(occs + [o]);
    assert (occs + [o])[..|occs|] == occs;
    FirstsAgree(occs, o.id);
    IdsAreDistinct(occs);
    OwnDeclaration(mode, occs, o);
    forall i | 0 <= i < |table| && table[i].id != o.id
      ensures Some(table[i]) == Declaration(mode, occs + [o], table[i].id)
    {
      OthersUnchanged(mode, occs, o, table[i].id);
    }
    var seen := IndexOf(table, o.id);
    if seen.Some? {
      assert ids[seen.value] == o.id;
      assert ids' == ids;
      forall i | 0 <= i < |table| && i != seen.value ensures table[i].id != o.id {
        assert ids[i] != ids[seen.value];
      }
    } else {
      forall j | 0 <= j < |ids| ensures ids[j] != o.id {
        assert ids[j] == table[j].id;
      }
    }
  }

  lemma {:induction false} RecordAllIsTable(mode: CollectMode, occs: seq<Occurrence>)
    ensures var r := RecordAll(mode, [], occs);
      if r.Some? then IsTable(mode, occs, r.value) else HasUntyped(mode, occs)
  {
    if occs != [] {
      var front, o := occs[..|occs| - 1], occs[|occs| - 1];
      assert occs == front + [o];
      RecordAllIsTable(mode, front);
      var before := RecordAll(mode, [], front);
      if before.Some? {
        RecordKeepsTheTable(mode, front, o, before.value);
        if Record(mode, before.value, o).None? {
          assert o.id in DistinctIds(occs);
        }
      } else {
        UntypedStays(mode, front, o);
      }
    }
  }

  lemma UntypedStays(mode: CollectMode, occs: seq<Occurrence>, o: Occurrence)
    requires HasUntyped(mode, occs)
    ensures HasUntyped(mode, occs + [o])
  {
    var id :| id in DistinctIds(occs) && Declaration(mode, occs, id).None?;
    assert (occs + [o])[..|occs|] == occs;
    assert id in DistinctIds(occs + [o]);
    FirstsAgree(occs, id);
    if id == o.id {
      OwnDeclaration(mode, occs, o);
    } else {
      OthersUnchanged(mode, occs, o, id);
    }
  }

  /** Collection succeeds with a table that declares every assigned name once, in the order
      of first assignment, with its deciding type, or is refused because some name has no
      representable type where it is decided. */
  lemma CollectDeclaresEveryName(mode: CollectMode, body: seq<Stmt>)
    ensures var r, occs := Collect(mode, body, [], false), Occurrences(mode, body, false);
      if r.Some? then IsTable(mode, occs, r.value) else HasUntyped(mode, occs)
    ensures var occs := Occurrences(mode, body, false);
      forall i, j :: 0 <= i < j < |DistinctIds(occs)| ==> DistinctIds(occs)[i] != DistinctIds(occs)[j]
  {
    CollectFoldsOccurrences(mode, body, [], false);
    RecordAllIsTable(mode, Occurrences(mode, body, false));
    IdsAreDistinct(Occurrences(mode, body, false));
  }

  // ---------- As sets and maps ----------

  function OccurrenceIds(occs: seq<Occurrence>): set<string> {
    set o | o in occs :: o.id
  }

  function Collectable(mode: CollectMode, names: set<string>): set<string> {
    set id | id in names && IsManglable(id) && id !in mode.declared
  }

  lemma {:induction false} OccurrencesAreAssigned(mode: CollectMode, body: seq<Stmt>, dead: bool)
    ensures OccurrenceIds(Occurrences(mode, body, dead)) == Collectable(mode, AssignedNames(body))
    decreases body, 0
  {
    if body != [] {
      OccurrencesInAreAssigned(mode, body[0], dead);
      OccurrencesAreAssigned(mode, body[1..], dead);
      OccurrenceIdsAdd(OccurrencesIn(mode, body[0], dead), Occurrences(mode, body[1..], dead));
    }
  }

  lemma {:induction false} OccurrencesInAreAssigned(mode: CollectMode, s: Stmt, dead: bool)
    ensures OccurrenceIds(OccurrencesIn(mode, s, dead)) == Collectable(mode, AssignedName(s))
    decreases s, 0
  {
    if s.If? || s.While? {
      var dead1, dead2 := dead || GuardOf(s.cond) == AlwaysFalse, dead || GuardOf(s.cond) == AlwaysTrue;
      OccurrencesAreAssigned(mode, s.body, dead1);
      OccurrencesAreAssigned(mode, s.orelse, dead2);
      OccurrenceIdsAdd(Occurrences(mode, s.body, dead1), Occurrences(mode, s.orelse, dead2));
    } else {
      var o := OccurrenceOf(mode, s, dead);
      if o.Some? {
        assert OccurrenceIds([o.value]) == {o.value.id};
      }
    }
  }

  lemma OccurrenceIdsAdd(a: seq<Occurrence>, b: seq<Occurrence>)
    ensures OccurrenceIds(a + b) == OccurrenceIds(a) + OccurrenceIds(b)
  {
    forall id ensures id in OccurrenceIds(a + b) <==> id in OccurrenceIds(a) + OccurrenceIds(b) {
      if id in OccurrenceIds(a) { var o :| o in a && o.id == id; assert o in a + b; }
      if id in OccurrenceIds(b) { var o :| o in b && o.id == id; assert o in a + b; }
    }
  }

  lemma {:induction false} DistinctIdsAreAll(occs: seq<Occurrence>)
    ensures forall id :: id in DistinctIds(occs) <==> id in OccurrenceIds(occs)
  {
    if occs != [] {
      var n := |occs| - 1;
      DistinctIdsAreAll(occs[..n]);
      assert occs == occs[..n] + [occs[n]];
      OccurrenceIdsAdd(occs[..n], [occs[n]]);
      assert OccurrenceIds([occs[n]]) == {occs[n].id};
    }
  }

  /** The declared names are the names Python makes local, parameters apart. */
  lemma CollectedNames(mode: CollectMode, body: seq<Stmt>, table: seq<ScopeVariable>)
    requires Collect(mode, body, [], false) == Some(table)
    requires forall id :: id in AssignedNames(body) ==> IsManglable(id)
    ensures IdsOf(table) == AssignedNames(body) - mode.declared
    ensures SlotsOf(table).Keys == IdsOf(table)
  {
    var occs := Occurrences(mode, body, false);
    CollectDeclaresEveryName(mode, body);
    OccurrencesAreAssigned(mode, body, false);
    DistinctIdsAreAll(occs);
    forall id ensures id in IdsOf(table) <==> id in DistinctIds(occs) {
      if id in DistinctIds(occs) {
        var i :| 0 <= i < |DistinctIds(occs)| && DistinctIds(occs)[i] == id;
        assert table[i].id == id;
      }
    }
    SlotsKeys(table);
  }

  lemma {:induction false} SlotsKeys(table: seq<ScopeVariable>)
    ensures SlotsOf(table).Keys == IdsOf(table)
  {
    if table != [] {
      var n := |table| - 1;
      SlotsKeys(table[..n]);
      assert IdsOf(table) == IdsOf(table[..n]) + {table[n].id} by {
        forall id | id in IdsOf(table) ensures id in IdsOf(table[..n]) + {table[n].id} {
          var i :| 0 <= i < |table| && table[i].id == id;
          if i < n { assert table[..n][i].id == id; }
        }
        forall id | id in IdsOf(table[..n]) ensures id in IdsOf(table) {
          var i :| 0 <= i < n && table[..n][i].id == id;
          assert table[i].id == id;
        }
      }
    }
  }
}
