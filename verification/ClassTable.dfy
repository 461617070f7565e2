// The table of known classes: its declarations, and the queries that walk a
// chain of bases.
module ClassTables {
  import opened Options
  import opened ClassChains

  // --- what each query asks of an entry ----------------------------------------

  function MemberTypeOf(member: string): Extract<Type> {
    (name: string, entry: Entry) =>
      if member in entry.members then Some(entry.members[member].declared) else None
  }

  function MemberLineOf(member: string): Extract<int> {
    (name: string, entry: Entry) =>
      if member in entry.members then Some(entry.members[member].line) else None
  }

  function MethodOf(method_: string): Extract<Type> {
    (name: string, entry: Entry) =>
      if method_ in entry.methods then Some(entry.methods[method_]) else None
  }

  function IsBuiltinKind(): Extract<bool> {
    (name: string, entry: Entry) => if name != "object" && BuiltinKind(name).Some? then Some(true) else None
  }

  function IsSeeded(): Extract<bool> {
    (name: string, entry: Entry) => if name != "object" && entry.seeded then Some(true) else None
  }

  // `object` stands for every class, so it answers only for itself.
  function BandFor(resolved: string): Extract<Band> {
    (name: string, entry: Entry) => if name == "object" && name != resolved then None else entry.band
  }

  datatype Reached = DeclaredInit | BaseExceptionBase | BuiltinKindBase

  function Settles(): Extract<Reached> {
    (name: string, entry: Entry) =>
      if "__init__" in entry.methods then Some(DeclaredInit)
      else if name == "BaseException" then Some(BaseExceptionBase)
      else if name != "object" && BuiltinKind(name).Some? then Some(BuiltinKindBase)
      else None
  }

  // --- the queries, over the value of a table ----------------------------------

  function Query<T>(table: Table, extract: Extract<T>, name: string): Option<T> {
    var found := FirstAnswer(table, extract, Preorder(table, Canonical(table, name), []));
    if found.Some? then found
    else
      match Shadowed(table, name)
      case Some(hidden) => FirstAnswer(table, extract, Preorder(table, hidden, []))
      case None => None
  }

  // The roots that an inherited lookup walks: each base, then what a scoped
  // alias hides behind that base's name.
  function InheritedRoots(table: Table, bases: seq<Type>): seq<string> {
    if bases == [] then []
    else BaseRoots(table, bases[0]) + InheritedRoots(table, bases[1..])
  }

  function BaseRoots(table: Table, base: Type): seq<string> {
    match BaseKey(base)
    case None => []
    case Some(key) =>
      match Shadowed(table, key)
      case None => [Canonical(table, key)]
      case Some(hidden) => [Canonical(table, key), hidden]
  }

  // Both spellings of the class that the lookup must look past.
  function RootSpellings(table: Table, name: string): seq<string> {
    if Canonical(table, name) == name then [name] else [name, Canonical(table, name)]
  }

  function InheritedMember(table: Table, name: string, member: string): Option<Type> {
    if name !in table.classes then None
    else
      FirstAnswer(table, MemberTypeOf(member),
                  FreshOfAll(table, InheritedRoots(table, table.classes[name].bases), RootSpellings(table, name)))
  }

  // The classes a constructor query walks: the name is resolved by the query,
  // and once more by the walk.
  function ConstructorChain(table: Table, name: string): seq<string> {
    Preorder(table, Canonical(table, Canonical(table, name)), [])
  }

  function ReachedBy(table: Table, name: string): Option<Reached> {
    FirstAnswer(table, Settles(), ConstructorChain(table, name))
  }

  function ArityOf(table: Table, name: string): Option<Band> {
    FirstAnswer(table, BandFor(Canonical(table, name)), ConstructorChain(table, name))
  }

  datatype ConstructorCheck = Checked | Unchecked | Unmodellable

  function CheckOf(table: Table, name: string): ConstructorCheck {
    var reached := ReachedBy(table, name);
    var band := ArityOf(table, name);
    if reached == Some(DeclaredInit) then Checked
    else if reached == Some(BuiltinKindBase) then Unmodellable
    else if FirstAnswer(table, MethodOf("__new__"), ConstructorChain(table, name)).Some? then Unchecked
    else if reached.None? then (if band == Some(AnyNumber) then Unchecked else Checked)
    else if band.Some? && band.value.Between? then Checked
    else Unchecked
  }

  // Where a constructor's parameters come from.
  datatype Source = Signature(class_: string) | ArityBand(arity: Arity) | NoParameters

  function BandSource(table: Table, name: string): Source {
    match ArityOf(table, name)
    case Some(band) => if band.Between? then ArityBand(band) else NoParameters
    case None => NoParameters
  }

  // What a Checked verdict rests on.
  function CheckedAgainst(table: Table, name: string): Source {
    if ReachedBy(table, name) == Some(DeclaredInit)
    then Signature(Answerer(table, Settles(), ConstructorChain(table, name)).value)
    else BandSource(table, name)
  }

  // What the constructor's signature is built from.
  function BuiltFrom(table: Table, name: string): Source {
    match Answerer(table, MethodOf("__init__"), ConstructorChain(table, name))
    case Some(declaring) => Signature(declaring)
    case None => BandSource(table, name)
  }

  // `self` and the return type are dropped.
  function ParametersOf(init: Type): seq<Type> {
    if |init.args| < 2 then [] else init.args[1..|init.args| - 1]
  }

  function Least(a: nat, b: nat): nat {
    if a < b then a else b
  }

  function ConstructorType(table: Table, name: string): Type {
    var instance := ClassOf(Canonical(table, name));
    match BuiltFrom(table, name)
    case Signature(declaring) =>
      var init := FirstAnswer(table, MethodOf("__init__"), ConstructorChain(table, name)).value;
      var parameters := ParametersOf(init);
      Type(CallableKind, "", parameters + [instance], Least(init.defaulted, |parameters|))
    case ArityBand(arity) =>
      var band: Band := ArityOf(table, name).value;
      Type(CallableKind, "", seq(band.most, _ => Plain(UnknownKind)) + [instance], band.most - band.fewest)
    case NoParameters => Type(CallableKind, "", [instance], 0)
  }

  // --- steps of a walk over several roots --------------------------------------

  lemma FreshOfOne(table: Table, name: string, visited: seq<string>)
    ensures PreorderOfAll(table, [name], visited) == Preorder(table, name, visited)
    ensures FreshOfAll(table, [name], visited) == Fresh(table, name, visited)
  {
    var first := Preorder(table, name, visited);
    assert [name][1..] == [];
    assert PreorderOfAll(table, [], first) == first;
  }

  lemma AnswerOfJoinedRoots<T>(
    table: Table, extract: Extract<T>, left: seq<string>, right: seq<string>, visited: seq<string>)
    ensures FirstAnswer(table, extract, FreshOfAll(table, left + right, visited))
         == if FirstAnswer(table, extract, FreshOfAll(table, left, visited)).Some?
            then FirstAnswer(table, extract, FreshOfAll(table, left, visited))
            else FirstAnswer(table, extract, FreshOfAll(table, right, PreorderOfAll(table, left, visited)))
  {
    PreorderOfJoined(table, left, right, visited);
    var middle := PreorderOfAll(table, left, visited);
    Rejoin(PreorderOfAll(table, right, middle), middle, visited);
    FirstAnswerOfJoined(table, extract, FreshOfAll(table, left, visited), FreshOfAll(table, right, middle));
  }

  lemma {:induction false} KeyedOfJoined(table: Table, left: seq<Type>, right: seq<Type>)
    ensures Keyed(table, left + right) == Keyed(table, left) + Keyed(table, right)
  {
    if left == [] {
      assert left + right == right;
    } else {
      assert (left + right)[0] == left[0];
      assert (left + right)[1..] == left[1..] + right;
      KeyedOfJoined(table, left[1..], right);
    }
  }

  lemma {:induction false} RootsOfJoined(table: Table, left: seq<Type>, right: seq<Type>)
    ensures InheritedRoots(table, left + right) == InheritedRoots(table, left) + InheritedRoots(table, right)
  {
    if left == [] {
      assert left + right == right;
    } else {
      assert (left + right)[0] == left[0];
      assert (left + right)[1..] == left[1..] + right;
      RootsOfJoined(table, left[1..], right);
    }
  }

  lemma OneBaseAtATime(table: Table, bases: seq<Type>, at: nat)
    requires at < |bases|
    ensures Keyed(table, bases[..at + 1])
         == if BaseKey(bases[at]).Some?
            then Keyed(table, bases[..at]) + [Canonical(table, BaseKey(bases[at]).value)]
            else Keyed(table, bases[..at])
    ensures InheritedRoots(table, bases[..at + 1])
         == InheritedRoots(table, bases[..at]) + BaseRoots(table, bases[at])
  {
    assert bases[..at + 1] == bases[..at] + [bases[at]];
    KeyedOfJoined(table, bases[..at], [bases[at]]);
    RootsOfJoined(table, bases[..at], [bases[at]]);
    assert Keyed(table, [bases[at]])
        == if BaseKey(bases[at]).Some? then [Canonical(table, BaseKey(bases[at]).value)] else [];
    assert InheritedRoots(table, [bases[at]]) == BaseRoots(table, bases[at]);
  }

  // An answer found among the first roots is the answer of them all.
  lemma FirstRootWins<T>(
    table: Table, extract: Extract<T>, left: seq<string>, right: seq<string>, visited: seq<string>)
    requires FirstAnswer(table, extract, FreshOfAll(table, left, visited)).Some?
    ensures FirstAnswer(table, extract, FreshOfAll(table, left + right, visited))
         == FirstAnswer(table, extract, FreshOfAll(table, left, visited))
  {
    AnswerOfJoinedRoots(table, extract, left, right, visited);
  }

  // One step of a walk whose roots so far are silent.
  lemma WalkingOn<T>(
    table: Table, extract: Extract<T>, before: seq<string>, next: seq<string>, after: seq<string>,
    start: seq<string>)
    requires FirstAnswer(table, extract, FreshOfAll(table, before, start)).None?
    ensures PreorderOfAll(table, before + next, start)
         == PreorderOfAll(table, next, PreorderOfAll(table, before, start))
    ensures var answer :=
              FirstAnswer(table, extract, FreshOfAll(table, next, PreorderOfAll(table, before, start)));
            && FirstAnswer(table, extract, FreshOfAll(table, before + next, start)) == answer
            && (answer.Some? ==> FirstAnswer(table, extract, FreshOfAll(table, before + next + after, start)) == answer)
  {
    AnswerOfJoinedRoots(table, extract, before, next, start);
    PreorderOfJoined(table, before, next, start);
    if FirstAnswer(table, extract, FreshOfAll(table, before + next, start)).Some? {
      FirstRootWins(table, extract, before + next, after, start);
    }
  }

  lemma BasesSplit(table: Table, bases: seq<Type>, at: nat)
    requires at < |bases|
    ensures Keyed(table, bases) == Keyed(table, bases[..at + 1]) + Keyed(table, bases[at + 1..])
    ensures InheritedRoots(table, bases)
         == InheritedRoots(table, bases[..at + 1]) + InheritedRoots(table, bases[at + 1..])
  {
    assert bases == bases[..at + 1] + bases[at + 1..];
    KeyedOfJoined(table, bases[..at + 1], bases[at + 1..]);
    RootsOfJoined(table, bases[..at + 1], bases[at + 1..]);
  }

  // One turn of the walk over an entry's bases.
  lemma WalkingOneBase<T>(table: Table, extract: Extract<T>, bases: seq<Type>, at: nat, start: seq<string>)
    requires at < |bases| && BaseKey(bases[at]).Some?
    requires FirstAnswer(table, extract, FreshOfAll(table, Keyed(table, bases[..at]), start)).None?
    ensures var canonical := Canonical(table, BaseKey(bases[at]).value);
            var seen := PreorderOfAll(table, Keyed(table, bases[..at]), start);
            var answer := FirstAnswer(table, extract, Fresh(table, canonical, seen));
            && PreorderOfAll(table, Keyed(table, bases[..at + 1]), start) == Preorder(table, canonical, seen)
            && FirstAnswer(table, extract, FreshOfAll(table, Keyed(table, bases[..at + 1]), start)) == answer
            && (answer.Some? ==> FirstAnswer(table, extract, FreshOfAll(table, Keyed(table, bases), start)) == answer)
  {
    var before, canonical := Keyed(table, bases[..at]), Canonical(table, BaseKey(bases[at]).value);
    OneBaseAtATime(table, bases, at);
    BasesSplit(table, bases, at);
    FreshOfOne(table, canonical, PreorderOfAll(table, before, start));
    WalkingOn(table, extract, before, [canonical], Keyed(table, bases[at + 1..]), start);
  }

  lemma NoRootYet<T>(table: Table, extract: Extract<T>, bases: seq<Type>, start: seq<string>)
    ensures PreorderOfAll(table, InheritedRoots(table, bases[..0]), start) == start
    ensures FirstAnswer(table, extract, FreshOfAll(table, InheritedRoots(table, bases[..0]), start)).None?
  {
  }

  // One turn of the inherited lookup, which also tries what an alias hides.
  lemma WalkingOneRoot<T>(table: Table, extract: Extract<T>, bases: seq<Type>, at: nat, start: seq<string>)
    requires at < |bases|
    requires FirstAnswer(table, extract, FreshOfAll(table, InheritedRoots(table, bases[..at]), start)).None?
    ensures var roots := BaseRoots(table, bases[at]);
            var seen := PreorderOfAll(table, InheritedRoots(table, bases[..at]), start);
            var answer := FirstAnswer(table, extract, FreshOfAll(table, roots, seen));
            && PreorderOfAll(table, InheritedRoots(table, bases[..at + 1]), start) == PreorderOfAll(table, roots, seen)
            && FirstAnswer(table, extract, FreshOfAll(table, InheritedRoots(table, bases[..at + 1]), start)) == answer
            && (answer.Some?
              ==> FirstAnswer(table, extract, FreshOfAll(table, InheritedRoots(table, bases), start)) == answer)
  {
    OneBaseAtATime(table, bases, at);
    BasesSplit(table, bases, at);
    WalkingOn(table, extract, InheritedRoots(table, bases[..at]), BaseRoots(table, bases[at]),
              InheritedRoots(table, bases[at + 1..]), start);
  }

  // --- declarations, over the value of a table ---------------------------------

  function Blank(): Entry {
    Entry([], map[], map[], None, false)
  }

  function WithScopedAlias(table: Table, alias: string, target: string): Table {
    table.(scoped := table.scoped[alias := target])
  }

  function WithoutScopedAlias(table: Table, alias: string): Table {
    table.(scoped := table.scoped - {alias})
  }

  // What a block does on its way out, given what its alias meant before.
  function Restored(table: Table, alias: string, previous: Option<string>): Table {
    match previous
    case Some(target) => WithScopedAlias(table, alias, target)
    case None => WithoutScopedAlias(table, alias)
  }

  datatype BuiltinRow = BuiltinRow(name: string, bases: seq<string>, band: Band)

  function SeededAliases(rows: seq<(string, string)>): map<string, string> {
    if rows == [] then map[]
    else
      var before, last := SeededAliases(rows[..|rows| - 1]), rows[|rows| - 1];
      if last.0 in before then before else before[last.0 := last.1]
  }

  function SeededBases(names: seq<string>): seq<Type> {
    if names == [] then []
    else SeededBases(names[..|names| - 1]) + [BaseTypeForName(names[|names| - 1])]
  }

  // An alias is the same class as its target, so it gets no entry of its own.
  function SeededClasses(rows: seq<BuiltinRow>, aliases: map<string, string>): map<string, Entry> {
    if rows == [] then map[]
    else
      var before, row := SeededClasses(rows[..|rows| - 1], aliases), rows[|rows| - 1];
      if row.name in aliases then before else WithRow(before, row)
  }

  function WithRow(before: map<string, Entry>, row: BuiltinRow): map<string, Entry> {
    var entry := if row.name in before then before[row.name] else Blank();
    before[row.name := entry.(bases := entry.bases + SeededBases(row.bases), band := Some(row.band), seeded := true)]
  }

  lemma AliasRowSeeds(rows: seq<(string, string)>, at: nat)
    requires at < |rows|
    ensures var before := SeededAliases(rows[..at]);
            SeededAliases(rows[..at + 1]) == if rows[at].0 in before then before else before[rows[at].0 := rows[at].1]
  {
    assert rows[..at + 1][..at] == rows[..at];
  }

  lemma ClassRowSeeds(rows: seq<BuiltinRow>, aliases: map<string, string>, at: nat)
    requires at < |rows|
    ensures SeededClasses(rows[..at + 1], aliases)
         == if rows[at].name in aliases then SeededClasses(rows[..at], aliases)
            else WithRow(SeededClasses(rows[..at], aliases), rows[at])
  {
    assert rows[..at + 1][..at] == rows[..at];
  }

  function Seeded(aliases: seq<(string, string)>, rows: seq<BuiltinRow>): Table {
    Table(SeededClasses(rows, SeededAliases(aliases)), SeededAliases(aliases), map[])
  }

  lemma {:induction false} SeedingSkipsAliases(rows: seq<BuiltinRow>, aliases: map<string, string>)
    ensures SeededClasses(rows, aliases).Keys
         == set row | row in rows && row.name !in aliases :: row.name
    ensures forall name :: name in SeededClasses(rows, aliases)
              ==> SeededClasses(rows, aliases)[name].seeded && SeededClasses(rows, aliases)[name].band.Some?
  {
    if rows != [] {
      var rest, last := rows[..|rows| - 1], rows[|rows| - 1];
      SeedingSkipsAliases(rest, aliases);
      assert rows == rest + [last];
      assert (set row | row in rows && row.name !in aliases :: row.name)
          == (set row | row in rest && row.name !in aliases :: row.name)
           + (if last.name in aliases then {} else {last.name});
    }
  }

  class ClassTable {
    var classes: map<string, Entry>
    var aliases: map<string, string>
    var scopedAliases: map<string, string>

    ghost function Value(): Table
      reads this
    {
      Table(classes, aliases, scopedAliases)
    }

    constructor (aliasRows: seq<(string, string)>, classRows: seq<BuiltinRow>)
      ensures Value() == Seeded(aliasRows, classRows)
    {
      classes, aliases, scopedAliases := map[], map[], map[];
      new;
      var at := 0;
      while at < |aliasRows|
        invariant 0 <= at <= |aliasRows|
        invariant Value() == Table(map[], SeededAliases(aliasRows[..at]), map[])
      {
        var row := aliasRows[at];
        AliasRowSeeds(aliasRows, at);
        if row.0 !in aliases {
          aliases := aliases[row.0 := row.1];
        }
        at := at + 1;
      }
      assert aliasRows[..at] == aliasRows;
      at := 0;
      while at < |classRows|
        invariant 0 <= at <= |classRows|
        invariant Value() == Table(
          SeededClasses(classRows[..at], SeededAliases(aliasRows)), SeededAliases(aliasRows), map[])
      {
        var row := classRows[at];
        ClassRowSeeds(classRows, SeededAliases(aliasRows), at);
        if row.name !in aliases {
          var bases := SeedBases(row.bases);
          var entry := if row.name in classes then classes[row.name] else Blank();
          classes := classes[row.name :=
            entry.(bases := entry.bases + bases, band := Some(row.band), seeded := true)];
        }
        at := at + 1;
      }
      assert classRows[..at] == classRows;
    }

    static method SeedBases(names: seq<string>) returns (bases: seq<Type>)
      ensures bases == SeededBases(names)
    {
      bases := [];
      var at := 0;
      while at < |names|
        invariant 0 <= at <= |names|
        invariant bases == SeededBases(names[..at])
      {
        assert names[..at + 1][..at] == names[..at];
        bases := bases + [BaseTypeForName(names[at])];
        at := at + 1;
      }
      assert names[..at] == names;
    }

    method CanonicalName(name: string) returns (canonical: string)
      ensures canonical == Canonical(Value(), name)
    {
      if name in scopedAliases {
        return scopedAliases[name];
      }
      if name in classes {
        return name;
      }
      return if name in aliases then aliases[name] else name;
    }

    method ShadowedName(name: string) returns (hidden: Option<string>)
      ensures hidden == Shadowed(Value(), name)
    {
      if name !in scopedAliases {
        return None;
      }
      if name in classes {
        return Some(name);
      }
      return if name in aliases then Some(aliases[name]) else None;
    }

    // --- declarations ----------------------------------------------------------

    // A class statement over a builtin's name starts afresh: none of the
    // builtin's entry is left.
    method Declare(name: string, bases: seq<Type>)
      modifies this`classes
      ensures Value() == old(Value()).(classes := old(classes)[name := Blank().(bases := bases)])
    {
      classes := classes[name := Entry(bases, map[], map[], None, false)];
    }

    // A class that was never declared is not made up.
    method DeclareMember(name: string, member: string, declared: Type, line: int)
      modifies this`classes
      ensures classes == if name !in old(classes) then old(classes)
        else old(classes)[name :=
          old(classes)[name].(members := old(classes)[name].members[member := Member(declared, line)])]
    {
      if name in classes {
        var entry := classes[name];
        classes := classes[name := entry.(members := entry.members[member := Member(declared, line)])];
      }
    }

    method DeclareMethod(name: string, method_: string, signature: Type)
      modifies this`classes
      ensures classes == if name !in old(classes) then old(classes)
        else old(classes)[name :=
          old(classes)[name].(methods := old(classes)[name].methods[method_ := signature])]
    {
      if name in classes {
        var entry := classes[name];
        classes := classes[name := entry.(methods := entry.methods[method_ := signature])];
      }
    }

    // Handing the result back to RestoreScopedAlias undoes the declaration.
    method DeclareScopedAlias(alias: string, target: string) returns (previous: Option<string>)
      modifies this`scopedAliases
      ensures Value() == WithScopedAlias(old(Value()), alias, target)
      ensures Restored(Value(), alias, previous) == old(Value())
    {
      previous := if alias in scopedAliases then Some(scopedAliases[alias]) else None;
      ghost var before := scopedAliases;
      scopedAliases := scopedAliases[alias := target];
      assert match previous
        case Some(was) => scopedAliases[alias := was] == before
        case None => scopedAliases - {alias} == before;
    }

    method RemoveScopedAlias(alias: string)
      modifies this`scopedAliases
      ensures Value() == WithoutScopedAlias(old(Value()), alias)
    {
      scopedAliases := scopedAliases - {alias};
    }

    // --- the walk --------------------------------------------------------------

    // `visited` is shared by the whole walk, and comes back grown.
    method WalkResolved<T>(resolved: string, visited: seq<string>, extract: Extract<T>)
      returns (found: Option<T>, seen: seq<string>)
      ensures found == FirstAnswer(Value(), extract, Fresh(Value(), resolved, visited))
      ensures found.None? ==> seen == Preorder(Value(), resolved, visited)
      decreases Unseen(Value(), visited), 0
    {
      ghost var table := Value();
      if resolved in visited {
        return None, visited;
      }
      seen := visited + [resolved];
      if resolved !in classes {
        FreshOfStranger(table, resolved, visited);
        return None, seen;
      }
      var entry := classes[resolved];
      ghost var start := seen;
      ghost var parents := Parents(table, resolved);
      VisitingMakesProgress(table, visited, resolved);
      FreshOfClassSplits(table, resolved, visited);
      FirstAnswerOfJoined(table, extract, [resolved], FreshOfAll(table, parents, start));

      found := extract(resolved, entry);
      if found.Some? {
        return;
      }
      var at := 0;
      while at < |entry.bases|
        invariant 0 <= at <= |entry.bases|
        invariant seen == PreorderOfAll(table, Keyed(table, entry.bases[..at]), start)
        invariant FirstAnswer(table, extract, FreshOfAll(table, Keyed(table, entry.bases[..at]), start)).None?
      {
        var key := BaseKey(entry.bases[at]);
        if key.Some? {
          WalkingOneBase(table, extract, entry.bases, at, start);
          VisitingNeverForgets(table, start, seen);
          found, seen := WalkChain(key.value, seen, extract);
          if found.Some? {
            return;
          }
        } else {
          OneBaseAtATime(table, entry.bases, at);
        }
        at := at + 1;
      }
      assert entry.bases[..at] == entry.bases;
      found := None;
    }

    method WalkChain<T>(name: string, visited: seq<string>, extract: Extract<T>)
      returns (found: Option<T>, seen: seq<string>)
      ensures found == FirstAnswer(Value(), extract, Fresh(Value(), Canonical(Value(), name), visited))
      ensures found.None? ==> seen == Preorder(Value(), Canonical(Value(), name), visited)
      decreases Unseen(Value(), visited), 1
    {
      var canonical := CanonicalName(name);
      found, seen := WalkResolved(canonical, visited, extract);
    }

    method QueryChain<T>(name: string, extract: Extract<T>) returns (found: Option<T>)
      ensures found == Query(Value(), extract, name)
    {
      var seen;
      found, seen := WalkChain(name, [], extract);
      if found.Some? {
        return;
      }
      var hidden := ShadowedName(name);
      if hidden.Some? {
        found, seen := WalkResolved(hidden.value, [], extract);
      }
    }

    // --- the queries -----------------------------------------------------------

    method MemberType(name: string, member: string) returns (found: Option<Type>)
      ensures found == Query(Value(), MemberTypeOf(member), name)
    {
      found := QueryChain(name, MemberTypeOf(member));
    }

    method MemberDeclaredLine(name: string, member: string) returns (found: Option<int>)
      ensures found == Query(Value(), MemberLineOf(member), name)
    {
      found := QueryChain(name, MemberLineOf(member));
    }

    method MethodType(name: string, method_: string) returns (found: Option<Type>)
      ensures found == Query(Value(), MethodOf(method_), name)
    {
      found := QueryChain(name, MethodOf(method_));
    }

    method InheritsBuiltin(name: string) returns (inherits: bool)
      ensures inherits <==> Query(Value(), IsBuiltinKind(), name) == Some(true)
    {
      var found := QueryChain(name, IsBuiltinKind());
      inherits := found.Some? && found.value;
    }

    method InheritsBuiltinClass(name: string) returns (inherits: bool)
      ensures inherits <==> Query(Value(), IsSeeded(), name) == Some(true)
    {
      var found := QueryChain(name, IsSeeded());
      inherits := found.Some? && found.value;
    }

    method InheritedMemberType(name: string, member: string) returns (found: Option<Type>)
      ensures found == InheritedMember(Value(), name, member)
    {
      hide FirstAnswer, PreorderOfAll, FreshOfAll;
      if name !in classes {
        return None;
      }
      ghost var table := Value();
      var entry := classes[name];
      var extract := MemberTypeOf(member);
      var visited := [name];
      var canonicalRoot := CanonicalName(name);
      if canonicalRoot != name {
        visited := visited + [canonicalRoot];
      }
      ghost var start := visited;
      assert start == RootSpellings(table, name);
      NoRootYet(table, extract, entry.bases, start);
      var at := 0;
      while at < |entry.bases|
        invariant 0 <= at <= |entry.bases|
        invariant visited == PreorderOfAll(table, InheritedRoots(table, entry.bases[..at]), start)
        invariant FirstAnswer(
          table, extract, FreshOfAll(table, InheritedRoots(table, entry.bases[..at]), start)).None?
      {
        WalkingOneRoot(table, extract, entry.bases, at, start);
        found, visited := WalkBase(entry.bases[at], visited, extract);
        if found.Some? {
          return;
        }
        at := at + 1;
      }
      assert entry.bases[..at] == entry.bases;
      found := None;
    }

    // One turn of the loop above: a base, then what its name would otherwise
    // have meant.
    method WalkBase<T>(base: Type, visited: seq<string>, extract: Extract<T>)
      returns (found: Option<T>, seen: seq<string>)
      ensures found == FirstAnswer(Value(), extract, FreshOfAll(Value(), BaseRoots(Value(), base), visited))
      ensures found.None? ==> seen == PreorderOfAll(Value(), BaseRoots(Value(), base), visited)
    {
      ghost var table := Value();
      var key := BaseKey(base);
      if key.None? {
        return None, visited;
      }
      ghost var canonical := Canonical(table, key.value);
      FreshOfOne(table, canonical, visited);
      found, seen := WalkChain(key.value, visited, extract);
      var hidden := ShadowedName(key.value);
      if hidden.Some? {
        AnswerOfJoinedRoots(table, extract, [canonical], [hidden.value], visited);
        PreorderOfJoined(table, [canonical], [hidden.value], visited);
        assert [canonical] + [hidden.value] == BaseRoots(table, base);
        if found.None? {
          FreshOfOne(table, hidden.value, seen);
          found, seen := WalkResolved(hidden.value, seen, extract);
        }
      }
    }

    method FindBuiltinArity(resolved: string) returns (band: Option<Band>)
      ensures band == FirstAnswer(
        Value(), BandFor(resolved), Preorder(Value(), Canonical(Value(), resolved), []))
    {
      var seen;
      band, seen := WalkChain(resolved, [], BandFor(resolved));
    }

    static method WithoutSelfAndReturn(args: seq<Type>) returns (parameters: seq<Type>)
      ensures |args| < 2 ==> parameters == []
      ensures |args| >= 2 ==> [args[0]] + parameters + [args[|args| - 1]] == args
    {
      parameters := [];
      var i := 1;
      while i + 1 < |args|
        invariant 1 <= i
        invariant i + 1 <= |args| || i == 1
        invariant parameters == if |args| < 2 then [] else args[1..i]
      {
        parameters := parameters + [args[i]];
        i := i + 1;
      }
    }

    method ConstructorTypeOf(name: string) returns (constructorType: Type)
      ensures constructorType == ConstructorType(Value(), name)
    {
      var resolved := CanonicalName(name);
      var init, seen := WalkChain(resolved, [], MethodOf("__init__"));
      var parameters: seq<Type>, defaulted: nat := [], 0;
      if init.Some? {
        parameters := WithoutSelfAndReturn(init.value.args);
        defaulted := if init.value.defaulted < |parameters| then init.value.defaulted else |parameters|;
      } else {
        var band := FindBuiltinArity(resolved);
        if band.Some? && band.value.Between? {
          parameters := seq(band.value.most, _ => Plain(UnknownKind));
          defaulted := band.value.most - band.value.fewest;
        }
      }
      constructorType := Type(CallableKind, "", parameters + [ClassOf(resolved)], defaulted);
    }

    method ConstructorCheckOf(name: string) returns (check: ConstructorCheck)
      ensures check == CheckOf(Value(), name)
    {
      var resolved := CanonicalName(name);
      var reached, seen := WalkChain(resolved, [], Settles());
      if reached == Some(DeclaredInit) {
        return Checked;
      }
      if reached == Some(BuiltinKindBase) {
        return Unmodellable;
      }
      var declaredNew;
      declaredNew, seen := WalkChain(resolved, [], MethodOf("__new__"));
      if declaredNew.Some? {
        return Unchecked;
      }
      var band := FindBuiltinArity(resolved);
      if reached.None? {
        return if band == Some(AnyNumber) then Unchecked else Checked;
      }
      return if band.Some? && band.value.Between? then Checked else Unchecked;
    }
  }
}
