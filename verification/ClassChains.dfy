// The class map and the walk over base chains. A class map may be any graph,
// cyclic ones included: nothing stops two classes naming each other as bases.
module ClassChains {
  import opened Options

  datatype TypeKind =
    | UnknownKind | NoneKind | BoolKind | IntKind | FloatKind | ComplexKind | StrKind | BytesKind | ByteArrayKind
    | EllipsisKind | ListKind | DictKind | SetKind | FrozenSetKind | TupleKind | RangeKind
    | UnionKind | CallableKind | ClassKind | ObjectKind

  // A callable's arguments are its parameters followed by its return type;
  // `defaulted` counts the trailing parameters that have a default.
  datatype Type = Type(kind: TypeKind, name: string, args: seq<Type>, defaulted: nat)

  datatype Member = Member(declared: Type, line: int)

  // How many arguments a builtin's constructor takes.
  datatype Arity = AnyNumber | Between(fewest: nat, most: nat)

  type Band = arity: Arity | arity.Between? ==> arity.fewest <= arity.most
    witness AnyNumber

  datatype Entry = Entry(
    bases: seq<Type>,
    members: map<string, Member>,
    methods: map<string, Type>,
    band: Option<Band>,
    seeded: bool)

  // `aliases` is permanent; `scoped` holds the aliases of the blocks being
  // walked, and outranks everything.
  datatype Table = Table(classes: map<string, Entry>, aliases: map<string, string>, scoped: map<string, string>)

  type Extract<T> = (string, Entry) -> Option<T>

  function Plain(kind: TypeKind): Type {
    Type(kind, "", [], 0)
  }

  function ClassOf(name: string): Type {
    Type(ClassKind, name, [], 0)
  }

  function BuiltinSpelling(kind: TypeKind): Option<string> {
    match kind
    case BoolKind => Some("bool")
    case ByteArrayKind => Some("bytearray")
    case BytesKind => Some("bytes")
    case ComplexKind => Some("complex")
    case DictKind => Some("dict")
    case FloatKind => Some("float")
    case FrozenSetKind => Some("frozenset")
    case IntKind => Some("int")
    case ListKind => Some("list")
    case ObjectKind => Some("object")
    case RangeKind => Some("range")
    case SetKind => Some("set")
    case StrKind => Some("str")
    case TupleKind => Some("tuple")
    case _ => None
  }

  function BuiltinKind(name: string): Option<TypeKind> {
    if name == "bool" then Some(BoolKind)
    else if name == "bytearray" then Some(ByteArrayKind)
    else if name == "bytes" then Some(BytesKind)
    else if name == "complex" then Some(ComplexKind)
    else if name == "dict" then Some(DictKind)
    else if name == "float" then Some(FloatKind)
    else if name == "frozenset" then Some(FrozenSetKind)
    else if name == "int" then Some(IntKind)
    else if name == "list" then Some(ListKind)
    else if name == "object" then Some(ObjectKind)
    else if name == "range" then Some(RangeKind)
    else if name == "set" then Some(SetKind)
    else if name == "str" then Some(StrKind)
    else if name == "tuple" then Some(TupleKind)
    else None
  }

  function BaseKey(base: Type): Option<string> {
    if base.kind == ClassKind then Some(base.name) else BuiltinSpelling(base.kind)
  }

  function BaseTypeForName(name: string): Type {
    match BuiltinKind(name)
    case Some(kind) => Plain(kind)
    case None => ClassOf(name)
  }

  // A seeded base is looked up under the very name it was seeded with,
  // whether or not the name is a modelled kind.
  lemma SeededBasesKeepTheirNames(name: string)
    ensures BaseKey(BaseTypeForName(name)) == Some(name)
  {
  }

  function Canonical(table: Table, name: string): string {
    if name in table.scoped then table.scoped[name]
    else if name in table.classes then name
    else if name in table.aliases then table.aliases[name]
    else name
  }

  // What the name would have meant without its scoped alias, when it has one
  // and the alias hides something.
  function Shadowed(table: Table, name: string): Option<string> {
    if name !in table.scoped then None
    else if name in table.classes then Some(name)
    else if name in table.aliases then Some(table.aliases[name])
    else None
  }

  // The classes that the walk moves on to, in order. A base that denotes no
  // class is passed over.
  function Keyed(table: Table, bases: seq<Type>): seq<string> {
    if bases == [] then []
    else
      var rest := Keyed(table, bases[1..]);
      match BaseKey(bases[0])
      case Some(key) => [Canonical(table, key)] + rest
      case None => rest
  }

  function Parents(table: Table, name: string): seq<string> {
    if name in table.classes then Keyed(table, table.classes[name].bases) else []
  }

  // Termination: what the map holds and the walk has not visited.
  function Elements(names: seq<string>): set<string> {
    set name | name in names
  }

  function Unseen(table: Table, visited: seq<string>): nat {
    |table.classes.Keys - Elements(visited)|
  }

  lemma SubsetIsNoLarger<T>(small: set<T>, large: set<T>)
    requires small <= large
    ensures |small| <= |large|
    ensures small != large ==> |small| < |large|
  {
    assert large == small + (large - small);
    if small != large {
      assert exists x :: x in large - small;
    }
  }

  lemma VisitingNeverForgets(table: Table, before: seq<string>, after: seq<string>)
    requires before <= after
    ensures Unseen(table, after) <= Unseen(table, before)
  {
    forall name | name in before ensures name in after {
      var i :| 0 <= i < |before| && before[i] == name;
      assert after[i] == name;
    }
    SubsetIsNoLarger(table.classes.Keys - Elements(after), table.classes.Keys - Elements(before));
  }

  lemma VisitingMakesProgress(table: Table, visited: seq<string>, name: string)
    requires name in table.classes && name !in visited
    ensures Unseen(table, visited + [name]) < Unseen(table, visited)
  {
    assert name in visited + [name];
    var small, large := table.classes.Keys - Elements(visited + [name]), table.classes.Keys - Elements(visited);
    assert name in large && name !in small;
    assert small <= large;
    SubsetIsNoLarger(small, large);
  }

  // The names visited by a depth-first walk from `name`, left to right, each
  // once, after those `visited` already.
  function Preorder(table: Table, name: string, visited: seq<string>): (order: seq<string>)
    ensures visited <= order
    ensures name in order
    decreases Unseen(table, visited), 0
  {
    if name in visited then visited
    else if name !in table.classes then visited + [name]
    else
      VisitingMakesProgress(table, visited, name);
      var order := PreorderOfAll(table, Parents(table, name), visited + [name]);
      assert order[|visited|] == name;
      order
  }

  function PreorderOfAll(table: Table, names: seq<string>, visited: seq<string>): (order: seq<string>)
    ensures visited <= order
    decreases Unseen(table, visited), |names|
  {
    if names == [] then visited
    else
      var first := Preorder(table, names[0], visited);
      VisitingNeverForgets(table, visited, first);
      PreorderOfAll(table, names[1..], first)
  }

  function Answer<T>(table: Table, extract: Extract<T>, name: string): Option<T> {
    if name in table.classes then extract(name, table.classes[name]) else None
  }

  // The first of the names whose entry answers.
  function Answerer<T>(table: Table, extract: Extract<T>, names: seq<string>): (found: Option<string>)
    ensures found.None? <==> forall name :: name in names ==> Answer(table, extract, name).None?
    ensures found.Some? ==> found.value in names && Answer(table, extract, found.value).Some?
  {
    if names == [] then None
    else if Answer(table, extract, names[0]).Some? then Some(names[0])
    else Answerer(table, extract, names[1..])
  }

  function FirstAnswer<T>(table: Table, extract: Extract<T>, names: seq<string>): Option<T> {
    match Answerer(table, extract, names)
    case Some(name) => Answer(table, extract, name)
    case None => None
  }

  // The names that a walk from `name` adds to the visited ones.
  function Fresh(table: Table, name: string, visited: seq<string>): seq<string> {
    Preorder(table, name, visited)[|visited|..]
  }

  function FreshOfAll(table: Table, names: seq<string>, visited: seq<string>): seq<string> {
    PreorderOfAll(table, names, visited)[|visited|..]
  }

  // --- first answers over joined lists ---------------------------------------

  lemma {:induction false} AnswererOfJoined<T>(
    table: Table, extract: Extract<T>, left: seq<string>, right: seq<string>)
    ensures Answerer(table, extract, left + right)
         == if Answerer(table, extract, left).Some? then Answerer(table, extract, left)
            else Answerer(table, extract, right)
  {
    if left == [] {
      assert left + right == right;
    } else {
      assert (left + right)[0] == left[0];
      assert (left + right)[1..] == left[1..] + right;
      AnswererOfJoined(table, extract, left[1..], right);
    }
  }

  lemma FirstAnswerOfJoined<T>(table: Table, extract: Extract<T>, left: seq<string>, right: seq<string>)
    ensures FirstAnswer(table, extract, left + right)
         == if FirstAnswer(table, extract, left).Some? then FirstAnswer(table, extract, left)
            else FirstAnswer(table, extract, right)
  {
    AnswererOfJoined(table, extract, left, right);
  }

  // Everything before the answering name is silent.
  lemma {:induction false} NothingAnswersEarlier<T>(table: Table, extract: Extract<T>, names: seq<string>)
    returns (at: nat)
    requires Answerer(table, extract, names).Some?
    ensures at < |names| && names[at] == Answerer(table, extract, names).value
    ensures forall k :: 0 <= k < at ==> Answer(table, extract, names[k]).None?
  {
    if Answer(table, extract, names[0]).Some? {
      at := 0;
    } else {
      var later := NothingAnswersEarlier(table, extract, names[1..]);
      at := later + 1;
      forall k | 0 <= k < at ensures Answer(table, extract, names[k]).None? {
        if k > 0 {
          assert names[k] == names[1..][k - 1];
        }
      }
    }
  }

  // Two queries that answer at the same entries are answered by the same one.
  lemma {:induction false} SameAnswerer<S, T>(
    table: Table, left: Extract<S>, right: Extract<T>, names: seq<string>)
    requires forall name :: name in names
               ==> (Answer(table, left, name).Some? <==> Answer(table, right, name).Some?)
    ensures Answerer(table, left, names) == Answerer(table, right, names)
  {
    if names != [] {
      assert names[0] in names;
      SameAnswerer(table, left, right, names[1..]);
    }
  }

  // --- how fresh names split ---------------------------------------------------

  lemma Rejoin(whole: seq<string>, middle: seq<string>, start: seq<string>)
    requires start <= middle <= whole
    ensures whole[|start|..] == middle[|start|..] + whole[|middle|..]
  {
  }

  lemma FreshOfAllSplits(table: Table, names: seq<string>, visited: seq<string>)
    requires names != []
    ensures FreshOfAll(table, names, visited)
         == Fresh(table, names[0], visited)
          + FreshOfAll(table, names[1..], Preorder(table, names[0], visited))
  {
    var first := Preorder(table, names[0], visited);
    Rejoin(PreorderOfAll(table, names[1..], first), first, visited);
  }

  lemma FreshOfClassSplits(table: Table, name: string, visited: seq<string>)
    requires name !in visited && name in table.classes
    ensures Fresh(table, name, visited)
         == [name] + FreshOfAll(table, Parents(table, name), visited + [name])
  {
    var seen := visited + [name];
    Rejoin(PreorderOfAll(table, Parents(table, name), seen), seen, visited);
    assert seen[|visited|..] == [name];
  }

  lemma FreshOfStranger(table: Table, name: string, visited: seq<string>)
    requires name !in visited && name !in table.classes
    ensures Fresh(table, name, visited) == [name]
  {
  }

  lemma {:induction false} PreorderOfJoined(
    table: Table, left: seq<string>, right: seq<string>, visited: seq<string>)
    ensures PreorderOfAll(table, left + right, visited)
         == PreorderOfAll(table, right, PreorderOfAll(table, left, visited))
    decreases |left|
  {
    if left == [] {
      assert left + right == right;
    } else {
      assert (left + right)[0] == left[0];
      assert (left + right)[1..] == left[1..] + right;
      PreorderOfJoined(table, left[1..], right, Preorder(table, left[0], visited));
    }
  }

  // --- the walk visits each reachable name once, and no other -----------------

  ghost predicate Distinct(names: seq<string>) {
    forall i, j :: 0 <= i < j < |names| ==> names[i] != names[j]
  }

  lemma {:induction false} EachNameOnce(table: Table, name: string, visited: seq<string>)
    requires Distinct(visited)
    ensures Distinct(Preorder(table, name, visited))
    decreases Unseen(table, visited), 0
  {
    if name !in visited {
      assert Distinct(visited + [name]);
      if name in table.classes {
        VisitingMakesProgress(table, visited, name);
        EachNameOnceInAll(table, Parents(table, name), visited + [name]);
      }
    }
  }

  lemma {:induction false} EachNameOnceInAll(table: Table, names: seq<string>, visited: seq<string>)
    requires Distinct(visited)
    ensures Distinct(PreorderOfAll(table, names, visited))
    decreases Unseen(table, visited), |names|
  {
    if names != [] {
      var first := Preorder(table, names[0], visited);
      EachNameOnce(table, names[0], visited);
      VisitingNeverForgets(table, visited, first);
      EachNameOnceInAll(table, names[1..], first);
    }
  }

  // Every parent of `name` has been visited.
  ghost predicate Finished(table: Table, name: string, visited: seq<string>) {
    forall parent :: parent in Parents(table, name) ==> parent in visited
  }

  lemma FinishedStaysFinished(table: Table, name: string, before: seq<string>, after: seq<string>)
    requires before <= after && Finished(table, name, before)
    ensures Finished(table, name, after)
  {
    forall parent | parent in Parents(table, name) ensures parent in after {
      var i :| 0 <= i < |before| && before[i] == parent;
      assert after[i] == parent;
    }
  }

  lemma {:induction false} WalkFinishesItsNames(table: Table, name: string, visited: seq<string>)
    ensures forall n :: n in Fresh(table, name, visited) ==> Finished(table, n, Preorder(table, name, visited))
    decreases Unseen(table, visited), 0
  {
    if name !in visited && name in table.classes {
      VisitingMakesProgress(table, visited, name);
      WalkFinishesAll(table, Parents(table, name), visited + [name]);
      FreshOfClassSplits(table, name, visited);
    }
  }

  lemma {:induction false} WalkFinishesAll(table: Table, names: seq<string>, visited: seq<string>)
    ensures forall n :: n in names ==> n in PreorderOfAll(table, names, visited)
    ensures forall n :: n in FreshOfAll(table, names, visited)
              ==> Finished(table, n, PreorderOfAll(table, names, visited))
    decreases Unseen(table, visited), |names|
  {
    if names != [] {
      var first := Preorder(table, names[0], visited);
      var order := PreorderOfAll(table, names, visited);
      VisitingNeverForgets(table, visited, first);
      WalkFinishesItsNames(table, names[0], visited);
      WalkFinishesAll(table, names[1..], first);
      FreshOfAllSplits(table, names, visited);
      assert names[0] in order by {
        var i :| 0 <= i < |first| && first[i] == names[0];
        assert order[i] == names[0];
      }
      forall n | n in Fresh(table, names[0], visited) ensures Finished(table, n, order) {
        FinishedStaysFinished(table, n, first, order);
      }
    }
  }

  // A chain of bases leading from one name to another.
  ghost predicate IsChain(table: Table, chain: seq<string>) {
    && chain != []
    && forall i :: 0 <= i < |chain| - 1 ==> chain[i + 1] in Parents(table, chain[i])
  }

  ghost predicate Reaches(table: Table, from: string, target: string) {
    exists chain :: IsChain(table, chain) && chain[0] == from && chain[|chain| - 1] == target
  }

  lemma ReachesItself(table: Table, name: string)
    ensures Reaches(table, name, name)
  {
    assert IsChain(table, [name]);
  }

  lemma ReachesThroughParent(table: Table, name: string, parent: string, target: string)
    requires parent in Parents(table, name) && Reaches(table, parent, target)
    ensures Reaches(table, name, target)
  {
    var chain :| IsChain(table, chain) && chain[0] == parent && chain[|chain| - 1] == target;
    var longer := [name] + chain;
    forall i | 0 <= i < |longer| - 1 ensures longer[i + 1] in Parents(table, longer[i]) {
      if i > 0 {
        assert chain[i - 1 + 1] in Parents(table, chain[i - 1]);
      }
    }
    assert IsChain(table, longer);
  }

  lemma {:induction false} OnlyReachableNamesAreVisited(table: Table, name: string, visited: seq<string>)
    ensures forall n :: n in Fresh(table, name, visited) ==> Reaches(table, name, n)
    decreases Unseen(table, visited), 0
  {
    ReachesItself(table, name);
    if name !in visited && name in table.classes {
      VisitingMakesProgress(table, visited, name);
      FreshOfClassSplits(table, name, visited);
      var parents := Parents(table, name);
      OnlyReachableInAll(table, parents, visited + [name]);
      forall n | n in Fresh(table, name, visited) ensures Reaches(table, name, n) {
        if n != name {
          assert n in FreshOfAll(table, parents, visited + [name]);
          var parent :| parent in parents && Reaches(table, parent, n);
          ReachesThroughParent(table, name, parent, n);
        }
      }
    }
  }

  lemma {:induction false} OnlyReachableInAll(table: Table, names: seq<string>, visited: seq<string>)
    ensures forall n :: n in FreshOfAll(table, names, visited)
              ==> exists from :: from in names && Reaches(table, from, n)
    decreases Unseen(table, visited), |names|
  {
    if names != [] {
      var first := Preorder(table, names[0], visited);
      VisitingNeverForgets(table, visited, first);
      OnlyReachableNamesAreVisited(table, names[0], visited);
      OnlyReachableInAll(table, names[1..], first);
      FreshOfAllSplits(table, names, visited);
      forall n | n in FreshOfAll(table, names, visited)
        ensures exists from :: from in names && Reaches(table, from, n)
      {
        if n in Fresh(table, names[0], visited) {
          assert names[0] in names && Reaches(table, names[0], n);
        } else {
          var from :| from in names[1..] && Reaches(table, from, n);
          assert from in names;
        }
      }
    }
  }

  lemma {:induction false} ChainsStayVisited(table: Table, chain: seq<string>, visited: seq<string>)
    requires IsChain(table, chain) && chain[0] in visited
    requires forall n :: n in visited ==> Finished(table, n, visited)
    ensures chain[|chain| - 1] in visited
    decreases |chain|
  {
    if |chain| > 1 {
      assert chain[0 + 1] in Parents(table, chain[0]);
      var rest := chain[1..];
      forall i | 0 <= i < |rest| - 1 ensures rest[i + 1] in Parents(table, rest[i]) {
        assert chain[(i + 1) + 1] in Parents(table, chain[i + 1]);
      }
      ChainsStayVisited(table, rest, visited);
    }
  }

  // A walk from a root visits exactly what the root reaches, whatever cycles
  // the map holds.
  lemma WalkVisitsTheReachable(table: Table, root: string, name: string)
    ensures name in Preorder(table, root, []) <==> Reaches(table, root, name)
  {
    var order := Preorder(table, root, []);
    assert Fresh(table, root, []) == order;
    OnlyReachableNamesAreVisited(table, root, []);
    WalkFinishesItsNames(table, root, []);
    if Reaches(table, root, name) {
      var chain :| IsChain(table, chain) && chain[0] == root && chain[|chain| - 1] == name;
      ChainsStayVisited(table, chain, order);
    }
  }

  lemma AnsweredExactlyWhenReachable<T>(table: Table, extract: Extract<T>, root: string)
    ensures FirstAnswer(table, extract, Preorder(table, root, [])).Some?
       <==> exists name :: Reaches(table, root, name) && Answer(table, extract, name).Some?
  {
    var order := Preorder(table, root, []);
    forall name ensures name in order <==> Reaches(table, root, name) {
      WalkVisitsTheReachable(table, root, name);
    }
  }

  // --- sharing the visited list changes no answer ------------------------------

  // The plain reading of "own entry, then each base in turn": it guards only
  // against its own path, and walks a shared ancestor again every time.
  function PathWalk<T>(table: Table, extract: Extract<T>, name: string, path: seq<string>): Option<T>
    decreases Unseen(table, path), 0
  {
    if name in path || name !in table.classes then None
    else if Answer(table, extract, name).Some? then Answer(table, extract, name)
    else
      VisitingMakesProgress(table, path, name);
      PathWalkAll(table, extract, Parents(table, name), path + [name])
  }

  function PathWalkAll<T>(table: Table, extract: Extract<T>, names: seq<string>, path: seq<string>): Option<T>
    decreases Unseen(table, path), |names|
  {
    if names == [] then None
    else
      var first := PathWalk(table, extract, names[0], path);
      if first.Some? then first else PathWalkAll(table, extract, names[1..], path)
  }

  // What the shared list means half way through: nothing visited answers, and
  // whatever is visited but not on the path is done with.
  ghost predicate Explored<T>(table: Table, extract: Extract<T>, path: seq<string>, visited: seq<string>) {
    && (forall n :: n in path ==> n in visited)
    && (forall n :: n in visited ==> Answer(table, extract, n).None?)
    && (forall n :: n in visited && n !in path ==> Finished(table, n, visited))
  }

  lemma {:induction false} VisitedNamesAreSilent<T>(
    table: Table, extract: Extract<T>, name: string, path: seq<string>, visited: seq<string>)
    requires Explored(table, extract, path, visited) && name in visited
    ensures PathWalk(table, extract, name, path).None?
    decreases Unseen(table, path), 0
  {
    if name !in path && name in table.classes {
      VisitingMakesProgress(table, path, name);
      assert Explored(table, extract, path + [name], visited);
      AllVisitedAreSilent(table, extract, Parents(table, name), path + [name], visited);
    }
  }

  lemma {:induction false} AllVisitedAreSilent<T>(
    table: Table, extract: Extract<T>, names: seq<string>, path: seq<string>, visited: seq<string>)
    requires Explored(table, extract, path, visited)
    requires forall n :: n in names ==> n in visited
    ensures PathWalkAll(table, extract, names, path).None?
    decreases Unseen(table, path), |names|
  {
    if names != [] {
      assert names[0] in visited;
      VisitedNamesAreSilent(table, extract, names[0], path, visited);
      AllVisitedAreSilent(table, extract, names[1..], path, visited);
    }
  }

  lemma SilentWalkIsExplored<T>(
    table: Table, extract: Extract<T>, name: string, path: seq<string>, visited: seq<string>)
    requires Explored(table, extract, path, visited)
    requires FirstAnswer(table, extract, Fresh(table, name, visited)).None?
    ensures Explored(table, extract, path, Preorder(table, name, visited))
  {
    var order := Preorder(table, name, visited);
    var added := Fresh(table, name, visited);
    assert order == visited + added;
    WalkFinishesItsNames(table, name, visited);
    forall n | n in order && n !in path ensures Finished(table, n, order) {
      if n !in added {
        FinishedStaysFinished(table, n, visited, order);
      }
    }
  }

  lemma {:induction false} SharingKeepsTheAnswer<T>(
    table: Table, extract: Extract<T>, name: string, path: seq<string>, visited: seq<string>)
    requires Explored(table, extract, path, visited)
    ensures FirstAnswer(table, extract, Fresh(table, name, visited)) == PathWalk(table, extract, name, path)
    decreases Unseen(table, visited), 0
  {
    if name in visited {
      VisitedNamesAreSilent(table, extract, name, path, visited);
    } else if name !in table.classes {
      FreshOfStranger(table, name, visited);
    } else {
      var seen := visited + [name];
      var parents := Parents(table, name);
      FreshOfClassSplits(table, name, visited);
      FirstAnswerOfJoined(table, extract, [name], FreshOfAll(table, parents, seen));
      if Answer(table, extract, name).None? {
        VisitingMakesProgress(table, visited, name);
        forall n | n in seen && n !in path + [name] ensures Finished(table, n, seen) {
          FinishedStaysFinished(table, n, visited, seen);
        }
        SharingKeepsTheAnswers(table, extract, parents, path + [name], seen);
      }
    }
  }

  lemma {:induction false} SharingKeepsTheAnswers<T>(
    table: Table, extract: Extract<T>, names: seq<string>, path: seq<string>, visited: seq<string>)
    requires Explored(table, extract, path, visited)
    ensures FirstAnswer(table, extract, FreshOfAll(table, names, visited))
         == PathWalkAll(table, extract, names, path)
    decreases Unseen(table, visited), |names|
  {
    if names != [] {
      var first := Preorder(table, names[0], visited);
      var later := FreshOfAll(table, names[1..], first);
      SharingKeepsTheAnswer(table, extract, names[0], path, visited);
      FreshOfAllSplits(table, names, visited);
      FirstAnswerOfJoined(table, extract, Fresh(table, names[0], visited), later);
      if FirstAnswer(table, extract, Fresh(table, names[0], visited)).None? {
        SilentWalkIsExplored(table, extract, names[0], path, visited);
        VisitingNeverForgets(table, visited, first);
        SharingKeepsTheAnswers(table, extract, names[1..], path, first);
      }
    }
  }

  // On every class map, walking each name once finds what the plain walk finds.
  lemma WalkIsFirstBaseWins<T>(table: Table, extract: Extract<T>, root: string)
    ensures FirstAnswer(table, extract, Preorder(table, root, [])) == PathWalk(table, extract, root, [])
  {
    assert Fresh(table, root, []) == Preorder(table, root, []);
    SharingKeepsTheAnswer(table, extract, root, [], []);
  }
}
