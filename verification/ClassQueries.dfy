// What the queries over base chains promise each other.
module ClassQueries {
  import opened Options
  import opened ClassChains
  import opened ClassTables

  // --- attributes ----------------------------------------------------------------

  // A query answers exactly when some class answers that the name reaches,
  // read either as it stands or as it would be without its scoped alias.
  lemma QueryAnswersExactlyWhenReachable<T>(table: Table, extract: Extract<T>, name: string)
    ensures Query(table, extract, name).Some?
       <==> exists root, target :: (root == Canonical(table, name) || Shadowed(table, name) == Some(root))
                                && Reaches(table, root, target) && Answer(table, extract, target).Some?
  {
    AnsweredExactlyWhenReachable(table, extract, Canonical(table, name));
    if Shadowed(table, name).Some? {
      AnsweredExactlyWhenReachable(table, extract, Shadowed(table, name).value);
    }
  }

  lemma SameMiss<S, T>(table: Table, left: Extract<S>, right: Extract<T>, root: string)
    requires forall name, entry :: left(name, entry).Some? <==> right(name, entry).Some?
    ensures FirstAnswer(table, left, Preorder(table, root, [])).Some?
       <==> FirstAnswer(table, right, Preorder(table, root, [])).Some?
    ensures Answerer(table, left, Preorder(table, root, [])) == Answerer(table, right, Preorder(table, root, []))
  {
    SameAnswerer(table, left, right, Preorder(table, root, []));
  }

  // A caller that sees a line may read the type: the two hit together, on one
  // and the same member.
  lemma TypeAndLineInLockstep(table: Table, name: string, member: string)
    ensures Query(table, MemberTypeOf(member), name).Some? <==> Query(table, MemberLineOf(member), name).Some?
    ensures Query(table, MemberTypeOf(member), name).Some?
        ==> exists class_ :: class_ in table.classes && member in table.classes[class_].members
                && Query(table, MemberTypeOf(member), name)
                     == Some(table.classes[class_].members[member].declared)
                && Query(table, MemberLineOf(member), name)
                     == Some(table.classes[class_].members[member].line)
  {
    var types, lines := MemberTypeOf(member), MemberLineOf(member);
    SameMiss(table, types, lines, Canonical(table, name));
    var answerer := Answerer(table, types, Preorder(table, Canonical(table, name), []));
    if answerer.Some? {
      assert answerer.value in table.classes;
    } else if Shadowed(table, name).Some? {
      SameMiss(table, types, lines, Shadowed(table, name).value);
      var behind := Answerer(table, types, Preorder(table, Shadowed(table, name).value, []));
      if behind.Some? {
        assert behind.value in table.classes;
      }
    }
  }

  // An alias no class has taken is its target under another spelling.
  lemma AliasIsItsTarget<T>(table: Table, extract: Extract<T>, alias: string)
    requires alias in table.aliases && alias !in table.classes && alias !in table.scoped
    requires var target := table.aliases[alias];
             target !in table.scoped && (target in table.classes || target !in table.aliases)
    ensures Query(table, extract, alias) == Query(table, extract, table.aliases[alias])
    ensures ConstructorChain(table, alias) == ConstructorChain(table, table.aliases[alias])
  {
    assert Canonical(table, alias) == Canonical(table, table.aliases[alias]);
  }

  // --- inherited members ---------------------------------------------------------

  // Answers for every class but the ones given.
  function Others<T>(extract: Extract<T>, excluded: seq<string>): Extract<T> {
    (name: string, entry: Entry) => if name in excluded then None else extract(name, entry)
  }

  lemma FreshNamesAreNew(table: Table, names: seq<string>, visited: seq<string>, name: string)
    requires Distinct(visited) && name in visited
    ensures name !in FreshOfAll(table, names, visited)
  {
    EachNameOnceInAll(table, names, visited);
    var order := PreorderOfAll(table, names, visited);
    var i :| 0 <= i < |visited| && visited[i] == name;
    assert order[i] == name;
    forall j | 0 <= j < |order| - |visited| ensures order[|visited|..][j] != name {
      assert order[|visited|..][j] == order[|visited| + j];
    }
  }

  // The inherited member is what a first-base-wins walk of the bases finds
  // when it must pass over the class itself, under either spelling, however
  // often the chain leads back to it.
  lemma InheritedLooksPastTheClass(table: Table, name: string, member: string)
    requires name in table.classes
    ensures var roots := InheritedRoots(table, table.classes[name].bases);
            var spellings := RootSpellings(table, name);
            InheritedMember(table, name, member)
              == PathWalkAll(table, Others(MemberTypeOf(member), spellings), roots, spellings)
  {
    var extract := MemberTypeOf(member);
    var roots, spellings := InheritedRoots(table, table.classes[name].bases), RootSpellings(table, name);
    var others := Others(extract, spellings);
    var added := FreshOfAll(table, roots, spellings);
    forall n | n in added ensures Answer(table, extract, n) == Answer(table, others, n) {
      if n in spellings {
        FreshNamesAreNew(table, roots, spellings, n);
      }
    }
    SameAnswerer(table, extract, others, added);
    SharingKeepsTheAnswers(table, others, roots, spellings, spellings);
  }

  // --- constructors ----------------------------------------------------------------

  lemma {:induction false} SettledByInit(table: Table, names: seq<string>)
    ensures FirstAnswer(table, Settles(), names) == Some(DeclaredInit)
       <==> (Answerer(table, Settles(), names).Some?
             && Answerer(table, Settles(), names) == Answerer(table, MethodOf("__init__"), names))
    ensures Answerer(table, Settles(), names).None? ==> Answerer(table, MethodOf("__init__"), names).None?
    ensures FirstAnswer(table, Settles(), names) == Some(DeclaredInit)
        ==> Answerer(table, MethodOf("__init__"), names).Some?
  {
    if names != [] && Answer(table, Settles(), names[0]).None? {
      SettledByInit(table, names[1..]);
    }
  }

  // The check stops at a declared __init__ exactly when that is the entry the
  // signature is built from: no exception base and no builtin base comes first.
  lemma CheckAndTypeMeetAtTheSameInit(table: Table, name: string)
    ensures ReachedBy(table, name) == Some(DeclaredInit)
       <==> (Answerer(table, Settles(), ConstructorChain(table, name)).Some?
             && Answerer(table, Settles(), ConstructorChain(table, name))
                  == Answerer(table, MethodOf("__init__"), ConstructorChain(table, name)))
    ensures ReachedBy(table, name) == Some(DeclaredInit)
        ==> BuiltFrom(table, name) == Signature(Answerer(table, Settles(), ConstructorChain(table, name)).value)
  {
    SettledByInit(table, ConstructorChain(table, name));
  }

  // Some class that the name reaches declares an __init__.
  ghost predicate DeclaresInit(table: Table, name: string) {
    exists class_ :: Reaches(table, Canonical(table, Canonical(table, name)), class_)
                  && Answer(table, MethodOf("__init__"), class_).Some?
  }

  // A Checked constructor is checked against the signature that settled the
  // check, unless the walk stopped at BaseException and an __init__ waits on a
  // base further along: then the check rests on the builtin's arity while the
  // signature comes from that __init__.
  lemma CheckedMeansTheSignatureThatSettledIt(table: Table, name: string)
    requires CheckOf(table, name) == Checked
    ensures BuiltFrom(table, name) == CheckedAgainst(table, name)
       <==> !(ReachedBy(table, name) == Some(BaseExceptionBase) && DeclaresInit(table, name))
  {
    var root, chain := Canonical(table, Canonical(table, name)), ConstructorChain(table, name);
    SettledByInit(table, chain);
    AnsweredExactlyWhenReachable(table, MethodOf("__init__"), root);
  }

  // How many arguments a constructor's signature takes, when nothing declares
  // an __init__: any number in the builtin's band, or none.
  lemma UndeclaredConstructorTakesTheBand(table: Table, name: string)
    requires !DeclaresInit(table, name)
    ensures var signature := ConstructorType(table, name);
            var band := ArityOf(table, name);
            && |signature.args| > 0
            && signature.args[|signature.args| - 1] == ClassOf(Canonical(table, name))
            && (if band.Some? && band.value.Between?
                then |signature.args| - 1 == band.value.most
                     && |signature.args| - 1 - signature.defaulted == band.value.fewest
                else |signature.args| == 1 && signature.defaulted == 0)
  {
    AnsweredExactlyWhenReachable(table, MethodOf("__init__"), Canonical(table, Canonical(table, name)));
  }

  // --- the case where the two disagree ---------------------------------------------

  // class Both(BaseExceptionGroup, Mixin), where Mixin declares __init__(self).
  function InitOfMixin(): Type {
    Type(CallableKind, "", [ClassOf("Mixin"), Plain(NoneKind)], 0)
  }

  function MixinBehindGroup(): Table {
    Table(map["Both" := Blank().(bases := [ClassOf("BaseExceptionGroup"), ClassOf("Mixin")]),
              "Mixin" := Blank().(methods := map["__init__" := InitOfMixin()]),
              "BaseExceptionGroup" :=
                Entry([ClassOf("BaseException")], map[], map[], Some(Between(2, 2)), true),
              "BaseException" := Entry([], map[], map[], Some(AnyNumber), true)],
          map[],
          map[])
  }

  lemma ChainBehindGroup()
    ensures ConstructorChain(MixinBehindGroup(), "Both")
         == ["Both", "BaseExceptionGroup", "BaseException", "Mixin"]
  {
    var table := MixinBehindGroup();
    var both, group, exception := ["Both"], ["Both", "BaseExceptionGroup"],
      ["Both", "BaseExceptionGroup", "BaseException"];
    var bases := [ClassOf("BaseExceptionGroup"), ClassOf("Mixin")];
    assert bases[1..] == [ClassOf("Mixin")];
    assert Keyed(table, [ClassOf("Mixin")]) == ["Mixin"];
    assert Parents(table, "Both") == ["BaseExceptionGroup", "Mixin"];
    assert Parents(table, "BaseExceptionGroup") == ["BaseException"];
    assert Parents(table, "BaseException") == [] && Parents(table, "Mixin") == [];
    assert Preorder(table, "BaseException", group) == exception by {
      assert group + ["BaseException"] == exception;
      assert PreorderOfAll(table, [], exception) == exception;
    }
    assert Preorder(table, "BaseExceptionGroup", both) == exception by {
      assert both + ["BaseExceptionGroup"] == group;
      FreshOfOne(table, "BaseException", group);
    }
    assert Preorder(table, "Mixin", exception) == exception + ["Mixin"] by {
      assert PreorderOfAll(table, [], exception + ["Mixin"]) == exception + ["Mixin"];
    }
    assert ["BaseExceptionGroup", "Mixin"][1..] == ["Mixin"];
    FreshOfOne(table, "Mixin", exception);
    assert [] + ["Both"] == both;
  }

  lemma {:induction false} AnswererOfFour<T>(
    table: Table, extract: Extract<T>, first: string, second: string, third: string, fourth: string)
    ensures Answerer(table, extract, [first, second, third, fourth])
         == if Answer(table, extract, first).Some? then Some(first)
            else if Answer(table, extract, second).Some? then Some(second)
            else if Answer(table, extract, third).Some? then Some(third)
            else if Answer(table, extract, fourth).Some? then Some(fourth)
            else None
  {
    assert [first, second, third, fourth] == [first, second] + [third, fourth];
    AnswererOfJoined(table, extract, [first, second], [third, fourth]);
    AnswererOfJoined(table, extract, [first], [second]);
    AnswererOfJoined(table, extract, [third], [fourth]);
    assert [first] + [second] == [first, second] && [third] + [fourth] == [third, fourth];
  }

  lemma StopsAtBaseException()
    ensures ReachedBy(MixinBehindGroup(), "Both") == Some(BaseExceptionBase)
  {
    ChainBehindGroup();
    AnswererOfFour(MixinBehindGroup(), Settles(), "Both", "BaseExceptionGroup", "BaseException", "Mixin");
  }

  lemma HasTheGroupsBand()
    ensures ArityOf(MixinBehindGroup(), "Both") == Some(Between(2, 2))
  {
    ChainBehindGroup();
    AnswererOfFour(MixinBehindGroup(), BandFor("Both"), "Both", "BaseExceptionGroup", "BaseException", "Mixin");
  }

  lemma OnlyMixinHasMethods(method_: string)
    ensures Answerer(MixinBehindGroup(), MethodOf(method_), ConstructorChain(MixinBehindGroup(), "Both"))
         == if method_ == "__init__" then Some("Mixin") else None
  {
    ChainBehindGroup();
    AnswererOfFour(MixinBehindGroup(), MethodOf(method_), "Both", "BaseExceptionGroup", "BaseException", "Mixin");
  }

  // Both is checked, on the strength of the group's two arguments, against
  // Mixin's signature, which takes none.
  lemma CheckedAgainstAnotherSignature()
    ensures CheckOf(MixinBehindGroup(), "Both") == Checked
    ensures CheckedAgainst(MixinBehindGroup(), "Both") == ArityBand(Between(2, 2))
    ensures BuiltFrom(MixinBehindGroup(), "Both") == Signature("Mixin")
  {
    StopsAtBaseException();
    HasTheGroupsBand();
    OnlyMixinHasMethods("__init__");
    OnlyMixinHasMethods("__new__");
  }
}
