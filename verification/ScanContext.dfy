/** src/domain/lexer/scan_context.cpp: how deep the scanner is inside brackets, and whether
    it is reading a type annotation. */
module ScanContexts {
  import opened Tokens

  /** `annotation` is what held when the bracket opened. */
  datatype Frame = Frame(opener: Bracket, annotation: bool)

  datatype Context = Context(
    annotation: bool, headerPending: bool, lineHasContent: bool, brackets: seq<Frame>, lambdaDepths: seq<nat>)

  const FRESH: Context := Context(false, false, false, [], [])

  predicate IsBlockKeyword(kind: TokenType) {
    || kind in {Keyword(If), Keyword(Elif), Keyword(Else), Keyword(For), Keyword(While), Keyword(With), Keyword(Try)}
    || kind in {Keyword(Except), Keyword(Finally), Keyword(Def), Keyword(Class), Keyword(Async)}
  }

  function Observed(c: Context, kind: TokenType): Context {
    Marked(if c.lineHasContent then c else c.(headerPending := IsBlockKeyword(kind), lineHasContent := true), kind)
  }

  function Marked(c: Context, kind: TokenType): Context {
    match kind
    case Open(bracket) => c.(brackets := c.brackets + [Frame(bracket, c.annotation)])
    case Closing(_) =>
      if c.brackets == [] then c
      else c.(annotation := c.brackets[|c.brackets| - 1].annotation, brackets := c.brackets[..|c.brackets| - 1])
    case Colon => AfterColon(c)
    case Op(Arrow) => c.(annotation := true)
    case Op(Assign) => c.(annotation := false)
    case Comma => AfterComma(c)
    case Keyword(Lambda) => c.(lambdaDepths := c.lambdaDepths + [|c.brackets|])
    case Newline => EndOfLine(c)
    case Semicolon => EndOfLine(c)
    case _ => c
  }

  function AfterColon(c: Context): Context {
    var n := |c.lambdaDepths|;
    if n > 0 && c.lambdaDepths[n - 1] == |c.brackets| then c.(lambdaDepths := c.lambdaDepths[..n - 1])
    else if c.brackets != [] then
      if c.brackets[|c.brackets| - 1].opener == Paren then c.(annotation := true) else c
    else if c.headerPending then c.(headerPending := false, annotation := false)
    else c.(annotation := true)
  }

  /** The comma in `def f(a: int, b)` ends an annotation; the one in `dict[str, int]` does
      not. */
  function AfterComma(c: Context): Context {
    if c.brackets == [] || !c.brackets[|c.brackets| - 1].annotation then c.(annotation := false) else c
  }

  function EndOfLine(c: Context): Context {
    c.(annotation := false, headerPending := false, lineHasContent := false, lambdaDepths := [])
  }

  // ---------- Brackets ----------

  function ObservedAll(c: Context, kinds: seq<TokenType>): Context
    decreases kinds
  {
    if kinds == [] then c else ObservedAll(Observed(c, kinds[0]), kinds[1..])
  }

  function Nesting(kinds: seq<TokenType>): int {
    if kinds == [] then 0
    else Nesting(kinds[..|kinds| - 1])
         + if kinds[|kinds| - 1].Open? then 1 else if kinds[|kinds| - 1].Closing? then -1 else 0
  }

  /** Every bracket in `kinds` closes inside it. */
  predicate Nested(kinds: seq<TokenType>) {
    Nesting(kinds) == 0 && forall n :: 0 <= n <= |kinds| ==> Nesting(kinds[..n]) >= 0
  }

  lemma ObservedKeepsBelow(c: Context, kind: TokenType, base: seq<Frame>)
    requires base <= c.brackets && (kind.Closing? ==> |c.brackets| > |base|)
    ensures var d := Observed(c, kind);
      base <= d.brackets
      && |d.brackets| == |c.brackets| + if kind.Open? then 1 else if kind.Closing? then -1 else 0
  {
  }

  lemma {:induction false} NestedKeepsBelow(c: Context, kinds: seq<TokenType>, n: nat)
    requires n <= |kinds| && forall m :: 0 <= m <= |kinds| ==> Nesting(kinds[..m]) >= 0
    ensures var d := ObservedAll(c, kinds[..n]);
      c.brackets <= d.brackets && |d.brackets| == |c.brackets| + Nesting(kinds[..n])
  {
    if n > 0 {
      NestedKeepsBelow(c, kinds, n - 1);
      assert kinds[..n][..n - 1] == kinds[..n - 1] && kinds[..n] == kinds[..n - 1] + [kinds[n - 1]];
      ObservedSnoc(c, kinds[..n - 1], kinds[n - 1]);
      ObservedKeepsBelow(ObservedAll(c, kinds[..n - 1]), kinds[n - 1], c.brackets);
    }
  }

  lemma {:induction false} ObservedSnoc(c: Context, kinds: seq<TokenType>, kind: TokenType)
    ensures ObservedAll(c, kinds + [kind]) == Observed(ObservedAll(c, kinds), kind)
    decreases kinds
  {
    if kinds == [] {
      assert kinds + [kind] == [kind] && [kind][1..] == [];
    } else {
      assert (kinds + [kind])[1..] == kinds[1..] + [kind];
      ObservedSnoc(Observed(c, kinds[0]), kinds[1..], kind);
    }
  }

  /** A bracket pair gives back the annotation state and the open brackets it found, however
      the state changed inside: `list[int]` stays in its annotation, `f(int)` does not
      start one. */
  lemma BracketsRestore(c: Context, opener: TokenType, inside: seq<TokenType>, closer: TokenType)
    requires opener.Open? && closer.Closing? && Nested(inside)
    ensures var d := ObservedAll(c, [opener] + inside + [closer]);
      d.annotation == c.annotation && d.brackets == c.brackets
  {
    var entered := Observed(c, opener);
    ObservedSnoc(c, [opener] + inside, closer);
    assert ([opener] + inside)[1..] == inside;
    assert inside[..|inside|] == inside;
    NestedKeepsBelow(entered, inside, |inside|);
    var last := ObservedAll(entered, inside);
    assert last.brackets == entered.brackets == c.brackets + [Frame(opener.bracket, c.annotation)];
  }

  // ---------- The class ----------

  class ScanContext {
    var annotation: bool
    var headerPending: bool
    var lineHasContent: bool
    var brackets: seq<Frame>
    var lambdaDepths: seq<nat>

    constructor ()
      ensures Now() == FRESH
    {
      annotation, headerPending, lineHasContent, brackets, lambdaDepths := false, false, false, [], [];
    }

    function Now(): Context
      reads this
    {
      Context(annotation, headerPending, lineHasContent, brackets, lambdaDepths)
    }

    method Reset()
      modifies this
      ensures Now() == FRESH
    {
      annotation, headerPending, lineHasContent, brackets, lambdaDepths := false, false, false, [], [];
    }

    method Observe(kind: TokenType)
      modifies this
      ensures Now() == Observed(old(Now()), kind)
    {
      if !lineHasContent {
        headerPending := IsBlockKeyword(kind);
        lineHasContent := true;
      }
      if kind.Open? {
        brackets := brackets + [Frame(kind.bracket, annotation)];
        return;
      }
      if kind.Closing? {
        if brackets != [] {
          annotation := brackets[|brackets| - 1].annotation;
          brackets := brackets[..|brackets| - 1];
        }
        return;
      }
      ObserveMark(kind);
    }

    method ObserveMark(kind: TokenType)
      requires !kind.Open? && !kind.Closing?
      modifies this
      ensures Now() == Marked(old(Now()), kind)
    {
      match kind {
        case Colon => ObserveColon();
        case Op(Arrow) => annotation := true;
        case Op(Assign) => annotation := false;
        case Comma => ObserveComma();
        case Keyword(Lambda) => lambdaDepths := lambdaDepths + [|brackets|];
        case Newline => EndLogicalLine();
        case Semicolon => EndLogicalLine();
        case _ =>
      }
    }

    method ObserveColon()
      modifies this
      ensures Now() == AfterColon(old(Now()))
    {
      if lambdaDepths != [] && lambdaDepths[|lambdaDepths| - 1] == |brackets| {
        lambdaDepths := lambdaDepths[..|lambdaDepths| - 1];
        return;
      }
      if brackets != [] {
        var opener := brackets[|brackets| - 1].opener;
        if opener == Square || opener == Brace {
          return;
        }
        annotation := true;
        return;
      }
      if headerPending {
        headerPending := false;
        annotation := false;
        return;
      }
      annotation := true;
    }

    method ObserveComma()
      modifies this
      ensures Now() == AfterComma(old(Now()))
    {
      if brackets == [] || !brackets[|brackets| - 1].annotation {
        annotation := false;
      }
    }

    method EndLogicalLine()
      modifies this
      ensures Now() == EndOfLine(old(Now()))
    {
      annotation, headerPending, lineHasContent, lambdaDepths := false, false, false, [];
    }
  }
}
