/** Printing a block tree with deeper and deeper margins and running the indentation pass
    gives INDENT and DEDENT tokens that read back as the same tree, with no diagnostic
    (section 2.1.8 of the Python Language Reference). */
module LayoutRoundTrip {
  import opened Sequences
  import opened Tokens
  import opened IndentationPass

  /** One logical line, with the block it introduces if any. */
  datatype Item = Item(margin: seq<Token>, line: seq<Token>, newline: Token, suite: seq<Item>)

  predicate InLine(t: Token) {
    !IsLayout(t) && !IsBlank(t) && t.kind != Newline && t.kind != Eof
  }

  /** Any tokens but layout ones, the first not a comment. */
  predicate IsLine(line: seq<Token>) {
    line != [] && line[0].kind != Comment && forall t :: t in line ==> InLine(t)
  }

  function Width(items: seq<Item>): nat {
    if items == [] then 0 else |items[0].margin|
  }

  /** Every line of a suite starts at the same column, deeper than the line above it. */
  predicate LaidOut(items: seq<Item>, width: nat)
    decreases items
  {
    items == [] ||
    (var x := items[0];
     && |x.margin| == width && (forall t :: t in x.margin ==> t.kind == Space)
     && IsLine(x.line) && x.newline.kind == Newline
     && (x.suite != [] ==> width < Width(x.suite) && LaidOut(x.suite, Width(x.suite)))
     && LaidOut(items[1..], width))
  }

  function Printed(items: seq<Item>): seq<Token>
    decreases items
  {
    if items == [] then []
    else items[0].margin + items[0].line + [items[0].newline] + Printed(items[0].suite) + Printed(items[1..])
  }

  /** The first significant token of what follows. */
  function NextToken(items: seq<Item>, after: Token): Token {
    if items == [] || items[0].line == [] then after else items[0].line[0]
  }

  /** What the pass ought to give: an INDENT before each suite and a DEDENT where it ends,
      each at the position of the token it precedes. */
  function Structured(items: seq<Item>, after: Token): seq<Token>
    decreases items
  {
    if items == [] then []
    else
      var x, next := items[0], NextToken(items[1..], after);
      x.line + [x.newline]
      + (if x.suite == [] then []
         else [Synthesized(Indent, NextToken(x.suite, next))] + Structured(x.suite, next) + [Synthesized(Dedent, next)])
      + Structured(items[1..], after)
  }

  // ---------- Feeding lines ----------

  lemma {:induction false} FeedAppends(s: Layout, a: seq<Token>, b: seq<Token>)
    requires s.levels != []
    ensures FeedAll(s, a + b) == FeedAll(FeedAll(s, a), b)
    decreases a
  {
    if a == [] {
      assert a + b == b;
    } else {
      assert (a + b)[1..] == a[1..] + b;
      FeedAppends(Feed(s, a[0]), a[1..], b);
    }
  }

  lemma {:induction false} SpacesMeasure(s: Layout, margin: seq<Token>)
    requires s.levels != [] && forall t :: t in margin ==> t.kind == Space
    ensures FeedAll(s, margin) == s.(pending := Level(s.pending.col + |margin|, s.pending.altCol + |margin|))
    decreases margin
  {
    if margin != [] {
      SpacesMeasure(Feed(s, margin[0]), margin[1..]);
    }
  }

  lemma TokenPasses(s: Layout, t: Token)
    requires s.levels != [] && !s.measuring && InLine(t)
    ensures Feed(s, t) == s.(out := s.out + [t])
  {
  }

  lemma {:induction false} TokensPass(s: Layout, line: seq<Token>)
    requires s.levels != [] && !s.measuring && forall t :: t in line ==> InLine(t)
    ensures FeedAll(s, line) == s.(out := s.out + line)
    decreases line
  {
    hide Feed;
    if line != [] {
      var s' := s.(out := s.out + [line[0]]);
      assert line[0] in line;
      TokenPasses(s, line[0]);
      TokensPass(s', line[1..]);
      assert s.out + [line[0]] + line[1..] == s.out + line;
    }
  }

  /** A state at the start of a logical line. */
  predicate AtLineStart(s: Layout) {
    s.levels != [] && s.measuring && s.pending == BASE
  }

  function Physical(x: Item): seq<Token> {
    x.margin + x.line + [x.newline]
  }

  predicate IsItem(x: Item) {
    (forall t :: t in x.margin ==> t.kind == Space) && IsLine(x.line) && x.newline.kind == Newline
  }

  /** A line of spaces and tokens closes the line before it and is copied. */
  lemma LineFeeds(s: Layout, x: Item)
    requires AtLineStart(s) && IsItem(x)
    ensures var w := |x.margin|;
      var closed := CloseLine(s.(pending := Level(w, w)), x.line[0]);
      FeedAll(s, Physical(x)) == closed.(out := closed.out + x.line + [x.newline], pending := BASE, measuring := true)
  {
    var measured := s.(pending := Level(|x.margin|, |x.margin|));
    FeedAppends(s, x.margin + x.line, [x.newline]);
    FeedAppends(s, x.margin, x.line);
    SpacesMeasure(s, x.margin);
    assert FeedAll(s, x.margin) == measured;
    WordsFeed(measured, x.line);
    var closed := CloseLine(measured, x.line[0]);
    assert FeedAll(s, x.margin + x.line) == closed.(out := closed.out + x.line);
    NewlineFeeds(closed.(out := closed.out + x.line), x.newline);
  }

  lemma NewlineFeeds(s: Layout, newline: Token)
    requires s.levels != [] && newline.kind == Newline
    ensures FeedAll(s, [newline]) == s.(out := s.out + [newline], pending := BASE, measuring := true)
  {
    assert [newline][1..] == [];
  }

  lemma WordsFeed(s: Layout, line: seq<Token>)
    requires s.levels != [] && s.measuring && IsLine(line)
    ensures var closed := CloseLine(s, line[0]);
      FeedAll(s, line) == closed.(out := closed.out + line)
  {
    var closed := CloseLine(s, line[0]);
    var first := closed.(out := closed.out + [line[0]]);
    ClosedIsNotMeasuring(s, line[0]);
    assert line[0] in line;
    assert Feed(s, line[0]) == first;
    TokensPass(first, line[1..]);
    Snoc(closed.out, line);
  }

  lemma Snoc(out: seq<Token>, line: seq<Token>)
    requires line != []
    ensures out + [line[0]] + line[1..] == out + line
  {
  }

  lemma {:induction false} UnwindKeepsRest(s: Layout, col: nat, at: Token)
    requires s.levels != []
    ensures var r := Unwind(s, col, at);
      r.pending == s.pending && r.measuring == s.measuring && r.diagnostics == s.diagnostics
      && (|r.levels| == 1 || Last(r.levels).col <= col)
    decreases |s.levels|
  {
    if |s.levels| > 1 && col < Last(s.levels).col {
      UnwindKeepsRest(s.(levels := Front(s.levels), out := s.out + [Synthesized(Dedent, at)]), col, at);
    }
  }

  lemma ClosedIsNotMeasuring(s: Layout, next: Token)
    requires s.levels != []
    ensures !CloseLine(s, next).measuring
  {
    UnwindKeepsRest(s.(measuring := false), s.pending.col, next);
  }

  lemma {:induction false} UnwindTwice(s: Layout, inner: nat, outer: nat, at: Token)
    requires s.levels != [] && outer <= inner
    ensures Unwind(Unwind(s, inner, at), outer, at) == Unwind(s, outer, at)
    decreases |s.levels|
  {
    if |s.levels| > 1 && inner < Last(s.levels).col {
      UnwindTwice(s.(levels := Front(s.levels), out := s.out + [Synthesized(Dedent, at)]), inner, outer, at);
    }
  }

  lemma {:induction false} UnwindIgnores(s: Layout, col: nat, at: Token, pending: Level, measuring: bool)
    requires s.levels != []
    ensures Unwind(s.(pending := pending, measuring := measuring), col, at)
         == Unwind(s, col, at).(pending := pending, measuring := measuring)
    decreases |s.levels|
  {
    if |s.levels| > 1 && col < Last(s.levels).col {
      UnwindIgnores(s.(levels := Front(s.levels), out := s.out + [Synthesized(Dedent, at)]),
          col, at, pending, measuring);
    }
  }

  /** A line at an open level unwinds to it and nothing more. */
  lemma LineAtLevel(s: Layout, x: Item)
    requires AtLineStart(s) && IsItem(x)
    requires Last(Unwind(s, |x.margin|, x.line[0]).levels) == Level(|x.margin|, |x.margin|)
    ensures var u := Unwind(s, |x.margin|, x.line[0]);
      FeedAll(s, Physical(x)) == u.(out := u.out + x.line + [x.newline])
  {
    var w := |x.margin|;
    var u := Unwind(s, w, x.line[0]);
    LineFeeds(s, x);
    UnwindIgnores(s, w, x.line[0], Level(w, w), false);
    UnwindKeepsRest(s, w, x.line[0]);
    LevelsBelowTop(s, w, x.line[0]);
    assert CloseLine(s.(pending := Level(w, w)), x.line[0]) == u.(pending := Level(w, w), measuring := false);
  }

  lemma {:induction false} LevelsBelowTop(s: Layout, col: nat, at: Token)
    requires s.levels != [] && Last(Unwind(s, col, at).levels).col == col
    ensures col <= Last(s.levels).col
  {
  }

  /** The first line of a suite opens its level. */
  lemma LineOpensLevel(s: Layout, x: Item)
    requires AtLineStart(s) && IsItem(x) && Last(s.levels) == Level(Last(s.levels).col, Last(s.levels).col)
    requires Last(s.levels).col < |x.margin|
    ensures FeedAll(s, Physical(x)) == FeedAll(Opened(s, |x.margin|, x.line[0]), Physical(x))
  {
    LineFeeds(s, x);
    LineFeeds(Opened(s, |x.margin|, x.line[0]), x);
  }

  function Opened(s: Layout, width: nat, at: Token): Layout {
    s.(levels := s.levels + [Level(width, width)], out := s.out + [Synthesized(Indent, at)])
  }

  // ---------- A suite ----------

  /** A state between two lines of a suite whose column is `width`. */
  predicate AtSuite(s: Layout, width: nat) {
    AtLineStart(s) && Last(s.levels) == Level(width, width)
  }

  lemma SuiteHead(items: seq<Item>, width: nat)
    requires items != [] && LaidOut(items, width)
    ensures var x := items[0];
      IsItem(x) && |x.margin| == width
      && Printed(items) == Physical(x) + (Printed(x.suite) + Printed(items[1..]))
  {
  }

  /** When only deeper levels are open above a suite's column, its next line closes them
      all, at its first token. */
  lemma NextLineUnwinds(s: Layout, items: seq<Item>, width: nat)
    requires AtLineStart(s) && items != [] && LaidOut(items, width)
    requires AtSuite(Unwind(s, width, items[0].line[0]), width)
    ensures FeedAll(s, Printed(items)) == FeedAll(Unwind(s, width, items[0].line[0]), Printed(items))
  {
    var x := items[0];
    var u, rest := Unwind(s, width, x.line[0]), Printed(x.suite) + Printed(items[1..]);
    SuiteHead(items, width);
    assert Unwind(u, width, x.line[0]) == u;
    LineAtLevel(s, x);
    LineAtLevel(u, x);
    FeedAppends(s, Physical(x), rest);
    FeedAppends(u, Physical(x), rest);
  }

  lemma SuiteOpens(s: Layout, outer: nat, items: seq<Item>, width: nat)
    requires AtSuite(s, outer) && outer < width && items != [] && LaidOut(items, width)
    ensures FeedAll(s, Printed(items)) == FeedAll(Opened(s, width, items[0].line[0]), Printed(items))
  {
    var x := items[0];
    var o, rest := Opened(s, width, x.line[0]), Printed(x.suite) + Printed(items[1..]);
    SuiteHead(items, width);
    LineOpensLevel(s, x);
    FeedAppends(s, Physical(x), rest);
    FeedAppends(o, Physical(x), rest);
  }

  /** After a suite's text, closing what it left open gives exactly its structure. */
  lemma {:induction false} SuiteIsStructured(s: Layout, items: seq<Item>, width: nat, after: Token)
    requires AtSuite(s, width) && LaidOut(items, width)
    ensures AtLineStart(FeedAll(s, Printed(items)))
    ensures Unwind(FeedAll(s, Printed(items)), width, after) == s.(out := s.out + Structured(items, after))
    decreases items
  {
    if items == [] {
      assert s.out + [] == s.out;
    } else {
      var x, next := items[0], NextToken(items[1..], after);
      var lined := s.(out := s.out + x.line + [x.newline]);
      SuiteHead(items, width);
      assert Unwind(s, width, x.line[0]) == s;
      LineAtLevel(s, x);
      FeedAppends(s, Physical(x), Printed(x.suite) + Printed(items[1..]));
      FeedAppends(lined, Printed(x.suite), Printed(items[1..]));
      var nested := FeedAll(lined, Printed(x.suite));
      var closed := lined.(out := lined.out + SuiteText(x, next));
      NestedSuite(lined, x, width, next);
      if items[1..] == [] {
        assert FeedAll(nested, []) == nested;
      } else {
        NextLineUnwinds(nested, items[1..], width);
        SuiteIsStructured(closed, items[1..], width, after);
      }
      Assembled(s.out, x, items, after);
    }
  }

  /** What a line's suite contributes, with its layout tokens. */
  function SuiteText(x: Item, next: Token): seq<Token> {
    if x.suite == [] then []
    else [Synthesized(Indent, NextToken(x.suite, next))] + Structured(x.suite, next) + [Synthesized(Dedent, next)]
  }

  lemma Assembled(out: seq<Token>, x: Item, items: seq<Item>, after: Token)
    requires items != [] && x == items[0]
    ensures var next := NextToken(items[1..], after);
      out + x.line + [x.newline] + SuiteText(x, next) + Structured(items[1..], after) == out + Structured(items, after)
  {
  }

  lemma SuiteCloses(s: Layout, width: nat, inner: nat, u: Layout, next: Token)
    requires AtSuite(s, width) && width < inner && u == s.(levels := s.levels + [Level(inner, inner)], out := u.out)
    ensures Unwind(u, width, next) == s.(out := u.out + [Synthesized(Dedent, next)])
  {
    var d := s.(out := u.out + [Synthesized(Dedent, next)]);
    assert Front(u.levels) == s.levels;
    assert Unwind(d, width, next) == d;
  }

  lemma {:induction false} NestedSuite(s: Layout, x: Item, width: nat, next: Token)
    requires AtSuite(s, width)
    requires x.suite != [] ==> width < Width(x.suite) && LaidOut(x.suite, Width(x.suite))
    ensures var nested := FeedAll(s, Printed(x.suite));
      AtLineStart(nested) && Unwind(nested, width, next) == s.(out := s.out + SuiteText(x, next))
    decreases x
  {
    if x.suite == [] {
      assert s.out + [] == s.out;
    } else {
      var inner := Width(x.suite);
      var entered := Opened(s, inner, x.suite[0].line[0]);
      SuiteOpens(s, width, x.suite, inner);
      SuiteIsStructured(entered, x.suite, inner, next);
      var nested := FeedAll(entered, Printed(x.suite));
      UnwindTwice(nested, inner, width, next);
      var u := entered.(out := entered.out + Structured(x.suite, next));
      SuiteCloses(s, width, inner, u, next);
      Encloses(s.out, [Synthesized(Indent, NextToken(x.suite, next))],
          Structured(x.suite, next), [Synthesized(Dedent, next)]);
    }
  }

  // ---------- The whole file ----------

  lemma {:induction false} FlushIsUnwind(s: Layout, at: Token)
    requires Ordered(s.levels)
    ensures Flush(s, at) == Unwind(s, 0, at)
    decreases |s.levels|
  {
    if |s.levels| > 1 {
      assert s.levels[|s.levels| - 2].col < Last(s.levels).col;
      FlushIsUnwind(s.(levels := Front(s.levels), out := s.out + [Synthesized(Dedent, at)]), at);
    }
  }

  lemma {:induction false} PrintedHasNoLayout(items: seq<Item>, width: nat)
    requires LaidOut(items, width)
    ensures forall t :: t in Printed(items) ==> !IsLayout(t)
    decreases items
  {
    if items != [] {
      if items[0].suite != [] {
        PrintedHasNoLayout(items[0].suite, Width(items[0].suite));
      }
      PrintedHasNoLayout(items[1..], width);
    }
  }

  /** A printed tree comes out as its own structure, and nothing is reported. */
  lemma PrintedTreeIsStructured(items: seq<Item>, eof: Token)
    requires LaidOut(items, 0) && eof.kind == Eof
    ensures var r := LayoutOf(Printed(items) + [eof]);
      r.out == Structured(items, eof) + [eof] && r.diagnostics == []
  {
    PrintedHasNoLayout(items, 0);
    FeedAppends(START, Printed(items), [eof]);
    SuiteIsStructured(START, items, 0, eof);
    FeedAllKeeps(START, Printed(items));
    var s := FeedAll(START, Printed(items));
    FlushIsUnwind(s, eof);
    UnwindKeepsRest(s, 0, eof);
    assert FeedAll(s, [eof]) == Feed(s, eof);
    assert [] + Structured(items, eof) == Structured(items, eof);
  }

  // ---------- Reading it back ----------

  /** A block tree without its margins. */
  datatype Node = Node(line: seq<Token>, newline: Token, suite: seq<Node>)

  function Skeleton(items: seq<Item>): seq<Node>
    decreases items
  {
    if items == [] then []
    else [Node(items[0].line, items[0].newline, Skeleton(items[0].suite))] + Skeleton(items[1..])
  }

  datatype Parsed = Parsed(nodes: seq<Node>, rest: seq<Token>) | Malformed

  /** The tokens before the first NEWLINE. */
  function LineOf(ts: seq<Token>): seq<Token> {
    if ts == [] || ts[0].kind == Newline then [] else [ts[0]] + LineOf(ts[1..])
  }

  lemma {:induction false} LineOfIsPrefix(ts: seq<Token>)
    ensures LineOf(ts) <= ts
  {
    if ts != [] && ts[0].kind != Newline {
      LineOfIsPrefix(ts[1..]);
    }
  }

  /** Lines up to a DEDENT or the end of the file; an INDENT opens the suite of the line
      before it, and its DEDENT closes it. */
  function ReadBlock(ts: seq<Token>): (r: Parsed)
    ensures r.Parsed? ==> |r.rest| <= |ts|
    decreases |ts|
  {
    if ts == [] || ts[0].kind == Dedent || ts[0].kind == Eof then Parsed([], ts)
    else
      var line := LineOf(ts);
      LineOfIsPrefix(ts);
      if |line| >= |ts| then Malformed
      else
        var newline, after := ts[|line|], ts[|line| + 1..];
        var suite := if after != [] && after[0].kind == Indent then ReadBlock(after[1..]) else Parsed([], after);
        if suite.Malformed? then Malformed
        else if after != [] && after[0].kind == Indent && (suite.rest == [] || suite.rest[0].kind != Dedent)
            then Malformed
        else
          var next := if after != [] && after[0].kind == Indent then suite.rest[1..] else after;
          var more := ReadBlock(next);
          if more.Malformed? then Malformed else Parsed([Node(line, newline, suite.nodes)] + more.nodes, more.rest)
  }

  predicate BlockEnds(rest: seq<Token>) {
    rest != [] && (rest[0].kind == Dedent || rest[0].kind == Eof)
  }

  lemma {:induction false} LineReads(line: seq<Token>, newline: Token, rest: seq<Token>)
    requires (forall t :: t in line ==> InLine(t)) && newline.kind == Newline
    ensures LineOf(line + [newline] + rest) == line
    decreases line
  {
    var ts := line + [newline] + rest;
    if line != [] {
      assert line[0] in line && ts[1..] == line[1..] + [newline] + rest;
      LineReads(line[1..], newline, rest);
    }
  }

  /** The structure reads back as the tree it was made from. */
  lemma {:induction false} StructureReadsBack(items: seq<Item>, width: nat, after: Token, rest: seq<Token>)
    requires LaidOut(items, width) && BlockEnds(rest)
    ensures ReadBlock(Structured(items, after) + rest) == Parsed(Skeleton(items), rest)
    decreases items
  {
    if items == [] {
      assert [] + rest == rest;
    } else {
      var x, next := items[0], NextToken(items[1..], after);
      var more := Structured(items[1..], after) + rest;
      assert Skeleton(items) == [Node(x.line, x.newline, Skeleton(x.suite))] + Skeleton(items[1..]);
      LineThenSuite(items, after, rest);
      LineReads(x.line, x.newline, SuiteText(x, next) + more);
      assert x.line[0] in x.line;
      StructureReadsBack(items[1..], width, after, rest);
      if x.suite == [] {
        assert SuiteText(x, next) == [] && [] + more == more;
        NoIndent(items[1..], width, after, rest);
        BareLineReads(x.line, x.newline, more);
      } else {
        var closing := [Synthesized(Dedent, next)] + more;
        var inner := Structured(x.suite, next);
        assert closing[1..] == more;
        StructureReadsBack(x.suite, Width(x.suite), next, closing);
        FourPieces([Synthesized(Indent, NextToken(x.suite, next))], inner, [Synthesized(Dedent, next)], more);
        SuiteReads(x.line, x.newline, Synthesized(Indent, NextToken(x.suite, next)), inner + closing);
      }
    }
  }

  lemma LineThenSuite(items: seq<Item>, after: Token, rest: seq<Token>)
    requires items != []
    ensures var x, next := items[0], NextToken(items[1..], after);
      Structured(items, after) + rest
        == x.line + [x.newline] + (SuiteText(x, next) + (Structured(items[1..], after) + rest))
  {
    var x, next := items[0], NextToken(items[1..], after);
    FourPieces(x.line + [x.newline], SuiteText(x, next), Structured(items[1..], after), rest);
  }

  lemma BareLineReads(line: seq<Token>, newline: Token, more: seq<Token>)
    requires IsLine(line) && newline.kind == Newline && LineOf(line + [newline] + more) == line
    requires more != [] && more[0].kind != Indent
    ensures var m := ReadBlock(more);
      ReadBlock(line + [newline] + more)
      == if m.Malformed? then Malformed else Parsed([Node(line, newline, [])] + m.nodes, m.rest)
  {
    var ts := line + [newline] + more;
    assert ts[0] == line[0] && line[0] in line;
    assert ts[|line|] == newline && ts[|line| + 1..] == more;
  }

  lemma SuiteReads(line: seq<Token>, newline: Token, indent: Token, inside: seq<Token>)
    requires IsLine(line) && newline.kind == Newline && indent.kind == Indent
    requires LineOf(line + [newline] + ([indent] + inside)) == line
    requires var suite := ReadBlock(inside);
      suite.Parsed? && suite.rest != [] && suite.rest[0].kind == Dedent
    ensures var suite := ReadBlock(inside);
      var m := ReadBlock(suite.rest[1..]);
      ReadBlock(line + [newline] + ([indent] + inside))
      == if m.Malformed? then Malformed else Parsed([Node(line, newline, suite.nodes)] + m.nodes, m.rest)
  {
    var ts := line + [newline] + ([indent] + inside);
    assert ts[0] == line[0] && line[0] in line;
    assert ts[|line|] == newline && ts[|line| + 1..] == [indent] + inside;
    assert ([indent] + inside)[1..] == inside;
  }

  /** A suite's text never starts with an INDENT of its own. */
  lemma NoIndent(items: seq<Item>, width: nat, after: Token, rest: seq<Token>)
    requires LaidOut(items, width) && BlockEnds(rest)
    ensures var ts := Structured(items, after) + rest;
      ts != [] && ts[0].kind != Indent
  {
    if items != [] {
      assert items[0].line[0] in items[0].line;
      assert Structured(items, after)[0] == items[0].line[0];
    }
  }

  /** Printing, the pass and reading are the identity on block trees. */
  lemma LayoutRoundTrips(items: seq<Item>, eof: Token)
    requires LaidOut(items, 0) && eof.kind == Eof
    ensures ReadBlock(LayoutOf(Printed(items) + [eof]).out) == Parsed(Skeleton(items), [eof])
    ensures LayoutOf(Printed(items) + [eof]).diagnostics == []
  {
    PrintedTreeIsStructured(items, eof);
    StructureReadsBack(items, 0, eof, [eof]);
  }
}
