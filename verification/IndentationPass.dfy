/** src/domain/lexer/indentation_pass.cpp: leading SPACE and TAB tokens become INDENT and
    DEDENT. For every stream, however malformed, the output is balanced and keeps every
    other token; for a printed block tree it is exactly that tree's layout. */
module IndentationPass {
  import opened Tokens

  /** The next multiple of eight: "  \t" is column 8, not 10. */
  function NextTabStop(col: nat): nat {
    (col / 8 + 1) * 8
  }

  /** `col` expands a tab to the next tab stop; `altCol` counts it as one column. */
  datatype Level = Level(col: nat, altCol: nat)

  const BASE: Level := Level(0, 0)

  datatype Diagnostic = TabError(at: Token) | IndentationError(at: Token)

  datatype Layout = Layout(
    levels: seq<Level>, out: seq<Token>, pending: Level, measuring: bool, diagnostics: seq<Diagnostic>)

  const START: Layout := Layout([BASE], [], BASE, true, [])

  // ---------- The pass as a function ----------

  /** An empty lexeme of zero width marks a synthesized token. */
  function Synthesized(kind: TokenType, at: Token): Token {
    Token(kind, "", at.line, at.column, at.line, at.column)
  }

  function Last<T>(xs: seq<T>): T
    requires xs != []
  {
    xs[|xs| - 1]
  }

  function Front<T>(xs: seq<T>): seq<T>
    requires xs != []
  {
    xs[..|xs| - 1]
  }

  function Report(s: Layout, d: Diagnostic): Layout {
    s.(diagnostics := s.diagnostics + [d])
  }

  /** Pops every level right of `col`, but never the last one. */
  function Unwind(s: Layout, col: nat, at: Token): (r: Layout)
    requires s.levels != []
    ensures r.levels != [] && |r.levels| <= |s.levels|
    decreases |s.levels|
  {
    if |s.levels| > 1 && col < Last(s.levels).col then
      Unwind(s.(levels := Front(s.levels), out := s.out + [Synthesized(Dedent, at)]), col, at)
    else s
  }

  /** The first significant token of a logical line spends the measured indentation. */
  function CloseLine(s: Layout, next: Token): (r: Layout)
    requires s.levels != []
    ensures r.levels != []
  {
    var line, top := s.pending, Last(s.levels);
    var still := s.(measuring := false);
    if line.col == top.col then if line.altCol != top.altCol then Report(still, TabError(next)) else still
    else if line.col > top.col
        then Deepen(if line.altCol <= top.altCol then Report(still, TabError(next)) else still, line, next)
    else Settle(Unwind(still, line.col, next), line, next)
  }

  function Deepen(s: Layout, line: Level, next: Token): Layout {
    s.(levels := s.levels + [line], out := s.out + [Synthesized(Indent, next)])
  }

  /** After the pops: the line either sits on a level or is accepted as one, above the base. */
  function Settle(s: Layout, line: Level, next: Token): (r: Layout)
    requires s.levels != []
    ensures r.levels != []
  {
    if line.col != Last(s.levels).col then
      Report(if |s.levels| > 1 then s.(levels := Front(s.levels) + [line]) else s, IndentationError(next))
    else if line.altCol != Last(s.levels).altCol then Report(s, TabError(next))
    else s
  }

  function Flush(s: Layout, at: Token): (r: Layout)
    requires s.levels != []
    ensures |r.levels| == 1 && r.levels[0] == s.levels[0]
    decreases |s.levels|
  {
    if |s.levels| > 1 then Flush(s.(levels := Front(s.levels), out := s.out + [Synthesized(Dedent, at)]), at) else s
  }

  function Feed(s: Layout, t: Token): (r: Layout)
    requires s.levels != []
    ensures r.levels != []
  {
    match t.kind
    case Space => s.(pending := Level(s.pending.col + 1, s.pending.altCol + 1))
    case Tab => s.(pending := Level(NextTabStop(s.pending.col), s.pending.altCol + 1))
    case Comment => s.(out := s.out + [t])
    case Newline => s.(out := s.out + [t], pending := BASE, measuring := true)
    case Eof =>
      var s := Flush(s, t);
      s.(out := s.out + [t])
    case _ =>
      var s := if s.measuring then CloseLine(s, t) else s;
      s.(out := s.out + [t])
  }

  function FeedAll(s: Layout, tokens: seq<Token>): (r: Layout)
    requires s.levels != []
    ensures r.levels != []
    decreases tokens
  {
    if tokens == [] then s else FeedAll(Feed(s, tokens[0]), tokens[1..])
  }

  function Finished(s: Layout): Layout
    requires s.levels != []
  {
    if |s.levels| > 1 && s.out != [] then Flush(s, Last(s.out)) else s
  }

  function LayoutOf(tokens: seq<Token>): Layout {
    Finished(FeedAll(START, tokens))
  }

  // ---------- Totality ----------

  predicate IsLayout(t: Token) {
    t.kind == Indent || t.kind == Dedent
  }

  predicate IsBlank(t: Token) {
    t.kind == Space || t.kind == Tab
  }

  function WithoutLayout(ts: seq<Token>): seq<Token> {
    if ts == [] then [] else WithoutLayout(Front(ts)) + if IsLayout(Last(ts)) then [] else [Last(ts)]
  }

  function WithoutBlanks(ts: seq<Token>): seq<Token> {
    if ts == [] then [] else WithoutBlanks(Front(ts)) + if IsBlank(Last(ts)) then [] else [Last(ts)]
  }

  function Depth(ts: seq<Token>): int {
    if ts == [] then 0
    else Depth(Front(ts)) + if Last(ts).kind == Indent then 1 else if Last(ts).kind == Dedent then -1 else 0
  }

  /** No prefix closes more blocks than it opened. */
  predicate NeverBelow(ts: seq<Token>) {
    ts == [] || (NeverBelow(Front(ts)) && Depth(ts) >= 0)
  }

  /** Strictly deeper from level to level, on top of an untouched base. */
  predicate Ordered(levels: seq<Level>) {
    levels != [] && levels[0] == BASE && forall i, j :: 0 <= i < j < |levels| ==> levels[i].col < levels[j].col
  }

  /** What every step keeps: one open block per level above the base. */
  predicate Sound(s: Layout) {
    Matches(s.levels, s.out)
  }

  predicate Matches(levels: seq<Level>, out: seq<Token>) {
    Ordered(levels) && NeverBelow(out) && Depth(out) == |levels| - 1
  }

  lemma AppendOne(out: seq<Token>, t: Token)
    ensures WithoutLayout(out + [t]) == WithoutLayout(out) + if IsLayout(t) then [] else [t]
    ensures WithoutBlanks(out + [t]) == WithoutBlanks(out) + if IsBlank(t) then [] else [t]
    ensures Depth(out + [t]) == Depth(out) + if t.kind == Indent then 1 else if t.kind == Dedent then -1 else 0
    ensures NeverBelow(out + [t]) == (NeverBelow(out) && Depth(out + [t]) >= 0)
  {
    assert Front(out + [t]) == out && Last(out + [t]) == t;
  }

  lemma {:induction false} UnwindKeeps(s: Layout, col: nat, at: Token)
    requires Sound(s)
    ensures var r := Unwind(s, col, at);
      Sound(r) && WithoutLayout(r.out) == WithoutLayout(s.out) && Last(r.levels).col <= Last(s.levels).col
      && (|r.levels| == 1 || Last(r.levels).col <= col)
    decreases |s.levels|
  {
    if |s.levels| > 1 && col < Last(s.levels).col {
      AppendOne(s.out, Synthesized(Dedent, at));
      UnwindKeeps(s.(levels := Front(s.levels), out := s.out + [Synthesized(Dedent, at)]), col, at);
    }
  }

  lemma {:induction false} FlushKeeps(s: Layout, at: Token)
    requires Sound(s)
    ensures var r := Flush(s, at);
      Sound(r) && WithoutLayout(r.out) == WithoutLayout(s.out)
    decreases |s.levels|
  {
    if |s.levels| > 1 {
      AppendOne(s.out, Synthesized(Dedent, at));
      FlushKeeps(s.(levels := Front(s.levels), out := s.out + [Synthesized(Dedent, at)]), at);
    }
  }

  lemma OrderedPush(levels: seq<Level>, line: Level)
    requires Ordered(levels) && Last(levels).col < line.col
    ensures Ordered(levels + [line])
  {
    var all := levels + [line];
    forall i, j | 0 <= i < j < |all| ensures all[i].col < all[j].col {
      assert i < |levels| - 1 ==> levels[i].col < Last(levels).col;
    }
  }

  lemma DeepenKeeps(s: Layout, line: Level, next: Token)
    requires Sound(s) && Last(s.levels).col < line.col
    ensures Sound(Deepen(s, line, next)) && WithoutLayout(Deepen(s, line, next).out) == WithoutLayout(s.out)
  {
    AppendOne(s.out, Synthesized(Indent, next));
    OrderedPush(s.levels, line);
  }

  /** Replacing the top by a deeper line keeps the order. */
  lemma SettleKeeps(s: Layout, line: Level, next: Token)
    requires Sound(s) && (|s.levels| == 1 || Last(s.levels).col <= line.col)
    ensures Sound(Settle(s, line, next)) && Settle(s, line, next).out == s.out
  {
  }

  lemma CloseLineKeeps(s: Layout, next: Token)
    requires Sound(s)
    ensures var r := CloseLine(s, next);
      Sound(r) && WithoutLayout(r.out) == WithoutLayout(s.out)
  {
    var line, top, still := s.pending, Last(s.levels), s.(measuring := false);
    if line.col > top.col {
      DeepenKeeps(if line.altCol <= top.altCol then Report(still, TabError(next)) else still, line, next);
    } else if line.col < top.col {
      UnwindKeeps(still, line.col, next);
      SettleKeeps(Unwind(still, line.col, next), line, next);
    }
  }

  lemma PushKeeps(s: Layout, t: Token)
    requires Sound(s) && !IsLayout(t)
    ensures var r := s.(out := s.out + [t]);
      Sound(r) && WithoutLayout(r.out) == WithoutLayout(s.out) + [t]
  {
    AppendOne(s.out, t);
  }

  lemma BlankKeeps(s: Layout, t: Token)
    requires s.levels != [] && IsBlank(t)
    ensures Feed(s, t).levels == s.levels && Feed(s, t).out == s.out
  {
  }

  lemma OthersPush(s: Layout, t: Token)
    requires s.levels != [] && !IsBlank(t)
    ensures var u := if t.kind == Eof then Flush(s, t)
                     else if t.kind == Comment || t.kind == Newline || !s.measuring then s
                     else CloseLine(s, t);
      Feed(s, t).levels == u.levels && Feed(s, t).out == u.out + [t]
  {
  }

  lemma FeedKeeps(s: Layout, t: Token)
    requires Sound(s) && !IsLayout(t)
    ensures var r := Feed(s, t);
      Sound(r) && WithoutLayout(r.out) == WithoutLayout(s.out) + if IsBlank(t) then [] else [t]
  {
    if IsBlank(t) {
      BlankKeeps(s, t);
    } else {
      OthersPush(s, t);
      if t.kind == Eof {
        FlushKeeps(s, t);
        PushKeeps(Flush(s, t), t);
      } else if t.kind == Comment || t.kind == Newline || !s.measuring {
        PushKeeps(s, t);
      } else {
        CloseLineKeeps(s, t);
        PushKeeps(CloseLine(s, t), t);
      }
    }
  }

  lemma {:induction false} FeedAllKeeps(s: Layout, tokens: seq<Token>)
    requires Sound(s) && forall t :: t in tokens ==> !IsLayout(t)
    ensures var r := FeedAll(s, tokens);
      Sound(r) && WithoutLayout(r.out) == WithoutLayout(s.out) + WithoutBlanks(tokens)
    decreases tokens
  {
    if tokens != [] {
      FeedKeeps(s, tokens[0]);
      FeedAllKeeps(Feed(s, tokens[0]), tokens[1..]);
      BlanksHead(tokens);
    }
  }

  lemma {:induction false} BlanksHead(ts: seq<Token>)
    requires ts != []
    ensures WithoutBlanks(ts) == (if IsBlank(ts[0]) then [] else [ts[0]]) + WithoutBlanks(ts[1..])
  {
    if |ts| > 1 {
      assert Front(ts)[1..] == Front(ts[1..]);
      BlanksHead(Front(ts));
    } else {
      assert Front(ts) == [] && ts[1..] == [];
    }
  }

  /** Total and balanced: every stream without layout tokens, ended by EOF or not, gives as
      many DEDENTs as INDENTs, never more in any prefix, and keeps all its other tokens in
      order. */
  lemma PassIsBalanced(tokens: seq<Token>)
    requires forall t :: t in tokens ==> !IsLayout(t)
    ensures var r := LayoutOf(tokens);
      && NeverBelow(r.out) && Depth(r.out) == 0
      && WithoutLayout(r.out) == WithoutBlanks(tokens)
      && r.levels == [BASE]
  {
    FeedAllKeeps(START, tokens);
    var s := FeedAll(START, tokens);
    if |s.levels| > 1 {
      FlushKeeps(s, Last(s.out));
    }
  }

  // ---------- Tabs ----------

  predicate IsPlain(l: Level) {
    l.col == l.altCol
  }

  predicate Plain(s: Layout) {
    IsPlain(s.pending) && (forall l :: l in s.levels ==> IsPlain(l))
      && (forall d :: d in s.diagnostics ==> !d.TabError?)
  }

  lemma {:induction false} UnwindStaysPlain(s: Layout, col: nat, at: Token)
    requires s.levels != [] && Plain(s)
    ensures Plain(Unwind(s, col, at))
    decreases |s.levels|
  {
    if |s.levels| > 1 && col < Last(s.levels).col {
      UnwindStaysPlain(s.(levels := Front(s.levels), out := s.out + [Synthesized(Dedent, at)]), col, at);
    }
  }

  lemma {:induction false} FlushStaysPlain(s: Layout, at: Token)
    requires s.levels != [] && Plain(s)
    ensures Plain(Flush(s, at))
    decreases |s.levels|
  {
    if |s.levels| > 1 {
      FlushStaysPlain(s.(levels := Front(s.levels), out := s.out + [Synthesized(Dedent, at)]), at);
    }
  }

  lemma CloseStaysPlain(s: Layout, next: Token)
    requires s.levels != [] && Plain(s)
    ensures Plain(CloseLine(s, next))
  {
    var still := s.(measuring := false);
    assert Last(s.levels) in s.levels;
    UnwindStaysPlain(still, s.pending.col, next);
    var u := Unwind(still, s.pending.col, next);
    assert Last(u.levels) in u.levels;
  }

  lemma FeedStaysPlain(s: Layout, t: Token)
    requires s.levels != [] && Plain(s) && t.kind != Tab
    ensures Plain(Feed(s, t))
  {
    if t.kind == Eof {
      FlushStaysPlain(s, t);
    } else if s.measuring {
      CloseStaysPlain(s, t);
    }
  }

  lemma {:induction false} FeedAllStaysPlain(s: Layout, tokens: seq<Token>)
    requires s.levels != [] && Plain(s) && forall t :: t in tokens ==> t.kind != Tab
    ensures Plain(FeedAll(s, tokens))
    decreases tokens
  {
    if tokens != [] {
      FeedStaysPlain(s, tokens[0]);
      FeedAllStaysPlain(Feed(s, tokens[0]), tokens[1..]);
    }
  }

  /** TabError is about tabs: a stream without any is never reported for them. */
  lemma OnlyTabsAreAmbiguous(tokens: seq<Token>, d: Diagnostic)
    requires forall t :: t in tokens ==> t.kind != Tab
    requires d in LayoutOf(tokens).diagnostics
    ensures d.IndentationError?
  {
    FeedAllStaysPlain(START, tokens);
    var s := FeedAll(START, tokens);
    if |s.levels| > 1 && s.out != [] {
      FlushStaysPlain(s, Last(s.out));
    }
  }

  // ---------- The Builder ----------

  class Builder {
    var levels: seq<Level>
    var out: seq<Token>
    var pending: Level
    var measuring: bool
    var diagnostics: seq<Diagnostic>

    constructor ()
      ensures Now() == START
    {
      levels, out, pending, measuring, diagnostics := [BASE], [], BASE, true, [];
    }

    ghost function Now(): Layout
      reads this
    {
      Layout(levels, out, pending, measuring, diagnostics)
    }

    method Run(tokens: seq<Token>) returns (result: seq<Token>)
      requires Now() == START && forall t :: t in tokens ==> !IsLayout(t)
      modifies this
      ensures Now() == LayoutOf(tokens) && result == out
      ensures NeverBelow(result) && Depth(result) == 0 && WithoutLayout(result) == WithoutBlanks(tokens)
    {
      for i := 0 to |tokens|
        invariant levels != [] && FeedAll(Now(), tokens[i..]) == FeedAll(START, tokens)
      {
        assert tokens[i..][0] == tokens[i] && tokens[i..][1..] == tokens[i + 1..];
        Take(tokens[i]);
      }
      assert tokens[|tokens|..] == [];
      PassIsBalanced(tokens);
      FeedAllKeeps(START, tokens);
      if |levels| > 1 {
        FlushTo(out[|out| - 1]);
      }
      result := out;
    }

    method Take(token: Token)
      requires levels != []
      modifies this
      ensures Now() == Feed(old(Now()), token)
    {
      match token.kind {
        case Space =>
          pending := Level(pending.col + 1, pending.altCol + 1);
        case Tab =>
          pending := Level(NextTabStop(pending.col), pending.altCol + 1);
        case Comment =>
          out := out + [token];
        case Newline =>
          out := out + [token];
          pending := BASE;
          measuring := true;
        case Eof =>
          FlushTo(token);
          out := out + [token];
        case _ =>
          if measuring {
            Close(token);
          }
          out := out + [token];
      }
    }

    method Close(next: Token)
      requires levels != []
      modifies this
      ensures Now() == CloseLine(old(Now()), next)
    {
      measuring := false;
      var line := pending;
      if line.col == Last(levels).col {
        if line.altCol != Last(levels).altCol {
          ReportTabError(next);
        }
        return;
      }
      if line.col > Last(levels).col {
        if line.altCol <= Last(levels).altCol {
          ReportTabError(next);
        }
        levels := levels + [line];
        Emit(Indent, next);
        return;
      }
      ghost var start := Now();
      while |levels| > 1 && line.col < Last(levels).col
        invariant levels != [] && Unwind(Now(), line.col, next) == Unwind(start, line.col, next)
        invariant pending == line
        decreases |levels|
      {
        levels := levels[..|levels| - 1];
        Emit(Dedent, next);
      }
      if line.col != Last(levels).col {
        diagnostics := diagnostics + [IndentationError(next)];
        if |levels| > 1 {
          levels := levels[..|levels| - 1] + [line];
        }
        return;
      }
      if line.altCol != Last(levels).altCol {
        ReportTabError(next);
      }
    }

    method ReportTabError(at: Token)
      modifies `diagnostics
      ensures diagnostics == old(diagnostics) + [TabError(at)]
    {
      diagnostics := diagnostics + [TabError(at)];
    }

    method Emit(kind: TokenType, at: Token)
      modifies `out
      ensures out == old(out) + [Synthesized(kind, at)]
    {
      out := out + [Token(kind, "", at.line, at.column, at.line, at.column)];
    }

    method FlushTo(at: Token)
      requires levels != []
      modifies `levels, `out
      ensures Now() == Flush(old(Now()), at)
    {
      while |levels| > 1
        invariant levels != [] && Flush(Now(), at) == Flush(old(Now()), at)
        decreases |levels|
      {
        levels := levels[..|levels| - 1];
        Emit(Dedent, at);
      }
    }
  }
}
