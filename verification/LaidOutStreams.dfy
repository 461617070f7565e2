/** What the indentation pass makes of lexer output is what the statement parser relies on. */
module LaidOutStreams {
  import opened Tokens
  import opened Grammar
  import opened TokenStreams
  import opened IndentationPass
  import opened BlockStructure
  import Lexing

  /** Every INDENT stands right before a line's first token, and no end of file comes early. */
  predicate Led(out: seq<Token>) {
    && (forall i :: 0 <= i < |out| ==> out[i].kind != Eof)
    && forall i :: 0 <= i < |out| && out[i].kind == Indent ==>
         i + 1 < |out| && !IsStructural(out[i + 1].kind) && out[i + 1].kind != Comment
  }

  lemma LedSnoc(out: seq<Token>, t: Token)
    requires Led(out) && t.kind != Eof && t.kind != Indent
    ensures Led(out + [t])
  {
    var all := out + [t];
    forall i | 0 <= i < |all| && all[i].kind == Indent
      ensures i + 1 < |all| && !IsStructural(all[i + 1].kind) && all[i + 1].kind != Comment
    {
      assert out[i].kind == Indent;
    }
  }

  lemma LedIndent(out: seq<Token>, indent: Token, t: Token)
    requires Led(out) && indent.kind == Indent && !IsStructural(t.kind) && t.kind != Comment
    ensures Led(out + [indent] + [t])
  {
    var all := out + [indent] + [t];
    forall i | 0 <= i < |all| && all[i].kind == Indent
      ensures i + 1 < |all| && !IsStructural(all[i + 1].kind) && all[i + 1].kind != Comment
    {
      if i < |out| {
        assert out[i].kind == Indent;
      }
    }
  }

  lemma {:induction false} UnwindLeads(s: Layout, col: nat, at: Token)
    requires s.levels != [] && Led(s.out)
    ensures Led(Unwind(s, col, at).out)
    decreases |s.levels|
  {
    if |s.levels| > 1 && col < Last(s.levels).col {
      LedSnoc(s.out, Synthesized(Dedent, at));
      UnwindLeads(s.(levels := Front(s.levels), out := s.out + [Synthesized(Dedent, at)]), col, at);
    }
  }

  lemma {:induction false} FlushLeads(s: Layout, at: Token)
    requires s.levels != [] && Led(s.out)
    ensures Led(Flush(s, at).out)
    decreases |s.levels|
  {
    if |s.levels| > 1 {
      LedSnoc(s.out, Synthesized(Dedent, at));
      FlushLeads(s.(levels := Front(s.levels), out := s.out + [Synthesized(Dedent, at)]), at);
    }
  }

  lemma CloseLeads(s: Layout, t: Token)
    requires s.levels != [] && Led(s.out) && !IsStructural(t.kind) && t.kind != Comment
    ensures Led(CloseLine(s, t).out + [t])
  {
    var line := s.pending;
    if line.col == Last(s.levels).col {
      LedSnoc(s.out, t);
    } else if line.col > Last(s.levels).col {
      LedIndent(s.out, Synthesized(Indent, t), t);
    } else {
      UnwindLeads(s.(measuring := false), line.col, t);
      LedSnoc(Unwind(s.(measuring := false), line.col, t).out, t);
    }
  }

  lemma FeedLeads(s: Layout, t: Token)
    requires s.levels != [] && Led(s.out) && !IsLayout(t) && t.kind != Eof
    ensures Led(Feed(s, t).out)
  {
    if IsBlank(t) {
      BlankKeeps(s, t);
    } else {
      OthersPush(s, t);
      if t.kind == Comment || t.kind == Newline || !s.measuring {
        LedSnoc(s.out, t);
      } else {
        CloseLeads(s, t);
      }
    }
  }

  lemma {:induction false} FeedAllLeads(s: Layout, tokens: seq<Token>)
    requires s.levels != [] && Led(s.out) && forall t :: t in tokens ==> !IsLayout(t) && t.kind != Eof
    ensures Led(FeedAll(s, tokens).out)
    decreases tokens
  {
    if tokens != [] {
      FeedLeads(s, tokens[0]);
      FeedAllLeads(Feed(s, tokens[0]), tokens[1..]);
    }
  }

  lemma {:induction false} FeedAllSnoc(s: Layout, tokens: seq<Token>, t: Token)
    requires s.levels != []
    ensures FeedAll(s, tokens + [t]) == Feed(FeedAll(s, tokens), t)
    decreases tokens
  {
    if tokens == [] {
      assert tokens + [t] == [t] && [t][1..] == [];
    } else {
      assert (tokens + [t])[1..] == tokens[1..] + [t];
      FeedAllSnoc(Feed(s, tokens[0]), tokens[1..], t);
    }
  }

  /** For every stream a lexer can end, the pass gives a stream the parser can trust. */
  lemma PassLaysOut(tokens: seq<Token>)
    requires IsTerminated(tokens) && forall t :: t in tokens ==> !IsLayout(t)
    ensures IsLaidOut(LayoutOf(tokens).out)
  {
    var front, eof := Front(tokens), Last(tokens);
    assert tokens == front + [eof];
    FeedAllSnoc(START, front, eof);
    FeedAllLeads(START, front);
    var s := FeedAll(START, front);
    FlushLeads(s, eof);
    PassIsBalanced(tokens);
    var out := LayoutOf(tokens).out;
    assert out == Flush(s, eof).out + [eof];
    forall i | 0 <= i < |out| && out[i].kind == Indent
      ensures i + 1 < |out| && !IsStructural(out[i + 1].kind) && out[i + 1].kind != Comment
    {
      assert Flush(s, eof).out[i].kind == Indent;
    }
  }

  /** From bytes to blocks: whatever the lexer gives, the pass lays out. */
  lemma LexedStreamsAreLaidOut(tokens: seq<Token>)
    requires Lexing.IsComplete(tokens)
    ensures IsLaidOut(LayoutOf(tokens).out)
  {
    forall t | t in tokens ensures !IsLayout(t) {
      var i :| 0 <= i < |tokens| && tokens[i] == t;
    }
    PassLaysOut(tokens);
  }
}
