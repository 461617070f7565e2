/** src/domain/lexer/token_stream.cpp: a read cursor that never rests on a comment. What a
    parser sees of it is the sequence of the remaining tokens, comments dropped. */
module TokenStreams {
  import opened Tokens
  import opened Grammar

  function GlyphsOf(ts: seq<Token>): Glyphs {
    if ts == [] then []
    else if ts[0].kind == Comment then GlyphsOf(ts[1..])
    else [Glyph(ts[0].kind, ts[0].lexeme)] + GlyphsOf(ts[1..])
  }

  /** Lexer output ends in its only TOKEN_EOF. */
  predicate IsTerminated(ts: seq<Token>) {
    ts != [] && ts[|ts| - 1].kind == Eof && forall i :: 0 <= i < |ts| - 1 ==> ts[i].kind != Eof
  }

  function NextTimes(ts: Glyphs, n: nat): Glyphs {
    if n == 0 then ts else Next(NextTimes(ts, n - 1))
  }

  class TokenStream {
    const tokens: seq<Token>
    var position: nat

    constructor (tokens: seq<Token>)
      requires IsTerminated(tokens)
      ensures this.tokens == tokens && Valid() && Glyphs() == GlyphsOf(tokens)
    {
      this.tokens := tokens;
      position := 0;
      new;
      position := SkipTrivia(0);
      assert tokens[0..] == tokens;
    }

    predicate Valid()
      reads this
    {
      IsTerminated(tokens) && position < |tokens| && tokens[position].kind != Comment
    }

    ghost function Glyphs(): Glyphs
      requires Valid()
      reads this
    {
      GlyphsOf(tokens[position..])
    }

    /** The first index at or after `index` that is not a comment. */
    method SkipTrivia(index: nat) returns (r: nat)
      requires IsTerminated(tokens) && index < |tokens|
      ensures index <= r < |tokens| && tokens[r].kind != Comment
      ensures forall i :: index <= i < r ==> tokens[i].kind == Comment
      ensures GlyphsOf(tokens[r..]) == GlyphsOf(tokens[index..])
    {
      r := index;
      while r < |tokens| && tokens[r].kind == Comment
        invariant index <= r < |tokens|
        invariant forall i :: index <= i < r ==> tokens[i].kind == Comment
        invariant GlyphsOf(tokens[r..]) == GlyphsOf(tokens[index..])
      {
        assert tokens[r..][1..] == tokens[r + 1..];
        r := r + 1;
      }
    }

    function Current(): (t: Token)
      requires Valid()
      reads this
      ensures Kind(Glyphs()) == t.kind && Glyphs() != [] && Glyphs()[0] == Glyph(t.kind, t.lexeme)
    {
      tokens[position]
    }

    predicate Check(kind: TokenType)
      requires Valid()
      reads this
      ensures Check(kind) <==> Kind(Glyphs()) == kind
    {
      Current().kind == kind
    }

    /** peek(lookahead), which clamps to the last token. */
    method Peek(lookahead: nat) returns (t: Token)
      requires Valid()
      ensures t.kind == Kind(NextTimes(Glyphs(), lookahead))
    {
      var index: nat := position;
      for step := 0 to lookahead
        invariant index < |tokens|
             ==> tokens[index].kind != Comment && NextTimes(Glyphs(), step) == GlyphsOf(tokens[index..])
        invariant index >= |tokens| ==> Kind(NextTimes(Glyphs(), step)) == Eof
      {
        if index + 1 < |tokens| {
          assert tokens[index..][1..] == tokens[index + 1..];
          index := SkipTrivia(index + 1);
        } else {
          if index < |tokens| {
            assert tokens[index] == tokens[|tokens| - 1];
          }
          index := index + 1;
        }
      }
      if index >= |tokens| {
        index := |tokens| - 1;
      }
      t := tokens[index];
    }

    /** The current token, and past it; a no-op at the end of the file. */
    method Advance() returns (t: Token)
      requires Valid()
      modifies `position
      ensures Valid() && t == old(Current()) && Glyphs() == Next(old(Glyphs()))
      ensures old(Kind(Glyphs())) != Eof ==> position > old(position)
      ensures position >= old(position) && (old(Kind(Glyphs())) == Eof ==> position == old(position))
      ensures forall i :: old(position) < i < position ==> tokens[i].kind == Comment
    {
      t := Current();
      if t.kind != Eof {
        assert tokens[|tokens| - 1].kind == Eof;
        assert tokens[position..][1..] == tokens[position + 1..];
        position := SkipTrivia(position + 1);
      }
    }

    method Match(kind: TokenType) returns (matched: bool)
      requires Valid()
      modifies `position
      ensures Valid() && matched == (old(Kind(Glyphs())) == kind)
      ensures Glyphs() == if matched then Next(old(Glyphs())) else old(Glyphs())
      ensures if matched && kind != Eof then position > old(position) else position == old(position)
      ensures forall i :: old(position) < i < position ==> tokens[i].kind == Comment
    {
      matched := Check(kind);
      if matched {
        var _ := Advance();
      }
    }
  }
}
