/** Token streams as lines and blocks: where a logical line ends, and which stretches of a
    stream are balanced in INDENT and DEDENT. */
module BlockStructure {
  import opened Tokens
  import opened Grammar
  import opened TokenStreams
  import opened IndentationPass

  // ---------- Balance ----------

  /** Closes what it opens, and nothing else. */
  predicate Balanced(ts: seq<Token>) {
    NeverBelow(ts) && Depth(ts) == 0
  }

  lemma {:induction false} DepthAdds(a: seq<Token>, b: seq<Token>)
    ensures Depth(a + b) == Depth(a) + Depth(b)
    decreases b
  {
    if b == [] {
      assert a + b == a;
    } else {
      assert Front(a + b) == a + Front(b) && Last(a + b) == Last(b);
      DepthAdds(a, Front(b));
    }
  }

  lemma {:induction false} NeverBelowAdds(a: seq<Token>, b: seq<Token>)
    requires NeverBelow(a) && NeverBelow(b)
    ensures NeverBelow(a + b)
    decreases b
  {
    if b == [] {
      assert a + b == a;
    } else {
      assert Front(a + b) == a + Front(b) && Last(a + b) == Last(b);
      NeverBelowAdds(a, Front(b));
      DepthAdds(a, b);
      DepthNonNegative(a);
      DepthNonNegative(b);
    }
  }

  lemma DepthNonNegative(ts: seq<Token>)
    requires NeverBelow(ts)
    ensures Depth(ts) >= 0
  {
  }

  lemma {:induction false} PrefixNeverBelow(ts: seq<Token>, n: nat)
    requires NeverBelow(ts) && n <= |ts|
    ensures NeverBelow(ts[..n])
  {
    if n < |ts| {
      assert Front(ts)[..n] == ts[..n];
      PrefixNeverBelow(Front(ts), n);
    } else {
      assert ts[..n] == ts;
    }
  }

  /** The stretch between two positions is balanced. */
  predicate Moved(ts: seq<Token>, from: nat, to: nat) {
    from <= to <= |ts| && Balanced(ts[from..to])
  }

  predicate NoBlocks(ts: seq<Token>, from: nat, to: nat) {
    from <= to <= |ts| && forall i :: from <= i < to ==> !IsLayout(ts[i]) && ts[i].kind != Eof
  }

  lemma MovedTwice(ts: seq<Token>, a: nat, b: nat, c: nat)
    requires Moved(ts, a, b) && Moved(ts, b, c)
    ensures Moved(ts, a, c)
  {
    assert ts[a..c] == ts[a..b] + ts[b..c];
    NeverBelowAdds(ts[a..b], ts[b..c]);
    DepthAdds(ts[a..b], ts[b..c]);
  }

  lemma MovedNowhere(ts: seq<Token>, a: nat)
    requires a <= |ts|
    ensures Moved(ts, a, a)
  {
    assert ts[a..a] == [];
  }

  lemma {:induction false} NoBlocksMoved(ts: seq<Token>, a: nat, b: nat)
    requires NoBlocks(ts, a, b)
    ensures Moved(ts, a, b)
    decreases b - a
  {
    if a < b {
      NoBlocksMoved(ts, a, b - 1);
      assert Front(ts[a..b]) == ts[a..b - 1] && Last(ts[a..b]) == ts[b - 1];
    } else {
      assert ts[a..b] == [];
    }
  }

  lemma Enclosed(opening: Token, inside: seq<Token>, closing: Token)
    requires opening.kind == Indent && Balanced(inside) && closing.kind == Dedent
    ensures Balanced([opening] + inside + [closing])
  {
    var x, z := [opening], [closing];
    var whole := x + inside + z;
    assert Front(x) == [] && Front(z) == [];
    NeverBelowAdds(x, inside);
    DepthAdds(x, inside);
    assert Front(whole) == x + inside && Last(whole) == closing;
    DepthAdds(x + inside, z);
  }

  /** INDENT, a balanced stretch and DEDENT. */
  lemma BlockMoved(ts: seq<Token>, a: nat, b: nat)
    requires a + 1 <= b < |ts| && ts[a].kind == Indent && Moved(ts, a + 1, b) && ts[b].kind == Dedent
    ensures Moved(ts, a, b + 1)
  {
    Enclosed(ts[a], ts[a + 1..b], ts[b]);
    assert ts[a..b + 1] == [ts[a]] + ts[a + 1..b] + [ts[b]];
  }

  // ---------- Whole streams ----------

  /** What the lexer and the indentation pass give: balanced, with one TOKEN_EOF, and a
      line's first token right after every INDENT. */
  predicate IsLaidOut(ts: seq<Token>) {
    && IsTerminated(ts) && Balanced(ts)
    && forall i :: 0 <= i < |ts| && ts[i].kind == Indent ==>
         i + 1 < |ts| && !IsStructural(ts[i + 1].kind) && ts[i + 1].kind != Comment
  }

  function DepthAt(ts: seq<Token>, p: nat): int
    requires p <= |ts|
  {
    Depth(ts[..p])
  }

  lemma DepthStays(ts: seq<Token>, a: nat, b: nat)
    requires Moved(ts, a, b)
    ensures DepthAt(ts, a) == DepthAt(ts, b)
  {
    assert ts[..b] == ts[..a] + ts[a..b];
    DepthAdds(ts[..a], ts[a..b]);
  }

  lemma DepthSteps(ts: seq<Token>, p: nat)
    requires p < |ts|
    ensures DepthAt(ts, p + 1)
         == DepthAt(ts, p) + if ts[p].kind == Indent then 1 else if ts[p].kind == Dedent then -1 else 0
  {
    assert Front(ts[..p + 1]) == ts[..p];
  }

  /** At the end of the file every block is closed. */
  lemma EndIsOuter(ts: seq<Token>)
    requires IsLaidOut(ts)
    ensures DepthAt(ts, |ts| - 1) == 0
  {
    DepthSteps(ts, |ts| - 1);
    assert ts[..|ts|] == ts;
  }

  lemma DepthIsNatural(ts: seq<Token>, p: nat)
    requires IsLaidOut(ts) && p <= |ts|
    ensures DepthAt(ts, p) >= 0
  {
    PrefixNeverBelow(ts, p);
    DepthNonNegative(ts[..p]);
  }

  // ---------- Lines ----------

  /** How many significant tokens are left. */
  function Left(ts: seq<Token>, p: nat): nat
    requires p <= |ts|
  {
    |GlyphsOf(ts[p..])|
  }

  predicate IsPosition(ts: seq<Token>, p: nat) {
    p < |ts| && ts[p].kind != Comment
  }

  lemma {:induction false} LeftShrinks(ts: seq<Token>, a: nat, b: nat)
    requires a <= b <= |ts|
    ensures Left(ts, a) >= Left(ts, b)
    ensures a < b && ts[a].kind != Comment ==> Left(ts, a) > Left(ts, b)
    decreases b - a
  {
    if a < b {
      assert ts[a..][1..] == ts[a + 1..];
      LeftShrinks(ts, a + 1, b);
    }
  }

  /** The first structural token at or after `p`. */
  function LineEnd(ts: seq<Token>, p: nat): (r: nat)
    requires IsTerminated(ts) && p < |ts|
    ensures p <= r < |ts| && IsStructural(ts[r].kind)
    ensures forall i :: p <= i < r ==> !IsStructural(ts[i].kind)
    decreases |ts| - p
  {
    if IsStructural(ts[p].kind) then p
    else
      assert p < |ts| - 1;
      LineEnd(ts, p + 1)
  }

  /** From the end of the current line on. */
  function Tail(ts: Glyphs): (r: Glyphs)
    ensures |r| == Beyond(ts)
  {
    if ts == [] || IsStructural(ts[0].kind) then ts else Tail(ts[1..])
  }

  lemma {:induction false} TailIsAtLineEnd(ts: seq<Token>, p: nat)
    requires IsTerminated(ts) && p < |ts|
    ensures Tail(GlyphsOf(ts[p..])) == GlyphsOf(ts[LineEnd(ts, p)..])
    decreases |ts| - p
  {
    assert ts[p..][1..] == ts[p + 1..];
    if !IsStructural(ts[p].kind) {
      TailIsAtLineEnd(ts, p + 1);
    }
  }

  lemma SamePosition(ts: seq<Token>, a: nat, b: nat)
    requires IsPosition(ts, a) && IsPosition(ts, b) && Left(ts, a) == Left(ts, b)
    ensures a == b
  {
    if a < b {
      LeftShrinks(ts, a, b);
    } else if b < a {
      LeftShrinks(ts, b, a);
    }
  }

  /** A rule that stays before its line's end has read no NEWLINE, INDENT or DEDENT. */
  lemma StaysOnLine(ts: seq<Token>, a: nat, b: nat)
    requires IsTerminated(ts) && IsPosition(ts, a) && IsPosition(ts, b)
    requires Left(ts, b) <= Left(ts, a) && Beyond(GlyphsOf(ts[a..])) == Beyond(GlyphsOf(ts[b..]))
    ensures NoBlocks(ts, a, b) && LineEnd(ts, a) == LineEnd(ts, b)
  {
    if b < a {
      LeftShrinks(ts, b, a);
    }
    TailIsAtLineEnd(ts, a);
    TailIsAtLineEnd(ts, b);
    SamePosition(ts, LineEnd(ts, a), LineEnd(ts, b));
  }

  /** Just past the NEWLINE of the current line, or before the token that ends it. */
  function AfterLine(ts: Glyphs): Glyphs {
    if Kind(Tail(ts)) == Newline then Next(Tail(ts)) else Tail(ts)
  }

  lemma SameLine(ts: seq<Token>, a: nat, b: nat)
    requires IsTerminated(ts) && IsPosition(ts, a) && IsPosition(ts, b)
    requires Left(ts, b) <= Left(ts, a) && Beyond(GlyphsOf(ts[a..])) == Beyond(GlyphsOf(ts[b..]))
    ensures AfterLine(GlyphsOf(ts[a..])) == AfterLine(GlyphsOf(ts[b..]))
  {
    StaysOnLine(ts, a, b);
    TailIsAtLineEnd(ts, a);
    TailIsAtLineEnd(ts, b);
  }

  /** At a line's end, taking its NEWLINE takes the whole line. */
  lemma LineIsOver(ts: seq<Token>, a: nat, b: nat)
    requires IsTerminated(ts) && IsPosition(ts, a) && IsPosition(ts, b) && IsStructural(ts[b].kind)
    requires Left(ts, b) <= Left(ts, a) && Beyond(GlyphsOf(ts[a..])) == Beyond(GlyphsOf(ts[b..]))
    ensures var here := GlyphsOf(ts[b..]);
      AfterLine(GlyphsOf(ts[a..])) == if Kind(here) == Newline then Next(here) else here
  {
    StaysOnLine(ts, a, b);
    TailIsAtLineEnd(ts, a);
  }

  lemma AtLineEnd(ts: seq<Token>, n: nat)
    requires IsTerminated(ts) && n < |ts| && IsStructural(ts[n].kind)
    ensures Kind(GlyphsOf(ts[n..])) == ts[n].kind
    ensures ts[n].kind == Newline ==> Next(GlyphsOf(ts[n..])) == GlyphsOf(ts[n + 1..])
    ensures ts[n].kind == Newline ==> Left(ts, n) == Left(ts, n + 1) + 1
  {
    assert ts[n..][1..] == ts[n + 1..];
  }

  /** Taking a whole line reads nothing of a block. */
  lemma TakesOneLine(ts: seq<Token>, a: nat, b: nat)
    requires IsTerminated(ts) && IsPosition(ts, a) && IsPosition(ts, b)
    requires GlyphsOf(ts[b..]) == AfterLine(GlyphsOf(ts[a..]))
    ensures NoBlocks(ts, a, b)
  {
    hide GlyphsOf, Tail, Beyond;
    var n := LineEnd(ts, a);
    TailIsAtLineEnd(ts, a);
    AtLineEnd(ts, n);
    if ts[n].kind == Newline {
      if b <= n {
        LeftShrinks(ts, b, n);
      }
      OnlyCommentsFollow(ts, n, b);
    } else {
      SamePosition(ts, b, n);
    }
  }

  /** Between a token and the significant one after it there are comments only. */
  lemma OnlyCommentsFollow(ts: seq<Token>, n: nat, b: nat)
    requires n < b < |ts| && ts[n].kind != Comment && Left(ts, n) == Left(ts, b) + 1
    ensures forall i :: n < i < b ==> ts[i].kind == Comment
  {
    forall i | n < i < b ensures ts[i].kind == Comment {
      LeftShrinks(ts, i, b);
      LeftShrinks(ts, n, i);
    }
  }

  /** One token that is no block mark, and the comments after it. */
  lemma StepMoved(ts: seq<Token>, a: nat, b: nat)
    requires a < b <= |ts| && !IsLayout(ts[a]) && ts[a].kind != Eof
    requires forall i :: a < i < b ==> ts[i].kind == Comment
    ensures Moved(ts, a, b)
  {
    NoBlocksMoved(ts, a, b);
  }

  lemma LineMoved(ts: seq<Token>, a: nat, b: nat)
    requires IsTerminated(ts) && IsPosition(ts, a) && IsPosition(ts, b)
    requires Left(ts, b) <= Left(ts, a) && Beyond(GlyphsOf(ts[a..])) == Beyond(GlyphsOf(ts[b..]))
    ensures Moved(ts, a, b)
  {
    StaysOnLine(ts, a, b);
    NoBlocksMoved(ts, a, b);
  }

  /** From an INDENT to its own DEDENT, and past the comments after it. */
  predicate IsBlock(ts: seq<Token>, from: nat, close: nat, to: nat) {
    && from < close < to <= |ts| && ts[from].kind == Indent && ts[close].kind == Dedent
    && Moved(ts, from + 1, close) && forall i :: close < i < to ==> ts[i].kind == Comment
  }

  lemma BlockIsBalanced(ts: seq<Token>, from: nat, close: nat, to: nat)
    requires IsBlock(ts, from, close, to)
    ensures Moved(ts, from, to)
  {
    BlockMoved(ts, from, close);
    NoBlocksMoved(ts, close + 1, to);
    MovedTwice(ts, from, close + 1, to);
  }

  /** A balanced stretch inside an open block cannot reach the end of the file. */
  lemma BlockIsStillOpen(ts: seq<Token>, from: nat, to: nat)
    requires IsLaidOut(ts) && from < |ts| && ts[from].kind == Indent && Moved(ts, from + 1, to) && to < |ts|
    ensures to < |ts| - 1
  {
    DepthIsNatural(ts, from);
    DepthSteps(ts, from);
    DepthStays(ts, from + 1, to);
    EndIsOuter(ts);
  }

  /** Outside every block, a balanced stretch is not followed by a DEDENT. */
  lemma NoStrayDedent(ts: seq<Token>, to: nat)
    requires IsLaidOut(ts) && Moved(ts, 0, to) && to < |ts|
    ensures ts[to].kind != Dedent
  {
    DepthStays(ts, 0, to);
    DepthSteps(ts, to);
    DepthIsNatural(ts, to + 1);
    assert ts[..0] == [];
  }
}
