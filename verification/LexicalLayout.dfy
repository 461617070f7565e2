/** What the scanner promises of its output: tokens that are slices of the source, in order
    and apart, with nothing between them but blanks and line continuations, each at the
    line and column of its text. */
module LexicalLayout {
  import opened Tokens

  // ---------- Positions ----------

  datatype Place = Place(line: int, column: int)

  /** A byte inside a UTF-8 sequence, which has no column of its own. */
  predicate IsContinuationByte(c: char) {
    0x80 <= c as int < 0xC0
  }

  function Step(p: Place, c: char): Place {
    if c == '\n' then Place(p.line + 1, 1)
    else if IsContinuationByte(c) then p
    else Place(p.line, p.column + 1)
  }

  /** Where the cursor is after reading `text` from the start of a file. */
  function PlaceAfter(text: string): Place {
    if text == [] then Place(1, 1) else Step(PlaceAfter(text[..|text| - 1]), text[|text| - 1])
  }

  function LineBreaks(text: string): nat {
    if text == [] then 0 else LineBreaks(text[..|text| - 1]) + if text[|text| - 1] == '\n' then 1 else 0
  }

  /** The text after the last line break. */
  function CurrentLine(text: string): string {
    if text == [] || text[|text| - 1] == '\n' then [] else CurrentLine(text[..|text| - 1]) + [text[|text| - 1]]
  }

  function Characters(text: string): nat {
    if text == [] then 0 else Characters(text[..|text| - 1]) + if IsContinuationByte(text[|text| - 1]) then 0 else 1
  }

  /** Lines count line breaks, and columns count the characters of the current line. */
  lemma {:induction false} PlaceCounts(text: string)
    ensures PlaceAfter(text) == Place(1 + LineBreaks(text), 1 + Characters(CurrentLine(text)))
  {
    if text != [] {
      var front, c := text[..|text| - 1], text[|text| - 1];
      PlaceCounts(front);
      if c != '\n' {
        assert CurrentLine(text)[..|CurrentLine(front)|] == CurrentLine(front);
      }
    }
  }

  // ---------- Gaps ----------

  const FORM_FEED: char := 12 as char

  predicate IsBlankByte(c: char) {
    c == ' ' || c == '\t' || c == '\r' || c == FORM_FEED || c == '\n'
  }

  /** Blanks, line breaks and backslash continuations. */
  predicate IsGap(s: string) {
    s == []
    || (IsBlankByte(s[0]) && IsGap(s[1..]))
    || (|s| >= 2 && s[0] == '\\' && s[1] == '\n' && IsGap(s[2..]))
    || (|s| >= 3 && s[0] == '\\' && s[1] == '\r' && s[2] == '\n' && IsGap(s[3..]))
  }

  lemma {:induction false} GapsJoin(a: string, b: string)
    requires IsGap(a) && IsGap(b)
    ensures IsGap(a + b)
    decreases |a|
  {
    if a == [] {
      assert a + b == b;
    } else if IsBlankByte(a[0]) {
      assert (a + b)[1..] == a[1..] + b;
      GapsJoin(a[1..], b);
    } else if a[1] == '\n' {
      assert (a + b)[2..] == a[2..] + b;
      GapsJoin(a[2..], b);
    } else {
      assert (a + b)[3..] == a[3..] + b;
      GapsJoin(a[3..], b);
    }
  }

  // ---------- Slices ----------

  /** The bytes a token covers. */
  datatype Span = Span(from: nat, to: nat)

  predicate IsSlice(source: string, t: Token, at: Span) {
    && at.from <= at.to <= |source|
    && t.lexeme == source[at.from..at.to]
    && Place(t.line, t.column) == PlaceAfter(source[..at.from])
    && Place(t.endLine, t.endColumn) == PlaceAfter(source[..at.to])
  }

  function EndOf(spans: seq<Span>): nat {
    if spans == [] then 0 else spans[|spans| - 1].to
  }

  /** The tokens are ordered, disjoint slices with nothing but gaps between them. */
  predicate Tiled(source: string, tokens: seq<Token>, spans: seq<Span>) {
    |tokens| == |spans| &&
    (tokens == [] ||
     (var n := |tokens| - 1;
      && Tiled(source, tokens[..n], spans[..n])
      && IsSlice(source, tokens[n], spans[n])
      && EndOf(spans[..n]) <= spans[n].from
      && IsGap(source[EndOf(spans[..n])..spans[n].from])))
  }

  lemma TiledSnoc(source: string, tokens: seq<Token>, spans: seq<Span>, t: Token, at: Span)
    requires Tiled(source, tokens, spans) && IsSlice(source, t, at)
    requires EndOf(spans) <= at.from && IsGap(source[EndOf(spans)..at.from])
    ensures Tiled(source, tokens + [t], spans + [at])
  {
    assert (tokens + [t])[..|tokens|] == tokens && (spans + [at])[..|spans|] == spans;
  }

  lemma {:induction false} TiledEndsInside(source: string, tokens: seq<Token>, spans: seq<Span>)
    requires Tiled(source, tokens, spans)
    ensures EndOf(spans) <= |source|
  {
  }

  /** The gaps before the tokens and the tokens' own text, in order. */
  function Woven(source: string, tokens: seq<Token>, spans: seq<Span>): string
    requires Tiled(source, tokens, spans)
  {
    if tokens == [] then []
    else
      var n := |tokens| - 1;
      Woven(source, tokens[..n], spans[..n]) + source[EndOf(spans[..n])..spans[n].from] + tokens[n].lexeme
  }

  /** Nothing is lost: gaps and lexemes make up the source as far as the tokens go. */
  lemma {:induction false} WovenIsSource(source: string, tokens: seq<Token>, spans: seq<Span>)
    requires Tiled(source, tokens, spans)
    ensures EndOf(spans) <= |source| && Woven(source, tokens, spans) == source[..EndOf(spans)]
  {
    if tokens != [] {
      var n := |tokens| - 1;
      WovenIsSource(source, tokens[..n], spans[..n]);
      SlicesJoin(source, EndOf(spans[..n]), spans[n].from, spans[n].to);
    }
  }

  lemma SlicesJoin(source: string, a: nat, b: nat, c: nat)
    requires a <= b <= c <= |source|
    ensures source[..a] + source[a..b] + source[b..c] == source[..c]
  {
  }

  // ---------- What may follow what ----------

  /** Whitespace and comments do not count as content of a line. */
  predicate IsSignificant(kind: TokenType) {
    kind !in {Space, Tab, Comment, Eof}
  }

  /** How many f-strings are open after `ts`. */
  function OpenFStrings(ts: seq<Token>): int {
    if ts == [] then 0 else OpenFStrings(ts[..|ts| - 1]) + Opens(ts[|ts| - 1].kind)
  }

  function Opens(kind: TokenType): int {
    if kind == FStringStart then 1 else if kind == FStringEnd then -1 else 0
  }

  /** The logical line `ts` ends in has a token that counts. */
  predicate HasContent(ts: seq<Token>) {
    ts != [] && (var last := ts[|ts| - 1].kind;
                 last != Newline && (IsSignificant(last) || HasContent(ts[..|ts| - 1])))
  }

  /** Literal text and the end of an f-string stand inside one; a NEWLINE closes a line that
      has content, and never inside an f-string; whitespace tokens only indent. */
  predicate MayFollow(ts: seq<Token>, kind: TokenType) {
    && (kind == FStringMiddle || kind == FStringEnd ==> OpenFStrings(ts) > 0)
    && (kind == Newline ==> HasContent(ts) && OpenFStrings(ts) == 0)
    && (kind == Space || kind == Tab ==> !HasContent(ts))
  }

  predicate Orderly(ts: seq<Token>) {
    ts == [] || (Orderly(ts[..|ts| - 1]) && MayFollow(ts[..|ts| - 1], ts[|ts| - 1].kind))
  }

  lemma OrderlySnoc(ts: seq<Token>, t: Token)
    requires Orderly(ts) && MayFollow(ts, t.kind)
    ensures Orderly(ts + [t]) && OpenFStrings(ts + [t]) == OpenFStrings(ts) + Opens(t.kind)
    ensures HasContent(ts + [t]) == (t.kind != Newline && (IsSignificant(t.kind) || HasContent(ts)))
  {
    assert (ts + [t])[..|ts|] == ts;
  }

  lemma {:induction false} OrderlyAt(ts: seq<Token>, i: nat)
    requires Orderly(ts) && i < |ts|
    ensures Orderly(ts[..i]) && MayFollow(ts[..i], ts[i].kind)
    decreases |ts|
  {
    var n := |ts| - 1;
    if i < n {
      assert ts[..n][..i] == ts[..i];
      OrderlyAt(ts[..n], i);
    }
  }

  /** The token at `j` counts, and no NEWLINE comes after it. */
  predicate IsContent(ts: seq<Token>, j: nat)
    requires j < |ts|
  {
    IsSignificant(ts[j].kind) && forall k :: j <= k < |ts| ==> ts[k].kind != Newline
  }

  lemma {:induction false} ContentStands(ts: seq<Token>) returns (j: nat)
    requires HasContent(ts)
    ensures j < |ts| && IsContent(ts, j)
  {
    var n := |ts| - 1;
    if IsSignificant(ts[n].kind) {
      j := n;
    } else {
      j := ContentStands(ts[..n]);
    }
  }

  /** Every NEWLINE ends a line that has a token to show for it. */
  lemma NewlineClosesALine(ts: seq<Token>, i: nat)
    requires Orderly(ts) && i < |ts| && ts[i].kind == Newline
    ensures exists j: nat :: j < i && IsContent(ts[..i], j)
  {
    OrderlyAt(ts, i);
    var j := ContentStands(ts[..i]);
  }

  /** In an orderly stream no f-string is closed that was not opened. */
  lemma {:induction false} NothingClosesUnopened(ts: seq<Token>)
    requires Orderly(ts)
    ensures OpenFStrings(ts) >= 0
  {
    if ts != [] {
      NothingClosesUnopened(ts[..|ts| - 1]);
    }
  }
}
