/** src/domain/lexer/lexer.cpp: the scanner, f-string recursion included. It terminates on
    every byte string, and its tokens tile the source. */
module Lexing {
  import opened Options
  import opened Characters
  import opened Tokens
  import opened WordTables
  import opened ScanContexts
  import opened LexicalLayout
  import opened TokenEnds

  // ---------- Spellings ----------

  predicate IsStringPrefix(text: string) {
    if |text| == 1 then ToLower(text[0]) in {'r', 'b', 'u', 'f'}
    else |text| == 2 && [ToLower(text[0]), ToLower(text[1])] in {"rb", "br", "fr", "rf"}
  }

  predicate PrefixContains(prefix: string, wanted: char) {
    exists i :: 0 <= i < |prefix| && ToLower(prefix[i]) == wanted
  }

  /** What the layout of lines and blocks is made from later; never scanned before it. */
  predicate IsScanned(kind: TokenType) {
    kind !in {Eof, Indent, Dedent}
  }

  /** Words and punctuation may stand anywhere. */
  predicate IsPlain(kind: TokenType) {
    kind !in {FStringStart, FStringMiddle, FStringEnd, Newline, Space, Tab}
  }

  predicate IsWord(lexeme: string) {
    lexeme != [] && IsIdentifierStart(lexeme[0]) && forall i :: 0 <= i < |lexeme| ==> IsIdentifierContinue(lexeme[i])
  }

  /** What a prefix makes of the literal after it. */
  function LiteralKind(prefix: string): TokenType {
    if PrefixContains(prefix, 'f') then FStringStart
    else if PrefixContains(prefix, 'b') then BytesLiteral
    else StringLiteral
  }

  predicate IsQuote(c: char) {
    c == '"' || c == '\''
  }

  /** A quote, alone or after a prefix that makes it this kind of literal. */
  predicate QuoteStands(kind: TokenType, lexeme: string, at: nat)
    requires at < |lexeme|
  {
    IsQuote(lexeme[at]) && (at == 0 || IsStringPrefix(lexeme[..at])) && kind == LiteralKind(lexeme[..at])
  }

  predicate IsQuoted(kind: TokenType, lexeme: string) {
    exists at :: 0 <= at < |lexeme| && QuoteStands(kind, lexeme, at)
  }

  /** Which lexemes each kind of token can have. */
  predicate IsSpelling(kind: TokenType, lexeme: string) {
    match kind
    case Space => lexeme == " "
    case Tab => lexeme == "\t"
    case Newline => lexeme == "\n" || lexeme == ""
    case Comment => lexeme != [] && lexeme[0] == '#' && '\n' !in lexeme && '\r' !in lexeme
    case Error => |lexeme| == 1 && FindOperator(lexeme).None?
    case IntLiteral => IsNumber(kind, lexeme)
    case FloatLiteral => IsNumber(kind, lexeme)
    case ComplexLiteral => IsNumber(kind, lexeme)
    case StringLiteral => IsQuoted(kind, lexeme)
    case BytesLiteral => IsQuoted(kind, lexeme)
    case FStringStart => IsQuoted(kind, lexeme)
    case FStringMiddle => lexeme != []
    case FStringEnd => |lexeme| <= 3 && forall i :: 0 <= i < |lexeme| ==> IsQuote(lexeme[i])
    case _ =>
      || FindOperator(lexeme) == Some(kind)
      || (IsWord(lexeme) && (kind == ClassifyWord(lexeme, false) || kind == ClassifyWord(lexeme, true)))
  }

  predicate AllSpelled(tokens: seq<Token>) {
    forall i :: 0 <= i < |tokens| ==> IsScanned(tokens[i].kind) && IsSpelling(tokens[i].kind, tokens[i].lexeme)
  }

  lemma SpelledSnoc(tokens: seq<Token>, t: Token)
    requires AllSpelled(tokens) && IsScanned(t.kind) && IsSpelling(t.kind, t.lexeme)
    ensures AllSpelled(tokens + [t])
  {
  }

  class Lexer {
    const source: string
    const context: ScanContext
    var tokens: seq<Token>
    ghost var spans: seq<Span>
    var position: nat
    var line: int
    var column: int
    var atLineStart: bool
    var lineHasContent: bool

    constructor (source: string)
      ensures this.source == source && fresh(context) && Steady()
    {
      this.source := source;
      context := new ScanContext();
      tokens, spans, position, line, column := [], [], 0, 1, 1;
      atLineStart, lineHasContent := true, false;
    }

    /** The cursor is where its line and column say, past every token so far, and the tokens
        are in order. */
    ghost predicate Scanned()
      reads this
    {
      && position <= |source|
      && Place(line, column) == PlaceAfter(source[..position])
      && Tiled(source, tokens, spans)
      && EndOf(spans) <= position
      && AllSpelled(tokens) && Orderly(tokens)
    }

    ghost predicate Steady()
      reads this
    {
      Scanned() && lineHasContent == HasContent(tokens)
    }

    /** Nothing but a gap since the last token. */
    ghost predicate BetweenTokens()
      reads this
    {
      Steady() && IsGap(source[EndOf(spans)..position])
    }

    /** A token has begun at `start`, right after a gap. */
    ghost predicate InToken(start: nat)
      reads this
    {
      Steady() && EndOf(spans) <= start <= position && IsGap(source[EndOf(spans)..start])
    }

    /** One token more than `before`. */
    ghost predicate Added(before: seq<Token>, kind: TokenType, lexeme: string)
      reads this
    {
      && |tokens| == |before| + 1 && tokens[..|before|] == before
      && tokens[|before|].kind == kind && tokens[|before|].lexeme == lexeme
    }

    /** The source from `start` to `end` has become one token. */
    ghost predicate Took(before: seq<Token>, kind: TokenType, start: nat, end: nat)
      reads this
    {
      start <= end <= |source| && position == end && Added(before, kind, source[start..end])
    }

    /** Tokens were added and none was taken back; no f-string was left open. */
    ghost predicate Went(before: seq<Token>)
      reads this
    {
      before <= tokens && OpenFStrings(tokens) == OpenFStrings(before)
    }

    ghost predicate TookFString(before: seq<Token>)
      reads this
    {
      && Went(before) && |tokens| >= |before| + 2
      && tokens[|before|].kind == FStringStart && tokens[|tokens| - 1].kind == FStringEnd
    }

    /** Whitespace tokens, one for each byte. */
    ghost predicate Indented(before: seq<Token>, from: nat, to: nat)
      requires from <= to <= |source|
      reads this
    {
      && |tokens| == |before| + (to - from) && before <= tokens
      && forall i :: from <= i < to ==>
           tokens[|before| + (i - from)].kind == (if source[i] == ' ' then Space else Tab)
           && tokens[|before| + (i - from)].lexeme == [source[i]]
    }

    predicate AtEnd()
      reads this
    {
      position >= |source|
    }

    function Peek(offset: nat): char
      reads this
    {
      ByteAt(source, position + offset)
    }

    /** The one place where the cursor moves. */
    method Advance()
      requires Steady() && !AtEnd()
      modifies `position, `line, `column
      ensures Steady() && position == old(position) + 1
    {
      var c := source[position];
      assert source[..position + 1][..position] == source[..position];
      position := position + 1;
      if c == '\n' {
        line := line + 1;
        column := 1;
      } else if !IsContinuationByte(c) {
        column := column + 1;
      }
    }

    /** A blank at the cursor joins the gap. */
    method SkipBlank()
      requires BetweenTokens() && !AtEnd() && IsBlankByte(source[position])
      modifies `position, `line, `column
      ensures BetweenTokens() && position == old(position) + 1
    {
      Advance();
      GapGrows(source, EndOf(spans), position - 1, position);
    }

    method Emit(kind: TokenType, lexeme: string, startLine: int, startColumn: int, ghost start: nat)
      requires InToken(start) && IsScanned(kind) && lexeme == source[start..position] && IsSpelling(kind, lexeme)
      requires Place(startLine, startColumn) == PlaceAfter(source[..start]) && MayFollow(tokens, kind)
      modifies `tokens, `spans, `lineHasContent, context
      ensures Scanned() && EndOf(spans) == position && Added(old(tokens), kind, lexeme)
      ensures OpenFStrings(tokens) == OpenFStrings(old(tokens)) + Opens(kind)
      ensures if kind == Newline then !HasContent(tokens) else BetweenTokens()
    {
      hide IsGap, PlaceAfter, IsSpelling, IsScanned, Tiled, Orderly, HasContent, OpenFStrings, AllSpelled;
      if IsSignificant(kind) {
        lineHasContent := true;
        context.Observe(kind);
      }
      var token := Token(kind, lexeme, startLine, startColumn, line, column);
      TiledSnoc(source, tokens, spans, token, Span(start, position));
      OrderlySnoc(tokens, token);
      SpelledSnoc(tokens, token);
      NoGap(source, position);
      tokens, spans := tokens + [token], spans + [Span(start, position)];
    }

    method EmitFrom(kind: TokenType, start: nat, startLine: int, startColumn: int)
      requires InToken(start) && IsScanned(kind) && kind != Newline && IsSpelling(kind, source[start..position])
      requires Place(startLine, startColumn) == PlaceAfter(source[..start]) && MayFollow(tokens, kind)
      modifies `tokens, `spans, `lineHasContent, context
      ensures BetweenTokens() && EndOf(spans) == position && Took(old(tokens), kind, start, old(position))
      ensures OpenFStrings(tokens) == OpenFStrings(old(tokens)) + Opens(kind)
    {
      Emit(kind, source[start..position], startLine, startColumn, start);
    }

    // ---------- Lines ----------

    /** Indentation becomes tokens, but not that of a blank or comment-only line. */
    method ScanLineStart()
      requires BetweenTokens() && !lineHasContent
      modifies this, context
      ensures BetweenTokens() && !atLineStart && !lineHasContent
      ensures position == RunEnd(source, old(position), BlankPart)
      ensures var end := if IsBlankLine(source, old(position))
          then old(position) else RunEnd(source, old(position), IndentPart);
        Indented(old(tokens), old(position), end)
      ensures OpenFStrings(tokens) == OpenFStrings(old(tokens))
    {
      hide Tiled, IsGap, PlaceAfter, Orderly, HasContent, AllSpelled, IsSpelling, IsScanned, OpenFStrings;
      var probe := position;
      while probe < |source| && (source[probe] == ' ' || source[probe] == '\t' || source[probe] == FORM_FEED)
        invariant probe <= |source| && RunEnd(source, probe, BlankPart) == RunEnd(source, position, BlankPart)
      {
        probe := probe + 1;
      }
      var blank := probe >= |source| || source[probe] == '\n' || source[probe] == '\r' || source[probe] == '#';
      if !blank {
        TakeIndentation();
      }
      SkipBlanks();
      atLineStart := false;
    }

    method TakeIndentation()
      requires BetweenTokens() && !lineHasContent
      modifies this, context
      ensures BetweenTokens() && !lineHasContent && OpenFStrings(tokens) == OpenFStrings(old(tokens))
      ensures position == RunEnd(source, old(position), IndentPart)
      ensures Indented(old(tokens), old(position), position)
      ensures RunEnd(source, position, BlankPart) == RunEnd(source, old(position), BlankPart)
    {
      hide Tiled, IsGap, PlaceAfter, Orderly, HasContent, AllSpelled, IsSpelling, IsScanned, OpenFStrings;
      while Peek(0) == ' ' || Peek(0) == '\t'
        invariant BetweenTokens() && !lineHasContent && OpenFStrings(tokens) == OpenFStrings(old(tokens))
        invariant old(position) <= position && Indented(old(tokens), old(position), position)
        invariant RunEnd(source, position, IndentPart) == RunEnd(source, old(position), IndentPart)
        invariant RunEnd(source, position, BlankPart) == RunEnd(source, old(position), BlankPart)
        decreases |source| - position
      {
        EmitIndent();
      }
    }

    method EmitIndent()
      requires BetweenTokens() && !lineHasContent && (Peek(0) == ' ' || Peek(0) == '\t')
      modifies this, context
      ensures BetweenTokens() && !lineHasContent && OpenFStrings(tokens) == OpenFStrings(old(tokens))
      ensures position == old(position) + 1
      ensures var c := source[old(position)];
        Added(old(tokens), if c == ' ' then Space else Tab, [c])
    {
      var startLine, startColumn := line, column;
      var c := source[position];
      ghost var start := position;
      assert source[start..start] == [];
      Advance();
      Emit(if c == ' ' then Space else Tab, [c], startLine, startColumn, start);
    }

    method SkipBlanks()
      requires BetweenTokens()
      modifies `position, `line, `column
      ensures BetweenTokens() && position == RunEnd(source, old(position), BlankPart)
    {
      hide Tiled, IsGap, PlaceAfter, Orderly, HasContent, AllSpelled, IsSpelling, IsScanned, OpenFStrings;
      while Peek(0) == ' ' || Peek(0) == '\t' || Peek(0) == FORM_FEED
        invariant BetweenTokens() && RunEnd(source, position, BlankPart) == RunEnd(source, old(position), BlankPart)
        decreases |source| - position
      {
        SkipBlank();
      }
    }

    /** A NEWLINE for a line with content, outside brackets; nothing for any other. */
    method ScanEndOfLine()
      requires BetweenTokens() && Peek(0) == '\n' && OpenFStrings(tokens) == 0
      modifies this, context
      ensures BetweenTokens() && position == old(position) + 1
      ensures old(|context.brackets|) == 0 && old(lineHasContent)
           ==> Took(old(tokens), Newline, old(position), position)
      ensures old(|context.brackets|) > 0 || !old(lineHasContent) ==> tokens == old(tokens)
      ensures atLineStart == (old(|context.brackets|) == 0) && (atLineStart ==> !lineHasContent)
      ensures OpenFStrings(tokens) == 0
    {
      hide Tiled, IsGap, PlaceAfter, Orderly, HasContent, AllSpelled, IsSpelling, IsScanned, OpenFStrings;
      var startLine, startColumn := line, column;
      ghost var start := position;
      LineBreakIsGap(source, start);
      Advance();
      if |context.brackets| > 0 {
        GapGrows(source, EndOf(spans), start, position);
        atLineStart := false;
        return;
      }
      if lineHasContent {
        Emit(Newline, "\n", startLine, startColumn, start);
        NoGap(source, position);
        lineHasContent := false;
      } else {
        GapGrows(source, EndOf(spans), start, position);
      }
      atLineStart := true;
    }

    predicate AtContinuation()
      reads this
    {
      Peek(0) == '\\' && (Peek(1) == '\n' || (Peek(1) == '\r' && Peek(2) == '\n'))
    }

    method ScanLineContinuation()
      requires BetweenTokens() && AtContinuation()
      modifies `position, `line, `column, `atLineStart
      ensures BetweenTokens() && !atLineStart
      ensures position == old(position) + if old(Peek(1)) == '\r' then 3 else 2
    {
      hide Tiled, IsGap, PlaceAfter, Orderly, HasContent, AllSpelled, IsSpelling, IsScanned;
      ghost var start := position;
      Advance();
      if Peek(0) == '\r' {
        Advance();
      }
      Advance();
      ContinuationIsGap(source, start, position);
      GapGrows(source, EndOf(spans), start, position);
      atLineStart := false;
    }

    // ---------- Tokens ----------

    method ScanToken()
      requires BetweenTokens() && !AtEnd()
      modifies `tokens, `spans, `position, `line, `column, `lineHasContent, context
      ensures BetweenTokens() && position > old(position) && Went(old(tokens)) && old(tokens) != tokens
      decreases |source| - position, 4
    {
      var c := Peek(0);
      assert source[position..position] == [];
      if c == '#' {
        ScanComment();
      } else if c == '\'' || c == '"' {
        ScanString(position, line, column);
      } else if IsIdentifierStart(c) {
        ScanWord();
      } else if IsDigit(c) || (c == '.' && IsDigit(Peek(1))) {
        ScanNumber();
      } else {
        ScanOperator();
      }
    }

    /** Up to the end of the line. */
    method ScanComment()
      requires BetweenTokens() && Peek(0) == '#'
      modifies `tokens, `spans, `position, `line, `column, `lineHasContent, context
      ensures BetweenTokens() && Took(old(tokens), Comment, old(position), RunEnd(source, old(position), CommentPart))
      ensures position > old(position) && Went(old(tokens))
    {
      var start, startLine, startColumn := position, line, column;
      SkipComment(start);
      CommentIsSpelled(source, start, position);
      EmitFrom(Comment, start, startLine, startColumn);
    }

    method SkipComment(ghost start: nat)
      requires InToken(start) && start == position && Peek(0) == '#'
      modifies `position, `line, `column
      ensures InToken(start) && start < position == RunEnd(source, start, CommentPart)
    {
      while !AtEnd() && Peek(0) != '\n' && Peek(0) != '\r'
        invariant InToken(start) && RunEnd(source, position, CommentPart) == RunEnd(source, start, CommentPart)
        decreases |source| - position
      {
        Advance();
      }
    }

    /** What becomes of a word: a string literal if it is a prefix right before a quote, and
        otherwise the longest word there is. */
    ghost predicate TookWord(before: seq<Token>, start: nat, annotation: bool)
      requires start <= |source|
      reads this
    {
      var end := RunEnd(source, start, WordPart);
      var text := source[start..end];
      if end == |source| || !IsQuote(source[end]) || !IsStringPrefix(text) then
        Took(before, ClassifyWord(text, annotation), start, end)
      else if PrefixContains(text, 'f') then TookFString(before)
      else TookString(before, start, end)
    }

    /** A literal from `start` on, its quote at `quote`. */
    ghost predicate TookString(before: seq<Token>, start: nat, quote: nat)
      requires start <= quote < |source| && IsQuote(source[quote])
      reads this
    {
      Took(before, LiteralKind(source[start..quote]), start,
           StringEnd(source, AfterQuote(source, quote), source[quote], IsTriple(source, quote, source[quote])))
    }

    method ScanWord()
      requires BetweenTokens() && !AtEnd() && IsIdentifierStart(Peek(0))
      modifies `tokens, `spans, `position, `line, `column, `lineHasContent, context
      ensures BetweenTokens() && TookWord(old(tokens), old(position), old(context.annotation))
      ensures position > old(position) && Went(old(tokens)) && old(tokens) != tokens
      decreases |source| - position, 3
    {
      var start, startLine, startColumn := position, line, column;
      SkipWord(start);
      var text := source[start..position];
      if (Peek(0) == '"' || Peek(0) == '\'') && IsStringPrefix(text) {
        if PrefixContains(text, 'f') {
          ScanFString(start, startLine, startColumn);
        } else {
          ScanString(start, startLine, startColumn);
        }
        return;
      }
      EmitWord(text, start, startLine, startColumn);
    }

    method SkipWord(start: nat)
      requires InToken(start) && start == position && !AtEnd() && IsIdentifierStart(Peek(0))
      modifies `position, `line, `column
      ensures InToken(start) && start < position == RunEnd(source, start, WordPart)
      ensures IsWord(source[start..position])
    {
      while IsIdentifierContinue(Peek(0))
        invariant InToken(start) && RunEnd(source, position, WordPart) == RunEnd(source, start, WordPart)
        decreases |source| - position
      {
        Advance();
      }
    }

    method EmitWord(text: string, ghost start: nat, startLine: int, startColumn: int)
      requires InToken(start) && start < position && text == source[start..position] && IsWord(text)
      requires Place(startLine, startColumn) == PlaceAfter(source[..start])
      modifies `tokens, `spans, `position, `line, `column, `lineHasContent, context
      ensures BetweenTokens() && Took(old(tokens), ClassifyWord(text, old(context.annotation)), start, old(position))
      ensures Went(old(tokens))
    {
      var kind := ClassifyWord(text, context.annotation);
      WordsAreOrdinary(text, context.annotation);
      WordIsSpelled(text, context.annotation);
      Emit(kind, text, startLine, startColumn, start);
    }

    method ScanNumber()
      requires BetweenTokens() && !AtEnd() && StartsNumber(source, position)
      modifies `tokens, `spans, `position, `line, `column, `lineHasContent, context
      ensures BetweenTokens()
      ensures var n := NumberAt(source, old(position));
        Took(old(tokens), n.kind, old(position), n.end)
      ensures position > old(position) && Went(old(tokens))
    {
      hide Tiled, IsGap, PlaceAfter, Orderly, HasContent, AllSpelled, IsSpelling, IsScanned;
      var start, startLine, startColumn := position, line, column;
      var kind := ScanMagnitude(start);
      if ToLower(Peek(0)) == 'j' {
        Advance();
        kind := ComplexLiteral;
      }
      NumberIsSpelled(source, start);
      EmitFrom(kind, start, startLine, startColumn);
    }

    method SkipDigits(start: nat)
      requires InToken(start)
      modifies `position, `line, `column
      ensures InToken(start) && position == RunEnd(source, old(position), DigitPart)
    {
      while IsDigit(Peek(0)) || Peek(0) == '_'
        invariant InToken(start) && RunEnd(source, position, DigitPart) == RunEnd(source, old(position), DigitPart)
        decreases |source| - position
      {
        Advance();
      }
    }

    method SkipHexDigits(start: nat)
      requires InToken(start)
      modifies `position, `line, `column
      ensures InToken(start) && position == RunEnd(source, old(position), HexPart)
    {
      while IsHexDigit(Peek(0)) || Peek(0) == '_'
        invariant InToken(start) && RunEnd(source, position, HexPart) == RunEnd(source, old(position), HexPart)
        decreases |source| - position
      {
        Advance();
      }
    }

    method ScanMagnitude(start: nat) returns (kind: TokenType)
      requires InToken(start) && start == position && !AtEnd() && StartsNumber(source, position)
      modifies `position, `line, `column
      ensures InToken(start) && Extent(kind, position) == MagnitudeAt(source, start)
    {
      hide Tiled, IsGap, PlaceAfter, Orderly, HasContent, AllSpelled, IsSpelling,
          IsScanned, OpenFStrings, RunEnd, StartsExponent, AfterExponent, StartsNumber;
      kind := IntLiteral;
      var base := ToLower(Peek(1));
      if Peek(0) == '0' && (base == 'x' || base == 'o' || base == 'b') {
        Advance();
        Advance();
        SkipHexDigits(start);
        return;
      }
      SkipDigits(start);
      if Peek(0) == '.' {
        kind := FloatLiteral;
        Advance();
        SkipDigits(start);
      }
      var exponent := ScanExponent(start);
      if exponent {
        kind := FloatLiteral;
      }
    }

    method ScanExponent(start: nat) returns (found: bool)
      requires InToken(start)
      modifies `position, `line, `column
      ensures InToken(start) && found == StartsExponent(source, old(position))
      ensures position == AfterExponent(source, old(position))
    {
      hide Tiled, IsGap, PlaceAfter, Orderly, HasContent, AllSpelled, IsSpelling, IsScanned;
      found := ToLower(Peek(0)) == 'e'
        && (IsDigit(Peek(1)) || ((Peek(1) == '+' || Peek(1) == '-') && IsDigit(Peek(2))));
      if found {
        Advance();
        Advance();
        SkipDigits(start);
      }
    }

    /** The opening quote, or all three of a triple one. */
    method OpenQuote(start: nat) returns (quote: char, triple: bool)
      requires InToken(start) && !AtEnd() && IsQuote(Peek(0))
      modifies `position, `line, `column
      ensures InToken(start) && position == AfterQuote(source, old(position))
      ensures quote == source[old(position)] && triple == IsTriple(source, old(position), quote)
    {
      quote := Peek(0);
      triple := Peek(1) == quote && Peek(2) == quote;
      Advance();
      if triple {
        Advance();
        Advance();
      }
    }

    /** A backslash hides the next character from the search for the terminator. */
    method SkipEscape(start: nat)
      requires InToken(start) && !AtEnd()
      modifies `position, `line, `column
      ensures InToken(start)
      ensures position == if old(position) + 1 < |source| then old(position) + 2 else old(position) + 1
    {
      Advance();
      if !AtEnd() {
        Advance();
      }
    }

    method ScanString(start: nat, startLine: int, startColumn: int)
      requires InToken(start) && !AtEnd() && IsQuote(Peek(0))
      requires Place(startLine, startColumn) == PlaceAfter(source[..start])
      requires start < position
           ==> IsStringPrefix(source[start..position]) && !PrefixContains(source[start..position], 'f')
      modifies `tokens, `spans, `position, `line, `column, `lineHasContent, context
      ensures BetweenTokens() && TookString(old(tokens), start, old(position))
      ensures position > old(position) && Went(old(tokens))
      decreases |source| - position, 1
    {
      var prefix := source[start..position];
      var bytes := PrefixContains(prefix, 'b');
      ghost var at := position;
      var quote, triple := OpenQuote(start);
      SkipString(start, quote, triple);
      QuoteIsSpelled(source, start, at, position);
      EmitFrom(if bytes then BytesLiteral else StringLiteral, start, startLine, startColumn);
    }

    method SkipString(start: nat, quote: char, triple: bool)
      requires InToken(start) && IsQuote(quote)
      modifies `position, `line, `column
      ensures InToken(start) && position == StringEnd(source, old(position), quote, triple)
    {
      hide Tiled, IsGap, PlaceAfter, Orderly, HasContent, AllSpelled, IsSpelling, IsScanned;
      while !AtEnd()
        invariant InToken(start)
        invariant StringEnd(source, position, quote, triple) == StringEnd(source, old(position), quote, triple)
        decreases |source| - position
      {
        var c := Peek(0);
        if c == '\\' {
          SkipEscape(start);
          continue;
        }
        if !triple && c == '\n' {
          return;
        }
        if c == quote {
          if !triple {
            Advance();
            return;
          }
          if Peek(1) == quote && Peek(2) == quote {
            Advance();
            Advance();
            Advance();
            return;
          }
        }
        Advance();
      }
    }

    // ---------- f-strings ----------

    predicate AtQuote(quote: char, triple: bool)
      reads this
    {
      Peek(0) == quote && (!triple || (Peek(1) == quote && Peek(2) == quote))
    }

    /** Where an f-string ends, a replacement field in it or not. */
    predicate AtFStringEnd(quote: char, triple: bool)
      reads this
    {
      AtEnd() || AtQuote(quote, triple) || (!triple && Peek(0) == '\n')
    }

    /** What stands between two replacement fields, if anything does. */
    method EmitChunk(start: nat, startLine: int, startColumn: int)
      requires InToken(start) && Place(startLine, startColumn) == PlaceAfter(source[..start])
          && OpenFStrings(tokens) > 0
      modifies `tokens, `spans, `lineHasContent, context
      ensures BetweenTokens() && Went(old(tokens))
      ensures if position > start then Took(old(tokens), FStringMiddle, start, position) else tokens == old(tokens)
    {
      if position > start {
        EmitFrom(FStringMiddle, start, startLine, startColumn);
      }
    }

    /** Its start, its parts, and its end. */
    method ScanFString(start: nat, startLine: int, startColumn: int)
      requires InToken(start) && start < position && !AtEnd() && IsQuote(Peek(0))
      requires IsStringPrefix(source[start..position]) && PrefixContains(source[start..position], 'f')
      requires Place(startLine, startColumn) == PlaceAfter(source[..start])
      modifies `tokens, `spans, `position, `line, `column, `lineHasContent, context
      ensures BetweenTokens() && position > old(position) && TookFString(old(tokens))
      decreases |source| - position, 2
    {
      hide Tiled, IsGap, PlaceAfter, Orderly, HasContent, AllSpelled, IsSpelling,
          IsScanned, OpenFStrings, RunEnd, IsStringPrefix, IsTriple, IsQuoted;
      ghost var at := position;
      var quote, triple := OpenQuote(start);
      QuoteIsSpelled(source, start, at, position);
      NothingClosesUnopened(tokens);
      EmitFrom(FStringStart, start, startLine, startColumn);
      ScanFStringParts(quote, triple);
      CloseFString(quote, triple);
    }

    /** Literal text and replacement fields, up to the end of the f-string. */
    method ScanFStringParts(quote: char, triple: bool)
      requires BetweenTokens() && OpenFStrings(tokens) > 0 && quote != 0 as char
      modifies `tokens, `spans, `position, `line, `column, `lineHasContent, context
      ensures BetweenTokens() && position >= old(position) && Went(old(tokens))
      ensures AtFStringEnd(quote, triple)
      decreases |source| - position, 5
    {
      hide Tiled, EndOf, IsGap, PlaceAfter, Orderly, HasContent, AllSpelled, IsSpelling, IsScanned, OpenFStrings, Opens;
      var chunkStart, chunkLine, chunkColumn := position, line, column;
      while !AtEnd()
        invariant InToken(chunkStart) && position >= old(position) && Went(old(tokens))
        invariant Place(chunkLine, chunkColumn) == PlaceAfter(source[..chunkStart])
        decreases |source| - position
      {
        var c := Peek(0);
        if c == '\\' {
          SkipEscape(chunkStart);
          continue;
        }
        if !triple && c == '\n' {
          break;
        }
        if (c == '{' && Peek(1) == '{') || (c == '}' && Peek(1) == '}') {
          Advance();
          Advance();
          continue;
        }
        if AtQuote(quote, triple) {
          break;
        }
        if c == '{' {
          EmitChunk(chunkStart, chunkLine, chunkColumn);
          ScanReplacementField(quote, triple);
          chunkStart, chunkLine, chunkColumn := position, line, column;
          continue;
        }
        Advance();
      }
      EmitChunk(chunkStart, chunkLine, chunkColumn);
    }

    method CloseFString(quote: char, triple: bool)
      requires BetweenTokens() && IsQuote(quote) && OpenFStrings(tokens) > 0
      modifies `tokens, `spans, `position, `line, `column, `lineHasContent, context
      ensures BetweenTokens() && position >= old(position)
      ensures Added(old(tokens), FStringEnd, source[old(position)..position])
      ensures OpenFStrings(tokens) == OpenFStrings(old(tokens)) - 1
    {
      hide Tiled, IsGap, PlaceAfter, Orderly, HasContent, AllSpelled, IsSpelling, IsScanned;
      var endStart, endLine, endColumn := position, line, column;
      if Peek(0) == quote {
        Advance();
        if triple {
          if Peek(0) == quote {
            Advance();
          }
          if Peek(0) == quote {
            Advance();
          }
        }
      }
      EmitFrom(FStringEnd, endStart, endLine, endColumn);
    }

    /** From `{` on, ordinary Python tokens up to the brace that closes the field, unless the
        f-string or the file ends first. */
    method ScanReplacementField(quote: char, triple: bool)
      requires BetweenTokens() && Peek(0) == '{' && OpenFStrings(tokens) > 0 && quote != 0 as char
      modifies `tokens, `spans, `position, `line, `column, `lineHasContent, context
      ensures BetweenTokens() && position > old(position) && Went(old(tokens))
      ensures |tokens| > |old(tokens)| && tokens[|old(tokens)|].kind == Open(Brace)
      ensures tokens[|tokens| - 1].kind == Closing(Brace) || AtFStringEnd(quote, triple)
      decreases |source| - position, 0
    {
      hide Tiled, IsGap, PlaceAfter, Orderly, HasContent, AllSpelled, IsSpelling, IsScanned, OpenFStrings, FindOperator;
      MarksInFields();
      EmitMark('{', Open(Brace));
      var fieldDepth := |context.brackets|;
      ghost var begun, before := position, tokens;
      while !AtEnd()
        invariant BetweenTokens() && position >= begun && before <= tokens
            && OpenFStrings(tokens) == OpenFStrings(before)
        decreases |source| - position
      {
        var c := Peek(0);
        if c == ' ' || c == '\t' || c == '\r' || c == '\n' {
          SkipBlank();
          continue;
        }
        if |context.brackets| == fieldDepth {
          if c == '}' {
            break;
          }
          if c == ':' {
            ScanFormat(quote, triple);
            break;
          }
          if (c == '!' || c == '=') && Peek(1) != '=' {
            ScanConversion(c);
            continue;
          }
        }
        ScanToken();
      }
      CloseField();
    }

    method CloseField()
      requires BetweenTokens()
      modifies `tokens, `spans, `position, `line, `column, `lineHasContent, context
      ensures BetweenTokens() && position >= old(position)
      ensures if old(Peek(0)) == '}' then Added(old(tokens), Closing(Brace), "}")
          && OpenFStrings(tokens) == OpenFStrings(old(tokens))
              else tokens == old(tokens) && position == old(position)
    {
      if Peek(0) == '}' {
        EmitMark('}', Closing(Brace));
      }
    }

    method ScanFormat(quote: char, triple: bool)
      requires BetweenTokens() && Peek(0) == ':' && OpenFStrings(tokens) > 0 && quote != 0 as char
      modifies `tokens, `spans, `position, `line, `column, `lineHasContent, context
      ensures BetweenTokens() && position > old(position) && Went(old(tokens))
      ensures Peek(0) == '}' || AtFStringEnd(quote, triple)
      decreases |source| - position, 0
    {
      hide Tiled, IsGap, PlaceAfter, Orderly, HasContent, AllSpelled, IsSpelling, IsScanned, OpenFStrings;
      EmitMark(':', Colon);
      ScanFormatSpec(quote, triple);
    }

    method EmitMark(c: char, kind: TokenType)
      requires BetweenTokens() && Peek(0) == c && c != 0 as char && FindOperator([c]) == Some(kind) && IsOrdinary(kind)
      requires kind.Open? || kind.Closing? || kind == Colon
      modifies `tokens, `spans, `position, `line, `column, `lineHasContent, context
      ensures BetweenTokens() && position == old(position) + 1 && EndOf(spans) == position
      ensures Added(old(tokens), kind, [c]) && OpenFStrings(tokens) == OpenFStrings(old(tokens))
    {
      hide Tiled, PlaceAfter, Orderly;
      var startLine, startColumn := line, column;
      ghost var start := position;
      assert source[start..start] == [];
      Advance();
      Emit(kind, [c], startLine, startColumn, start);
    }

    /** `!r` and the like, and the `=` of a debug field. */
    method ScanConversion(c: char)
      requires BetweenTokens() && !AtEnd() && Peek(0) == c && OpenFStrings(tokens) > 0
      modifies `tokens, `spans, `position, `line, `column, `lineHasContent, context
      ensures BetweenTokens() && position > old(position) && Went(old(tokens))
      ensures Took(old(tokens), FStringMiddle, old(position),
                   if c == '!' && old(position) + 1 < |source| then old(position) + 2 else old(position) + 1)
    {
      var start, partLine, partColumn := position, line, column;
      assert source[start..start] == [];
      Advance();
      if c == '!' && !AtEnd() {
        Advance();
      }
      EmitFrom(FStringMiddle, start, partLine, partColumn);
    }

    /** Literal text up to the end of the field or of the f-string, nested fields apart. */
    method ScanFormatSpec(quote: char, triple: bool)
      requires BetweenTokens() && OpenFStrings(tokens) > 0 && quote != 0 as char
      modifies `tokens, `spans, `position, `line, `column, `lineHasContent, context
      ensures BetweenTokens() && position >= old(position) && Went(old(tokens))
      ensures Peek(0) == '}' || AtFStringEnd(quote, triple)
      decreases |source| - position, 5
    {
      hide Tiled, EndOf, IsGap, PlaceAfter, Orderly, HasContent, AllSpelled, IsSpelling, IsScanned, OpenFStrings, Opens;
      var chunkStart, chunkLine, chunkColumn := position, line, column;
      while !AtEnd()
        invariant InToken(chunkStart) && position >= old(position) && Went(old(tokens))
        invariant Place(chunkLine, chunkColumn) == PlaceAfter(source[..chunkStart])
        decreases |source| - position
      {
        var c := Peek(0);
        if c == '}' {
          break;
        }
        if !triple && c == '\n' {
          break;
        }
        if AtQuote(quote, triple) {
          break;
        }
        if c == '{' {
          EmitChunk(chunkStart, chunkLine, chunkColumn);
          ScanReplacementField(quote, triple);
          chunkStart, chunkLine, chunkColumn := position, line, column;
          continue;
        }
        Advance();
      }
      EmitChunk(chunkStart, chunkLine, chunkColumn);
    }

    // ---------- Punctuation ----------

    /** The longest operator there is, or one byte that is none. */
    ghost predicate TookOperator(before: seq<Token>, start: nat)
      reads this
    {
      && start < position <= |source|
      && (var found := FindOperator(source[start..position]);
          Took(before, if found.Some? then found.value else Error, start, if found.Some? then position else start + 1))
      && forall n :: position < n <= |source| ==> FindOperator(source[start..n]).None?
    }

    method ScanOperator()
      requires BetweenTokens() && !AtEnd()
      modifies `tokens, `spans, `position, `line, `column, `lineHasContent, context
      ensures BetweenTokens() && TookOperator(old(tokens), old(position))
      ensures position > old(position) && Went(old(tokens))
    {
      hide Tiled, IsGap, PlaceAfter, Orderly, HasContent, AllSpelled, IsSpelling, IsScanned, OpenFStrings;
      var start, startLine, startColumn := position, line, column;
      assert source[start..start] == [];
      var kind, length := LongestOperatorAt(source[position..]);
      OperatorsFrom(source, start, length);
      if length == 0 {
        assert source[start..start + 1] == [source[start]];
        Advance();
        EmitFrom(Error, start, startLine, startColumn);
        return;
      }
      for index := 0 to length
        invariant InToken(start) && position == start + index && tokens == old(tokens)
      {
        Advance();
      }
      OperatorIsSpelled(source[start..position], kind);
      EmitFrom(kind, start, startLine, startColumn);
    }

    // ---------- The whole file ----------

    method Reset()
      modifies this, context
      ensures BetweenTokens() && position == 0 && tokens == [] && atLineStart && !lineHasContent
    {
      context.Reset();
      tokens, spans, position, line, column := [], [], 0, 1, 1;
      atLineStart, lineHasContent := true, false;
      assert source[..0] == [] && source[EndOf(spans)..position] == [];
    }

    /** Total: every byte string gives a stream. Its tokens, the last of them the only
        TOKEN_EOF, tile the whole source; f-strings nest, every NEWLINE closes a line that
        has content, and the last line is closed. */
    method Tokenize() returns (result: seq<Token>)
      modifies this, context
      ensures Tiled(source, result, spans) && EndOf(spans) == |source|
      ensures IsComplete(result)
      ensures Orderly(result) && OpenFStrings(result) == 0 && !HasContent(result)
    {
      Reset();
      while !AtEnd()
        invariant BetweenTokens() && OpenFStrings(tokens) == 0 && (atLineStart ==> !lineHasContent)
        decreases |source| - position, if atLineStart then 1 else 0
      {
        ScanNext();
      }
      Finish();
      result := tokens;
    }

    /** One turn of the main loop. */
    method ScanNext()
      requires BetweenTokens() && !AtEnd() && OpenFStrings(tokens) == 0 && (atLineStart ==> !lineHasContent)
      modifies this, context
      ensures BetweenTokens() && OpenFStrings(tokens) == 0 && (atLineStart ==> !lineHasContent)
      ensures position > old(position) || (position == old(position) && old(atLineStart) && !atLineStart)
    {
      hide Tiled, IsGap, PlaceAfter, Orderly, HasContent, AllSpelled, IsSpelling, IsScanned;
      if atLineStart {
        ScanLineStart();
        return;
      }
      var c := Peek(0);
      if c == ' ' || c == '\t' || c == '\r' || c == FORM_FEED {
        SkipBlank();
        return;
      }
      if c == '\n' {
        ScanEndOfLine();
        return;
      }
      if AtContinuation() {
        ScanLineContinuation();
        return;
      }
      ScanToken();
    }

    /** A final line without a line break is closed as if it had one. */
    method Finish()
      requires BetweenTokens() && AtEnd() && OpenFStrings(tokens) == 0
      modifies this, context
      ensures Tiled(source, tokens, spans) && EndOf(spans) == |source| && IsComplete(tokens)
      ensures Orderly(tokens) && OpenFStrings(tokens) == 0 && !HasContent(tokens)
    {
      if lineHasContent {
        Emit(Newline, "", line, column, position);
        assert source[position..position] == [];
        lineHasContent := false;
      }
      var eof := Token(Eof, "", line, column, line, column);
      TiledSnoc(source, tokens, spans, eof, Span(position, position));
      OrderlySnoc(tokens, eof);
      tokens, spans := tokens + [eof], spans + [Span(position, position)];
    }
  }

  /** One TOKEN_EOF, at the end, and every other token spelled as its kind allows. */
  predicate IsComplete(tokens: seq<Token>) {
    && tokens != [] && tokens[|tokens| - 1].kind == Eof
    && AllSpelled(tokens[..|tokens| - 1])
  }

  /** A literal is known by its prefix and its quote, whatever comes after them. */
  lemma QuoteIsSpelled(source: string, start: nat, at: nat, end: nat)
    requires start <= at < end <= |source| && IsQuote(source[at])
    requires start < at ==> IsStringPrefix(source[start..at])
    ensures IsQuoted(LiteralKind(source[start..at]), source[start..end])
    ensures IsSpelling(LiteralKind(source[start..at]), source[start..end])
  {
    var lexeme := source[start..end];
    assert lexeme[..at - start] == source[start..at] && lexeme[at - start] == source[at];
    assert QuoteStands(LiteralKind(source[start..at]), lexeme, at - start);
  }

  lemma CommentIsSpelled(source: string, from: nat, to: nat)
    requires from < to <= |source| && source[from] == '#'
    requires forall i :: from <= i < to ==> source[i] != '\n' && source[i] != '\r'
    ensures IsSpelling(Comment, source[from..to])
  {
  }

  lemma WordIsSpelled(text: string, inAnnotation: bool)
    requires IsWord(text)
    ensures IsSpelling(ClassifyWord(text, inAnnotation), text) && IsPlain(ClassifyWord(text, inAnnotation))
  {
  }

  lemma OperatorIsSpelled(text: string, kind: TokenType)
    requires FindOperator(text) == Some(kind)
    ensures IsSpelling(kind, text) && IsScanned(kind) && IsPlain(kind)
  {
  }

  lemma OperatorsFrom(source: string, start: nat, length: nat)
    requires start + length <= |source|
    requires length > 0 ==> FindOperator(source[start..][..length]).Some?
    requires forall n :: length < n <= |source| - start ==> FindOperator(source[start..][..n]).None?
    ensures source[start..][..length] == source[start..start + length]
    ensures forall n :: start + length < n <= |source| ==> FindOperator(source[start..n]).None?
  {
    forall n | start + length < n <= |source| ensures FindOperator(source[start..n]).None? {
      assert source[start..][..n - start] == source[start..n];
    }
  }

  lemma ContinuationIsGap(source: string, a: nat, b: nat)
    requires a < b <= |source| && source[a] == '\\' && source[b - 1] == '\n'
    requires b == a + 2 || (b == a + 3 && source[a + 1] == '\r')
    ensures IsGap(source[a..b])
  {
    if b == a + 2 {
      assert source[a..b][2..] == [];
    } else {
      assert source[a..b][3..] == [];
    }
  }

  lemma MarksInFields()
    ensures FindOperator("{") == Some(Open(Brace)) && IsOrdinary(Open(Brace))
  {
  }

  lemma NoGap(source: string, p: nat)
    requires p <= |source|
    ensures IsGap(source[p..p])
  {
  }

  lemma LineBreakIsGap(source: string, p: nat)
    requires p < |source| && source[p] == '\n'
    ensures source[p..p + 1] == "\n" && IsGap(source[p..p + 1]) && IsSpelling(Newline, "\n") && IsScanned(Newline)
  {
  }

  lemma GapGrows(source: string, end: nat, a: nat, b: nat)
    requires end <= a <= b <= |source| && IsGap(source[end..a]) && IsGap(source[a..b])
    ensures IsGap(source[end..b])
  {
    GapsJoin(source[end..a], source[a..b]);
    assert source[end..b] == source[end..a] + source[a..b];
  }
}
