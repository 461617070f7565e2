/** Where the scanners of src/domain/lexer/lexer.cpp stop: the extent of each kind of token,
    as a function of the source and of the place where the token begins. */
module TokenEnds {
  import opened Characters
  import opened Tokens
  import opened LexicalLayout

  // ---------- Characters ----------

  predicate IsHexDigit(c: char) {
    IsDigit(c) || 'a' <= c <= 'f' || 'A' <= c <= 'F'
  }

  predicate IsIdentifierStart(c: char) {
    'a' <= c <= 'z' || 'A' <= c <= 'Z' || c == '_' || c as int >= 0x80
  }

  predicate IsIdentifierContinue(c: char) {
    IsIdentifierStart(c) || IsDigit(c)
  }

  function ToLower(c: char): char {
    if 'A' <= c <= 'Z' then (c as int + 32) as char else c
  }

  /** Reading past the end yields a NUL, which no scanner accepts. */
  function ByteAt(source: string, i: nat): char {
    if i < |source| then source[i] else 0 as char
  }

  // ---------- Runs ----------

  datatype CharClass = WordPart | DigitPart | HexPart | CommentPart | IndentPart | BlankPart

  predicate Accepts(k: CharClass, c: char) {
    match k
    case WordPart => IsIdentifierContinue(c)
    case DigitPart => IsDigit(c) || c == '_'
    case HexPart => IsHexDigit(c) || c == '_'
    case CommentPart => c != '\n' && c != '\r'
    case IndentPart => c == ' ' || c == '\t'
    case BlankPart => c == ' ' || c == '\t' || c == FORM_FEED
  }

  /** The end of the longest run of a class from `p` on. */
  function RunEnd(source: string, p: nat, k: CharClass): (r: nat)
    requires p <= |source|
    ensures p <= r <= |source| && (forall i :: p <= i < r ==> Accepts(k, source[i]))
    ensures r < |source| ==> !Accepts(k, source[r])
    decreases |source| - p
  {
    if p < |source| && Accepts(k, source[p]) then RunEnd(source, p + 1, k) else p
  }

  /** Nothing but whitespace before a comment or the end of the line. */
  predicate IsBlankLine(source: string, p: nat)
    requires p <= |source|
  {
    var c := RunEnd(source, p, BlankPart);
    c == |source| || source[c] == '\n' || source[c] == '\r' || source[c] == '#'
  }

  // ---------- Numbers ----------

  datatype Extent = Extent(kind: TokenType, end: nat)

  predicate StartsNumber(source: string, p: nat) {
    IsDigit(ByteAt(source, p)) || (ByteAt(source, p) == '.' && IsDigit(ByteAt(source, p + 1)))
  }

  predicate HasBase(source: string, p: nat) {
    ByteAt(source, p) == '0' && ToLower(ByteAt(source, p + 1)) in {'x', 'o', 'b'}
  }

  /** An exponent only starts if a digit or a signed digit follows. */
  predicate StartsExponent(source: string, p: nat) {
    ToLower(ByteAt(source, p)) == 'e'
    && (IsDigit(ByteAt(source, p + 1))
        || ((ByteAt(source, p + 1) == '+' || ByteAt(source, p + 1) == '-') && IsDigit(ByteAt(source, p + 2))))
  }

  function AfterExponent(source: string, p: nat): (r: nat)
    requires p <= |source|
    ensures p <= r <= |source|
  {
    if StartsExponent(source, p) then RunEnd(source, p + 2, DigitPart) else p
  }

  function AfterPoint(source: string, p: nat): (r: nat)
    requires p <= |source|
    ensures p <= r <= |source|
  {
    if ByteAt(source, p) == '.' then RunEnd(source, p + 1, DigitPart) else p
  }

  function MagnitudeAt(source: string, p: nat): (r: Extent)
    requires p < |source| && StartsNumber(source, p)
    ensures p < r.end <= |source| && (r.kind == IntLiteral || r.kind == FloatLiteral)
  {
    if HasBase(source, p) then Extent(IntLiteral, RunEnd(source, p + 2, HexPart))
    else
      var whole := RunEnd(source, p, DigitPart);
      var fraction := AfterPoint(source, whole);
      Extent(if ByteAt(source, whole) == '.' || StartsExponent(source, fraction) then FloatLiteral else IntLiteral,
             AfterExponent(source, fraction))
  }

  function NumberAt(source: string, p: nat): (r: Extent)
    requires p < |source| && StartsNumber(source, p)
    ensures p < r.end <= |source|
  {
    var m := MagnitudeAt(source, p);
    if ToLower(ByteAt(source, m.end)) == 'j' then Extent(ComplexLiteral, m.end + 1) else m
  }

  /** A kind of number and the text it can have. */
  predicate IsNumber(kind: TokenType, lexeme: string) {
    && lexeme != [] && (IsDigit(lexeme[0]) || lexeme[0] == '.')
    && (kind == ComplexLiteral || kind == FloatLiteral || kind == IntLiteral)
    && (kind == ComplexLiteral <==> ToLower(lexeme[|lexeme| - 1]) == 'j')
    && (kind == FloatLiteral ==> exists i :: 0 <= i < |lexeme| && (lexeme[i] == '.' || ToLower(lexeme[i]) == 'e'))
    && (kind == IntLiteral ==> '.' !in lexeme)
  }

  lemma RunsLack(source: string, p: nat, r: nat, k: CharClass, c: char)
    requires p <= r <= |source| && (forall i :: p <= i < r ==> Accepts(k, source[i])) && !Accepts(k, c)
    ensures c !in source[p..r]
  {
  }

  /** The kind of a number and its spelling agree. */
  lemma NumberIsSpelled(source: string, p: nat)
    requires p < |source| && StartsNumber(source, p)
    ensures IsNumber(NumberAt(source, p).kind, source[p..NumberAt(source, p).end])
  {
    var m, n := MagnitudeAt(source, p), NumberAt(source, p);
    var lexeme := source[p..n.end];
    if n.kind == ComplexLiteral {
      assert lexeme[|lexeme| - 1] == source[m.end];
    } else {
      MagnitudeIsSpelled(source, p);
    }
  }

  lemma MagnitudeIsSpelled(source: string, p: nat)
    requires p < |source| && StartsNumber(source, p)
    ensures IsNumber(MagnitudeAt(source, p).kind, source[p..MagnitudeAt(source, p).end])
  {
    var m := MagnitudeAt(source, p);
    var lexeme := source[p..m.end];
    assert lexeme[|lexeme| - 1] == source[m.end - 1];
    if HasBase(source, p) {
    } else {
      var whole := RunEnd(source, p, DigitPart);
      var fraction := AfterPoint(source, whole);
      if ByteAt(source, whole) == '.' {
        assert lexeme[whole - p] == '.';
      } else if StartsExponent(source, fraction) {
        assert lexeme[fraction - p] == source[fraction];
      }
    }
  }

  /** Python's decimal integers, underscores and all, are one int token each when nothing
      follows that could go on with the number. */
  lemma DecimalIsOneToken(source: string, p: nat, r: nat)
    requires p < r <= |source| && IsDigit(source[p])
    requires forall i :: p <= i < r ==> Accepts(DigitPart, source[i])
    requires !Accepts(WordPart, ByteAt(source, r)) && ByteAt(source, r) != '.'
    ensures NumberAt(source, p) == Extent(IntLiteral, r)
  {
    RunIs(source, p, r, DigitPart);
  }

  /** A run that cannot be longer is the run. */
  lemma {:induction false} RunIs(source: string, p: nat, r: nat, k: CharClass)
    requires p <= r <= |source| && forall i :: p <= i < r ==> Accepts(k, source[i])
    requires r < |source| ==> !Accepts(k, source[r])
    ensures RunEnd(source, p, k) == r
    decreases r - p
  {
    if p < r {
      RunIs(source, p + 1, r, k);
    }
  }

  // ---------- Strings ----------

  predicate IsTriple(source: string, p: nat, quote: char) {
    ByteAt(source, p + 1) == quote && ByteAt(source, p + 2) == quote
  }

  /** The opening quote, or all three of a triple one. */
  function AfterQuote(source: string, p: nat): (r: nat)
    requires p < |source| && (source[p] == '"' || source[p] == '\'')
    ensures p < r <= |source|
  {
    if IsTriple(source, p, source[p]) then p + 3 else p + 1
  }

  /** The end of a string whose text starts at `p`: past its first terminator that no
      backslash hides, or where an unterminated one is given up. */
  function StringEnd(source: string, p: nat, quote: char, triple: bool): (r: nat)
    requires p <= |source| && quote != 0 as char
    ensures p <= r <= |source|
    decreases |source| - p
  {
    if p == |source| then p
    else if source[p] == '\\' then StringEnd(source, if p + 1 < |source| then p + 2 else p + 1, quote, triple)
    else if !triple && source[p] == '\n' then p
    else if source[p] != quote then StringEnd(source, p + 1, quote, triple)
    else if !triple then p + 1
    else if IsTriple(source, p, quote) then p + 3
    else StringEnd(source, p + 1, quote, triple)
  }

  /** The text of a literal: what would end it is hidden by a backslash. */
  function Quoted(text: string, quote: char): string {
    if text == [] then []
    else (if text[0] == '\\' || text[0] == quote || text[0] == '\n' then ['\\', text[0]] else [text[0]])
         + Quoted(text[1..], quote)
  }

  /** Any text at all, so quoted, is one string: it ends right after its own quote. */
  lemma {:induction false} QuotedTextIsOneString(before: string, text: string, quote: char, after: string)
    requires quote != '\\' && quote != 0 as char && quote != '\n'
    ensures var source := before + (Quoted(text, quote) + ([quote] + after));
      StringEnd(source, |before|, quote, false) == |before| + |Quoted(text, quote)| + 1
    decreases |text|
  {
    var source := before + (Quoted(text, quote) + ([quote] + after));
    if text == [] {
      assert source[|before|] == quote;
    } else {
      var c, rest := text[0], Quoted(text[1..], quote) + ([quote] + after);
      var first := if c == '\\' || c == quote || c == '\n' then ['\\', c] else [c];
      assert source == (before + first) + rest;
      assert source[|before|] == first[0];
      QuotedTextIsOneString(before + first, text[1..], quote, after);
    }
  }
}
