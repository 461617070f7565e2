/** src/domain/lexer/keyword_table.cpp and operator_table.cpp: the words and the
    punctuation of Python, by lexeme. */
module WordTables {
  import opened Options
  import opened Tokens

  function ReservedWord(word: string): Option<TokenType> {
    if word == "False" then Some(FalseWord)
    else if word == "None" then Some(NoneWord)
    else if word == "True" then Some(TrueWord)
    else if word == "and" then Some(Op(And))
    else if word == "or" then Some(Op(Or))
    else if word == "not" then Some(Op(Not))
    else if word == "is" then Some(Op(Is))
    else if word == "in" then Some(Op(In))
    else
      var keyword := KeywordOf(word);
      if keyword.Some? then Some(Keyword(keyword.value)) else None
  }

  function KeywordOf(word: string): Option<Word> {
    if word == "as" then Some(As)
    else if word == "assert" then Some(Assert)
    else if word == "async" then Some(Async)
    else if word == "await" then Some(Await)
    else if word == "break" then Some(Break)
    else if word == "class" then Some(Class)
    else if word == "continue" then Some(Continue)
    else if word == "def" then Some(Def)
    else if word == "del" then Some(Del)
    else if word == "elif" then Some(Elif)
    else if word == "else" then Some(Else)
    else if word == "except" then Some(Except)
    else if word == "finally" then Some(Finally)
    else if word == "for" then Some(For)
    else if word == "from" then Some(From)
    else if word == "global" then Some(Global)
    else if word == "if" then Some(If)
    else if word == "import" then Some(Import)
    else if word == "lambda" then Some(Lambda)
    else if word == "nonlocal" then Some(Nonlocal)
    else if word == "pass" then Some(Pass)
    else if word == "raise" then Some(Raise)
    else if word == "return" then Some(Return)
    else if word == "try" then Some(Try)
    else if word == "while" then Some(While)
    else if word == "with" then Some(With)
    else if word == "yield" then Some(Yield)
    else None
  }

  predicate IsBuiltinType(word: string) {
    || word in {"bool", "bytearray", "bytes", "complex", "dict", "float", "frozenset"}
    || word in {"int", "list", "object", "set", "str", "tuple"}
  }

  /** Reserved words first, whatever the context; builtin types only in annotations. */
  function ClassifyWord(word: string, inAnnotation: bool): TokenType {
    var reserved := ReservedWord(word);
    if reserved.Some? then reserved.value
    else if inAnnotation && IsBuiltinType(word) then TypeName
    else Identifier
  }

  function SingleMark(c: char): Option<TokenType> {
    match c
    case '%' => Some(Op(Percent))
    case '&' => Some(Op(Ampersand))
    case '(' => Some(Open(Paren))
    case ')' => Some(Closing(Paren))
    case '*' => Some(Op(Star))
    case '+' => Some(Op(Plus))
    case ',' => Some(Comma)
    case '-' => Some(Op(Minus))
    case '.' => Some(Dot)
    case '/' => Some(Op(Slash))
    case ':' => Some(Colon)
    case ';' => Some(Semicolon)
    case '<' => Some(Op(Less))
    case '=' => Some(Op(Assign))
    case '>' => Some(Op(Greater))
    case '@' => Some(Op(At))
    case '[' => Some(Open(Square))
    case ']' => Some(Closing(Square))
    case '^' => Some(Op(Caret))
    case '{' => Some(Open(Brace))
    case '|' => Some(Op(Pipe))
    case '}' => Some(Closing(Brace))
    case '~' => Some(Op(Tilde))
    case _ => None
  }

  function DoubleMark(c: char, d: char): Option<TokenType> {
    if d == '=' then
      if c == '!' then Some(Op(NotEqual))
      else if c == '<' then Some(Op(LessEqual))
      else if c == '=' then Some(Op(Equal))
      else if c == '>' then Some(Op(GreaterEqual))
      else if c == ':' then Some(Op(Walrus))
      else if c in "%&*+-/@^|" then Some(Op(AugmentedAssign))
      else None
    else if c == '*' && d == '*' then Some(Op(DoubleStar))
    else if c == '-' && d == '>' then Some(Op(Arrow))
    else if c == '/' && d == '/' then Some(Op(DoubleSlash))
    else if c == '<' && d == '<' then Some(Op(LeftShift))
    else if c == '>' && d == '>' then Some(Op(RightShift))
    else None
  }

  function TripleMark(c: char, d: char, e: char): Option<TokenType> {
    if c == '.' && d == '.' && e == '.' then Some(Ellipsis)
    else if e == '=' && c == d && c in "*/<>" then Some(Op(AugmentedAssign))
    else None
  }

  function FindOperator(text: string): Option<TokenType> {
    if |text| == 1 then SingleMark(text[0])
    else if |text| == 2 then DoubleMark(text[0], text[1])
    else if |text| == 3 then TripleMark(text[0], text[1], text[2])
    else None
  }

  /** What no scanner of words or punctuation produces. */
  predicate IsOrdinary(kind: TokenType) {
    kind !in {Eof, Newline, Space, Tab, Indent, Dedent, Comment}
  }

  lemma WordsAreOrdinary(word: string, inAnnotation: bool)
    ensures IsOrdinary(ClassifyWord(word, inAnnotation))
  {
  }

  /** Maximal munch over the punctuation table: the longest entry that is a prefix. */
  method LongestOperatorAt(text: string) returns (kind: TokenType, length: nat)
    ensures length <= |text| && length <= 3 && IsOrdinary(kind)
    ensures length == 0 ==> kind == Error
    ensures length > 0 ==> FindOperator(text[..length]) == Some(kind)
    ensures forall n :: length < n <= |text| ==> FindOperator(text[..n]) == None
  {
    length := if |text| < 3 then |text| else 3;
    while length > 0
      invariant length <= |text| && length <= 3
      invariant forall n :: length < n <= |text| ==> FindOperator(text[..n]) == None
    {
      var found := FindOperator(text[..length]);
      if found.Some? {
        return found.value, length;
      }
      length := length - 1;
    }
    kind := Error;
  }
}
