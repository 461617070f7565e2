/** Tokens: src/domain/lexer/token.h and token_type.h, the types grouped by category. */
module Tokens {
  datatype Word =
    | If | Else | For | Elif | While | Return | Def | Class | As | Assert | Async | Await | Break | Continue | Del
    | Except | Finally | From | Global | Import | Lambda | Nonlocal | Pass | Raise | Try | With | Yield

  datatype Symbol =
    | And | Or | Not | Is | In | NotIn | IsNot
    | Assign | Plus | Minus | Equal | NotEqual | Less | Greater | LessEqual | GreaterEqual
    | Star | Slash | DoubleSlash | Percent | DoubleStar | At | Ampersand | Pipe | Caret | Tilde | LeftShift | RightShift
    | AugmentedAssign | Walrus | Arrow

  datatype Bracket = Paren | Square | Brace

  datatype TokenType =
    | Eof | Error | Newline | Space | Tab | Indent | Dedent | Comment
    | Identifier | TypeName
    | StringLiteral | BytesLiteral | FStringStart | FStringMiddle | FStringEnd
    | IntLiteral | FloatLiteral | ComplexLiteral
    | TrueWord | FalseWord | NoneWord | Ellipsis
    | Keyword(word: Word)
    | Op(symbol: Symbol)
    | Open(bracket: Bracket) | Closing(bracket: Bracket)
    | Semicolon | Comma | Dot | Colon

  datatype Token = Token(kind: TokenType, lexeme: string, line: int, column: int, endLine: int, endColumn: int)
}
