/** Token kinds and tokens of the Python++ compiler (compilers/wpy++/tokens.h). */
module PyppTokens {

  datatype TokenType =
    // keywords
    | Func | Return | Success | Failure | If | Else | While | For | Include
    // identifiers and literals
    | Identifier | IntLiteral | CharLiteral | StringLiteral
    // symbols
    | LBrace | RBrace | LParen | RParen | Semicolon | Comma | Dot
    // operators
    | Plus | Minus | Star | Slash | Assign | Eq | Gt | Lt | Neq | Gte | Lte
    // end of input and the catch-all
    | Eof | Unknown

  /** A token owns a copy of its text; `column` is where the text starts. */
  datatype Token = Token(kind: TokenType, lexeme: string, line: int, column: int)
}
