/** Token kinds and tokens of the C compiler (compilers/wnu-c/tokens.h).

    The enumeration covers a broad C11 subset; the lexer produces only some
    of these kinds (the other keywords, floating literals and the compound
    assignments other than `+=` and `-=` are never made). */
module WnuTokens {
  import opened CLib

  datatype TokenKind =
    // special
    | Unknown | Eof
    // identifiers and literals
    | Identifier | IntLiteral | FloatLiteral | CharLiteral | StringLiteral
    // keywords (C11 subset)
    | KwAuto | KwBreak | KwCase | KwChar | KwConst | KwContinue | KwDefault
    | KwDo | KwDouble | KwElse | KwEnum | KwExtern | KwFloat | KwFor | KwGoto
    | KwIf | KwInline | KwInt | KwLong | KwRegister | KwRestrict | KwReturn
    | KwShort | KwSigned | KwSizeof | KwStatic | KwStruct | KwSwitch
    | KwTypedef | KwUnion | KwUnsigned | KwVoid | KwVolatile | KwWhile
    | KwBool | KwComplex | KwImaginary | KwAlignas | KwAlignof | KwAtomic
    | KwGeneric | KwNoreturn | KwStaticAssert | KwThreadLocal
    // operators
    | Plus | Minus | Star | Slash | Percent | PlusPlus | MinusMinus
    | Eq | Neq | Lt | Gt | Le | Ge
    | Assign | PlusAssign | MinusAssign | MulAssign | DivAssign | ModAssign
    | And | Or | Xor | Not | LShift | RShift | AndAnd | OrOr
    | AndAssign | OrAssign | XorAssign | LShiftAssign | RShiftAssign
    | Ternary | Colon
    // punctuation
    | Semicolon | Comma | Dot | Arrow
    | LParen | RParen | LBrace | RBrace | LBracket | RBracket
    // preprocessor
    | PpHash | PpHashHash

  /** A token: its kind, its text (NULL, here `None`, for end of input),
      and the line and column the lexer was at when it was asked for it. */
  datatype Token = Token(kind: TokenKind, lexeme: Option<string>, line: int, col: int)
}
