/** Token kinds and tokens of the Python+ interpreter (interpilers/wpy+/tokens.h). */
module WpyTokens {

  datatype TokenType =
    // keywords
    | Func | Return | Let | If | Else | For | While | Use | Const | End
    // identifiers and literals
    | Identifier | Number | String
    // operators
    | Plus | Minus | Star | Slash | Equal | EqEq | BangEq | Lt | Gt | Include
    // delimiters
    | LParen | RParen | LBrace | RBrace | Semicolon | Comma | Dot
    // declared but never produced by the lexer (`#` is always folded into
    // an include or skipped with its directive)
    | Hash | CommentOneLine | CommentMultiLine
    | Eof

  /** A token owns a copy of its text; `line` is the line the lexer had
      reached when the token was made. */
  datatype Token = Token(kind: TokenType, lexeme: string, line: int)
}

/** The Python+ syntax tree (interpilers/wpy+/parser.h).

    `value` is set by every node the parser makes. The three `var_*`
    fields are only meaningful for a variable declaration: `make_node`
    leaves them unset, which is `None` here. */
module WpyAst {
  import opened CLib

  datatype NodeType = Function | Print | Return | Literal | Identifier | VarDecl

  datatype Node = Node(
    kind: NodeType,
    value: string,
    varType: Option<string>,
    varName: Option<string>,
    varValue: Option<string>,
    children: seq<Node>)

  /** `make_node`: the kind and the text, no children. */
  function MakeNode(kind: NodeType, value: string): (n: Node)
    ensures n.kind == kind && n.value == value && n.children == []
    ensures n.varType.None? && n.varName.None? && n.varValue.None?
  {
    Node(kind, value, None, None, None, [])
  }
}
