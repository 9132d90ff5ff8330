/** The C compiler's recursive-descent parser (compilers/wnu-c/parser.c).

    The parser reads tokens from the lexer with one token of look-ahead:
    `peek_token` lexes a token and keeps it (`cur`, `have_cur`) until
    `next_token` hands it out. A `PState` is everything a parse step reads
    and changes: the lexer's cursor and location and the pending token.
    Each parse function below is the pure specification of the C function
    of the same name, returning the tree it builds and the state it leaves;
    the `Parser` methods are proved to compute them. Every path that goes
    round a loop or recurses consumes a token that is not end of input, so
    the measure `Measure` (twice the tokens left, plus one for a
    pending real token) decreases and parsing terminates. */
module WnuParser {
  import opened CLib
  import opened WnuTokens
  import opened WnuLexer
  import opened WnuAst

  /** One token as the lexer hands it out, with the lexer's position and
      location just after it. */
  datatype Lexed = Lexed(tok: Token, pos: nat, at: Loc)

  /** The tokens `lexer_next` hands out from a buffer, a position and a
      location, up to and including the first end of input. */
  function Tokens(src: Option<string>, pos: nat, at: Loc): (r: seq<Lexed>)
    requires src.Some? ==> pos <= |src.value|
    ensures EndsOnce(r)
    decreases if src.Some? then |src.value| - pos else 0
  {
    var (t, p, l) := Scan(src, pos, at);
    if t.kind == Eof then [Lexed(t, p, l)]
    else Push(Lexed(t, p, l), Tokens(src, p, l))
  }

  /** A stream ends with end of input and holds it nowhere else. */
  predicate EndsOnce(r: seq<Lexed>) {
    |r| >= 1 && r[|r| - 1].tok.kind == Eof
    && forall i :: 0 <= i < |r| - 1 ==> r[i].tok.kind != Eof
  }

  /** A real token in front of a stream leaves it a stream. */
  function Push(h: Lexed, rest: seq<Lexed>): (r: seq<Lexed>)
    requires h.tok.kind != Eof && EndsOnce(rest)
    ensures EndsOnce(r) && r[0] == h && r[1..] == rest
  {
    [h] + rest
  }

  /** A stream as the parser sees it: it ends with end of input. */
  predicate Ended(toks: seq<Lexed>) {
    |toks| >= 1 && toks[|toks| - 1].tok.kind == Eof
  }

  /** Asked again after end of input, the lexer reports it again where it
      stopped. */
  function AfterEof(e: Lexed): Lexed {
    Lexed(Token(Eof, None, e.at.line, e.at.col), e.pos, e.at)
  }

  /** One call of `lexer_next` on the stream. */
  function Lex(toks: seq<Lexed>): (r: (Token, seq<Lexed>))
    requires Ended(toks)
    ensures Ended(r.1) && |r.1| <= |toks|
    ensures r.0.kind != Eof ==> |r.1| < |toks|
  {
    if |toks| == 1 then (toks[0].tok, [AfterEof(toks[0])])
    else (toks[0].tok, toks[1..])
  }

  /** Lexing one token from the buffer is taking the head of its stream:
      the token `lexer_next` scans comes first, and the stream goes on
      from where the lexer stopped. */
  lemma {:induction false} LexStep(src: Option<string>, pos: nat, at: Loc, t: Token, p: nat, l: Loc)
    requires src.Some? ==> pos <= |src.value|
    requires (t, p, l) == Scan(src, pos, at)
    ensures Lex(Tokens(src, pos, at)) == (t, Tokens(src, p, l))
  {
    if t.kind == Eof {
      EofRepeats(src, pos, at);
    }
  }

  /** The parser's state: the tokens the lexer has still to hand out, and
      the pending token (`cur` when `have_cur`). */
  datatype PState = PState(toks: seq<Lexed>, pending: Option<Token>)

  predicate Ok(st: PState) {
    Ended(st.toks)
  }

  function Measure(st: PState): nat {
    2 * |st.toks| + (if st.pending.Some? && st.pending.value.kind != Eof then 1 else 0)
  }

  // ---------------------------------------------------------------------
  // Token access
  // ---------------------------------------------------------------------

  /** `next_token`: the pending token if there is one, else a fresh one. */
  function NextS(st: PState): (r: (Token, PState))
    requires Ok(st)
    ensures Ok(r.1) && r.1.pending.None?
    ensures Measure(r.1) <= Measure(st)
    ensures r.0.kind != Eof ==> Measure(r.1) < Measure(st)
  {
    if st.pending.Some? then (st.pending.value, st.(pending := None))
    else
      var (t, ts) := Lex(st.toks);
      (t, PState(ts, None))
  }

  /** `peek_token`: lex a token if none is pending, and keep it pending. */
  function PeekS(st: PState): (r: (Token, PState))
    requires Ok(st)
    ensures Ok(r.1) && r.1.pending == Some(r.0)
    ensures Measure(r.1) <= Measure(st)
  {
    if st.pending.Some? then (st.pending.value, st)
    else
      var (t, ts) := Lex(st.toks);
      (t, PState(ts, Some(t)))
  }

  /** `accept_kind`: consume the next token only when it has kind k, and
      hand it out (`*out`); `expect_kind` is the same plus a diagnostic. */
  function AcceptS(st: PState, k: TokenKind): (r: (Option<Token>, PState))
    requires Ok(st)
    ensures Ok(r.1) && Measure(r.1) <= Measure(st)
    ensures r.0.Some? && k != Eof ==> Measure(r.1) < Measure(st)
  {
    var (t, s1) := PeekS(st);
    if t.kind == k then (Some(t), NextS(s1).1) else (None, s1)
  }

  // ---------------------------------------------------------------------
  // The grammar
  // ---------------------------------------------------------------------

  /** A statement node: a return, a declaration or an expression statement. */
  predicate IsStatement(t: Tree) {
    t.kind == ReturnStmt || t.kind == DeclStmt || t.kind == ExprStmt
  }

  /** A function-definition node with its single compound-statement body. */
  predicate IsFunction(t: Tree) {
    t.kind == FuncDef && |t.children| == 1 && t.children[0].kind == CompoundStmt
  }

  /** An integer-literal node: `int_value` is atoi of the lexeme. */
  function IntNode(t: Token): Tree {
    Leaf(AstKind.IntLiteral).(intValue := Atoi(if t.lexeme.Some? then t.lexeme.value else ""))
  }

  /** `parse_expression`. An identifier starts a call exactly when `(`
      follows it; otherwise it is a variable reference, and the token
      after it, looked at to decide, stays pending. */
  function ExprS(st: PState): (r: (Tree, PState))
    requires Ok(st)
    ensures Ok(r.1) && Measure(r.1) <= Measure(st)
    ensures PeekS(st).0.kind != Eof ==> Measure(r.1) < Measure(st)
    ensures var t := PeekS(st).0; var lp := AcceptS(NextS(st).1, LParen);
      t.kind == TokenKind.Identifier ==>
        (lp.0.Some? ==> Measure(lp.1) < Measure(st) && r == CallS(lp.1, t.lexeme))
        && (lp.0.None? ==> r == (Leaf(AstKind.Identifier).(lexeme := t.lexeme), lp.1))
    decreases Measure(st), 0
  {
    var (t, s1) := PeekS(st);
    if t.kind == TokenKind.IntLiteral then
      (IntNode(t), NextS(s1).1)
    else if t.kind == TokenKind.StringLiteral then
      (Leaf(AstKind.StringLiteral).(lexeme := t.lexeme), NextS(s1).1)
    else if t.kind == TokenKind.Identifier then
      assert NextS(s1) == NextS(st);
      var s2 := NextS(s1).1;
      var (lp, s3) := AcceptS(s2, LParen);
      if lp.Some? then CallS(s3, t.lexeme)
      else (Leaf(AstKind.Identifier).(lexeme := t.lexeme), s3)
    else
      (Leaf(AstKind.Unknown), NextS(s1).1)
  }

  /** A call expression after its `(`: the callee named `name`, the
      arguments unless `)` comes first, and the `)` if it is there. */
  function CallS(st: PState, name: Option<string>): (r: (Tree, PState))
    requires Ok(st)
    ensures Ok(r.1) && Measure(r.1) <= Measure(st)
    ensures r.0.kind == CallExpr && |r.0.children| >= 1
    ensures r.0.children[0] == Leaf(AstKind.Identifier).(lexeme := name)
    ensures PeekS(st).0.kind == RParen <==> |r.0.children| == 1
    ensures PeekS(st).0.kind != RParen ==>
      r.0.children[1..] == ArgsS(PeekS(st).1).0
    decreases Measure(st), 2
  {
    var (p, s1) := PeekS(st);
    var (args, s2) := if p.kind != RParen then ArgsS(s1) else ([], s1);
    (Leaf(CallExpr).(children := [Leaf(AstKind.Identifier).(lexeme := name)] + args), AcceptS(s2, RParen).1)
  }

  /** The argument loop of a call: an expression, then, after a comma,
      the arguments that follow it. */
  function ArgsS(st: PState): (r: (seq<Tree>, PState))
    requires Ok(st)
    ensures Ok(r.1) && Measure(r.1) <= Measure(st)
    ensures |r.0| >= 1
    decreases Measure(st), 1
  {
    var a := ExprS(st);
    var more := AcceptS(a.1, Comma);
    if more.0.Some? then
      var rest := ArgsS(more.1);
      ([a.0] + rest.0, rest.1)
    else ([a.0], more.1)
  }

  /** `parse_statement`: `None` is the NULL it returns when a declaration
      lacks its identifier. */
  function StmtS(st: PState): (r: (Option<Tree>, PState))
    requires Ok(st)
    ensures Ok(r.1) && Measure(r.1) <= Measure(st)
    ensures PeekS(st).0.kind != Eof ==> Measure(r.1) < Measure(st)
    ensures r.0.Some? ==> IsStatement(r.0.value)
  {
    var (t, s1) := PeekS(st);
    if t.kind == KwReturn then
      var s2 := NextS(s1).1;
      var (e, s3) := ExprS(s2);
      (Some(Leaf(ReturnStmt).(children := [e])), AcceptS(s3, Semicolon).1)
    else if t.kind == KwInt then
      var s2 := NextS(s1).1;
      var (id, s3) := AcceptS(s2, TokenKind.Identifier);
      if id.None? then (None, s3)
      else
        var decl := Leaf(DeclStmt).(name := id.value.lexeme);
        var (eq, s4) := AcceptS(s3, Assign);
        if eq.Some? then
          var (rhs, s5) := ExprS(s4);
          (Some(decl.(children := [rhs])), AcceptS(s5, Semicolon).1)
        else
          (Some(decl), AcceptS(s4, Semicolon).1)
    else
      var (e, s2) := ExprS(s1);
      (Some(Leaf(ExprStmt).(children := [e])), AcceptS(s2, Semicolon).1)
  }

  /** The statement loop of a compound statement, after its brace: it ends
      at a closing brace (consumed), at end of input, or at a NULL
      statement. (The loop's `accept_kind` and `peek_token` look at the
      same token; here it is peeked once.) */
  function BlockS(st: PState): (r: (seq<Tree>, PState))
    requires Ok(st)
    ensures Ok(r.1) && Measure(r.1) <= Measure(st)
    ensures forall t :: t in r.0 ==> IsStatement(t)
    decreases Measure(st)
  {
    var (p, s1) := PeekS(st);
    if p.kind == RBrace then ([], NextS(s1).1)
    else if p.kind == Eof then ([], s1)
    else
      var (s, s2) := StmtS(s1);
      if s.None? then ([], s2)
      else
        var (rest, s3) := BlockS(s2);
        ([s.value] + rest, s3)
  }

  /** `parse_compound_stmt`: without an opening brace, an empty compound. */
  function CompoundS(st: PState): (r: (Tree, PState))
    requires Ok(st)
    ensures Ok(r.1) && Measure(r.1) <= Measure(st)
    ensures r.0.kind == CompoundStmt && forall t :: t in r.0.children ==> IsStatement(t)
  {
    var (open, s1) := AcceptS(st, LBrace);
    if open.None? then (Leaf(CompoundStmt), s1)
    else
      var (ks, s2) := BlockS(s1);
      (Leaf(CompoundStmt).(children := ks), s2)
  }

  /** `parse_function_definition`: `int`, a name, an optional `()` and a
      compound statement; `None` when `int` or the name is missing. */
  function FuncDefS(st: PState): (r: (Option<Tree>, PState))
    requires Ok(st)
    ensures Ok(r.1) && Measure(r.1) <= Measure(st)
    ensures PeekS(st).0.kind == KwInt ==> Measure(r.1) < Measure(st)
    ensures r.0.Some? ==> IsFunction(r.0.value)
  {
    var (kw, s1) := AcceptS(st, KwInt);
    if kw.None? then (None, s1)
    else
      var (id, s2) := AcceptS(s1, TokenKind.Identifier);
      if id.None? then (None, s2)
      else
        var s3 := AcceptS(s2, LParen).1;
        var s4 := AcceptS(s3, RParen).1;
        var (body, s5) := CompoundS(s4);
        (Some(Leaf(FuncDef).(name := id.value.lexeme, children := [body])), s5)
  }

  /** The loop of `parser_parse_translation_unit`: a function definition
      from each `int`, any other token dropped. (Its check that a dropped
      token is end of input cannot fire: the dropped token is the one just
      peeked, which was not.) */
  function UnitS(st: PState): (r: (seq<Tree>, PState))
    requires Ok(st)
    ensures Ok(r.1)
    ensures forall t :: t in r.0 ==> IsFunction(t)
    decreases Measure(st)
  {
    var (p, s1) := PeekS(st);
    if p.kind == Eof then ([], s1)
    else if p.kind == KwInt then
      var (fd, s2) := FuncDefS(s1);
      if fd.None? then ([], s2)
      else
        var (rest, s3) := UnitS(s2);
        ([fd.value] + rest, s3)
    else
      UnitS(NextS(s1).1)
  }

  /** `parser_parse_translation_unit`. */
  function TranslationUnitS(st: PState): (r: (Tree, PState))
    requires Ok(st)
    ensures Ok(r.1) && r.0.kind == TranslationUnit
    ensures forall t :: t in r.0.children ==> IsFunction(t)
  {
    var (fs, s) := UnitS(st);
    (Leaf(TranslationUnit).(children := fs), s)
  }

  // ---------------------------------------------------------------------
  // Properties
  // ---------------------------------------------------------------------

  /** Peeking twice is peeking once. */
  lemma {:induction false} PeekIdempotent(st: PState)
    requires Ok(st)
    ensures PeekS(PeekS(st).1) == PeekS(st)
  {
  }

  /** `next_token` after a peek returns the peeked token and leaves the
      state a direct `next_token` would have left. */
  lemma {:induction false} NextAfterPeek(st: PState)
    requires Ok(st)
    ensures NextS(PeekS(st).1) == NextS(st)
  {
  }

  /** `accept_kind` consumes exactly the next token when it has the kind,
      and otherwise leaves the token stream as it was. */
  lemma {:induction false} AcceptConsumesOnlyOnMatch(st: PState, k: TokenKind)
    requires Ok(st)
    ensures var (r, s) := AcceptS(st, k);
      (r.Some? <==> PeekS(st).0.kind == k)
      && (r.Some? ==> r.value == PeekS(st).0 && s == NextS(st).1)
      && (r.None? ==> NextS(s) == NextS(st) && PeekS(s) == PeekS(st))
  {
    NextAfterPeek(st);
  }

  /** Without a buffer every token is end of input and parsing yields an
      empty translation unit. */
  lemma {:induction false} NoBufferEmptyUnit(pos: nat, at: Loc)
    ensures TranslationUnitS(PState(Tokens(None, pos, at), None)).0 == Leaf(TranslationUnit)
  {
  }

  /** A top-level token other than `int` and end of input is dropped on
      its own, and parsing carries on after it. */
  lemma {:induction false} NonIntTokenDropped(st: PState)
    requires Ok(st)
    requires PeekS(st).0.kind != Eof && PeekS(st).0.kind != KwInt
    ensures UnitS(st) == UnitS(NextS(st).1)
  {
    NextAfterPeek(st);
  }

  /** A function definition exists exactly when `int` and a name come
      first; it is named by the name and has one compound-statement child. */
  lemma {:induction false} FuncDefShape(st: PState)
    requires Ok(st)
    ensures var (kw, s1) := AcceptS(st, KwInt);
      var id := PeekS(s1).0;
      var r := FuncDefS(st).0;
      (r.Some? <==> kw.Some? && id.kind == TokenKind.Identifier)
      && (r.Some? ==> r.value.name == id.lexeme && IsFunction(r.value))
  {
  }

  /** A return statement always has exactly one child, the expression after
      `return` (so `return;` gets an unknown expression that eats the
      semicolon). */
  lemma {:induction false} ReturnShape(st: PState)
    requires Ok(st) && PeekS(st).0.kind == KwReturn
    ensures var (r, _) := StmtS(st);
      r.Some? && r.value.kind == ReturnStmt
      && r.value.children == [ExprS(NextS(st).1).0]
  {
    NextAfterPeek(st);
  }

  /** An integer literal's node holds the decimal value of its digits. */
  lemma {:induction false} IntLiteralValue(st: PState)
    requires Ok(st)
    requires var t := PeekS(st).0;
      t.kind == TokenKind.IntLiteral && t.lexeme.Some? && AllDigits(t.lexeme.value)
    ensures var r := ExprS(st).0;
      r.kind == AstKind.IntLiteral && r.intValue == DigitsValue(PeekS(st).0.lexeme.value)
  {
  }

  /** Anything but a literal or an identifier is an unknown expression
      that consumes exactly that one token. */
  lemma {:induction false} UnknownExpression(st: PState)
    requires Ok(st)
    requires var k := PeekS(st).0.kind;
      k != TokenKind.IntLiteral && k != TokenKind.StringLiteral && k != TokenKind.Identifier
    ensures ExprS(st) == (Leaf(AstKind.Unknown), NextS(st).1)
  {
    NextAfterPeek(st);
  }

  /** A block stops at its closing brace, at end of input, and at a
      declaration without a name. */
  lemma {:induction false} BlockStops(st: PState)
    requires Ok(st)
    ensures PeekS(st).0.kind == RBrace ==> BlockS(st) == ([], NextS(st).1)
    ensures PeekS(st).0.kind == Eof ==> BlockS(st) == ([], PeekS(st).1)
    ensures var k := PeekS(st).0.kind; k != RBrace && k != Eof && StmtS(st).0.None? ==>
      BlockS(st) == ([], StmtS(st).1)
  {
    var (p, s1) := PeekS(st);
    if p.kind == RBrace {
      NextAfterPeek(st);
    } else if p.kind != Eof {
      StmtAfterPeek(st);
    }
  }

  /** A statement parsed after a peek is the statement parsed without it. */
  lemma {:induction false} StmtAfterPeek(st: PState)
    requires Ok(st)
    ensures StmtS(PeekS(st).1) == StmtS(st)
  {
    PeekIdempotent(st);
  }

  /** One round of the block loop: the token it looks at decides whether
      it stops or parses one more statement. */
  lemma {:induction false} BlockStep(st: PState)
    requires Ok(st)
    ensures var p := PeekS(st); var s := StmtS(p.1);
      BlockS(st) ==
        if p.0.kind == RBrace then ([], NextS(p.1).1)
        else if p.0.kind == Eof then ([], p.1)
        else if s.0.None? then ([], s.1)
        else ([s.0.value] + BlockS(s.1).0, BlockS(s.1).1)
  {
  }

  /** One round of the argument loop. */
  lemma {:induction false} ArgsStep(st: PState)
    requires Ok(st)
    ensures var (a, s1) := ExprS(st);
      var (more, s2) := AcceptS(s1, Comma);
      ArgsS(st) == if more.Some? then ([a] + ArgsS(s2).0, ArgsS(s2).1) else ([a], s2)
  {
  }

  /** One round of the top-level loop: the token it looks at decides
      whether it stops, drops that token, or parses a definition. */
  lemma {:induction false} UnitStep(st: PState)
    requires Ok(st)
    ensures var p := PeekS(st); var fd := FuncDefS(p.1);
      UnitS(st) ==
        if p.0.kind == Eof then ([], p.1)
        else if p.0.kind != KwInt then UnitS(NextS(p.1).1)
        else if fd.0.None? then ([], fd.1)
        else ([fd.0.value] + UnitS(fd.1).0, UnitS(fd.1).1)
  {
  }

  // ---------------------------------------------------------------------
  // The parser object
  // ---------------------------------------------------------------------

  class Parser {
    const lex: Lexer
    var cur: Token
    var haveCur: bool

    ghost predicate Valid()
      reads lex`buf, lex`pos
    {
      lex.Valid()
    }

    /** What the parser has still to read: the lexer's stream from where
        it stands, after the pending token if there is one. */
    ghost function State(): PState
      requires Valid()
      reads this`cur, this`haveCur, lex`buf, lex`pos, lex`line, lex`col
    {
      PState(Tokens(lex.buf, lex.pos, lex.Here()), if haveCur then Some(cur) else None)
    }

    /** The static initialisers: no pending token. */
    constructor (l: Lexer)
      ensures lex == l && !haveCur
    {
      lex := l;
      cur := Token(TokenKind.Unknown, None, 0, 0);
      haveCur := false;
    }

    /** `parser_init` once the file is read: a fresh lexer, nothing pending. */
    method Init(text: string)
      modifies this`haveCur, lex
      ensures Valid() && State() == PState(Tokens(Some(text), 0, Loc(1, 1)), None)
    {
      lex.Init(text);
      haveCur := false;
    }

    method NextToken() returns (t: Token)
      requires Valid()
      modifies this`haveCur, lex`pos, lex`line, lex`col
      ensures Valid() && (t, State()) == NextS(old(State()))
    {
      if haveCur {
        haveCur := false;
        return cur;
      }
      ghost var p0, at0 := lex.pos, lex.Here();
      t := lex.Next();
      LexStep(lex.buf, p0, at0, t, lex.pos, lex.Here());
    }

    method PushToken(t: Token)
      requires Valid()
      modifies this`cur, this`haveCur
      ensures Valid() && State() == old(State()).(pending := Some(t))
    {
      cur := t;
      haveCur := true;
    }

    method PeekToken() returns (t: Token)
      requires Valid()
      modifies this`cur, this`haveCur, lex`pos, lex`line, lex`col
      ensures Valid() && (t, State()) == PeekS(old(State()))
    {
      if !haveCur {
        ghost var p0, at0 := lex.pos, lex.Here();
        cur := lex.Next();
        haveCur := true;
        LexStep(lex.buf, p0, at0, cur, lex.pos, lex.Here());
      }
      return cur;
    }

    method AcceptKind(k: TokenKind) returns (r: Option<Token>)
      requires Valid()
      modifies this`cur, this`haveCur, lex`pos, lex`line, lex`col
      ensures Valid() && (r, State()) == AcceptS(old(State()), k)
    {
      var t := PeekToken();
      if t.kind == k {
        var _ := NextToken();
        return Some(t);
      }
      return None;
    }

    /** `expect_kind`: `accept_kind`, and a diagnostic (not modelled) when
        it fails; the peek it repeats changes nothing. */
    method ExpectKind(k: TokenKind) returns (r: Option<Token>)
      requires Valid()
      modifies this`cur, this`haveCur, lex`pos, lex`line, lex`col
      ensures Valid() && (r, State()) == AcceptS(old(State()), k)
    {
      r := AcceptKind(k);
      if r.None? {
        var _ := PeekToken();
      }
    }

    method ParseExpression() returns (n: Tree)
      requires Valid()
      modifies this`cur, this`haveCur, lex`pos, lex`line, lex`col
      ensures Valid() && (n, State()) == ExprS(old(State()))
      decreases Measure(State()), 0
    {
      var t := PeekToken();
      if t.kind == TokenKind.IntLiteral {
        var _ := NextToken();
        return IntNode(t);
      }
      if t.kind == TokenKind.StringLiteral {
        var _ := NextToken();
        return Leaf(AstKind.StringLiteral).(lexeme := t.lexeme);
      }
      if t.kind == TokenKind.Identifier {
        var _ := NextToken();
        var lp := AcceptKind(LParen);
        if lp.Some? {
          n := ParseCall(t.lexeme);
          return;
        }
        return Leaf(AstKind.Identifier).(lexeme := t.lexeme);
      }
      var _ := NextToken();
      n := Leaf(AstKind.Unknown);
    }

    /** The call branch of `parse_expression`, after the `(`. */
    method ParseCall(name: Option<string>) returns (n: Tree)
      requires Valid()
      modifies this`cur, this`haveCur, lex`pos, lex`line, lex`col
      ensures Valid() && (n, State()) == CallS(old(State()), name)
      decreases Measure(State()), 2
    {
      var args := [];
      var p := PeekToken();
      if p.kind != RParen {
        args := ParseArguments();
      }
      var _ := AcceptKind(RParen);
      n := Leaf(CallExpr).(children := [Leaf(AstKind.Identifier).(lexeme := name)] + args);
    }

    /** The `for (;;)` argument loop. */
    method ParseArguments() returns (args: seq<Tree>)
      requires Valid()
      modifies this`cur, this`haveCur, lex`pos, lex`line, lex`col
      ensures Valid() && (args, State()) == ArgsS(old(State()))
      decreases Measure(State()), 1
    {
      ghost var s0 := State();
      args := [];
      assert [] + ArgsS(s0).0 == ArgsS(s0).0;
      while true
        invariant Valid() && Measure(State()) <= Measure(s0)
        invariant args + ArgsS(State()).0 == ArgsS(s0).0 && ArgsS(State()).1 == ArgsS(s0).1
        decreases Measure(State())
      {
        ghost var s := State();
        ArgsStep(s);
        var arg := ParseExpression();
        var more := AcceptKind(Comma);
        if more.None? {
          args := args + [arg];
          return;
        }
        ConcatAssoc(args, [arg], ArgsS(State()).0);
        args := args + [arg];
      }
    }

    method ParseStatement() returns (r: Option<Tree>)
      requires Valid()
      modifies this`cur, this`haveCur, lex`pos, lex`line, lex`col
      ensures Valid() && (r, State()) == StmtS(old(State()))
    {
      var t := PeekToken();
      if t.kind == KwReturn {
        var _ := NextToken();
        var e := ParseExpression();
        var _ := AcceptKind(Semicolon);
        return Some(Leaf(ReturnStmt).(children := [e]));
      }
      if t.kind == KwInt {
        var _ := NextToken();
        var id := ExpectKind(TokenKind.Identifier);
        if id.None? {
          return None;
        }
        var decl := Leaf(DeclStmt).(name := id.value.lexeme);
        var eq := AcceptKind(Assign);
        if eq.Some? {
          var rhs := ParseExpression();
          decl := decl.(children := [rhs]);
        }
        var _ := AcceptKind(Semicolon);
        return Some(decl);
      }
      var e := ParseExpression();
      var _ := AcceptKind(Semicolon);
      r := Some(Leaf(ExprStmt).(children := [e]));
    }

    method ParseCompoundStmt() returns (c: Tree)
      requires Valid()
      modifies this`cur, this`haveCur, lex`pos, lex`line, lex`col
      ensures Valid() && (c, State()) == CompoundS(old(State()))
    {
      c := Leaf(CompoundStmt);
      var open := AcceptKind(LBrace);
      if open.None? {
        return;
      }
      var kids := ParseBlock();
      c := c.(children := kids);
    }

    /** The `while (!accept_kind(TOK_RBRACE, NULL))` statement loop. */
    method ParseBlock() returns (kids: seq<Tree>)
      requires Valid()
      modifies this`cur, this`haveCur, lex`pos, lex`line, lex`col
      ensures Valid() && (kids, State()) == BlockS(old(State()))
    {
      ghost var s0 := State();
      kids := [];
      assert [] + BlockS(s0).0 == BlockS(s0).0;
      while true
        invariant Valid()
        invariant kids + BlockS(State()).0 == BlockS(s0).0 && BlockS(State()).1 == BlockS(s0).1
        decreases Measure(State())
      {
        BlockStep(State());
        var close := AcceptKind(RBrace);
        if close.Some? {
          assert kids + [] == kids;
          return;
        }
        var p := PeekToken();
        if p.kind == Eof {
          assert kids + [] == kids;
          return;
        }
        var st := ParseStatement();
        if st.None? {
          assert kids + [] == kids;
          return;
        }
        ConcatAssoc(kids, [st.value], BlockS(State()).0);
        kids := kids + [st.value];
      }
    }

    method ParseFunctionDefinition() returns (r: Option<Tree>)
      requires Valid()
      modifies this`cur, this`haveCur, lex`pos, lex`line, lex`col
      ensures Valid() && (r, State()) == FuncDefS(old(State()))
    {
      var kw := ExpectKind(KwInt);
      if kw.None? {
        return None;
      }
      var id := ExpectKind(TokenKind.Identifier);
      if id.None? {
        return None;
      }
      var _ := AcceptKind(LParen);
      var _ := AcceptKind(RParen);
      var body := ParseCompoundStmt();
      r := Some(Leaf(FuncDef).(name := id.value.lexeme, children := [body]));
    }

    method ParseTranslationUnit() returns (tu: Tree)
      requires Valid()
      modifies this`cur, this`haveCur, lex`pos, lex`line, lex`col
      ensures Valid() && (tu, State()) == TranslationUnitS(old(State()))
    {
      var fs := ParseUnits();
      tu := Leaf(TranslationUnit).(children := fs);
    }

    /** The `while (1)` loop of `parser_parse_translation_unit`. */
    method ParseUnits() returns (fs: seq<Tree>)
      requires Valid()
      modifies this`cur, this`haveCur, lex`pos, lex`line, lex`col
      ensures Valid() && (fs, State()) == UnitS(old(State()))
    {
      ghost var s0 := State();
      fs := [];
      assert [] + UnitS(s0).0 == UnitS(s0).0;
      while true
        invariant Valid()
        invariant fs + UnitS(State()).0 == UnitS(s0).0 && UnitS(State()).1 == UnitS(s0).1
        decreases Measure(State())
      {
        UnitStep(State());
        var p := PeekToken();
        if p.kind == Eof {
          assert fs + [] == fs;
          return;
        }
        if p.kind == KwInt {
          var fd := ParseFunctionDefinition();
          if fd.None? {
            assert fs + [] == fs;
            return;
          }
          ConcatAssoc(fs, [fd.value], UnitS(State()).0);
          fs := fs + [fd.value];
          continue;
        }
        var _ := NextToken();
      }
    }
  }
}
