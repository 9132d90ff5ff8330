/** The Python++ tokenizer (compilers/wpy++/lexer.c).

    The C file keeps a process-wide cursor (`src`, `pos`, `line`, `col`); here
    it is the state of a `Lexer` object. `Next` is the pure specification of
    one `next_token` call, and `Lexer.NextToken` is proved to compute it. */
module PyppLexer {
  import opened CLib
  import opened PyppTokens

  // ---------------------------------------------------------------------
  // Character classes used by the scanner
  // ---------------------------------------------------------------------

  /** A word starts with a letter, '_' or '#' (so `#include` is one word). */
  predicate IsIdentStart(c: char) { IsAlpha(c) || c == '_' || c == '#' }

  predicate IsIdentPart(c: char) { In(WordPart, c) }

  // ---------------------------------------------------------------------
  // Keywords
  // ---------------------------------------------------------------------

  /** The keyword table, as a reference for `KeywordType`'s if-chain. */
  const Keywords: map<string, TokenType> :=
    map["func" := Func, "return" := Return, "success" := Success, "failure" := Failure,
        "if" := If, "else" := Else, "while" := While, "for" := For, "#include" := Include]

  function KeywordType(lex: string): (k: TokenType)
    ensures k == (if lex in Keywords then Keywords[lex] else Identifier)
  {
    if lex == "func" then Func
    else if lex == "return" then Return
    else if lex == "success" then Success
    else if lex == "failure" then Failure
    else if lex == "if" then If
    else if lex == "else" then Else
    else if lex == "while" then While
    else if lex == "for" then For
    else if lex == "#include" then Include
    else Identifier
  }

  // ---------------------------------------------------------------------
  // Specification of one next_token call
  // ---------------------------------------------------------------------

  /** Kind and length of an operator or symbol token starting with c,
      followed by d: the two-character operators are tried first. */
  function Operator(c: char, d: char): (r: (TokenType, nat))
    ensures r.1 == 1 || (r.1 == 2 && d == '=')
  {
    if c == '=' then (if d == '=' then (Eq, 2) else (Assign, 1))
    else if c == '!' then (if d == '=' then (Neq, 2) else (Unknown, 1))
    else if c == '>' then (if d == '=' then (Gte, 2) else (Gt, 1))
    else if c == '<' then (if d == '=' then (Lte, 2) else (Lt, 1))
    else
      var k :=
        if c == '{' then LBrace else if c == '}' then RBrace
        else if c == '(' then LParen else if c == ')' then RParen
        else if c == ';' then Semicolon else if c == ',' then Comma
        else if c == '.' then Dot else if c == '+' then Plus
        else if c == '-' then Minus else if c == '*' then Star
        else if c == '/' then Slash else Unknown;
      (k, 1)
  }

  /** End of a quoted literal opened by q at s: up to and including the
      closing quote, or to the end of input when there is none. */
  function QuotedEnd(src: string, s: nat, q: char): (e: nat)
    requires s < |src| && (q == '"' || q == '\'')
    ensures s < e <= |src|
  {
    var e := Span(src, s + 1, Not(q));
    if At(src, e) == q then e + 1 else e
  }

  /** Kind and end of the token whose first character is at s (white space
      already skipped). */
  function Scan(src: string, s: nat): (r: (TokenType, nat))
    requires s <= |src|
    ensures s <= r.1 <= |src|
    ensures r.0 == Eof <==> At(src, s) == '\0'
    ensures r.0 == Eof ==> r.1 == s
    ensures r.0 != Eof ==> r.1 > s
  {
    var c := At(src, s);
    if c == '\0' then (Eof, s)
    else if IsIdentStart(c) then
      var e := Span(src, s + 1, WordPart);
      (KeywordType(src[s..e]), e)
    else if IsDigit(c) then (IntLiteral, Span(src, s + 1, Digit))
    else if c == '"' then (StringLiteral, QuotedEnd(src, s, c))
    else if c == '\'' then (CharLiteral, QuotedEnd(src, s, c))
    else
      var (k, n) := Operator(c, At(src, s + 1));
      (k, s + n)
  }

  /** One `next_token` call from cursor `pos` at location `at`: the token,
      the new cursor and the new location. The token's line and column are
      read after the token is consumed, the column minus the token's length. */
  function Next(src: string, pos: nat, at: Loc): (r: (Token, nat, Loc))
    requires pos <= |src|
    ensures pos <= r.1 <= |src|
    ensures r.0.kind != Eof ==> r.1 > pos
  {
    var s := Span(src, pos, Space);
    var (k, e) := Scan(src, s);
    var at' := Walk(at, src, pos, e);
    (Token(k, src[s..e], at'.line, at'.col - (e - s)), e, at')
  }

  /** The tokens `next_token` yields from `pos` up to and including the
      first end-of-file token (the collecting loop of compilers/wpy++/main.c). */
  function Tokens(src: string, pos: nat, at: Loc): (ts: seq<Token>)
    requires pos <= |src|
    ensures |ts| >= 1 && ts[|ts| - 1].kind == Eof
    decreases |src| - pos
  {
    var r := Next(src, pos, at);
    if r.0.kind == Eof then [r.0]
    else
      var rest := Tokens(src, r.1, r.2);
      assert ([r.0] + rest)[|rest|] == rest[|rest| - 1];
      [r.0] + rest
  }

  // ---------------------------------------------------------------------
  // Properties of the specification
  // ---------------------------------------------------------------------

  /** At the end of input the end-of-file token has an empty lexeme and
      the cursor stays put, so every later call yields the same token. */
  lemma EofIsStable(src: string, pos: nat, at: Loc)
    requires pos <= |src|
    requires Next(src, pos, at).0.kind == Eof
    ensures Next(src, pos, at).0.lexeme == ""
    ensures var (t, p, a) := Next(src, pos, at); Next(src, p, a) == (t, p, a)
  {
    var (t, p, a) := Next(src, pos, at);
    assert src[p..p] == [];
  }

  /** Every other token consumes at least one character, and its lexeme is
      exactly the slice of the source just before the new cursor, preceded
      only by skipped white space. */
  lemma TokenIsSourceSlice(src: string, pos: nat, at: Loc)
    requires pos <= |src|
    requires Next(src, pos, at).0.kind != Eof
    ensures var (t, p, _) := Next(src, pos, at);
      && 1 <= |t.lexeme| <= p - pos
      && t.lexeme == src[p - |t.lexeme| .. p]
      && forall i :: pos <= i < p - |t.lexeme| ==> IsSpace(src[i])
  {
    var s := Span(src, pos, Space);
    forall i | pos <= i < s ensures IsSpace(src[i]) {
      assert At(src, i) == src[i];
    }
  }

  /** A word is the maximal run of [alpha|_|#][alnum|_]*, classified by the
      keyword table. */
  lemma WordIsMaximal(src: string, pos: nat, at: Loc)
    requires pos <= |src|
    requires IsIdentStart(At(src, Span(src, pos, Space)))
    ensures var (t, p, _) := Next(src, pos, at);
      && t.kind == KeywordType(t.lexeme)
      && IsIdentStart(t.lexeme[0])
      && (forall i :: 1 <= i < |t.lexeme| ==> IsIdentPart(t.lexeme[i]))
      && !IsIdentPart(At(src, p))
  {
    var s := Span(src, pos, Space);
    var e := Span(src, s + 1, WordPart);
    forall i | 1 <= i < e - s ensures IsIdentPart(src[s..e][i]) {
      assert At(src, s + i) == src[s + i];
    }
  }

  /** An integer literal is the maximal run of decimal digits. */
  lemma IntLiteralIsMaximal(src: string, pos: nat, at: Loc)
    requires pos <= |src|
    requires IsDigit(At(src, Span(src, pos, Space)))
    ensures var (t, p, _) := Next(src, pos, at);
      && t.kind == IntLiteral
      && AllDigits(t.lexeme)
      && !IsDigit(At(src, p))
  {
    var s := Span(src, pos, Space);
    var e := Span(src, s + 1, Digit);
    forall i | 0 <= i < e - s ensures IsDigit(src[s..e][i]) {
      assert At(src, s + i) == src[s + i];
    }
  }

  /** A string (`"`) or character (`'`) literal keeps its opening quote
      and, when there is one, its closing quote; an unterminated literal
      runs to the end of input. */
  lemma QuotedLiteralShape(src: string, pos: nat, at: Loc, q: char)
    requires pos <= |src| && (q == '"' || q == '\'')
    requires At(src, Span(src, pos, Space)) == q
    ensures var (t, p, _) := Next(src, pos, at);
      && t.kind == (if q == '"' then StringLiteral else CharLiteral)
      && t.lexeme[0] == q
      && (forall i :: 1 <= i < |t.lexeme| - 1 ==> In(Not(q), t.lexeme[i]))
      && ((|t.lexeme| >= 2 && t.lexeme[|t.lexeme| - 1] == q)
          || (At(src, p) == '\0' && forall i :: 1 <= i < |t.lexeme| ==> In(Not(q), t.lexeme[i])))
  {
    var s := Span(src, pos, Space);
    var e := Span(src, s + 1, Not(q));
    var (t, p, _) := Next(src, pos, at);
    assert p == QuotedEnd(src, s, q) == if At(src, e) == q then e + 1 else e;
    assert t.lexeme == src[s..p] && t.kind == (if q == '"' then StringLiteral else CharLiteral);
    forall i | 1 <= i < e - s ensures In(Not(q), t.lexeme[i]) {
      assert At(src, s + i) == src[s + i];
    }
    if At(src, e) == q {
      assert t.lexeme[|t.lexeme| - 1] == src[e];
    }
  }

  /** The two-character operators win over their one-character prefixes,
      and a '!' without '=' is an unknown token of length one. */
  lemma TwoCharOperatorsFirst(src: string, s: nat)
    requires s <= |src| && At(src, s) in "=!<>"
    ensures At(src, s + 1) == '=' ==>
      Scan(src, s) == (match At(src, s) case '=' => Eq case '!' => Neq case '<' => Lte case _ => Gte, s + 2)
    ensures At(src, s) == '!' && At(src, s + 1) != '=' ==> Scan(src, s) == (Unknown, s + 1)
  {
  }

  /** One step of `Tokens`, in terms of the result of `Next`. */
  lemma TokensStep(src: string, pos: nat, at: Loc, t: Token, p: nat, a: Loc)
    requires pos <= |src| && (t, p, a) == Next(src, pos, at)
    ensures pos <= p <= |src| && (t.kind != Eof ==> pos < p)
    ensures Tokens(src, pos, at) == if t.kind == Eof then [t] else [t] + Tokens(src, p, a)
  {
  }

  /** Only the last token of a tokenization is the end-of-file token. */
  lemma {:induction false} TokensEofOnlyAtEnd(src: string, pos: nat, at: Loc)
    requires pos <= |src|
    ensures var ts := Tokens(src, pos, at);
      forall i :: 0 <= i < |ts| - 1 ==> ts[i].kind != Eof
    decreases |src| - pos
  {
    var r := Next(src, pos, at);
    if r.0.kind != Eof {
      TokensEofOnlyAtEnd(src, r.1, r.2);
      var ts := Tokens(src, pos, at);
      assert ts == [r.0] + Tokens(src, r.1, r.2);
      forall i | 1 <= i < |ts| - 1 ensures ts[i].kind != Eof {
        assert ts[i] == Tokens(src, r.1, r.2)[i - 1];
      }
    }
  }

  /** Tokenizing the empty source yields exactly one end-of-file token. */
  lemma EmptySourceTokens()
    ensures Tokens("", 0, Loc(1, 1)) == [Token(Eof, "", 1, 1)]
  {
  }

  // ---------------------------------------------------------------------
  // The imperative lexer
  // ---------------------------------------------------------------------

  class Lexer {
    var src: string
    var pos: nat
    var line: int
    var col: int

    ghost predicate Valid()
      reads this
    {
      pos <= |src|
    }

    /** `init_lexer`. */
    constructor Init(source: string)
      ensures Valid() && src == source && pos == 0 && line == 1 && col == 1
    {
      src, pos, line, col := source, 0, 1, 1;
    }

    function Peek(): char
      reads this
    {
      At(src, pos)
    }

    method Advance() returns (c: char)
      requires Valid() && pos < |src|
      modifies this
      ensures Valid() && src == old(src) && pos == old(pos) + 1
      ensures c == old(Peek())
      ensures Loc(line, col) == Step(old(Loc(line, col)), c)
    {
      c := src[pos];
      pos := pos + 1;
      if c == '\n' {
        line, col := line + 1, 1;
      } else {
        col := col + 1;
      }
    }

    /** Consumes the next character when it is `expected`. */
    method Match(expected: char) returns (matched: bool)
      requires Valid() && expected != '\0'
      modifies this
      ensures Valid() && src == old(src)
      ensures matched <==> old(Peek()) == expected
      ensures matched ==> pos == old(pos) + 1 && Loc(line, col) == Step(old(Loc(line, col)), expected)
      ensures !matched ==> pos == old(pos) && line == old(line) && col == old(col)
    {
      if Peek() == expected {
        var _ := Advance();
        return true;
      }
      return false;
    }

    /** `make_token`: the column is where the lexeme starts. */
    function MakeToken(kind: TokenType, lexeme: string): Token
      reads this
    {
      Token(kind, lexeme, line, col - |lexeme|)
    }

    /** The `while (p(peek())) advance();` loops of the scanner. */
    method AdvanceWhile(cl: CharClass)
      requires Valid()
      modifies this
      ensures Valid() && src == old(src)
      ensures pos == Span(src, old(pos), cl)
      ensures Loc(line, col) == Walk(old(Loc(line, col)), src, old(pos), pos)
    {
      ghost var p0, at0 := pos, Loc(line, col);
      while In(cl, Peek())
        invariant Valid() && src == old(src) && p0 <= pos
        invariant Span(src, pos, cl) == Span(src, p0, cl)
        invariant Loc(line, col) == Walk(at0, src, p0, pos)
        decreases |src| - pos
      {
        var _ := Advance();
      }
    }

    /** `next_token`. */
    method NextToken() returns (t: Token)
      requires Valid()
      modifies this
      ensures Valid() && src == old(src)
      ensures (t, pos, Loc(line, col)) == Next(src, old(pos), old(Loc(line, col)))
    {
      ghost var p0, at0 := pos, Loc(line, col);
      AdvanceWhile(Space);
      var start := pos;
      if Peek() == '\0' {
        assert src[start..start] == "";
        t := MakeToken(Eof, "");
        return;
      }
      var kind := ScanToken();
      WalkSplit(at0, src, p0, start, pos);
      t := MakeToken(kind, src[start..pos]);
    }

    /** The body of `next_token` once white space is skipped and the input
        is not exhausted: consumes one token and classifies it. */
    method ScanToken() returns (kind: TokenType)
      requires Valid() && Peek() != '\0'
      modifies this
      ensures Valid() && src == old(src)
      ensures (kind, pos) == Scan(src, old(pos))
      ensures Loc(line, col) == Walk(old(Loc(line, col)), src, old(pos), pos)
    {
      var start := pos;
      ghost var at0 := Loc(line, col);
      var c := Advance();
      if IsIdentStart(c) {
        AdvanceWhile(WordPart);
        WalkSplit(at0, src, start, start + 1, pos);
        kind := KeywordType(src[start..pos]);
      } else if IsDigit(c) {
        AdvanceWhile(Digit);
        WalkSplit(at0, src, start, start + 1, pos);
        kind := IntLiteral;
      } else if c == '"' || c == '\'' {
        ScanQuoted(c);
        WalkSplit(at0, src, start, start + 1, pos);
        kind := if c == '"' then StringLiteral else CharLiteral;
      } else {
        var two := false;
        if c == '=' || c == '!' || c == '>' || c == '<' {
          two := Match('=');
        }
        if two {
          WalkSplit(at0, src, start, start + 1, pos);
        }
        var (k, _) := Operator(c, if two then '=' else '\0');
        kind := k;
      }
    }

    /** The rest of a quoted literal opened by q: everything up to and
        including the closing quote, or up to the end of input. */
    method ScanQuoted(q: char)
      requires Valid() && 0 < pos && (q == '"' || q == '\'')
      modifies this
      ensures Valid() && src == old(src)
      ensures pos == QuotedEnd(src, old(pos) - 1, q)
      ensures Loc(line, col) == Walk(old(Loc(line, col)), src, old(pos), pos)
    {
      ghost var p0, at0 := pos, Loc(line, col);
      AdvanceWhile(Not(q));
      ghost var e := pos;
      var closed := Match(q);
      if closed {
        WalkSplit(at0, src, p0, e, pos);
      }
    }

    /** The token-collecting loop of compilers/wpy++/main.c: every token up
        to and including the first end-of-file token. */
    method Tokenize() returns (toks: seq<Token>)
      requires Valid()
      modifies this
      ensures Valid() && src == old(src)
      ensures toks == Tokens(src, old(pos), old(Loc(line, col)))
    {
      ghost var p0, at0 := pos, Loc(line, col);
      toks := [];
      while true
        invariant Valid() && src == old(src)
        invariant toks + Tokens(src, pos, Loc(line, col)) == Tokens(src, p0, at0)
        decreases |src| - pos
      {
        ghost var p1, at1 := pos, Loc(line, col);
        var tok := NextToken();
        TokensStep(src, p1, at1, tok, pos, Loc(line, col));
        ConcatAssoc(toks, [tok], Tokens(src, pos, Loc(line, col)));
        toks := toks + [tok];
        if tok.kind == Eof {
          return;
        }
      }
    }
  }
}
