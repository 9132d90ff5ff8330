/** The C compiler's tokenizer (compilers/wnu-c/lexer.c).

    The C file keeps a process-wide buffer and cursor (`src_buf`, `src_pos`,
    `src_line`, `src_col`); here they are the fields of a `Lexer` object,
    with the buffer `None` before `lexer_init` and after `lexer_free`. The
    buffer is read byte by byte up to its recorded length, so a NUL byte is
    an ordinary character. `Scan` is the pure specification of one
    `lexer_next` call: skip blanks and comments (`SkipBlank`), then read one
    token (`TokenAt`); `Lexer.Next` is proved to compute it. */
module WnuLexer {
  import opened CLib
  import opened WnuTokens

  // ---------------------------------------------------------------------
  // Character classes
  // ---------------------------------------------------------------------

  /** The white space `skip_whitespace_and_comments` skips (no \v or \f). */
  predicate IsBlank(c: char) {
    c == ' ' || c == '\t' || c == '\r' || c == '\n'
  }

  predicate IsIdentStart(c: char) {
    c == '_' || ('A' <= c <= 'Z') || ('a' <= c <= 'z')
  }

  predicate IsIdentPart(c: char) {
    IsIdentStart(c) || IsDigit(c)
  }

  /** Characters a and b at i and i + 1, with the bound check
      `src_pos + 1 < src_len` the lexer makes before looking ahead. */
  predicate PairAt(src: string, i: nat, a: char, b: char) {
    i + 1 < |src| && src[i] == a && src[i + 1] == b
  }

  /** The classes of the `while (p(peek_char())) get_char();` loops. */
  datatype Run = IdentPart | Digits | NotNewline

  predicate InRun(r: Run, c: char) {
    match r
    case IdentPart => IsIdentPart(c)
    case Digits => IsDigit(c)
    case NotNewline => c != '\n'
  }

  /** Where such a loop started at i stops: the end of the buffer or the
      first character outside the class. */
  function RunEnd(src: string, i: nat, r: Run): (e: nat)
    requires i <= |src|
    ensures i <= e <= |src|
    ensures forall k :: i <= k < e ==> InRun(r, src[k])
    ensures e < |src| ==> !InRun(r, src[e])
    decreases |src| - i
  {
    if i < |src| && InRun(r, src[i]) then RunEnd(src, i + 1, r) else i
  }

  lemma {:induction false} RunEndExact(src: string, i: nat, j: nat, r: Run)
    requires i <= j <= |src|
    requires forall k :: i <= k < j ==> InRun(r, src[k])
    requires j < |src| ==> !InRun(r, src[j])
    ensures RunEnd(src, i, r) == j
    decreases j - i
  {
    if i < j {
      RunEndExact(src, i + 1, j, r);
    }
  }

  // ---------------------------------------------------------------------
  // White space and comments
  // ---------------------------------------------------------------------

  /** The body of a block comment from j: up to and including the first
      star-slash, or to the end of the buffer when there is none. */
  function BlockEnd(src: string, j: nat): (e: nat)
    requires j <= |src|
    ensures j <= e <= |src|
    ensures forall k :: j <= k && k + 2 < e ==> !PairAt(src, k, '*', '/')
    ensures (j + 2 <= e && PairAt(src, e - 2, '*', '/'))
         || (e == |src| && forall k :: j <= k < |src| ==> !PairAt(src, k, '*', '/'))
    decreases |src| - j
  {
    if j == |src| then j
    else if PairAt(src, j, '*', '/') then j + 2
    else BlockEnd(src, j + 1)
  }

  /** `skip_whitespace_and_comments` from i: where the cursor stops. */
  function SkipBlank(src: string, i: nat): (r: nat)
    requires i <= |src|
    ensures i <= r <= |src|
    ensures r < |src| ==> !IsBlank(src[r])
    ensures !PairAt(src, r, '/', '/') && !PairAt(src, r, '/', '*')
    decreases |src| - i
  {
    if i < |src| && IsBlank(src[i]) then SkipBlank(src, i + 1)
    else if PairAt(src, i, '/', '/') then SkipBlank(src, RunEnd(src, i + 2, NotNewline))
    else if PairAt(src, i, '/', '*') then SkipBlank(src, BlockEnd(src, i + 2))
    else i
  }

  /** Skipping is idempotent: the cursor it leaves has nothing to skip. */
  lemma SkipBlankIdempotent(src: string, i: nat)
    requires i <= |src|
    ensures SkipBlank(src, SkipBlank(src, i)) == SkipBlank(src, i)
  {
  }

  /** A line comment ends just before its newline, which is then skipped as
      white space; nothing on the comment's line is read. */
  lemma LineCommentSkipped(src: string, i: nat, n: nat)
    requires PairAt(src, i, '/', '/')
    requires i + 2 <= n < |src| && src[n] == '\n'
    requires forall k :: i + 2 <= k < n ==> src[k] != '\n'
    ensures SkipBlank(src, i) == SkipBlank(src, n + 1)
  {
    RunEndExact(src, i + 2, n, NotNewline);
  }

  /** A block comment with no closing star-slash swallows the rest of the
      buffer, so the next token is the end of input. */
  lemma UnterminatedBlockComment(src: string, i: nat)
    requires PairAt(src, i, '/', '*')
    requires forall k :: i + 2 <= k < |src| ==> !PairAt(src, k, '*', '/')
    ensures SkipBlank(src, i) == |src|
  {
  }

  /** Block comments do not nest: the first star-slash closes the comment,
      whatever opened after it. */
  lemma BlockCommentsDoNotNest(src: string, i: nat, c: nat)
    requires PairAt(src, i, '/', '*') && i + 2 <= c && PairAt(src, c, '*', '/')
    requires forall k :: i + 2 <= k < c ==> !PairAt(src, k, '*', '/')
    ensures SkipBlank(src, i) == SkipBlank(src, c + 2)
  {
  }

  // ---------------------------------------------------------------------
  // Keywords and operators
  // ---------------------------------------------------------------------

  /** The fifteen words `lexer_next` recognises as keywords. */
  const Keywords: map<string, TokenKind> :=
    map["int" := KwInt, "return" := KwReturn, "if" := KwIf, "else" := KwElse,
        "while" := KwWhile, "for" := KwFor, "struct" := KwStruct,
        "typedef" := KwTypedef, "extern" := KwExtern, "static" := KwStatic,
        "char" := KwChar, "float" := KwFloat, "double" := KwDouble,
        "void" := KwVoid, "_Bool" := KwBool]

  /** The strcmp chain that classifies an identifier. */
  function KeywordKind(w: string): (k: TokenKind)
    ensures k == (if w in Keywords then Keywords[w] else Identifier)
  {
    if w == "int" then KwInt
    else if w == "return" then KwReturn
    else if w == "if" then KwIf
    else if w == "else" then KwElse
    else if w == "while" then KwWhile
    else if w == "for" then KwFor
    else if w == "struct" then KwStruct
    else if w == "typedef" then KwTypedef
    else if w == "extern" then KwExtern
    else if w == "static" then KwStatic
    else if w == "char" then KwChar
    else if w == "float" then KwFloat
    else if w == "double" then KwDouble
    else if w == "void" then KwVoid
    else if w == "_Bool" then KwBool
    else Identifier
  }

  /** The other C keywords the token set names are read as identifiers. */
  lemma OtherKeywordsAreIdentifiers()
    ensures KeywordKind("const") == Identifier && KeywordKind("long") == Identifier
    ensures KeywordKind("unsigned") == Identifier && KeywordKind("sizeof") == Identifier
  {
    assert KeywordKind("const") == Identifier;
    assert KeywordKind("long") == Identifier;
    assert KeywordKind("unsigned") == Identifier;
  }

  /** The two-character operators, as a table. */
  const TwoCharOps: map<(char, char), TokenKind> :=
    map[('=', '=') := Eq, ('!', '=') := Neq, ('<', '=') := Le, ('>', '=') := Ge,
        ('+', '+') := PlusPlus, ('-', '-') := MinusMinus, ('+', '=') := PlusAssign,
        ('-', '=') := MinusAssign, ('-', '>') := Arrow, ('&', '&') := AndAnd,
        ('|', '|') := OrOr, ('<', '<') := LShift, ('>', '>') := RShift,
        ('#', '#') := PpHashHash]

  /** The if-chain on a character a and the one after it, b (NUL at the
      end of the buffer). The second `->` and `-=` tests of the source can
      never fire, the first ones having returned already. */
  function TwoChar(a: char, b: char): (k: Option<TokenKind>)
    ensures k.Some? ==> b != '\0'
  {
    if a == '=' && b == '=' then Some(Eq)
    else if a == '!' && b == '=' then Some(Neq)
    else if a == '<' && b == '=' then Some(Le)
    else if a == '>' && b == '=' then Some(Ge)
    else if a == '+' && b == '+' then Some(PlusPlus)
    else if a == '-' && b == '-' then Some(MinusMinus)
    else if a == '+' && b == '=' then Some(PlusAssign)
    else if a == '-' && b == '=' then Some(MinusAssign)
    else if a == '-' && b == '>' then Some(Arrow)
    else if a == '&' && b == '&' then Some(AndAnd)
    else if a == '|' && b == '|' then Some(OrOr)
    else if a == '<' && b == '<' then Some(LShift)
    else if a == '>' && b == '>' then Some(RShift)
    else if a == '#' && b == '#' then Some(PpHashHash)
    else None
  }

  /** The chain recognises nothing outside the table. */
  lemma TwoCharSound(a: char, b: char)
    requires TwoChar(a, b).Some?
    ensures (a, b) in TwoCharOps
  {
  }

  /** Every operator of the table is recognised, with its kind. */
  lemma TwoCharComplete(a: char, b: char)
    requires (a, b) in TwoCharOps
    ensures TwoChar(a, b) == Some(TwoCharOps[(a, b)])
  {
  }

  /** The `switch` on a single character. */
  function OneChar(c: char): (k: Option<TokenKind>)
  {
    if c == '+' then Some(Plus)
    else if c == '-' then Some(Minus)
    else if c == '*' then Some(Star)
    else if c == '/' then Some(Slash)
    else if c == '%' then Some(Percent)
    else if c == '=' then Some(Assign)
    else if c == '<' then Some(Lt)
    else if c == '>' then Some(Gt)
    else if c == '&' then Some(And)
    else if c == '|' then Some(Or)
    else if c == '^' then Some(Xor)
    else if c == '!' then Some(TokenKind.Not)
    else if c == '?' then Some(Ternary)
    else if c == ':' then Some(Colon)
    else if c == ';' then Some(Semicolon)
    else if c == ',' then Some(Comma)
    else if c == '.' then Some(Dot)
    else if c == '(' then Some(LParen)
    else if c == ')' then Some(RParen)
    else if c == '{' then Some(LBrace)
    else if c == '}' then Some(RBrace)
    else if c == '[' then Some(LBracket)
    else if c == ']' then Some(RBracket)
    else if c == '#' then Some(PpHash)
    else None
  }

  // ---------------------------------------------------------------------
  // Tokens
  // ---------------------------------------------------------------------

  /** A string literal's body from j (after the opening quote): a backslash
      takes the next character with it, the first other quote closes it,
      and the end of the buffer ends it. */
  function StringEnd(src: string, j: nat): (e: nat)
    requires j <= |src|
    ensures j <= e <= |src|
    ensures e == |src| || (j < e && src[e - 1] == '"')
    decreases |src| - j
  {
    if j == |src| then j
    else if src[j] == '\\' then StringEnd(src, if j + 1 < |src| then j + 2 else j + 1)
    else if src[j] == '"' then j + 1
    else StringEnd(src, j + 1)
  }

  /** With no backslash before it, the first quote closes the literal. */
  lemma {:induction false} StringClosesAtFirstQuote(src: string, j: nat, q: nat)
    requires j <= q < |src| && src[q] == '"'
    requires forall k :: j <= k < q ==> src[k] != '"' && src[k] != '\\'
    ensures StringEnd(src, j) == q + 1
    decreases q - j
  {
    if j < q {
      StringClosesAtFirstQuote(src, j + 1, q);
    }
  }

  /** An escaped quote does not close the literal. */
  lemma EscapedQuoteKept(src: string, j: nat)
    requires PairAt(src, j, '\\', '"')
    ensures StringEnd(src, j) == StringEnd(src, j + 2) && j + 2 <= StringEnd(src, j)
  {
  }

  /** A character literal's body from j: one character, or a backslash and
      the character after it, then an optional closing apostrophe. */
  function CharEnd(src: string, j: nat): (e: nat)
    requires j <= |src|
    ensures j <= e <= |src|
  {
    var k := if j < |src| && src[j] == '\\' then (if j + 1 < |src| then j + 2 else j + 1)
             else if j < |src| then j + 1
             else j;
    if k < |src| && src[k] == '\'' then k + 1 else k
  }

  function IdentAt(src: string, s: nat): (r: (TokenKind, Option<string>, nat))
    requires s < |src| && IsIdentStart(src[s])
    ensures s < r.2 <= |src| && r.1 == Some(src[s..r.2])
  {
    var e := RunEnd(src, s + 1, IdentPart);
    (KeywordKind(src[s..e]), Some(src[s..e]), e)
  }

  function NumberAt(src: string, s: nat): (r: (TokenKind, Option<string>, nat))
    requires s < |src| && IsDigit(src[s])
    ensures s < r.2 <= |src| && r.1 == Some(src[s..r.2])
  {
    var e := RunEnd(src, s + 1, Digits);
    (IntLiteral, Some(src[s..e]), e)
  }

  function StringAt(src: string, s: nat): (r: (TokenKind, Option<string>, nat))
    requires s < |src| && src[s] == '"'
    ensures s < r.2 <= |src| && r.1 == Some(src[s..r.2])
  {
    var e := StringEnd(src, s + 1);
    (StringLiteral, Some(src[s..e]), e)
  }

  function CharAt(src: string, s: nat): (r: (TokenKind, Option<string>, nat))
    requires s < |src| && src[s] == '\''
    ensures s < r.2 <= |src| && r.1 == Some(src[s..r.2])
  {
    var e := CharEnd(src, s + 1);
    (CharLiteral, Some(src[s..e]), e)
  }

  /** An operator or punctuation mark, two characters first, or one
      unknown character. */
  function OperatorAt(src: string, s: nat): (r: (TokenKind, Option<string>, nat))
    requires s < |src|
    ensures s < r.2 <= |src| && r.1 == Some(src[s..r.2])
  {
    var a, b := src[s], if s + 1 < |src| then src[s + 1] else '\0';
    if TwoChar(a, b).Some? then
      assert s + 1 < |src| && src[s..s + 2] == [a, b];
      (TwoChar(a, b).value, Some([a, b]), s + 2)
    else
      assert src[s..s + 1] == [a];
      (if OneChar(a).Some? then OneChar(a).value else Unknown, Some([a]), s + 1)
  }

  /** One token from s, where skipping has stopped: kind, lexeme and where
      the cursor ends up. */
  function TokenAt(src: string, s: nat): (r: (TokenKind, Option<string>, nat))
    requires s <= |src|
    ensures s <= r.2 <= |src|
    ensures r.0 == Eof <==> s == |src|
    ensures r.0 == Eof ==> r.1.None? && r.2 == s
    ensures r.0 != Eof ==> s < r.2 && r.1 == Some(src[s..r.2])
  {
    if s == |src| then (Eof, None, s)
    else if IsIdentStart(src[s]) then IdentAt(src, s)
    else if IsDigit(src[s]) then NumberAt(src, s)
    else if src[s] == '"' then StringAt(src, s)
    else if src[s] == '\'' then CharAt(src, s)
    else OperatorAt(src, s)
  }

  /** `lexer_next` from cursor pos at location `at`: the token (stamped
      with `at`, the location before the skip), the new cursor and the new
      location. Without a buffer it is the end of input and nothing moves. */
  function Scan(src: Option<string>, pos: nat, at: Loc): (r: (Token, nat, Loc))
    requires src.Some? ==> pos <= |src.value|
    ensures r.0.line == at.line && r.0.col == at.col
    ensures r.0.lexeme.None? <==> r.0.kind == Eof
    ensures src.None? ==> r.0.kind == Eof && r.1 == pos && r.2 == at
    ensures src.Some? ==> pos <= r.1 <= |src.value| && (r.0.kind != Eof ==> pos < r.1)
  {
    if src.None? then (Token(Eof, None, at.line, at.col), pos, at)
    else
      var s := SkipBlank(src.value, pos);
      var (k, lex, e) := TokenAt(src.value, s);
      (Token(k, lex, at.line, at.col), e, Walk(at, src.value, pos, e))
  }

  // ---------------------------------------------------------------------
  // Properties of the token stream
  // ---------------------------------------------------------------------

  /** Once the end of input is reached, every later call reports it again,
      stamped with the same location and without moving. */
  lemma EofRepeats(src: Option<string>, pos: nat, at: Loc)
    requires src.Some? ==> pos <= |src.value|
    requires Scan(src, pos, at).0.kind == Eof
    ensures var (_, p, l) := Scan(src, pos, at);
      Scan(src, p, l) == (Token(Eof, None, l.line, l.col), p, l)
  {
  }

  /** The location advances over every character consumed, blanks and
      comments included: one line per newline. */
  lemma ScanCountsLines(src: string, pos: nat, at: Loc)
    requires pos <= |src|
    ensures var (_, p, l) := Scan(Some(src), pos, at);
      l.line == at.line + Newlines(src, pos, p)
  {
    var (_, p, _) := Scan(Some(src), pos, at);
    WalkLine(at, src, pos, p);
  }

  /** An identifier is the longest run of letters, digits and underscores;
      it is a keyword exactly when it is one of the fifteen. */
  lemma IdentifierToken(src: string, s: nat)
    requires s < |src| && IsIdentStart(src[s])
    ensures var (k, lex, e) := TokenAt(src, s);
      (forall i :: s <= i < e ==> IsIdentPart(src[i]))
      && (e < |src| ==> !IsIdentPart(src[e]))
      && (k != Identifier <==> src[s..e] in Keywords)
  {
  }

  /** Whatever the input, a token the lexer calls an integer literal has
      only digits for its text. */
  lemma IntLiteralsAreDigits(src: Option<string>, pos: nat, at: Loc)
    requires src.Some? ==> pos <= |src.value|
    ensures var t := Scan(src, pos, at).0;
      t.kind == IntLiteral ==> t.lexeme.Some? && AllDigits(t.lexeme.value)
  {
    if src.Some? {
      var s := SkipBlank(src.value, pos);
      if s < |src.value| && IsDigit(src.value[s]) {
        NumberToken(src.value, s);
      }
    }
  }

  /** An integer literal's text is a non-empty run of decimal digits,
      followed by something that is not a digit. */
  lemma NumberToken(src: string, s: nat)
    requires s < |src| && IsDigit(src[s])
    ensures var (k, lex, e) := TokenAt(src, s);
      k == IntLiteral && lex.Some? && |lex.value| >= 1 && AllDigits(lex.value)
      && (e < |src| ==> !IsDigit(src[e]))
  {
    var (_, lex, e) := TokenAt(src, s);
    assert forall i :: 0 <= i < |lex.value| ==> lex.value[i] == src[s + i];
  }

  /** A string literal's text keeps its quotes: it opens with one and, unless
      the buffer ran out first, closes with one. */
  lemma StringToken(src: string, s: nat)
    requires s < |src| && src[s] == '"'
    ensures var (k, lex, e) := TokenAt(src, s);
      k == StringLiteral && lex.Some? && lex.value[0] == '"'
      && (e == |src| || (|lex.value| >= 2 && lex.value[|lex.value| - 1] == '"'))
  {
  }

  /** Longest match: a two-character operator is one token, not two. */
  lemma TwoCharOperatorToken(src: string, s: nat)
    requires s + 1 < |src| && (src[s], src[s + 1]) in TwoCharOps
    ensures TokenAt(src, s) == (TwoCharOps[(src[s], src[s + 1])], Some(src[s..s + 2]), s + 2)
  {
    TwoCharComplete(src[s], src[s + 1]);
    assert src[s..s + 2] == [src[s], src[s + 1]];
  }

  /** A character that starts no token is an unknown token of its own. */
  lemma UnknownCharToken(src: string, s: nat)
    requires s < |src|
    requires var c := src[s];
      !IsIdentStart(c) && !IsDigit(c) && c != '"' && c != '\'' && OneChar(c).None?
    ensures TokenAt(src, s) == (Unknown, Some([src[s]]), s + 1)
  {
    assert src[s..s + 1] == [src[s]];
  }

  // ---------------------------------------------------------------------
  // The lexer object
  // ---------------------------------------------------------------------

  class Lexer {
    var buf: Option<string>
    var pos: nat
    var line: int
    var col: int

    ghost predicate Valid()
      reads this`buf, this`pos
    {
      buf.Some? ==> pos <= |buf.value|
    }

    function Here(): Loc
      reads this`line, this`col
    {
      Loc(line, col)
    }

    /** The static initialisers: no buffer, line 1, column 1. */
    constructor ()
      ensures Valid() && buf == None && pos == 0 && Here() == Loc(1, 1)
    {
      buf, pos, line, col := None, 0, 1, 1;
    }

    /** `lexer_init` once the file's bytes are read. */
    method Init(text: string)
      modifies this
      ensures Valid() && buf == Some(text) && pos == 0 && Here() == Loc(1, 1)
    {
      buf, pos, line, col := Some(text), 0, 1, 1;
    }

    /** `lexer_free`: the buffer goes, the location stays. */
    method Free()
      modifies this`buf, this`pos
      ensures Valid() && buf == None && pos == 0
    {
      buf, pos := None, 0;
    }

    /** `peek_char`: EOF (`None`) without a buffer or at its end. */
    function PeekChar(): (c: Option<char>)
      reads this`buf, this`pos
      ensures c.Some? <==> buf.Some? && pos < |buf.value|
      ensures c.Some? ==> c.value == buf.value[pos]
    {
      if buf.None? || pos >= |buf.value| then None else Some(buf.value[pos])
    }

    /** `get_char`: consume one character and move the location over it. */
    method GetChar() returns (c: Option<char>)
      requires Valid()
      modifies this`pos, this`line, this`col
      ensures Valid() && c == old(PeekChar())
      ensures c.None? ==> pos == old(pos) && Here() == old(Here())
      ensures c.Some? ==> pos == old(pos) + 1 && Here() == Step(old(Here()), c.value)
    {
      c := PeekChar();
      if c.None? {
        return;
      }
      pos := pos + 1;
      if c.value == '\n' {
        line := line + 1;
        col := 1;
      } else {
        col := col + 1;
      }
    }

    /** The `while (p(peek_char())) get_char();` loops. */
    method AdvanceRun(r: Run)
      requires Valid() && buf.Some?
      modifies this`pos, this`line, this`col
      ensures Valid() && pos == RunEnd(buf.value, old(pos), r)
      ensures Here() == Walk(old(Here()), buf.value, old(pos), pos)
    {
      ghost var src, p0, at0 := buf.value, pos, Here();
      while PeekChar().Some? && InRun(r, PeekChar().value)
        invariant Valid() && p0 <= pos <= |src|
        invariant RunEnd(src, pos, r) == RunEnd(src, p0, r)
        invariant Here() == Walk(at0, src, p0, pos)
        decreases |src| - pos
      {
        var _ := GetChar();
      }
    }

    /** The inner loop of a block comment, after its opening slash-star. */
    method SkipBlockBody()
      requires Valid() && buf.Some?
      modifies this`pos, this`line, this`col
      ensures Valid() && pos == BlockEnd(buf.value, old(pos))
      ensures Here() == Walk(old(Here()), buf.value, old(pos), pos)
    {
      ghost var src, p0, at0 := buf.value, pos, Here();
      while PeekChar().Some?
        invariant Valid() && p0 <= pos <= |src|
        invariant BlockEnd(src, pos) == BlockEnd(src, p0)
        invariant Here() == Walk(at0, src, p0, pos)
        decreases |src| - pos
      {
        if PeekChar() == Some('*') && pos + 1 < |buf.value| && buf.value[pos + 1] == '/' {
          var _ := GetChar();
          var _ := GetChar();
          assert pos == BlockEnd(src, p0);
          break;
        }
        var _ := GetChar();
      }
    }

    /** A line comment: its two slashes and the rest of the line, up to
        but not including the newline. */
    method SkipLineComment()
      requires Valid() && buf.Some? && PairAt(buf.value, pos, '/', '/')
      modifies this`pos, this`line, this`col
      ensures Valid() && pos == RunEnd(buf.value, old(pos) + 2, NotNewline)
      ensures Here() == Walk(old(Here()), buf.value, old(pos), pos)
    {
      ghost var q, at0 := pos, Here();
      var _ := GetChar();
      assert Here() == Walk(at0, buf.value, q, q + 1);
      var _ := GetChar();
      assert Here() == Walk(at0, buf.value, q, q + 2);
      AdvanceRun(NotNewline);
      WalkSplit(at0, buf.value, q, q + 2, pos);
    }

    /** A block comment: slash-star, then its body. */
    method SkipBlockComment()
      requires Valid() && buf.Some? && PairAt(buf.value, pos, '/', '*')
      modifies this`pos, this`line, this`col
      ensures Valid() && pos == BlockEnd(buf.value, old(pos) + 2)
      ensures Here() == Walk(old(Here()), buf.value, old(pos), pos)
    {
      ghost var q, at0 := pos, Here();
      var _ := GetChar();
      assert Here() == Walk(at0, buf.value, q, q + 1);
      var _ := GetChar();
      assert Here() == Walk(at0, buf.value, q, q + 2);
      SkipBlockBody();
      WalkSplit(at0, buf.value, q, q + 2, pos);
    }

    /** `skip_whitespace_and_comments`. */
    method SkipWhitespaceAndComments()
      requires Valid()
      modifies this`pos, this`line, this`col
      ensures Valid()
      ensures buf.Some? ==> pos == SkipBlank(buf.value, old(pos))
      ensures buf.Some? ==> Here() == Walk(old(Here()), buf.value, old(pos), pos)
      ensures buf.None? ==> pos == old(pos) && Here() == old(Here())
    {
      ghost var src, p0, at0 := if buf.Some? then buf.value else [], pos, Here();
      while true
        invariant Valid() && (buf.Some? ==> buf.value == src)
        invariant buf.Some? ==> p0 <= pos && SkipBlank(src, pos) == SkipBlank(src, p0)
        invariant buf.Some? ==> Here() == Walk(at0, src, p0, pos)
        invariant buf.None? ==> pos == p0 && Here() == at0
        decreases if buf.Some? then |src| - pos else 0
      {
        var c := PeekChar();
        if c.Some? && IsBlank(c.value) {
          var _ := GetChar();
          continue;
        }
        if c == Some('/') && pos + 1 < |buf.value| && buf.value[pos + 1] == '/' {
          ghost var q := pos;
          SkipLineComment();
          WalkSplit(at0, src, p0, q, pos);
          continue;
        }
        if c == Some('/') && pos + 1 < |buf.value| && buf.value[pos + 1] == '*' {
          ghost var q := pos;
          SkipBlockComment();
          WalkSplit(at0, src, p0, q, pos);
          continue;
        }
        break;
      }
    }

    /** The identifier branch of `lexer_next`, from its first character. */
    method ReadIdent() returns (k: TokenKind, lex: Option<string>)
      requires Valid() && buf.Some? && pos < |buf.value| && IsIdentStart(buf.value[pos])
      modifies this`pos, this`line, this`col
      ensures Valid() && (k, lex, pos) == IdentAt(buf.value, old(pos))
      ensures Here() == Walk(old(Here()), buf.value, old(pos), pos)
    {
      ghost var at0 := Here();
      var start := pos;
      var _ := GetChar();
      AdvanceRun(IdentPart);
      WalkSplit(at0, buf.value, start, start + 1, pos);
      var w := buf.value[start..pos];
      k, lex := KeywordKind(w), Some(w);
    }

    /** The integer-literal branch. */
    method ReadNumber() returns (k: TokenKind, lex: Option<string>)
      requires Valid() && buf.Some? && pos < |buf.value| && IsDigit(buf.value[pos])
      modifies this`pos, this`line, this`col
      ensures Valid() && (k, lex, pos) == NumberAt(buf.value, old(pos))
      ensures Here() == Walk(old(Here()), buf.value, old(pos), pos)
    {
      ghost var at0 := Here();
      var start := pos;
      var _ := GetChar();
      AdvanceRun(Digits);
      WalkSplit(at0, buf.value, start, start + 1, pos);
      k, lex := IntLiteral, Some(buf.value[start..pos]);
    }

    /** The loop of the string-literal branch, after the opening quote. */
    method SkipStringBody()
      requires Valid() && buf.Some?
      modifies this`pos, this`line, this`col
      ensures Valid() && pos == StringEnd(buf.value, old(pos))
      ensures Here() == Walk(old(Here()), buf.value, old(pos), pos)
    {
      ghost var src, p0, at0 := buf.value, pos, Here();
      while PeekChar().Some?
        invariant Valid() && p0 <= pos <= |src|
        invariant StringEnd(src, pos) == StringEnd(src, p0)
        invariant Here() == Walk(at0, src, p0, pos)
        decreases |src| - pos
      {
        if PeekChar() == Some('\\') {
          var _ := GetChar();
          if PeekChar().Some? {
            var _ := GetChar();
          }
          continue;
        }
        if PeekChar() == Some('"') {
          var _ := GetChar();
          assert pos == StringEnd(src, p0);
          break;
        }
        var _ := GetChar();
      }
    }

    /** The string-literal branch: the lexeme keeps both quotes. */
    method ReadString() returns (k: TokenKind, lex: Option<string>)
      requires Valid() && buf.Some? && pos < |buf.value| && buf.value[pos] == '"'
      modifies this`pos, this`line, this`col
      ensures Valid() && (k, lex, pos) == StringAt(buf.value, old(pos))
      ensures Here() == Walk(old(Here()), buf.value, old(pos), pos)
    {
      ghost var at0 := Here();
      var start := pos;
      var _ := GetChar();
      SkipStringBody();
      WalkSplit(at0, buf.value, start, start + 1, pos);
      k, lex := StringLiteral, Some(buf.value[start..pos]);
    }

    /** The character-literal branch. */
    method ReadChar() returns (k: TokenKind, lex: Option<string>)
      requires Valid() && buf.Some? && pos < |buf.value| && buf.value[pos] == '\''
      modifies this`pos, this`line, this`col
      ensures Valid() && (k, lex, pos) == CharAt(buf.value, old(pos))
      ensures Here() == Walk(old(Here()), buf.value, old(pos), pos)
    {
      ghost var src, at0 := buf.value, Here();
      var start := pos;
      var _ := GetChar();
      assert Here() == Walk(at0, src, start, pos);
      if PeekChar() == Some('\\') {
        var _ := GetChar();
        assert Here() == Walk(at0, src, start, pos);
        if PeekChar().Some? {
          var _ := GetChar();
        }
      } else if PeekChar().Some? {
        var _ := GetChar();
      }
      assert Here() == Walk(at0, src, start, pos);
      if PeekChar() == Some('\'') {
        var _ := GetChar();
      }
      k, lex := CharLiteral, Some(buf.value[start..pos]);
    }

    /** The operator and punctuation branches, and the unknown character. */
    method ReadOperator() returns (k: TokenKind, lex: Option<string>)
      requires Valid() && buf.Some? && pos < |buf.value|
      modifies this`pos, this`line, this`col
      ensures Valid() && (k, lex, pos) == OperatorAt(buf.value, old(pos))
      ensures Here() == Walk(old(Here()), buf.value, old(pos), pos)
    {
      ghost var src, at0 := buf.value, Here();
      var a := buf.value[pos];
      var b := if pos + 1 < |buf.value| then buf.value[pos + 1] else '\0';
      var two := TwoChar(a, b);
      if two.Some? {
        var _ := GetChar();
        assert Here() == Walk(at0, src, old(pos), pos);
        var _ := GetChar();
        k, lex := two.value, Some([a, b]);
      } else {
        var c := GetChar();
        var one := OneChar(c.value);
        k, lex := if one.Some? then one.value else Unknown, Some([c.value]);
      }
    }

    /** `lexer_next`. */
    method Next() returns (t: Token)
      requires Valid()
      modifies this`pos, this`line, this`col
      ensures Valid()
      ensures (t, pos, Here()) == Scan(buf, old(pos), old(Here()))
    {
      var line0, col0 := line, col;
      if buf.None? {
        t := Token(Eof, None, line0, col0);
        return;
      }
      ghost var src, p0, at0 := buf.value, pos, Here();
      SkipWhitespaceAndComments();
      ghost var s := pos;
      var c := PeekChar();
      if c.None? {
        t := Token(Eof, None, line0, col0);
        return;
      }
      var k, lex;
      if IsIdentStart(c.value) {
        k, lex := ReadIdent();
      } else if IsDigit(c.value) {
        k, lex := ReadNumber();
      } else if c.value == '"' {
        k, lex := ReadString();
      } else if c.value == '\'' {
        k, lex := ReadChar();
      } else {
        k, lex := ReadOperator();
      }
      assert (k, lex, pos) == TokenAt(src, s);
      WalkSplit(at0, src, p0, s, pos);
      t := Token(k, lex, line0, col0);
    }
  }
}
