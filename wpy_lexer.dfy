/** The Python+ tokenizer (interpilers/wpy+/lexer.c).

    The C file keeps a process-wide cursor (`source`, `position`, `line`);
    here it is the state of a `Lexer` object. The source is a C string: the
    scanner stops at its first NUL, which `At` returns past the end too.
    `NextTok` is the pure specification of one `next_token` call: skip what
    produces no token (`Skip`), then read one token (`TokenAt`).
    `Lexer.NextToken` is proved to compute it. */
module WpyLexer {
  import opened CLib
  import opened WpyTokens

  // ---------------------------------------------------------------------
  // Keywords and symbols
  // ---------------------------------------------------------------------

  /** The keyword table, as a reference for `is_keyword`'s if-chain. */
  const Keywords: map<string, TokenType> :=
    map["func" := Func, "return" := Return, "let" := Let, "if" := If, "else" := Else,
        "for" := For, "while" := While, "use" := Use, "const" := Const, "end" := End]

  /** `is_keyword`. */
  function KeywordOf(w: string): (k: Option<TokenType>)
    ensures k == (if w in Keywords then Some(Keywords[w]) else None)
  {
    if w == "func" then Some(Func)
    else if w == "return" then Some(Return)
    else if w == "let" then Some(Let)
    else if w == "if" then Some(If)
    else if w == "else" then Some(Else)
    else if w == "for" then Some(For)
    else if w == "while" then Some(While)
    else if w == "use" then Some(Use)
    else if w == "const" then Some(Const)
    else if w == "end" then Some(End)
    else None
  }

  /** The `switch` on a character c followed by d: kind, lexeme and the
      number of characters consumed. Anything it does not know, and a `!`
      without `=`, is an identifier spelt "?". */
  function Symbol(c: char, d: char): (r: (TokenType, string, nat))
    ensures r.2 == 1 || (r.2 == 2 && d == '=')
  {
    if c == '(' then (LParen, "(", 1)
    else if c == ')' then (RParen, ")", 1)
    else if c == '{' then (LBrace, "{", 1)
    else if c == '}' then (RBrace, "}", 1)
    else if c == ';' then (Semicolon, ";", 1)
    else if c == '+' then (Plus, "+", 1)
    else if c == '-' then (Minus, "-", 1)
    else if c == '*' then (Star, "*", 1)
    else if c == '<' then (Lt, "<", 1)
    else if c == '>' then (Gt, ">", 1)
    else if c == '=' then (if d == '=' then (EqEq, "==", 2) else (Equal, "=", 1))
    else if c == '!' && d == '=' then (BangEq, "!=", 2)
    else if c == '.' then (Dot, ".", 1)
    else if c == ',' then (Comma, ",", 1)
    else (Identifier, "?", 1)
  }

  // ---------------------------------------------------------------------
  // Specification of one next_token call
  // ---------------------------------------------------------------------

  /** Where the body of a block comment ends: at the first `*` followed
      by `/` from i, or at the end of input. */
  function CommentEnd(src: string, i: nat): (z: nat)
    requires i <= |src|
    ensures i <= z <= |src|
    ensures At(src, z) == '\0' || (At(src, z) == '*' && At(src, z + 1) == '/')
    decreases |src| - i
  {
    if At(src, i) == '\0' || (At(src, i) == '*' && At(src, i + 1) == '/') then i
    else CommentEnd(src, i + 1)
  }

  /** A `#` at s that starts `#include<`: the word after it is `include`
      and the very next character is `<`. */
  predicate IsIncludeAt(src: string, s: nat) {
    s < |src| && src[s] == '#' &&
    var w := Span(src, s + 1, Alpha);
    src[s + 1..w] == "include" && At(src, w) == '<'
  }

  /** What starts at s (white space already skipped) when it produces no
      token: the position after it and the newlines in it. A directive
      other than `#include<` runs to the end of its line, a `//` comment
      stops before its newline, and an unterminated block comment runs to
      the end of input. */
  function Skipped(src: string, s: nat): (r: Option<(nat, nat)>)
    requires s <= |src|
    ensures r.Some? ==> s < r.value.0 <= |src|
  {
    var c := At(src, s);
    if c == '#' && !IsIncludeAt(src, s) then
      Some((Span(src, Span(src, s + 1, Alpha), Not('\n')), 0))
    else if c == '/' && At(src, s + 1) == '/' then
      Some((Span(src, s + 1, Not('\n')), 0))
    else if c == '/' && At(src, s + 1) == '*' then
      var z := CommentEnd(src, s + 2);
      Some((if At(src, z) == '\0' then z else z + 2, Newlines(src, s + 2, z)))
    else
      None
  }

  /** Everything `next_token` consumes from pos before its token (white
      space and skipped items, each followed by white space), with the
      line count reached. */
  function Skip(src: string, pos: nat, line: int): (r: (nat, int))
    requires pos <= |src|
    ensures pos <= r.0 <= |src| && !IsSpace(At(src, r.0)) && Skipped(src, r.0).None?
    decreases |src| - pos
  {
    var s := Span(src, pos, Space);
    var ln := line + Newlines(src, pos, s);
    match Skipped(src, s)
    case None => (s, ln)
    case Some((z, dl)) => Skip(src, z, ln + dl)
  }

  /** A word: the maximal run of letters, digits and '_' from s. */
  function WordAt(src: string, s: nat, ln: int): (r: (Token, nat, int))
    requires s < |src|
  {
    var e := Span(src, s + 1, WordPart);
    var w := src[s..e];
    (Token(if KeywordOf(w).Some? then KeywordOf(w).value else Identifier, w, ln), e, ln)
  }

  /** A number: the maximal run of digits from s. */
  function NumberAt(src: string, s: nat, ln: int): (r: (Token, nat, int))
    requires s < |src|
  {
    var e := Span(src, s + 1, Digit);
    (Token(Number, src[s..e], ln), e, ln)
  }

  /** A string opened at s: the text up to the closing quote or the end,
      the newlines in it counted before the token is made. */
  function StringAt(src: string, s: nat, ln: int): (r: (Token, nat, int))
    requires s < |src|
  {
    var e := Span(src, s + 1, Not('"'));
    var ln' := ln + Newlines(src, s + 1, e);
    (Token(String, src[s + 1..e], ln'), if At(src, e) == '"' then e + 1 else e, ln')
  }

  /** `#include<name>` from s: the name runs to `>` or the end; its
      newlines are not counted. */
  function IncludeAt(src: string, s: nat, ln: int): (r: (Token, nat, int))
    requires IsIncludeAt(src, s)
  {
    var w := Span(src, s + 1, Alpha);
    var f := Span(src, w + 1, Not('>'));
    (Token(Include, src[w + 1..f], ln), if At(src, f) == '>' then f + 1 else f, ln)
  }

  /** An operator, delimiter or unknown character at s. */
  function SymbolAt(src: string, s: nat, ln: int): (r: (Token, nat, int))
    requires s < |src|
  {
    var (k, lex, n) := Symbol(src[s], At(src, s + 1));
    (Token(k, lex, ln), s + n, ln)
  }

  /** The token read at s, where `next_token` stops skipping: the token,
      the new cursor and the new line count. */
  function TokenAt(src: string, s: nat, ln: int): (r: (Token, nat, int))
    requires s <= |src| && (At(src, s) == '#' ==> IsIncludeAt(src, s))
  {
    var c := At(src, s);
    if c == '\0' then (Token(Eof, "EOF", ln), s, ln)
    else if IsAlpha(c) || c == '_' then WordAt(src, s, ln)
    else if IsDigit(c) then NumberAt(src, s, ln)
    else if c == '"' then StringAt(src, s, ln)
    else if c == '#' then IncludeAt(src, s, ln)
    else if c == '/' then (Token(Slash, "/", ln), s + 1, ln)
    else SymbolAt(src, s, ln)
  }

  /** One `next_token` call from cursor pos with the line count at line. */
  function NextTok(src: string, pos: nat, line: int): (r: (Token, nat, int))
    requires pos <= |src|
  {
    var (s, ln) := Skip(src, pos, line);
    TokenAt(src, s, ln)
  }

  // ---------------------------------------------------------------------
  // Properties of the specification
  // ---------------------------------------------------------------------

  /** Each token function consumes at least one character and stays in
      the input, and the line after the token is the token's line. */
  lemma TokenAtBounds(src: string, s: nat, ln: int)
    requires s <= |src| && (At(src, s) == '#' ==> IsIncludeAt(src, s))
    ensures var r := TokenAt(src, s, ln);
      s <= r.1 <= |src| && r.2 == r.0.line
      && (r.0.kind == Eof <==> At(src, s) == '\0')
      && (r.0.kind != Eof ==> s < r.1)
  {
    var c := At(src, s);
    if c == '#' {
      var w := Span(src, s + 1, Alpha);
      assert w < |src|;
    } else if c != '\0' && !IsAlpha(c) && c != '_' && !IsDigit(c) && c != '"' && c != '/' {
      var (k, lex, n) := Symbol(src[s], At(src, s + 1));
      assert n == 2 ==> s + 1 < |src|;
    }
  }

  /** `next_token` never moves backwards and stays within the input; only
      the end-of-input token leaves the cursor where the skipping stopped. */
  lemma NextTokBounds(src: string, pos: nat, line: int)
    requires pos <= |src|
    ensures var r := NextTok(src, pos, line);
      pos <= r.1 <= |src| && r.2 == r.0.line && (r.0.kind != Eof ==> pos < r.1)
  {
    var (s, ln) := Skip(src, pos, line);
    TokenAtBounds(src, s, ln);
  }

  /** One step of `Skip`: from a position past the white space, either a
      token starts there or the call goes on after the skipped item. */
  lemma NextTokStep(src: string, s: nat, line: int)
    requires s <= |src| && !IsSpace(At(src, s))
    ensures Skipped(src, s).None? ==> NextTok(src, s, line) == TokenAt(src, s, line)
    ensures Skipped(src, s).Some? ==>
      var (z, dl) := Skipped(src, s).value;
      NextTok(src, s, line) == NextTok(src, z, line + dl)
  {
    SpanExact(src, s, s, Space);
  }

  /** One round of `next_token`'s skipping from pos: the white space,
      then a token or a skipped item. */
  lemma NextTokUnfold(src: string, pos: nat, line: int, s: nat, ln: int)
    requires pos <= |src| && s == Span(src, pos, Space) && ln == line + Newlines(src, pos, s)
    ensures Skipped(src, s).None? ==> NextTok(src, pos, line) == TokenAt(src, s, ln)
    ensures Skipped(src, s).Some? ==>
      NextTok(src, pos, line) == NextTok(src, Skipped(src, s).value.0, ln + Skipped(src, s).value.1)
  {
  }

  /** At the end of input (or at an embedded NUL) the token is EOF spelt
      "EOF", the cursor stays put, and every later call yields it again. */
  lemma EofRepeats(src: string, pos: nat, line: int)
    requires pos <= |src| && NextTok(src, pos, line).0.kind == Eof
    ensures var (t, p, l) := NextTok(src, pos, line);
      t.lexeme == "EOF" && At(src, p) == '\0' && NextTok(src, p, l) == (t, p, l)
  {
    var (s, ln) := Skip(src, pos, line);
    TokenAtBounds(src, s, ln);
    NextTokStep(src, s, ln);
  }

  /** A word is the maximal run of letters, digits and '_' from a letter
      or '_'; it is a keyword token exactly when it is one of the ten
      keywords, and an identifier otherwise. */
  lemma WordToken(src: string, s: nat, ln: int)
    requires s < |src| && (IsAlpha(src[s]) || src[s] == '_')
    ensures var (t, e, _) := TokenAt(src, s, ln);
      && t.lexeme == src[s..e] && s < e
      && (forall k :: s < k < e ==> In(WordPart, At(src, k))) && !In(WordPart, At(src, e))
      && (t.lexeme in Keywords ==> t.kind == Keywords[t.lexeme])
      && (t.lexeme !in Keywords ==> t.kind == Identifier)
  {
  }

  /** A number is the maximal run of decimal digits. */
  lemma NumberToken(src: string, s: nat, ln: int)
    requires s < |src| && IsDigit(src[s])
    ensures var (t, e, _) := TokenAt(src, s, ln);
      t.kind == Number && t.lexeme == src[s..e] && s < e
      && (forall k :: s < k < e ==> IsDigit(At(src, k))) && !IsDigit(At(src, e))
  {
  }

  /** A string token's lexeme is the text between the quotes, without
      them: it contains no quote and no NUL. The closing quote is consumed
      when present; without it the string takes the rest of the input. */
  lemma StringToken(src: string, s: nat, ln: int)
    requires s < |src| && src[s] == '"'
    ensures var (t, e, _) := TokenAt(src, s, ln);
      var n := |t.lexeme|;
      && t.kind == String && s + 1 + n <= |src| && t.lexeme == src[s + 1..s + 1 + n]
      && (forall k :: s + 1 <= k < s + 1 + n ==> At(src, k) != '"' && At(src, k) != '\0')
      && (At(src, s + 1 + n) == '"' ==> e == s + 2 + n)
      && (At(src, s + 1 + n) != '"' ==> e == s + 1 + n && At(src, e) == '\0')
      && t.line == ln + Newlines(src, s + 1, s + 1 + n)
  {
    assert TokenAt(src, s, ln) == StringAt(src, s, ln);
  }

  /** `#include<name>` folds into one INCLUDE token whose lexeme is the
      name; newlines inside the name are not counted. */
  lemma IncludeFolds(src: string, s: nat, name: string, ln: int)
    requires s + 10 + |name| <= |src|
    requires src[s..s + 9] == "#include<" && src[s + 9..s + 9 + |name|] == name && src[s + 9 + |name|] == '>'
    requires '>' !in name && '\0' !in name
    ensures IsIncludeAt(src, s)
    ensures NextTok(src, s, ln) == (Token(Include, name, ln), s + 10 + |name|, ln)
  {
    IncludePrefix(src, s);
    var f := s + 9 + |name|;
    forall k | s + 9 <= k < f
      ensures In(Not('>'), At(src, k))
    {
      assert src[k] == src[s + 9..f][k - (s + 9)];
    }
    SpanExact(src, s + 9, f, Not('>'));
    assert IncludeAt(src, s, ln) == (Token(Include, name, ln), f + 1, ln);
    assert Skipped(src, s) == None;
    NextTokStep(src, s, ln);
  }

  /** `#include<` is exactly what makes a `#` start an include. */
  lemma IncludePrefix(src: string, s: nat)
    requires s + 9 <= |src| && src[s..s + 9] == "#include<"
    ensures IsIncludeAt(src, s) && Span(src, s + 1, Alpha) == s + 8
  {
    assert forall k :: s <= k < s + 9 ==> src[k] == src[s..s + 9][k - s];
    SpanExact(src, s + 1, s + 8, Alpha);
    assert src[s + 1..s + 8] == src[s..s + 9][1..8];
  }

  /** Any other `#` directive produces no token: the rest of its line is
      skipped and the token comes from what follows. */
  lemma OtherDirectiveSkipped(src: string, s: nat, line: int)
    requires s < |src| && src[s] == '#' && !IsIncludeAt(src, s)
    ensures NextTok(src, s, line) == NextTok(src, Span(src, Span(src, s + 1, Alpha), Not('\n')), line)
  {
    NextTokStep(src, s, line);
  }

  /** A space between `#include` and `<` makes the directive an unknown
      one, so `#include <name>` is skipped like a comment. */
  lemma SpacedIncludeIsSkipped(src: string, s: nat)
    requires s + 9 <= |src| && src[s..s + 9] == "#include "
    ensures src[s] == '#' && !IsIncludeAt(src, s)
  {
    assert forall k :: s <= k < s + 9 ==> src[k] == src[s..s + 9][k - s];
    SpanExact(src, s + 1, s + 8, Alpha);
  }

  /** A `//` comment produces no token: the call goes on from its
      newline. */
  lemma LineCommentSkipped(src: string, s: nat, line: int)
    requires s + 1 < |src| && src[s] == '/' && src[s + 1] == '/'
    ensures NextTok(src, s, line) == NextTok(src, Span(src, s + 1, Not('\n')), line)
  {
    assert Skipped(src, s) == Some((Span(src, s + 1, Not('\n')), 0));
    NextTokStep(src, s, line);
  }

  /** A block comment produces no token: the call goes on after its
      closing star and slash (or at the end), its newlines counted. */
  lemma BlockCommentSkipped(src: string, s: nat, line: int)
    requires s + 1 < |src| && src[s] == '/' && src[s + 1] == '*'
    ensures var z := CommentEnd(src, s + 2);
      NextTok(src, s, line) == NextTok(src, if At(src, z) == '\0' then z else z + 2, line + Newlines(src, s + 2, z))
  {
    var z := CommentEnd(src, s + 2);
    assert Skipped(src, s) == Some((if At(src, z) == '\0' then z else z + 2, Newlines(src, s + 2, z)));
    NextTokStep(src, s, line);
  }

  /** A `/` that starts no comment is SLASH. */
  lemma LoneSlash(src: string, s: nat, line: int)
    requires s < |src| && src[s] == '/' && At(src, s + 1) != '/' && At(src, s + 1) != '*'
    ensures NextTok(src, s, line) == (Token(Slash, "/", line), s + 1, line)
  {
    assert Skipped(src, s) == None;
    NextTokStep(src, s, line);
  }

  /** `==` and `!=` are single tokens; a `!` on its own, like any
      character the lexer does not know, is an identifier spelt "?". */
  lemma EqualityOperators(src: string, s: nat, line: int)
    requires s < |src| && !IsSpace(src[s])
    requires !IsAlnum(src[s]) && src[s] !in {'_', '"', '#', '/', '\0'}
    ensures src[s] == '=' && At(src, s + 1) == '=' ==> TokenAt(src, s, line) == (Token(EqEq, "==", line), s + 2, line)
    ensures src[s] == '!' && At(src, s + 1) == '=' ==> TokenAt(src, s, line) == (Token(BangEq, "!=", line), s + 2, line)
    ensures src[s] == '!' && At(src, s + 1) != '=' ==> TokenAt(src, s, line) == (Token(Identifier, "?", line), s + 1, line)
    ensures src[s] !in {'(', ')', '{', '}', ';', '+', '-', '*', '<', '>', '=', '!', '.', ','} ==>
      TokenAt(src, s, line) == (Token(Identifier, "?", line), s + 1, line)
  {
  }

  /** The characters of a span never include a newline when the class
      excludes it. */
  lemma SpanNoNewlines(src: string, i: nat, cl: CharClass)
    requires i <= |src| && !In(cl, '\n')
    ensures Newlines(src, i, Span(src, i, cl)) == 0
  {
    var e := Span(src, i, cl);
    forall k | i <= k < e ensures src[k] != '\n' {
      assert In(cl, At(src, k));
    }
    NewlinesNone(src, i, e);
  }

  /** A skipped item's newlines are all the newlines in it. */
  lemma SkippedLines(src: string, s: nat)
    requires s <= |src| && Skipped(src, s).Some?
    ensures var (z, dl) := Skipped(src, s).value; dl == Newlines(src, s, z)
  {
    var c := At(src, s);
    if c == '#' && !IsIncludeAt(src, s) {
      var w := Span(src, s + 1, Alpha);
      var z := Span(src, w, Not('\n'));
      SpanNoNewlines(src, s + 1, Alpha);
      SpanNoNewlines(src, w, Not('\n'));
      NewlinesSplit(src, s, s + 1, w);
      NewlinesSplit(src, s, w, z);
    } else if c == '/' && At(src, s + 1) == '/' {
      var z := Span(src, s + 1, Not('\n'));
      SpanNoNewlines(src, s + 1, Not('\n'));
      NewlinesSplit(src, s, s + 1, z);
    } else {
      assert c == '/' && At(src, s + 1) == '*';
      var z := CommentEnd(src, s + 2);
      var z' := if At(src, z) == '\0' then z else z + 2;
      assert Skipped(src, s).value == (z', Newlines(src, s + 2, z));
      NewlinesSplit(src, s, s + 2, z);
      NewlinesSplit(src, s, z, z');
      NewlinesNone(src, s, s + 2);
      NewlinesNone(src, z, z');
    }
  }

  /** The line count after the skipped text is the starting one plus the
      newlines skipped. */
  lemma {:induction false} SkipLines(src: string, pos: nat, line: int)
    requires pos <= |src|
    ensures Skip(src, pos, line).1 == line + Newlines(src, pos, Skip(src, pos, line).0)
    decreases |src| - pos
  {
    var s := Span(src, pos, Space);
    var ln := line + Newlines(src, pos, s);
    match Skipped(src, s)
    case None =>
      assert Skip(src, pos, line) == (s, ln);
    case Some((z, dl)) =>
      assert Skip(src, pos, line) == Skip(src, z, ln + dl);
      SkippedLines(src, s);
      SkipLines(src, z, ln + dl);
      NewlinesSplit(src, pos, s, z);
      NewlinesSplit(src, pos, z, Skip(src, z, ln + dl).0);
  }

  /** A token's line counts every newline it consumes. */
  predicate CountsLines(src: string, s: nat, ln: int, r: (Token, nat, int))
  {
    s <= r.1 <= |src| && r.0.line == ln + Newlines(src, s, r.1)
  }

  lemma WordLines(src: string, s: nat, ln: int)
    requires s < |src| && (IsAlpha(src[s]) || src[s] == '_')
    ensures CountsLines(src, s, ln, WordAt(src, s, ln))
  {
    SpanNoNewlines(src, s + 1, WordPart);
    NewlinesSplit(src, s, s + 1, Span(src, s + 1, WordPart));
  }

  lemma NumberLines(src: string, s: nat, ln: int)
    requires s < |src| && IsDigit(src[s])
    ensures CountsLines(src, s, ln, NumberAt(src, s, ln))
  {
    SpanNoNewlines(src, s + 1, Digit);
    NewlinesSplit(src, s, s + 1, Span(src, s + 1, Digit));
  }

  lemma StringLines(src: string, s: nat, ln: int)
    requires s < |src| && src[s] == '"'
    ensures CountsLines(src, s, ln, StringAt(src, s, ln))
  {
    var e := Span(src, s + 1, Not('"'));
    var p := StringAt(src, s, ln).1;
    NewlinesSplit(src, s, s + 1, e);
    NewlinesSplit(src, s, e, p);
    NewlinesNone(src, s, s + 1);
    NewlinesNone(src, e, p);
  }

  lemma SymbolLines(src: string, s: nat, ln: int)
    requires s < |src| && src[s] != '\n'
    ensures CountsLines(src, s, ln, SymbolAt(src, s, ln))
  {
    var n := Symbol(src[s], At(src, s + 1)).2;
    assert n == 2 ==> s + 1 < |src| && src[s + 1] == '=';
    NewlinesNone(src, s, s + n);
  }

  /** Within one token, every newline is counted except those of an
      `#include<...>` name. */
  lemma TokenLines(src: string, s: nat, ln: int)
    requires s <= |src| && (At(src, s) == '#' ==> IsIncludeAt(src, s)) && !IsSpace(At(src, s))
    ensures var r := TokenAt(src, s, ln);
      s <= r.1 <= |src| && ln <= r.0.line <= ln + Newlines(src, s, r.1)
      && (r.0.kind != Include ==> r.0.line == ln + Newlines(src, s, r.1))
  {
    TokenAtBounds(src, s, ln);
    var c := At(src, s);
    if c == '\0' {
    } else if IsAlpha(c) || c == '_' {
      WordLines(src, s, ln);
    } else if IsDigit(c) {
      NumberLines(src, s, ln);
    } else if c == '"' {
      StringLines(src, s, ln);
    } else if c == '#' {
    } else if c == '/' {
      NewlinesNone(src, s, s + 1);
    } else {
      SymbolLines(src, s, ln);
    }
  }

  /** The line a token carries is the starting line plus every newline
      consumed up to the new cursor, in white space, comments and strings;
      only newlines inside an `#include<...>` name go uncounted. */
  lemma LineCounting(src: string, pos: nat, line: int)
    requires pos <= |src|
    ensures var (t, p, l) := NextTok(src, pos, line);
      p <= |src| && l == t.line && line <= t.line <= line + Newlines(src, pos, p)
      && (t.kind != Include ==> t.line == line + Newlines(src, pos, p))
  {
    var (s, ln) := Skip(src, pos, line);
    SkipLines(src, pos, line);
    TokenAtBounds(src, s, ln);
    TokenLines(src, s, ln);
    NewlinesSplit(src, pos, s, TokenAt(src, s, ln).1);
  }

  // ---------------------------------------------------------------------
  // The lexer state
  // ---------------------------------------------------------------------

  class Lexer {
    var source: Option<string>
    var position: nat
    var line: int

    ghost predicate Valid()
      reads this
    {
      source.Some? ==> position <= |source.value|
    }

    /** The static initialisers: no source yet. */
    constructor ()
      ensures Valid() && source == None && position == 0 && line == 1
    {
      source, position, line := None, 0, 1;
    }

    /** `set_source`. */
    method SetSource(src: Option<string>)
      modifies this
      ensures Valid() && source == src && position == 0 && line == 1
    {
      source, position, line := src, 0, 1;
    }

    /** `is_at_end`: no source, or a NUL at the cursor. */
    predicate IsAtEnd()
      reads this
    {
      source.None? || At(source.value, position) == '\0'
    }

    function Peek(): char
      reads this
    {
      if IsAtEnd() then '\0' else source.value[position]
    }

    function PeekNext(): char
      reads this
    {
      if IsAtEnd() || At(source.value, position + 1) == '\0' then '\0' else source.value[position + 1]
    }

    method Advance() returns (c: char)
      requires Valid()
      modifies this`position
      ensures Valid() && c == old(Peek())
      ensures position == if old(IsAtEnd()) then old(position) else old(position) + 1
    {
      if IsAtEnd() {
        return '\0';
      }
      c := source.value[position];
      position := position + 1;
    }

    /** The `while (in(cl, peek())) advance();` loops that count no lines. */
    method AdvanceWhile(cl: CharClass)
      requires Valid() && source.Some?
      modifies this`position
      ensures Valid() && position == Span(source.value, old(position), cl)
    {
      ghost var p0 := position;
      while In(cl, Peek())
        invariant Valid() && p0 <= position
        invariant Span(source.value, position, cl) == Span(source.value, p0, cl)
        decreases |source.value| - position
      {
        var _ := Advance();
      }
    }

    /** The white-space and string loops, which count the newlines they
        consume. */
    method AdvanceCounting(cl: CharClass)
      requires Valid() && source.Some?
      modifies this`position, this`line
      ensures Valid() && position == Span(source.value, old(position), cl)
      ensures line == old(line) + Newlines(source.value, old(position), position)
    {
      ghost var p0 := position;
      while In(cl, Peek())
        invariant Valid() && p0 <= position
        invariant Span(source.value, position, cl) == Span(source.value, p0, cl)
        invariant line == old(line) + Newlines(source.value, p0, position)
        decreases |source.value| - position
      {
        if Peek() == '\n' {
          line := line + 1;
        }
        var _ := Advance();
      }
    }

    /** The body loop of a block comment: up to the closing star and slash, or the end. */
    method SkipCommentBody()
      requires Valid() && source.Some?
      modifies this`position, this`line
      ensures Valid() && position == CommentEnd(source.value, old(position))
      ensures line == old(line) + Newlines(source.value, old(position), position)
    {
      ghost var p0 := position;
      while !(Peek() == '*' && PeekNext() == '/') && !IsAtEnd()
        invariant Valid() && p0 <= position
        invariant CommentEnd(source.value, position) == CommentEnd(source.value, p0)
        invariant line == old(line) + Newlines(source.value, p0, position)
        decreases |source.value| - position
      {
        if Peek() == '\n' {
          line := line + 1;
        }
        var _ := Advance();
      }
    }

    /** The word branch of `next_token`, from its first character. */
    method ReadWord() returns (t: Token)
      requires Valid() && source.Some? && position < |source.value|
      requires IsAlpha(source.value[position]) || source.value[position] == '_'
      modifies this`position
      ensures Valid() && line == old(line)
      ensures (t, position, line) == WordAt(source.value, old(position), old(line))
    {
      var start := position;
      var _ := Advance();
      AdvanceWhile(WordPart);
      var lexeme := source.value[start..position];
      var kw := KeywordOf(lexeme);
      t := Token(if kw.Some? then kw.value else Identifier, lexeme, line);
    }

    /** The number branch of `next_token`. */
    method ReadNumber() returns (t: Token)
      requires Valid() && source.Some? && position < |source.value| && IsDigit(source.value[position])
      modifies this`position
      ensures Valid() && line == old(line)
      ensures (t, position, line) == NumberAt(source.value, old(position), old(line))
    {
      var start := position;
      var _ := Advance();
      AdvanceWhile(Digit);
      t := Token(Number, source.value[start..position], line);
    }

    /** The string branch of `next_token`, from the opening quote. */
    method ReadString() returns (t: Token)
      requires Valid() && source.Some? && position < |source.value| && source.value[position] == '"'
      modifies this`position, this`line
      ensures Valid()
      ensures (t, position, line) == StringAt(source.value, old(position), old(line))
    {
      var _ := Advance();
      var s := position;
      AdvanceCounting(Not('"'));
      var lexeme := source.value[s..position];
      if Peek() == '"' {
        var _ := Advance();
      }
      t := Token(String, lexeme, line);
    }

    /** The `#` branch of `next_token`: an include token, or (for any
        other directive) the cursor moved to the end of the line. */
    method ReadDirective() returns (t: Option<Token>)
      requires Valid() && source.Some? && position < |source.value| && source.value[position] == '#'
      modifies this`position
      ensures Valid() && line == old(line)
      ensures IsIncludeAt(source.value, old(position)) ==>
        t.Some? && (t.value, position, line) == IncludeAt(source.value, old(position), old(line))
      ensures !IsIncludeAt(source.value, old(position)) ==>
        t.None? && Skipped(source.value, old(position)) == Some((position, 0))
    {
      var _ := Advance();
      var s := position;
      AdvanceWhile(Alpha);
      var word := source.value[s..position];
      if word == "include" && Peek() == '<' {
        var _ := Advance();
        var f := position;
        AdvanceWhile(Not('>'));
        var fname := source.value[f..position];
        if Peek() == '>' {
          var _ := Advance();
        }
        return Some(Token(Include, fname, line));
      }
      AdvanceWhile(Not('\n'));
      return None;
    }

    /** The `/` branch of `next_token`: a slash token, or a comment
        skipped with its newlines counted. */
    method ReadSlash() returns (t: Option<Token>)
      requires Valid() && source.Some? && position < |source.value| && source.value[position] == '/'
      modifies this`position, this`line
      ensures Valid()
      ensures Skipped(source.value, old(position)).None? ==>
        t == Some(Token(Slash, "/", old(line))) && position == old(position) + 1 && line == old(line)
      ensures Skipped(source.value, old(position)).Some? ==>
        t.None? && Skipped(source.value, old(position)) == Some((position, line - old(line)))
    {
      var _ := Advance();
      if Peek() == '/' {
        AdvanceWhile(Not('\n'));
        return None;
      } else if Peek() == '*' {
        var _ := Advance();
        SkipCommentBody();
        if !IsAtEnd() {
          var _ := Advance();
          var _ := Advance();
        }
        return None;
      }
      return Some(Token(Slash, "/", line));
    }

    /** An operator, delimiter or unknown character. */
    method ReadSymbol() returns (t: Token)
      requires Valid() && source.Some? && position < |source.value| && source.value[position] != '\0'
      modifies this`position
      ensures Valid() && line == old(line)
      ensures (t, position, line) == SymbolAt(source.value, old(position), old(line))
    {
      var c := Advance();
      assert Peek() == At(source.value, old(position) + 1);
      var (k, lex, n) := Symbol(c, Peek());
      if n == 2 {
        var _ := Advance();
      }
      t := Token(k, lex, line);
    }

    /** What `next_token` does once the white space is behind it: read a
        token, or step over a comment or a directive other than an include. */
    method ReadItem() returns (t: Option<Token>)
      requires Valid() && source.Some? && !IsAtEnd() && !IsSpace(Peek())
      modifies this`position, this`line
      ensures Valid()
      ensures Skipped(source.value, old(position)).None? ==>
        t.Some? && (t.value, position, line) == TokenAt(source.value, old(position), old(line))
      ensures Skipped(source.value, old(position)).Some? ==>
        t.None? && Skipped(source.value, old(position)) == Some((position, line - old(line)))
    {
      ghost var src, s, ln := source.value, position, line;
      var c := Peek();
      assert c == src[s];
      if IsAlpha(c) || c == '_' {
        var w := ReadWord();
        t := Some(w);
      } else if IsDigit(c) {
        var n := ReadNumber();
        t := Some(n);
      } else if c == '"' {
        var q := ReadString();
        t := Some(q);
      } else if c == '#' {
        t := ReadDirective();
      } else if c == '/' {
        t := ReadSlash();
      } else {
        var y := ReadSymbol();
        t := Some(y);
      }
    }

    /** `next_token`. */
    method NextToken() returns (t: Token)
      requires Valid()
      modifies this`position, this`line
      ensures Valid()
      ensures source.None? ==> t == Token(Eof, "EOF", old(line)) && position == old(position) && line == old(line)
      ensures source.Some? ==> (t, position, line) == NextTok(source.value, old(position), old(line))
      decreases if source.Some? then |source.value| - position else 0
    {
      if source.None? {
        t := Token(Eof, "EOF", line);
        return;
      }
      ghost var src, p0, l0 := source.value, position, line;
      AdvanceCounting(Space);
      ghost var s, ln := position, line;
      NextTokUnfold(src, p0, l0, s, ln);
      if IsAtEnd() {
        t := Token(Eof, "EOF", line);
        assert Skipped(src, s).None? && TokenAt(src, s, ln) == (t, s, ln);
        return;
      }
      var r := ReadItem();
      if r.Some? {
        t := r.value;
      } else {
        ghost var z, dl := position, line - ln;
        assert Skipped(src, s) == Some((z, dl)) && p0 <= s < z;
        assert NextTok(src, p0, l0) == NextTok(src, z, line);
        t := NextToken();
      }
    }
  }
}
