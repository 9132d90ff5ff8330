/** The Python++ parser (compilers/wpy++/parser.c).

    The C parser keeps the token array and its cursor `pos` in file-level
    statics; here they are the fields of a `Parser` object. Each parsing
    routine is a method, proved to compute a pure function of the token
    sequence and the cursor it starts from; the shape properties of the
    trees are lemmas about those functions. */
module PyppParser {
  import opened CLib
  import opened PyppTokens
  import opened PyppAst

  /** The token at p exists and has the given kind (`peek() && peek()->type == k`). */
  predicate Is(toks: seq<Token>, p: nat, k: TokenType) {
    p < |toks| && toks[p].kind == k
  }

  /** The cursor after `match(k)`: one token further when it has kind k. */
  function Skip(toks: seq<Token>, p: nat, k: TokenType): (q: nat)
    ensures q == p || (q == p + 1 && p < |toks|)
  {
    if Is(toks, p, k) then p + 1 else p
  }

  /** Token kinds that `parse_literal_or_identifier` turns into a node. */
  predicate IsOperand(k: TokenType) {
    k == StringLiteral || k == IntLiteral || k == CharLiteral || k == TokenType.Identifier
  }

  /** The node built for an operand token: its lexeme is kept verbatim, so a
      string literal keeps its quotes. */
  function OperandNode(t: Token): Node
    requires IsOperand(t.kind)
  {
    Node(if t.kind == TokenType.Identifier then NodeType.Identifier else Literal, Some(t.lexeme), [])
  }

  // ---------------------------------------------------------------------
  // Specification of each parsing routine: (result, new cursor)
  // ---------------------------------------------------------------------

  /** `parse_literal_or_identifier`: consumes one token if there is one. */
  function LiteralOrIdentifier(toks: seq<Token>, p: nat): (r: (Option<Node>, nat))
    requires p <= |toks|
    ensures r.1 == if p < |toks| then p + 1 else p
    ensures r.0.Some? <==> p < |toks| && IsOperand(toks[p].kind)
  {
    if p == |toks| then (None, p)
    else if IsOperand(toks[p].kind) then (Some(OperandNode(toks[p])), p + 1)
    else (None, p + 1)
  }

  /** The argument loop of `parse_call`, from cursor i with the arguments
      `acc` collected so far: None when a token other than ',' or ')'
      follows an argument. */
  function ArgsLoop(toks: seq<Token>, i: nat, acc: seq<Node>): (r: Option<(seq<Node>, nat)>)
    requires i <= |toks|
    ensures r.Some? ==> i <= r.value.1 <= |toks|
    decreases |toks| - i
  {
    if i == |toks| || toks[i].kind == RParen then Some((acc, i))
    else
      var acc' := if IsOperand(toks[i].kind) then acc + [OperandNode(toks[i])] else acc;
      if Is(toks, i + 1, Comma) then ArgsLoop(toks, i + 2, acc')
      else if i + 1 < |toks| && toks[i + 1].kind != RParen then None
      else ArgsLoop(toks, i + 1, acc')
  }

  /** `parse_call`: `module.func(args);`. On failure the cursor is where it
      started. The callee text is "module.func", and the node is a print
      exactly for `pyppstdio.print`. */
  function CallStmt(toks: seq<Token>, p: nat): (r: (Option<Node>, nat))
    requires p <= |toks|
    ensures r.0.None? ==> r.1 == p
    ensures r.0.Some? ==> p + 6 <= r.1 <= |toks|
  {
    if !CallHead(toks, p) then (None, p)
    else
      match ArgsLoop(toks, p + 4, [])
      case Some((args, q)) =>
        if Is(toks, q, RParen) && Is(toks, q + 1, Semicolon) then
          (Some(Node(CallKind(toks[p].lexeme, toks[p + 2].lexeme),
                     Some(toks[p].lexeme + "." + toks[p + 2].lexeme), args)), q + 2)
        else (None, p)
      case None => (None, p)
  }

  /** `module . func (` at p. */
  predicate CallHead(toks: seq<Token>, p: nat) {
    && Is(toks, p, TokenType.Identifier) && Is(toks, p + 1, Dot)
    && Is(toks, p + 2, TokenType.Identifier) && Is(toks, p + 3, LParen)
  }

  /** `pyppstdio.print` is a print; every other call is a call. */
  function CallKind(m: string, f: string): NodeType {
    if m == "pyppstdio" && f == "print" then Print else NodeType.Identifier
  }

  /** Token kinds `parse_return` accepts as the exit code. */
  predicate IsExitCode(k: TokenType) {
    k == Success || k == Failure || k == IntLiteral
  }

  /** `parse_return`, called with the cursor on `return`. */
  function ReturnStmt(toks: seq<Token>, p: nat): (r: (Node, nat))
    requires p < |toks|
    ensures p < r.1 <= |toks|
  {
    var i := p + 1;
    var (kids, j) :=
      if i < |toks| && IsExitCode(toks[i].kind) then ([Node(Literal, Some(toks[i].lexeme), [])], i + 1)
      else ([], i);
    (Node(NodeType.Return, None, kids), if Is(toks, j, Semicolon) then j + 1 else j)
  }

  /** `parse_statement`: a return, a call, or else one token skipped. */
  function Statement(toks: seq<Token>, p: nat): (r: (Option<Node>, nat))
    requires p <= |toks|
    ensures p < |toks| ==> p < r.1 <= |toks|
    ensures p == |toks| ==> r == (None, p)
  {
    if p == |toks| then (None, p)
    else if toks[p].kind == TokenType.Return then
      var (n, q) := ReturnStmt(toks, p);
      (Some(n), q)
    else
      var (c, q) := CallStmt(toks, p);
      if c.Some? then (c, q) else (None, p + 1)
  }

  /** The statement loop of `parse_block`: up to '}' or the end of the tokens. */
  function BlockLoop(toks: seq<Token>, i: nat, acc: seq<Node>): (r: (seq<Node>, nat))
    requires i <= |toks|
    ensures i <= r.1 <= |toks| && (r.1 == |toks| || toks[r.1].kind == RBrace)
    decreases |toks| - i
  {
    if i == |toks| || toks[i].kind == RBrace then (acc, i)
    else
      var (s, j) := Statement(toks, i);
      BlockLoop(toks, j, acc + Listed(s))
  }

  /** `parse_block`: the braces are optional. */
  function BlockOf(toks: seq<Token>, p: nat): (r: (Node, nat))
    requires p <= |toks|
    ensures r.0.kind == Block && p <= r.1 <= |toks|
  {
    var (kids, j) := BlockLoop(toks, Skip(toks, p, LBrace), []);
    (Node(Block, None, kids), Skip(toks, j, RBrace))
  }

  /** `parse_function`: `func` or any identifier, then the name (a NULL
      name when the tokens run out), optional parentheses and a block. */
  function FunctionOf(toks: seq<Token>, p: nat): (r: (Option<Node>, nat))
    requires p <= |toks|
    ensures r.0.None? <==> !(Is(toks, p, Func) || Is(toks, p, TokenType.Identifier))
    ensures r.0.None? ==> r.1 == p
    ensures r.0.Some? ==> p < r.1 <= |toks|
  {
    if !(Is(toks, p, Func) || Is(toks, p, TokenType.Identifier)) then (None, p)
    else
      var name := if p + 1 < |toks| then Some(toks[p + 1].lexeme) else None;
      var (body, j) := BlockOf(toks, BodyStart(toks, p));
      (Some(Node(Function, name, [body])), j)
  }

  /** Where the body of a function starting at p begins: after the keyword,
      the name (when there is one) and the optional parentheses. */
  function BodyStart(toks: seq<Token>, p: nat): (i: nat)
    requires p < |toks|
    ensures p < i <= |toks|
  {
    var i := if p + 1 < |toks| then p + 2 else p + 1;
    Skip(toks, Skip(toks, i, LParen), RParen)
  }

  /** `BlockOf` once the statement loop has run. */
  lemma BlockOfParts(toks: seq<Token>, p: nat, kids: seq<Node>, j: nat)
    requires p <= |toks| && BlockLoop(toks, Skip(toks, p, LBrace), []) == (kids, j)
    ensures BlockOf(toks, p) == (Node(Block, None, kids), Skip(toks, j, RBrace))
  {
  }

  /** `FunctionOf` once the block has been parsed. */
  lemma FunctionOfParts(toks: seq<Token>, p: nat, body: Node, j: nat)
    requires p < |toks| && (toks[p].kind == Func || toks[p].kind == TokenType.Identifier)
    requires (body, j) == BlockOf(toks, BodyStart(toks, p))
    ensures FunctionOf(toks, p) == (Some(Node(Function, if p + 1 < |toks| then Some(toks[p + 1].lexeme) else None, [body])), j)
  {
  }

  /** A function starts at a `func` token or at the identifier `void`. */
  predicate StartsFunction(t: Token) {
    t.kind == Func || (t.kind == TokenType.Identifier && t.lexeme == "void")
  }

  /** The top-level loop of `parse`: up to the end-of-file token. */
  function ProgramLoop(toks: seq<Token>, i: nat, acc: seq<Node>): seq<Node>
    requires i <= |toks|
    decreases |toks| - i
  {
    if i == |toks| || toks[i].kind == Eof then acc
    else if StartsFunction(toks[i]) then
      var (f, j) := FunctionOf(toks, i);
      ProgramLoop(toks, j, acc + Listed(f))
    else ProgramLoop(toks, i + 1, acc)
  }

  /** `parse`. */
  function ProgramOf(toks: seq<Token>): Node {
    Node(Program, None, ProgramLoop(toks, 0, []))
  }

  // ---------------------------------------------------------------------
  // A reference description of a call statement
  // ---------------------------------------------------------------------

  /** An argument list between the parentheses: operands (any token but
      ')') at even offsets, commas at odd offsets; a trailing comma is
      allowed. */
  predicate ArgList(r: seq<Token>)
    decreases |r|
  {
    r == [] || (r[0].kind != RParen && (|r| == 1 || (r[1].kind == Comma && ArgList(r[2..]))))
  }

  /** The argument nodes of such a list: the literal and identifier tokens
      at even offsets, in source order. */
  function ArgNodes(r: seq<Token>): seq<Node>
    decreases |r|
  {
    if r == [] then []
    else
      (if IsOperand(r[0].kind) then [OperandNode(r[0])] else [])
      + (if |r| == 1 then [] else ArgNodes(r[2..]))
  }

  /** `module . func ( args ) ;` occupies toks[p..q+2], with ')' at q. */
  predicate CallShape(toks: seq<Token>, p: nat, q: nat) {
    && p + 4 <= q && q + 2 <= |toks|
    && toks[p].kind == TokenType.Identifier && toks[p + 1].kind == Dot
    && toks[p + 2].kind == TokenType.Identifier && toks[p + 3].kind == LParen
    && ArgList(toks[p + 4..q])
    && toks[q].kind == RParen && toks[q + 1].kind == Semicolon
  }

  /** The node a call statement of that shape stands for. */
  function CallNode(toks: seq<Token>, p: nat, q: nat): Node
    requires CallShape(toks, p, q)
  {
    var m, f := toks[p].lexeme, toks[p + 2].lexeme;
    Node(CallKind(m, f), Some(m + "." + f), ArgNodes(toks[p + 4..q]))
  }

  // ---------------------------------------------------------------------
  // Properties
  // ---------------------------------------------------------------------

  /** The argument loop accepts a well-formed list that ends at ')'. */
  lemma {:induction false} ArgsLoopAccepts(toks: seq<Token>, i: nat, q: nat, acc: seq<Node>)
    requires i <= q < |toks| && toks[q].kind == RParen && ArgList(toks[i..q])
    ensures ArgsLoop(toks, i, acc) == Some((acc + ArgNodes(toks[i..q]), q))
    decreases q - i
  {
    var r := toks[i..q];
    if i < q {
      var first := if IsOperand(toks[i].kind) then [OperandNode(toks[i])] else [];
      var acc' := if IsOperand(toks[i].kind) then acc + [OperandNode(toks[i])] else acc;
      assert acc' == acc + first;
      if i + 1 == q {
        assert ArgNodes(r) == first + [] == first;
        assert ArgsLoop(toks, i, acc) == ArgsLoop(toks, q, acc');
      } else {
        assert r[2..] == toks[i + 2..q];
        assert ArgNodes(r) == first + ArgNodes(toks[i + 2..q]);
        ArgsLoopAccepts(toks, i + 2, q, acc');
        ConcatAssoc(acc, first, ArgNodes(toks[i + 2..q]));
      }
    } else {
      assert acc + ArgNodes(r) == acc + [] == acc;
    }
  }

  /** Whatever the argument loop accepts and is followed by ')' is a
      well-formed list. */
  lemma {:induction false} ArgsLoopSound(toks: seq<Token>, i: nat, acc: seq<Node>)
    requires i <= |toks|
    requires ArgsLoop(toks, i, acc).Some?
    requires Is(toks, ArgsLoop(toks, i, acc).value.1, RParen)
    ensures ArgList(toks[i..ArgsLoop(toks, i, acc).value.1])
    decreases |toks| - i
  {
    var q := ArgsLoop(toks, i, acc).value.1;
    if i < |toks| && toks[i].kind != RParen {
      var acc' := if IsOperand(toks[i].kind) then acc + [OperandNode(toks[i])] else acc;
      if Is(toks, i + 1, Comma) {
        assert ArgsLoop(toks, i, acc) == ArgsLoop(toks, i + 2, acc');
        ArgsLoopSound(toks, i + 2, acc');
        assert toks[i..q][2..] == toks[i + 2..q];
      } else {
        assert ArgsLoop(toks, i, acc) == ArgsLoop(toks, i + 1, acc');
        assert q == i + 1;
      }
    }
  }

  /** One turn of the argument loop that does not give up. */
  lemma ArgsLoopStep(toks: seq<Token>, i: nat, acc: seq<Node>, j: nat, acc': seq<Node>)
    requires i < |toks| && toks[i].kind != RParen
    requires acc' == if IsOperand(toks[i].kind) then acc + [OperandNode(toks[i])] else acc
    requires j == (if Is(toks, i + 1, Comma) then i + 2 else i + 1) && j <= |toks|
    requires Is(toks, i + 1, Comma) || i + 1 == |toks| || toks[i + 1].kind == RParen
    ensures ArgsLoop(toks, i, acc) == ArgsLoop(toks, j, acc')
  {
  }

  /** One turn of the statement loop of `parse_block`. */
  lemma BlockLoopStep(toks: seq<Token>, i: nat, acc: seq<Node>, s: Option<Node>, j: nat)
    requires i < |toks| && toks[i].kind != RBrace && (s, j) == Statement(toks, i)
    ensures i < j <= |toks|
    ensures BlockLoop(toks, i, acc) == BlockLoop(toks, j, acc + Listed(s))
  {
  }

  /** One turn of the top-level loop of `parse` at a function start. */
  lemma ProgramLoopStep(toks: seq<Token>, i: nat, acc: seq<Node>, f: Option<Node>, j: nat)
    requires i < |toks| && toks[i].kind != Eof && StartsFunction(toks[i]) && (f, j) == FunctionOf(toks, i)
    ensures i < j <= |toks|
    ensures ProgramLoop(toks, i, acc) == ProgramLoop(toks, j, acc + Listed(f))
  {
  }

  /** Tokens of the call shape are parsed into the node that shape stands for. */
  lemma {:induction false} CallStmtAccepts(toks: seq<Token>, p: nat, q: nat)
    requires CallShape(toks, p, q)
    ensures CallStmt(toks, p) == (Some(CallNode(toks, p, q)), q + 2)
  {
    var args := ArgNodes(toks[p + 4..q]);
    ArgsLoopAccepts(toks, p + 4, q, []);
    assert [] + args == args;
    CallStmtOfParts(toks, p, args, q);
  }

  /** A call statement from its parts: the head, the argument loop's
      result and the closing `) ;`. */
  lemma CallStmtOfParts(toks: seq<Token>, p: nat, args: seq<Node>, q: nat)
    requires p <= |toks| && CallHead(toks, p) && ArgsLoop(toks, p + 4, []) == Some((args, q))
    requires Is(toks, q, RParen) && Is(toks, q + 1, Semicolon)
    ensures CallStmt(toks, p) ==
      (Some(Node(CallKind(toks[p].lexeme, toks[p + 2].lexeme),
                 Some(toks[p].lexeme + "." + toks[p + 2].lexeme), args)), q + 2)
  {
  }

  /** After a call head, a failing argument loop or a missing `) ;`
      rejects the call and leaves the cursor where it was. */
  lemma CallStmtRejects(toks: seq<Token>, p: nat)
    requires p <= |toks| && CallHead(toks, p)
    requires var a := ArgsLoop(toks, p + 4, []);
      a.None? || !(Is(toks, a.value.1, RParen) && Is(toks, a.value.1 + 1, Semicolon))
    ensures CallStmt(toks, p) == (None, p)
  {
  }

  /** A parsed call statement spans tokens of the call shape. */
  lemma CallStmtSound(toks: seq<Token>, p: nat)
    requires p <= |toks| && CallStmt(toks, p).0.Some?
    ensures CallShape(toks, p, CallStmt(toks, p).1 - 2)
  {
    ArgsLoopSound(toks, p + 4, []);
  }

  /** A call statement is parsed exactly when the tokens have the call
      shape, and it then yields the node that shape stands for. */
  lemma CallStmtIff(toks: seq<Token>, p: nat)
    requires p <= |toks|
    ensures CallStmt(toks, p).0.Some? <==> exists q :: CallShape(toks, p, q)
    ensures forall q :: CallShape(toks, p, q) ==> CallStmt(toks, p) == (Some(CallNode(toks, p, q)), q + 2)
  {
    forall q: nat | CallShape(toks, p, q)
      ensures CallStmt(toks, p) == (Some(CallNode(toks, p, q)), q + 2)
    {
      CallStmtAccepts(toks, p, q);
    }
    if CallStmt(toks, p).0.Some? {
      CallStmtSound(toks, p);
    }
  }

  /** A return node has at most one child: the literal exit code, present
      exactly when `success`, `failure` or an integer follows `return`;
      the return and an optional ';' are consumed. */
  lemma ReturnShape(toks: seq<Token>, p: nat)
    requires p < |toks|
    ensures var (n, q) := ReturnStmt(toks, p);
      && n.kind == NodeType.Return && n.value == None && |n.children| <= 1
      && (|n.children| == 1 <==> p + 1 < |toks| && IsExitCode(toks[p + 1].kind))
      && (forall c <- n.children :: c == Node(Literal, Some(toks[p + 1].lexeme), []))
      && q == p + 1 + |n.children| + (if Is(toks, p + 1 + |n.children|, Semicolon) then 1 else 0)
  {
  }

  /** A statement that is neither a return nor a call consumes exactly one
      token and yields nothing. */
  lemma UnrecognisedStatement(toks: seq<Token>, p: nat)
    requires p < |toks| && toks[p].kind != TokenType.Return
    requires forall q :: !CallShape(toks, p, q)
    ensures Statement(toks, p) == (None, p + 1)
  {
    CallStmtIff(toks, p);
  }

  /** A statement node is a return, a print or a call, and a call's text
      is the "module.func" of its tokens. */
  predicate IsStatementNode(n: Node) {
    n.kind == NodeType.Return || ((n.kind == Print || n.kind == NodeType.Identifier) && n.value.Some?)
  }

  lemma StatementNode(toks: seq<Token>, p: nat)
    requires p <= |toks|
    ensures var (s, _) := Statement(toks, p); s.Some? ==> IsStatementNode(s.value)
  {
  }

  /** Every child of a block is a statement node. */
  lemma {:induction false} BlockLoopChildren(toks: seq<Token>, i: nat, acc: seq<Node>)
    requires i <= |toks|
    requires forall n <- acc :: IsStatementNode(n)
    ensures forall n <- BlockLoop(toks, i, acc).0 :: IsStatementNode(n)
    decreases |toks| - i
  {
    if i < |toks| && toks[i].kind != RBrace {
      var (s, j) := Statement(toks, i);
      StatementNode(toks, i);
      BlockLoopChildren(toks, j, acc + Listed(s));
    }
  }

  /** A function node has exactly one child, a block of statement nodes. */
  predicate IsFunctionNode(n: Node) {
    && n.kind == Function && |n.children| == 1
    && n.children[0].kind == Block
    && forall s <- n.children[0].children :: IsStatementNode(s)
  }

  lemma FunctionShape(toks: seq<Token>, p: nat)
    requires p <= |toks|
    ensures var (f, _) := FunctionOf(toks, p); f.Some? ==> IsFunctionNode(f.value)
  {
    if Is(toks, p, Func) || Is(toks, p, TokenType.Identifier) {
      BlockLoopChildren(toks, Skip(toks, BodyStart(toks, p), LBrace), []);
    }
  }

  /** The loop of `parse` only ever adds function nodes. */
  lemma {:induction false} ProgramLoopChildren(toks: seq<Token>, i: nat, acc: seq<Node>)
    requires i <= |toks|
    requires forall n <- acc :: IsFunctionNode(n)
    ensures forall n <- ProgramLoop(toks, i, acc) :: IsFunctionNode(n)
    decreases |toks| - i
  {
    if i < |toks| && toks[i].kind != Eof {
      if StartsFunction(toks[i]) {
        var (f, j) := FunctionOf(toks, i);
        FunctionShape(toks, i);
        ProgramLoopChildren(toks, j, acc + Listed(f));
      } else {
        ProgramLoopChildren(toks, i + 1, acc);
      }
    }
  }

  /** `parse` always returns a program root whose children are all function
      nodes, each with exactly one block child. */
  lemma ProgramShape(toks: seq<Token>)
    ensures ProgramOf(toks).kind == Program && ProgramOf(toks).value == None
    ensures forall f <- ProgramOf(toks).children :: IsFunctionNode(f)
  {
    ProgramLoopChildren(toks, 0, []);
  }

  /** The number of function starts (`func`, or the identifier `void`)
      the top-level loop meets from i: after each start it goes on where
      the function it parses ends, past any other token by one. */
  function FunctionStarts(toks: seq<Token>, i: nat): nat
    requires i <= |toks|
    decreases |toks| - i
  {
    if i == |toks| || toks[i].kind == Eof then 0
    else if StartsFunction(toks[i]) then 1 + FunctionStarts(toks, FunctionOf(toks, i).1)
    else FunctionStarts(toks, i + 1)
  }

  /** The top-level loop never drops a function: it adds exactly one for
      every function start it meets, so at least one when it starts at one. */
  lemma {:induction false} ProgramLoopCount(toks: seq<Token>, i: nat, acc: seq<Node>)
    requires i <= |toks|
    ensures |ProgramLoop(toks, i, acc)| == |acc| + FunctionStarts(toks, i)
    ensures i < |toks| && StartsFunction(toks[i]) ==> |ProgramLoop(toks, i, acc)| > |acc|
    decreases |toks| - i
  {
    if i < |toks| && toks[i].kind != Eof {
      if StartsFunction(toks[i]) {
        var (f, j) := FunctionOf(toks, i);
        ProgramLoopCount(toks, j, acc + Listed(f));
      } else {
        ProgramLoopCount(toks, i + 1, acc);
      }
    }
  }

  // ---------------------------------------------------------------------
  // The imperative parser
  // ---------------------------------------------------------------------

  class Parser {
    var tokens: seq<Token>
    var pos: nat

    ghost predicate Valid()
      reads this
    {
      pos <= |tokens|
    }

    constructor ()
      ensures Valid() && tokens == [] && pos == 0
    {
      tokens, pos := [], 0;
    }

    /** `peek() && peek()->type == k`. */
    function PeekIs(k: TokenType): bool
      reads this
    {
      Is(tokens, pos, k)
    }

    /** `advance`: moves on unless the tokens are used up. */
    method Advance() returns (t: Option<Token>)
      requires Valid()
      modifies this
      ensures Valid() && tokens == old(tokens)
      ensures old(pos) < |tokens| ==> t == Some(tokens[old(pos)]) && pos == old(pos) + 1
      ensures old(pos) == |tokens| ==> t == None && pos == old(pos)
    {
      if pos < |tokens| {
        t := Some(tokens[pos]);
        pos := pos + 1;
      } else {
        t := None;
      }
    }

    /** `match`. */
    method Match(k: TokenType) returns (matched: bool)
      requires Valid()
      modifies this
      ensures Valid() && tokens == old(tokens)
      ensures matched == Is(tokens, old(pos), k)
      ensures pos == if matched then old(pos) + 1 else old(pos)
    {
      if PeekIs(k) {
        var _ := Advance();
        return true;
      }
      return false;
    }

    method ParseLiteralOrIdentifier() returns (n: Option<Node>)
      requires Valid()
      modifies this
      ensures Valid() && tokens == old(tokens)
      ensures (n, pos) == LiteralOrIdentifier(tokens, old(pos))
    {
      var t := Advance();
      if t.None? {
        return None;
      }
      var tok := t.value;
      if tok.kind == StringLiteral || tok.kind == IntLiteral || tok.kind == CharLiteral {
        return Some(Node(Literal, Some(tok.lexeme), []));
      }
      if tok.kind == TokenType.Identifier {
        return Some(Node(NodeType.Identifier, Some(tok.lexeme), []));
      }
      return None;
    }

    method ParseCall() returns (n: Option<Node>)
      requires Valid()
      modifies this
      ensures Valid() && tokens == old(tokens)
      ensures (n, pos) == CallStmt(tokens, old(pos))
    {
      var save := pos;
      var ok := MatchCallHead();
      if !ok {
        pos := save;
        return None;
      }
      n := ParseCallTail(save);
    }

    /** `parse_call` after `module . func (`: the arguments and the closing
        `) ;`, with the cursor put back at `save` on failure. */
    method ParseCallTail(save: nat) returns (n: Option<Node>)
      requires Valid() && save <= |tokens| && CallHead(tokens, save) && pos == save + 4
      modifies this
      ensures Valid() && tokens == old(tokens)
      ensures (n, pos) == CallStmt(tokens, save)
    {
      ghost var toks := tokens;
      var modName, funcName := tokens[save].lexeme, tokens[save + 2].lexeme;
      var kind := CallKind(modName, funcName);
      var callee := modName + "." + funcName;
      var ok, args := ParseArguments();
      ghost var q := pos;
      if ok {
        ok := MatchCallEnd();
      }
      if !ok {
        CallStmtRejects(toks, save);
        pos := save;
        return None;
      }
      CallStmtOfParts(toks, save, args, q);
      n := Some(Node(kind, Some(callee), args));
    }

    /** The first three `match` tests of `parse_call`: `module . func (`.
        On failure the cursor may have moved; the caller restores it. */
    method MatchCallHead() returns (ok: bool)
      requires Valid()
      modifies this
      ensures Valid() && tokens == old(tokens)
      ensures ok == CallHead(tokens, old(pos))
      ensures ok ==> pos == old(pos) + 4
    {
      ok := Match(TokenType.Identifier);
      if ok {
        ok := Match(Dot);
      }
      if ok {
        ok := Match(TokenType.Identifier);
      }
      if ok {
        ok := Match(LParen);
      }
    }

    /** The closing `match(TOKEN_RPAREN) && match(TOKEN_SEMICOLON)`. */
    method MatchCallEnd() returns (ok: bool)
      requires Valid()
      modifies this
      ensures Valid() && tokens == old(tokens)
      ensures ok == (Is(tokens, old(pos), RParen) && Is(tokens, old(pos) + 1, Semicolon))
      ensures ok ==> pos == old(pos) + 2
    {
      ok := Match(RParen);
      if ok {
        ok := Match(Semicolon);
      }
    }

    /** The argument loop of `parse_call`; `ok` is false where the C code
        gives up (the caller then restores the cursor). */
    method ParseArguments() returns (ok: bool, args: seq<Node>)
      requires Valid()
      modifies this
      ensures Valid() && tokens == old(tokens)
      ensures ok ==> ArgsLoop(tokens, old(pos), []) == Some((args, pos))
      ensures !ok ==> ArgsLoop(tokens, old(pos), []) == None
    {
      ghost var p0 := pos;
      args := [];
      while pos < |tokens| && tokens[pos].kind != RParen
        invariant Valid() && tokens == old(tokens) && p0 <= pos
        invariant ArgsLoop(tokens, pos, args) == ArgsLoop(tokens, p0, [])
        decreases |tokens| - pos
      {
        ghost var i, acc := pos, args;
        var arg := ParseLiteralOrIdentifier();
        if arg.Some? {
          args := args + [arg.value];
        }
        if PeekIs(Comma) {
          var _ := Advance();
        } else if pos < |tokens| && tokens[pos].kind != RParen {
          return false, args;
        }
        ArgsLoopStep(tokens, i, acc, pos, args);
      }
      return true, args;
    }

    method ParseReturn() returns (n: Node)
      requires Valid() && pos < |tokens|
      modifies this
      ensures Valid() && tokens == old(tokens)
      ensures (n, pos) == ReturnStmt(tokens, old(pos))
    {
      n := Node(NodeType.Return, None, []);
      var _ := Advance();
      if pos < |tokens| && IsExitCode(tokens[pos].kind) {
        var code := Node(Literal, Some(tokens[pos].lexeme), []);
        n := AddChild(n, Some(code));
        assert n.children == [] + [code] == [code];
        var _ := Advance();
      }
      var _ := Match(Semicolon);
    }

    method ParseStatement() returns (n: Option<Node>)
      requires Valid()
      modifies this
      ensures Valid() && tokens == old(tokens)
      ensures (n, pos) == Statement(tokens, old(pos))
    {
      if pos == |tokens| {
        return None;
      }
      if PeekIs(TokenType.Return) {
        var r := ParseReturn();
        return Some(r);
      }
      var save := pos;
      n := ParseCall();
      if n.Some? {
        return;
      }
      pos := save;
      var _ := Advance();
    }

    method ParseBlock() returns (block: Node)
      requires Valid()
      modifies this
      ensures Valid() && tokens == old(tokens)
      ensures (block, pos) == BlockOf(tokens, old(pos))
    {
      ghost var p0 := pos;
      block := Node(Block, None, []);
      var _ := Match(LBrace);
      ghost var start := pos;
      while pos < |tokens| && tokens[pos].kind != RBrace
        invariant Valid() && tokens == old(tokens) && block.kind == Block && block.value == None
        invariant BlockLoop(tokens, pos, block.children) == BlockLoop(tokens, start, [])
        decreases |tokens| - pos
      {
        ghost var i := pos;
        var stmt := ParseStatement();
        BlockLoopStep(tokens, i, block.children, stmt, pos);
        block := AddChild(block, stmt);
      }
      assert BlockLoop(tokens, start, []) == (block.children, pos);
      BlockOfParts(tokens, p0, block.children, pos);
      var _ := Match(RBrace);
    }

    /** The rest of a function's header after its keyword: the name, when
        there is a token for it, and the optional `(` and `)`. */
    method SkipHeader(ghost p0: nat) returns (name: Option<string>)
      requires Valid() && p0 < |tokens| && pos == p0 + 1
      modifies this
      ensures Valid() && tokens == old(tokens)
      ensures pos == BodyStart(tokens, p0)
      ensures name == if p0 + 1 < |tokens| then Some(tokens[p0 + 1].lexeme) else None
    {
      var t := Advance();
      name := if t.Some? then Some(t.value.lexeme) else None;
      var _ := Match(LParen);
      var _ := Match(RParen);
    }

    method ParseFunction() returns (f: Option<Node>)
      requires Valid()
      modifies this
      ensures Valid() && tokens == old(tokens)
      ensures (f, pos) == FunctionOf(tokens, old(pos))
    {
      ghost var toks, p0 := tokens, pos;
      var ok := Match(Func);
      if !ok {
        ok := Match(TokenType.Identifier);
      }
      if !ok {
        return None;
      }
      var name := SkipHeader(p0);
      var node := Node(Function, name, []);
      var body := ParseBlock();
      node := AddChild(node, Some(body));
      assert node.children == [] + [body] == [body];
      FunctionOfParts(toks, p0, body, pos);
      return Some(node);
    }

    /** `parse`: takes the token array and starts from its first token. */
    method Parse(toks: seq<Token>) returns (program: Node)
      modifies this
      ensures Valid() && tokens == toks
      ensures program == ProgramOf(toks)
    {
      tokens, pos := toks, 0;
      program := Node(Program, None, []);
      while pos < |tokens| && tokens[pos].kind != Eof
        invariant Valid() && tokens == toks && program.kind == Program && program.value == None
        invariant ProgramLoop(tokens, pos, program.children) == ProgramLoop(tokens, 0, [])
        decreases |tokens| - pos
      {
        if StartsFunction(tokens[pos]) {
          ghost var i := pos;
          var f := ParseFunction();
          ProgramLoopStep(tokens, i, program.children, f, pos);
          program := AddChild(program, f);
        } else {
          var _ := Advance();
        }
      }
    }
  }
}
