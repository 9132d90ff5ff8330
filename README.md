# WICC front ends in Dafny

This project models the front ends of the three language tools in the WICC
repository. Each model is proved against a pure specification of what the C
code computes.

- **Python++ compiler (`compilers/wpy++`).** Covers the tokenizer, the
  recursive-descent parser, and three NASM generators:
  - the x86-64 generator (`pyppintoasm.c`);
  - the 32-bit generator (`pyppintoasm32.c`);
  - the graphics generator (`gra.pyppintoasm.c`).
- **WNU-C compiler (`compilers/wnu-c`).** Covers the C-subset lexer, the
  linked-list syntax tree (`ast.c`), and the one-token-look-ahead parser.
- **Python+ interpreter (`interpilers/wpy+`).** Covers the tokenizer, the
  parser with its `#include <pypstdio>` flag, and the tree-walking
  interpreter with its 256-entry variable table.

## How the C code is represented

**Process-wide state becomes objects.** Each C file's static variables
become the fields of a Dafny class:
- the lexers' cursors, lines and columns;
- the parsers' positions and pending tokens;
- `str_counter` and `has_pypstdio`;
- the interpreter's `variables` array and `var_count`.

The C functions that update those variables become methods with `modifies`
clauses.

**Each method is proved against a pure function.** Every method's
postcondition ties its result and the new state to a pure function of the old
state, for example `Lexer.NextToken` to `Next`, `Parser.ParseTranslationUnit`
to `TranslationUnitS`, and `Codegen.GenNode` to `Gen`. Lemmas then state the
promised properties about those functions:
- round trips;
- stack balance of the generated assembly;
- the shape of the parse trees;
- that end-of-input repeats;
- keyword tables;
- longest-match operators.

**How values are represented:**
- Text is `seq<char>`.
- C strings end at their first NUL. The helper `At` reads `'\0'` at or past
  the end of a buffer, as the C code does at its terminator.
- Generated assembly is a sequence of lines, one per `fprintf` that ends in
  a newline.
- Standard output and standard error are text fields that methods append to.
- File reading is replaced by a source text given as a parameter.

The WNU-C parser's specification reads from `Tokens`: the token list the
lexer will hand out from its current position, up to the first end of input.
`Parser.State` is that list plus the pending token. Because the lexer is
deterministic, pulling tokens on demand, as `parser.c` does, yields the same
tokens. The lemma `LexStep` proves this one call of `lexer_next` at a time.

The WNU-C parser builds its trees as values (`Tree`). The pointer structure
of `ast.c` is modelled on its own by the class `Ast`. Its ghost field `kids`
lists the children, and `AppendChild` is proved to walk the sibling chain and
append at its end.

## Model

| member | source | states |
|---|---|---|
| PyppLexer.KeywordType | compilers/wpy++/lexer.c:67-78 | a word is a keyword exactly when it is one of the nine in the keyword table (func, return, success, failure, if, else, while, for, #include), and then has that keyword's type; any other word is an identifier |
| PyppLexer.Operator | compilers/wpy++/lexer.c:127-154 | a symbol token is one character long, or two when its second character is `=` |
| PyppLexer.QuotedEnd | compilers/wpy++/lexer.c:110-124 | a quoted literal consumes at least its opening quote and never runs past the input |
| PyppLexer.Scan | compilers/wpy++/lexer.c:85-154 | the end-of-file kind is produced exactly at the NUL terminator and consumes nothing; every other token consumes at least one character and stays within the input |
| PyppLexer.Next | compilers/wpy++/lexer.c:81-155 | one `next_token` call never moves the cursor backwards or past the input, and moves it forwards for every token but end of file |
| PyppLexer.Tokens | compilers/wpy++/main.c:122-130 | the token list collected up to end of file is non-empty and ends with the end-of-file token |
| PyppLexer.EofIsStable | compilers/wpy++/lexer.c:83-88 | at end of input the token has an empty lexeme and the cursor stays put, so every later call yields the same token |
| PyppLexer.TokenIsSourceSlice | compilers/wpy++/lexer.c:48-155 | a token other than end of file has a non-empty lexeme that is exactly the source text just before the new cursor, preceded only by skipped white space |
| PyppLexer.WordIsMaximal | compilers/wpy++/lexer.c:91-101 | a word starts with a letter, `_` or `#`, continues with letters, digits and `_` (never `.`), is not followed by another word character, and is classified by the keyword table |
| PyppLexer.IntLiteralIsMaximal | compilers/wpy++/lexer.c:104-108 | an integer literal is the maximal run of decimal digits |
| PyppLexer.QuotedLiteralShape | compilers/wpy++/lexer.c:111-122 | a string literal (`"`) or a character literal (`'`) has its own kind and keeps its opening quote and its closing quote; an unterminated one runs to the end of input and holds no quote after the first |
| PyppLexer.TwoCharOperatorsFirst | compilers/wpy++/lexer.c:139-154 | `==`, `!=`, `<=` and `>=` win over their one-character prefixes; a `!` without `=` is an unknown token of length one |
| PyppLexer.TokensStep | compilers/wpy++/main.c:122-130 | the collected list is the current token followed, unless it is end of file, by the list from the new cursor |
| PyppLexer.TokensEofOnlyAtEnd | compilers/wpy++/main.c:122-130 | only the last token of a collected list is end of file |
| PyppLexer.EmptySourceTokens | compilers/wpy++/lexer.c:22-88 | tokenizing the empty source yields exactly one end-of-file token, at line 1, column 1 |
| PyppLexer.Lexer.Init | compilers/wpy++/lexer.c:22-27 | `init_lexer` sets the cursor to 0 and the location to line 1, column 1 |
| PyppLexer.Lexer.Advance | compilers/wpy++/lexer.c:33-38 | `advance` returns the current character, moves the cursor by one, and starts a new line at a newline or else moves one column right |
| PyppLexer.Lexer.Match | compilers/wpy++/lexer.c:40-46 | `match` consumes the next character exactly when it is the expected one, and otherwise changes nothing |
| PyppLexer.Lexer.AdvanceWhile | compilers/wpy++/lexer.c:83-121 | a skip loop stops at the first character outside its class, and the location follows every character it passes |
| PyppLexer.Lexer.NextToken | compilers/wpy++/lexer.c:81-155 | `next_token` returns the token `Next` specifies, and leaves the cursor and location where `Next` says |
| PyppLexer.Lexer.ScanToken | compilers/wpy++/lexer.c:85-154 | once white space is skipped, the kind and the end of the token are those of `Scan` |
| PyppLexer.Lexer.ScanQuoted | compilers/wpy++/lexer.c:112-122 | a quoted literal's loop stops after the closing quote, or at the end of input when there is none |
| PyppLexer.Lexer.Tokenize | compilers/wpy++/main.c:122-130 | the collecting loop returns exactly `Tokens` from the current cursor |
| PyppAst.AddChild | compilers/wpy++/parser.c:35-39 | `add_child` appends the child after the existing children and leaves the kind and the text alone; a NULL child adds nothing |
| PyppParser.Skip | compilers/wpy++/parser.c:21-24 | `match` moves the cursor by one token or not at all, and never past the token array |
| PyppParser.LiteralOrIdentifier | compilers/wpy++/parser.c:43-53 | the routine consumes exactly one token when there is one, and yields a node exactly when that token is a string, integer or character literal or an identifier |
| PyppParser.ArgsLoop | compilers/wpy++/parser.c:79-88 | the argument loop, when it does not give up, stops within the tokens and never moves backwards |
| PyppParser.CallStmt | compilers/wpy++/parser.c:55-97 | a failed call leaves the cursor where it was; a parsed call consumes at least the six tokens of `m.f();` |
| PyppParser.ReturnStmt | compilers/wpy++/parser.c:99-113 | a return statement consumes at least the `return` token and stays within the tokens |
| PyppParser.Statement | compilers/wpy++/parser.c:115-126 | a statement always consumes at least one token when one is left, and yields nothing at the end of the tokens |
| PyppParser.BlockLoop | compilers/wpy++/parser.c:131-134 | the statement loop stops at a `}` or at the end of the tokens |
| PyppParser.BlockOf | compilers/wpy++/parser.c:128-137 | `parse_block` always yields a block node and never moves the cursor backwards |
| PyppParser.FunctionOf | compilers/wpy++/parser.c:139-151 | `parse_function` yields a function exactly when the next token is `func` or an identifier; otherwise it consumes nothing |
| PyppParser.BodyStart | compilers/wpy++/parser.c:141-145 | the body of a function starts after at least its first token and within the tokens |
| PyppParser.BlockOfParts | compilers/wpy++/parser.c:128-137 | a block holds exactly the statements its loop collected, after an optional `{`, and ends after an optional `}` |
| PyppParser.FunctionOfParts | compilers/wpy++/parser.c:139-151 | a function node carries the lexeme of the token after the keyword, or NULL when there is none, and has the parsed block as its one child |
| PyppParser.ArgsLoopAccepts | compilers/wpy++/parser.c:79-88 | an argument list of operands separated by commas and ending at `)` is accepted, and its literal and identifier tokens become the arguments, in order |
| PyppParser.ArgsLoopSound | compilers/wpy++/parser.c:79-88 | whatever the argument loop accepts up to a `)` is such a comma-separated list |
| PyppParser.ArgsLoopStep | compilers/wpy++/parser.c:79-88 | one turn of the loop adds the operand, if any, and skips one comma |
| PyppParser.BlockLoopStep | compilers/wpy++/parser.c:131-134 | one turn of the block loop consumes at least one token and adds the statement, if any |
| PyppParser.ProgramLoopStep | compilers/wpy++/parser.c:158-165 | one turn of the top-level loop at `func` or `void` consumes at least one token and adds the function, if any |
| PyppParser.CallStmtOfParts | compilers/wpy++/parser.c:55-97 | a call head, an argument loop that stops at `)` and a following `;` make a call statement that ends after the `;`, with the loop's arguments as children |
| PyppParser.CallStmtAccepts | compilers/wpy++/parser.c:55-97 | tokens of the form `module.func(args);` parse as one node named `module.func`, with the operand arguments as children; the node is a print exactly for `pyppstdio.print` |
| PyppParser.CallStmtRejects | compilers/wpy++/parser.c:55-97 | after a call head, a failing argument list or a missing `) ;` rejects the call and leaves the cursor where the call began |
| PyppParser.CallStmtSound | compilers/wpy++/parser.c:55-97 | a parsed call statement always spans tokens of the form `module.func(args);` |
| PyppParser.CallStmtIff | compilers/wpy++/parser.c:55-97 | a call statement is parsed exactly when the tokens have that form, and then it yields the node the form stands for |
| PyppParser.ReturnShape | compilers/wpy++/parser.c:99-113 | a return node has no text and at most one child; the child is a literal holding the exit code's lexeme, present exactly when `success`, `failure` or an integer follows; an optional `;` is consumed |
| PyppParser.UnrecognisedStatement | compilers/wpy++/parser.c:115-126 | a statement that is neither a return nor a call skips exactly one token and yields nothing |
| PyppParser.StatementNode | compilers/wpy++/parser.c:115-126 | a statement node is a return, or a print or call that carries its callee name |
| PyppParser.BlockLoopChildren | compilers/wpy++/parser.c:128-137 | every child of a block is a statement node |
| PyppParser.FunctionShape | compilers/wpy++/parser.c:139-151 | a function node has exactly one child, a block whose children are statement nodes |
| PyppParser.ProgramLoopChildren | compilers/wpy++/parser.c:158-165 | the top-level loop adds only function nodes |
| PyppParser.ProgramShape | compilers/wpy++/parser.c:153-167 | `parse` always returns a program node with no text whose children are all function nodes |
| PyppParser.ProgramLoopCount | compilers/wpy++/parser.c:158-165 | the top-level loop adds exactly one function for every `func` or `void` token it meets (counted by `FunctionStarts`, which follows the loop past each parsed function), so it never drops one |
| PyppParser.Parser.Advance | compilers/wpy++/parser.c:20 | `advance` returns the current token and moves on, or returns NULL and stays put when the tokens are used up |
| PyppParser.Parser.Match | compilers/wpy++/parser.c:21-24 | `match` consumes the next token exactly when it has the expected kind |
| PyppParser.Parser.ParseLiteralOrIdentifier | compilers/wpy++/parser.c:43-53 | the method returns the node and cursor `LiteralOrIdentifier` specifies |
| PyppParser.Parser.ParseCall | compilers/wpy++/parser.c:55-97 | the method returns the node and cursor `CallStmt` specifies, restoring the cursor on every failure |
| PyppParser.Parser.ParseCallTail | compilers/wpy++/parser.c:66-96 | after a call head, the method returns the node and cursor `CallStmt` specifies for the whole call, putting the cursor back where the call began on every failure |
| PyppParser.Parser.MatchCallHead | compilers/wpy++/parser.c:58-64 | the first four `match` calls succeed exactly on `identifier . identifier (`, and then consume those four tokens |
| PyppParser.Parser.MatchCallEnd | compilers/wpy++/parser.c:90 | the closing matches succeed exactly on `) ;`, and then consume both |
| PyppParser.Parser.ParseArguments | compilers/wpy++/parser.c:79-88 | the argument loop computes `ArgsLoop`, and reports a failure exactly where `ArgsLoop` gives up |
| PyppParser.Parser.ParseReturn | compilers/wpy++/parser.c:99-113 | the method returns the node and cursor `ReturnStmt` specifies |
| PyppParser.Parser.ParseStatement | compilers/wpy++/parser.c:115-126 | the method returns the node and cursor `Statement` specifies |
| PyppParser.Parser.ParseBlock | compilers/wpy++/parser.c:128-137 | the method returns the block and cursor `BlockOf` specifies |
| PyppParser.Parser.ParseFunction | compilers/wpy++/parser.c:139-151 | the method returns the function and cursor `FunctionOf` specifies |
| PyppParser.Parser.SkipHeader | compilers/wpy++/parser.c:142-145 | after the keyword, the name is the next token's lexeme (NULL when the tokens are used up), and the cursor stops where `BodyStart` says the body begins |
| PyppParser.Parser.Parse | compilers/wpy++/parser.c:153-167 | `parse` returns `ProgramOf` of the token array |
| PyppDbString.EmitDbString | compilers/wpy++/pyppintoasm.c:19-57 | the single-pass encoder with its `open` and `first_item` flags writes exactly `DbLine`: the label, ` db `, the rendered operand items, and `, 0` |
| PyppDbString.EmitByte | compilers/wpy++/pyppintoasm.c:26-53 | one pass of the loop keeps the written text equal to the rendering of the items so far, with the last quoted run still open when `open` is set |
| PyppDbString.ItemsStep | compilers/wpy++/pyppintoasm.c:25-54 | one more byte of the C string extends the item list by exactly that byte |
| PyppDbString.JoinClose | compilers/wpy++/pyppintoasm.c:55 | closing the open quoted run yields the full rendering of the items |
| PyppDbString.ItemsFlatten | compilers/wpy++/pyppintoasm.c:25-54 | the encoder loses no byte and reorders none: the items spell out the bytes of the string, in order |
| PyppDbString.ItemsWellFormed | compilers/wpy++/pyppintoasm.c:26-53 | quoted items hold only printable bytes (32 and up, except 127), numeric items only the others, and no two quoted items are adjacent |
| PyppDbString.DecodeJoin | compilers/wpy++/pyppintoasm.c:31-56 | reading back any non-empty rendered item list with the terminating 0 yields the items' bytes and then 0 |
| PyppDbString.DbStringRoundTrip | compilers/wpy++/pyppintoasm.c:19-57 | for a non-empty C string, the `db` operands, read back under the encoder's own convention that a doubled `"` inside a quoted run stands for one quote, are exactly its bytes up to the first NUL, then 0 |
| PyppDbString.QuoteWrittenTwice | compilers/wpy++/pyppintoasm.c:36-43 | a `"` between two printable bytes is written twice inside one quoted run: `a"b` becomes the operand `"a""b"` |
| PyppDbString.DbStringEmpty | compilers/wpy++/pyppintoasm.c:20-56 | for an empty C string the line is `<label> db , 0`, whose empty first operand does not read back |
| PyppAsm64.DataLines | compilers/wpy++/pyppintoasm.c:102-105 | one `db` line per labelled literal |
| PyppAsm64.DataLinesSnoc | compilers/wpy++/pyppintoasm.c:102-105 | the next literal gets the next label, `str` followed by the number of literals before it |
| PyppAsm64.DataSectionLabels | compilers/wpy++/pyppintoasm.c:86-112 | the data section is `section .data`, the `fmt_str` line, then `str0`, `str1`, ... with no gap, label k holding the k-th literal printed by any function, then a blank line |
| PyppAsm64.LabelsDistinct | compilers/wpy++/pyppintoasm.c:103 | distinct counters give distinct labels |
| PyppAsm64.Gen | compilers/wpy++/pyppintoasm.c:122-166 | lowering a node never moves the string index backwards |
| PyppAsm64.GenChildren | compilers/wpy++/pyppintoasm.c:129-138 | lowering the children one after another never moves the string index backwards |
| PyppAsm64.GenRefs | compilers/wpy++/pyppintoasm.c:122-166 | the lowering passes printf `str{idx}`, `str{idx+1}`, ... in order, one per Print reached in a function named main, and advances the index by that many |
| PyppAsm64.GenChildrenRefs | compilers/wpy++/pyppintoasm.c:129-138 | the same for a node's children, one after another |
| PyppAsm64.GenStackBalanced | compilers/wpy++/pyppintoasm.c:141-160 | every `sub rsp, 32` the lowering emits is matched by an `add rsp, 32` |
| PyppAsm64.GenChildrenStackBalanced | compilers/wpy++/pyppintoasm.c:129-138 | the same for a node's children |
| PyppAsm64.PrintLinesMeaning | compilers/wpy++/pyppintoasm.c:141-149 | a Print passes exactly its own label in RDX and frees the shadow space it allocates |
| PyppAsm64.ReturnLinesMeaning | compilers/wpy++/pyppintoasm.c:151-161 | a Return passes no label and frees the shadow space it allocates |
| PyppAsm64.OnlyMainEmits | compilers/wpy++/pyppintoasm.c:125-165 | a function not named main, and any node other than a function, block, Print or Return, emits nothing and uses no label |
| PyppAsm64.ReturnLowering | compilers/wpy++/pyppintoasm.c:151-161 | a Return calls exit with its first child's text, or 0 when it has none, inside its own shadow space |
| PyppAsm64.PreambleInert | compilers/wpy++/pyppintoasm.c:86-119 | the data section and the text header pass no label and leave the stack alone |
| PyppAsm64.AsmFileMeaning | compilers/wpy++/pyppintoasm.c:60-83 | out.asm passes printf `str0`, `str1`, ... in order, one per Print lowered in main, and leaves the stack as it found it |
| PyppAsm64.BodyAligned | compilers/wpy++/pyppintoasm.c:93-110 | when every Print has a literal with a text, the Prints of main's body and its labelled literals match one for one, and other bodies have none |
| PyppAsm64.FunctionLabels | compilers/wpy++/pyppintoasm.c:93-110 | the same for one function |
| PyppAsm64.ProgramLabels | compilers/wpy++/pyppintoasm.c:93-110 | the same for the first k top-level nodes |
| PyppAsm64.LabelsMatchReferences | compilers/wpy++/pyppintoasm.c:60-166 | when only main prints, and only literals, the k-th printf call is passed `str{k}`: every reference has its label and every label is used |
| PyppAsm64.PrintElsewhereShiftsLabels | compilers/wpy++/pyppintoasm.c:93-110 | a literal printed in another function takes `str0`, so main's own print is passed that other text and `str1` is never used |
| PyppAsm64.PrintOfNameHasNoLabel | compilers/wpy++/pyppintoasm.c:99-105 | printing a name defines no data label but still takes an index, so the program refers to an undefined `str0` |
| PyppAsm64.Codegen.EmitDataSection | compilers/wpy++/pyppintoasm.c:86-112 | `emit_data_section` appends exactly `DataSection` and leaves the string index alone |
| PyppAsm64.Codegen.EmitBodyData | compilers/wpy++/pyppintoasm.c:97-108 | the inner loop appends one label per labelled literal of the body, numbered on from the counter, and returns the new counter |
| PyppAsm64.Codegen.EmitTextHeader | compilers/wpy++/pyppintoasm.c:114-119 | `emit_text_section_header` appends the four header lines and a blank line |
| PyppAsm64.Codegen.GenNode | compilers/wpy++/pyppintoasm.c:122-166 | `gen_node` appends the lines of `Gen` and leaves the index where `Gen` says |
| PyppAsm64.Codegen.GenEach | compilers/wpy++/pyppintoasm.c:129-138 | the loop over the children appends the lines of `GenChildren` |
| PyppAsm64.GenerateAsm | compilers/wpy++/pyppintoasm.c:60-83 | `generate_asm_to_file` writes exactly `AsmFile`: data section, header, then the lowering of each top-level node with one index counter |
| PyppAsm32.DataLines32 | compilers/wpy++/pyppintoasm32.c:48-49 | one `db` line per labelled literal |
| PyppAsm32.DataLines32Snoc | compilers/wpy++/pyppintoasm32.c:48-49 | the next literal gets the next label, its text written unencoded |
| PyppAsm32.DataSection32Labels | compilers/wpy++/pyppintoasm32.c:35-56 | the 32-bit data section labels the same literals as the 64-bit one, `str0`, `str1`, ... with no gap, writes each text as it is, and has no format line |
| PyppAsm32.Gen32 | compilers/wpy++/pyppintoasm32.c:65-104 | lowering a node never moves the string index backwards |
| PyppAsm32.Gen32Children | compilers/wpy++/pyppintoasm32.c:72-81 | lowering the children one after another never moves the string index backwards |
| PyppAsm32.Print32Balanced | compilers/wpy++/pyppintoasm32.c:84-89 | a Print pops the argument it pushed |
| PyppAsm32.Return32Leaves | compilers/wpy++/pyppintoasm32.c:91-99 | a Return leaves its pushed exit code on the stack, since nothing pops it |
| PyppAsm32.Gen32Meaning | compilers/wpy++/pyppintoasm32.c:65-104 | the lowering advances the string index once per Print reached in main, and the only stack left behind is one word per Return reached |
| PyppAsm32.Gen32ChildrenMeaning | compilers/wpy++/pyppintoasm32.c:72-81 | the same for a node's children |
| PyppAsm32.SameIndicesAs64 | compilers/wpy++/pyppintoasm32.c:65-104 | the 32-bit lowering emits code exactly where the 64-bit one does and uses the same string indices |
| PyppAsm32.SameIndicesAs64Children | compilers/wpy++/pyppintoasm32.c:72-81 | the same for a node's children |
| PyppAsm32.OnlyMainEmits32 | compilers/wpy++/pyppintoasm32.c:68-103 | a function not named main, and any node other than a function, block, Print or Return, emits nothing |
| PyppAsm32.Return32Lowering | compilers/wpy++/pyppintoasm32.c:91-99 | a Return pushes its first child's text, or 0 when it has none, and calls exit |
| PyppAsm32.Codegen32.EmitDataSection | compilers/wpy++/pyppintoasm32.c:35-56 | `emit_data_section` appends exactly `DataSection32` |
| PyppAsm32.Codegen32.EmitBodyData | compilers/wpy++/pyppintoasm32.c:43-52 | the inner loop appends one label per labelled literal of the body, numbered on from the counter |
| PyppAsm32.Codegen32.EmitTextHeader | compilers/wpy++/pyppintoasm32.c:58-63 | `emit_text_header` appends the four header lines and a blank line |
| PyppAsm32.Codegen32.GenNode | compilers/wpy++/pyppintoasm32.c:65-104 | `gen_node` appends the lines of `Gen32` and leaves the index where `Gen32` says |
| PyppAsm32.Codegen32.GenEach | compilers/wpy++/pyppintoasm32.c:72-81 | the loop over the children appends the lines of `Gen32Children` |
| PyppAsm32.GenerateAsm32 | compilers/wpy++/pyppintoasm32.c:14-33 | `generate_asm32` writes exactly `Asm32File` |
| PyppGraAsm.CollectSeq | compilers/wpy++/gra.pyppintoasm.c:43-45 | the loop over the children rewrites each child and keeps their number |
| PyppGraAsm.CollectMeaning | compilers/wpy++/gra.pyppintoasm.c:36-46 | read in pre-order, the k-th string literal met gets label `str{k}` in the tree and the k-th data line; nothing else in the tree changes, and the counter ends past the last label |
| PyppGraAsm.CollectSeqMeaning | compilers/wpy++/gra.pyppintoasm.c:43-45 | the same for a node's children, left to right |
| PyppGraAsm.CountStringsAppend | compilers/wpy++/gra.pyppintoasm.c:39-45 | the literals of two parts of a walk add up |
| PyppGraAsm.RelabelAppend | compilers/wpy++/gra.pyppintoasm.c:39-45 | labelling two parts of a walk in turn numbers the second part on from the first |
| PyppGraAsm.RelabelHead | compilers/wpy++/gra.pyppintoasm.c:39-41 | a node is relabelled before its children |
| PyppGraAsm.RelabelNoStrings | compilers/wpy++/gra.pyppintoasm.c:23-33 | a label never starts with a double quote, so no relabelled literal is collected again |
| PyppGraAsm.StringLinesNone | compilers/wpy++/gra.pyppintoasm.c:39-41 | a walk with no string literal writes no data line |
| PyppGraAsm.RelabelUnchanged | compilers/wpy++/gra.pyppintoasm.c:39-41 | a walk with no string literal is left unchanged |
| PyppGraAsm.CollectTwice | compilers/wpy++/gra.pyppintoasm.c:19-46 | running the pass again on its own output, with any counter, writes no data line and changes neither the tree nor the counter |
| PyppGraAsm.RegisterPrefixes | compilers/wpy++/gra.pyppintoasm.c:103-142 | the j-th argument goes to RCX, RDX, R8 and R9 in turn, by `lea` for an address and `mov` for a value |
| PyppGraAsm.SignatureFits | compilers/wpy++/gra.pyppintoasm.c:104-147 | every known method takes at most four arguments, so all of them fit in registers, and `gen_node` reads exactly that many children |
| PyppGraAsm.CallLinesFollowConvention | compilers/wpy++/gra.pyppintoasm.c:103-147 | each graphics call passes its j-th argument in the j-th argument register, strings by address, and calls the runtime entry point named after the method |
| PyppGraAsm.ThreeArgConvention | compilers/wpy++/gra.pyppintoasm.c:104-131 | `graphics.Init(title, w, h)` and `graphics.DrawText(x, y, text)` pass their three arguments in RCX, RDX and R8, each by address or by value as the method's signature says, then call the entry point |
| PyppGraAsm.ClearConvention | compilers/wpy++/gra.pyppintoasm.c:115-120 | `graphics.Clear(color)` passes the colour by address in RCX |
| PyppGraAsm.DrawRectConvention | compilers/wpy++/gra.pyppintoasm.c:132-144 | `graphics.DrawRect(x, y, w, h)` passes all four by value in RCX, RDX, R8 and R9 |
| PyppGraAsm.EntryPointNames | compilers/wpy++/gra.pyppintoasm.c:59-63 | each method calls the `graphics_` entry point the header declares extern |
| PyppGraAsm.OnlyGraphicsCallsEmit | compilers/wpy++/gra.pyppintoasm.c:81-154 | a statement that is not a known graphics call writes nothing, and neither does any function but main |
| PyppGraAsm.NoStackAdjustment | compilers/wpy++/gra.pyppintoasm.c:81-154 | unlike the console generator, the graphics lowering reserves and releases no shadow space around the runtime calls |
| PyppGraAsm.NoStackAdjustmentSeq | compilers/wpy++/gra.pyppintoasm.c:87-96 | the same for a list of nodes |
| PyppGraAsm.CollectKeepsLowerable | compilers/wpy++/gra.pyppintoasm.c:36-46 | the collection pass changes only literals' texts, so every call the lowering could read before, it can read after |
| PyppGraAsm.CollectSeqKeeps | compilers/wpy++/gra.pyppintoasm.c:43-45 | the same for a node's children |
| PyppGraAsm.CollectSeqValue | compilers/wpy++/gra.pyppintoasm.c:31-32 | a child with a text still has one after the pass |
| PyppGraAsm.GraFileDefined | compilers/wpy++/gra.pyppintoasm.c:48-79 | when the parsed tree can be lowered, so can the relabelled one |
| PyppGraAsm.CollectSeqHead | compilers/wpy++/gra.pyppintoasm.c:43-45 | the first child is rewritten first, and its data lines come first |
| PyppGraAsm.FirstArgByLabel | compilers/wpy++/gra.pyppintoasm.c:104-120 | the string first passed to `graphics.Init` or `graphics.Clear` gets the next label, whose data line is the first the call contributes, and the call loads that label's address into RCX |
| PyppGraAsm.LowerablePrefix | compilers/wpy++/gra.pyppintoasm.c:69-71 | every prefix of a lowerable list is lowerable |
| PyppGraAsm.GraCodegen.EmitStringLabel | compilers/wpy++/gra.pyppintoasm.c:23-33 | `emit_string_label` writes `str{n} db <text>,0`, bumps the counter, and gives the literal the label as its text |
| PyppGraAsm.GraCodegen.CollectStrings | compilers/wpy++/gra.pyppintoasm.c:36-46 | `collect_strings` writes the data lines of `Collect`, returns its tree and leaves the counter where it says |
| PyppGraAsm.GraCodegen.CollectEach | compilers/wpy++/gra.pyppintoasm.c:43-45 | the loop over the children does the same as `CollectSeq` |
| PyppGraAsm.GraCodegen.GenNode | compilers/wpy++/gra.pyppintoasm.c:81-154 | `gen_node` appends the lines of `GraGen` |
| PyppGraAsm.GraCodegen.GenEach | compilers/wpy++/gra.pyppintoasm.c:87-96 | the loop over the children appends the lines of `GraGenSeq` |
| PyppGraAsm.GraCodegen.Generate | compilers/wpy++/gra.pyppintoasm.c:48-79 | `gra_generate_asm_to_file` writes exactly `GraFile` for the counter it starts from, and leaves the tree relabelled and the counter advanced |
| PyppGraAsm.GenerateTwice | compilers/wpy++/gra.pyppintoasm.c:19-79 | a second generation in the same process numbers its labels on from where the first stopped, since `str_counter` is never reset |
| WpyAst.MakeNode | interpilers/wpy+/parser.c:10-17 | `make_node` gives the kind and a copy of the text, no children and no declaration fields |
| WpyLexer.KeywordOf | interpilers/wpy+/lexer.c:52-64 | a word is a keyword exactly when it is one of the ten in the table (func, return, let, if, else, for, while, use, const, end), and then has that keyword's kind |
| WpyLexer.Symbol | interpilers/wpy+/lexer.c:194-217 | a symbol token is one character long, or two when the second is `=` |
| WpyLexer.CommentEnd | interpilers/wpy+/lexer.c:183-186 | a block comment's body ends at the first `*` followed by `/`, or at the end of input |
| WpyLexer.Skipped | interpilers/wpy+/lexer.c:148-189 | a comment or a directive other than an include always consumes at least one character and stays within the input |
| WpyLexer.Skip | interpilers/wpy+/lexer.c:101-189 | the skipping before a token stops on a character that is not white space and starts no comment or other directive |
| WpyLexer.TokenAtBounds | interpilers/wpy+/lexer.c:108-217 | each token consumes at least one character and stays within the input, and the line after it is the line it carries |
| WpyLexer.NextTokBounds | interpilers/wpy+/lexer.c:99-218 | `next_token` never moves backwards and stays within the input; only the end-of-input token leaves the cursor where the skipping stopped |
| WpyLexer.NextTokStep | interpilers/wpy+/lexer.c:168-188 | past the white space, either a token starts, or the call starts again after the skipped comment or directive |
| WpyLexer.NextTokUnfold | interpilers/wpy+/lexer.c:101-106 | one round of `next_token`: the white space with its newlines counted, then a token or a skipped item |
| WpyLexer.EofRepeats | interpilers/wpy+/lexer.c:18-106 | at the end of input, or at an embedded NUL, the token is EOF spelt "EOF", the cursor stays put, and every later call yields it again |
| WpyLexer.WordToken | interpilers/wpy+/lexer.c:111-122 | a word is the maximal run of letters, digits and `_` from a letter or `_`, a keyword when it is in the table, an identifier otherwise |
| WpyLexer.NumberToken | interpilers/wpy+/lexer.c:126-132 | a number is the maximal run of decimal digits |
| WpyLexer.StringToken | interpilers/wpy+/lexer.c:135-145 | a string token's lexeme is the text between the quotes, without them; the closing quote is consumed when present, and without it the string runs to the end |
| WpyLexer.IncludeFolds | interpilers/wpy+/lexer.c:148-165 | `#include<name>` folds into one INCLUDE token whose lexeme is the name; newlines inside the name are not counted |
| WpyLexer.IncludePrefix | interpilers/wpy+/lexer.c:149-155 | `#include<` is exactly what makes a `#` start an include |
| WpyLexer.OtherDirectiveSkipped | interpilers/wpy+/lexer.c:168-170 | any other `#` directive produces no token: the rest of its line is skipped and the token comes from what follows |
| WpyLexer.SpacedIncludeIsSkipped | interpilers/wpy+/lexer.c:154-169 | `#include <name>`, with a space, is an unknown directive and is skipped to the end of the line |
| WpyLexer.LineCommentSkipped | interpilers/wpy+/lexer.c:178-180 | a `//` comment produces no token: the call goes on from its newline |
| WpyLexer.BlockCommentSkipped | interpilers/wpy+/lexer.c:181-188 | a block comment produces no token: the call goes on after its closing `*/`, or at the end, with its newlines counted |
| WpyLexer.LoneSlash | interpilers/wpy+/lexer.c:177-191 | a `/` that starts no comment is SLASH |
| WpyLexer.EqualityOperators | interpilers/wpy+/lexer.c:194-217 | `==` and `!=` are single tokens; a `!` on its own, like any character the lexer does not know, is an identifier spelt "?" |
| WpyLexer.SkipLines | interpilers/wpy+/lexer.c:101-189 | the line count after the skipped text is the starting one plus the newlines skipped |
| WpyLexer.TokenLines | interpilers/wpy+/lexer.c:108-217 | within one token every newline is counted except those of an `#include<...>` name |
| WpyLexer.LineCounting | interpilers/wpy+/lexer.c:99-218 | the line a token carries is the starting line plus every newline before it, and the line after the call is that line plus the token's own newlines, except those in an include name |
| WpyLexer.Lexer.constructor | interpilers/wpy+/lexer.c:11-13 | the lexer starts with no source, the cursor at 0 and the line at 1 |
| WpyLexer.Lexer.SetSource | interpilers/wpy+/lexer.c:90-94 | `set_source` installs the text and resets the cursor to 0 and the line to 1 |
| WpyLexer.Lexer.Advance | interpilers/wpy+/lexer.c:30-32 | `advance` returns the current character and moves on, except at the end, where it returns NUL and stays put |
| WpyLexer.Lexer.AdvanceWhile | interpilers/wpy+/lexer.c:113-179 | a skipping loop that counts no lines stops at the first character outside its class |
| WpyLexer.Lexer.AdvanceCounting | interpilers/wpy+/lexer.c:101-140 | the white-space and string loops stop at the first character outside their class and count every newline they pass |
| WpyLexer.Lexer.SkipCommentBody | interpilers/wpy+/lexer.c:183-186 | the block-comment loop stops at `CommentEnd`, counting the newlines it passes |
| WpyLexer.Lexer.ReadWord | interpilers/wpy+/lexer.c:111-122 | the word branch returns the token and cursor `WordAt` specifies |
| WpyLexer.Lexer.ReadNumber | interpilers/wpy+/lexer.c:126-132 | the number branch returns the token and cursor `NumberAt` specifies |
| WpyLexer.Lexer.ReadString | interpilers/wpy+/lexer.c:135-145 | the string branch returns the token, cursor and line `StringAt` specifies |
| WpyLexer.Lexer.ReadDirective | interpilers/wpy+/lexer.c:148-171 | the `#` branch returns the include token, or moves the cursor to the end of the line for any other directive |
| WpyLexer.Lexer.ReadSlash | interpilers/wpy+/lexer.c:177-191 | the `/` branch returns SLASH, or skips a comment with its newlines counted |
| WpyLexer.Lexer.ReadSymbol | interpilers/wpy+/lexer.c:194-217 | the operator branch returns the token and cursor `SymbolAt` specifies |
| WpyLexer.Lexer.ReadItem | interpilers/wpy+/lexer.c:108-217 | past the white space, the method reads the token `TokenAt` specifies or steps over what `Skipped` specifies |
| WpyLexer.Lexer.NextToken | interpilers/wpy+/lexer.c:99-218 | `next_token` returns the token, cursor and line `NextTok` specifies; with no source it returns EOF and changes nothing |
| WpyParser.Includes | interpilers/wpy+/parser.c:26-42 | the include loop stops within the tokens, at a token that is not INCLUDE, unless a directive is malformed; it never clears the flag |
| WpyParser.BodyScanDefined | interpilers/wpy+/parser.c:59-68 | the body loop gets through a range exactly when no iteration in it meets `pypstdio` without the flag |
| WpyParser.ParseSucceeds | interpilers/wpy+/parser.c:20-108 | `parse` returns a tree exactly when the leading includes are well formed, `func name` follows them, and `pypstdio` appears in the body only if the flag is set |
| WpyParser.ParseSpecBody | interpilers/wpy+/parser.c:44-59 | past the includes and the header, `parse` succeeds exactly when the body loop does |
| WpyParser.MalformedIncludeRejected | interpilers/wpy+/parser.c:28-41 | an include not followed by `< identifier >` makes `parse` give up, with the flag as the earlier includes left it |
| WpyParser.BodyStep | interpilers/wpy+/parser.c:59-105 | one iteration of the body loop that does not abort appends that iteration's children |
| WpyParser.BodyScanShape | interpilers/wpy+/parser.c:59-105 | every child the body loop adds is a PRINT or RETURN leaf |
| WpyParser.ParseShape | interpilers/wpy+/parser.c:56-107 | a successful parse is one FUNCTION node named by the token after `func`, whose children are PRINT and RETURN leaves |
| WpyParser.EmittedAtMostOne | interpilers/wpy+/parser.c:60-104 | one token adds at most one child, and adds one exactly when it starts `pypstdio.print("s")`, a bare `print("s")` or `return x` |
| WpyParser.Sites | interpilers/wpy+/parser.c:59-105 | the tokens that add a child, listed in increasing order within the range |
| WpyParser.ChildrenInTokenOrder | interpilers/wpy+/parser.c:59-105 | the children are, in token order, the node found at each such token |
| WpyParser.QualifiedPrintOnce | interpilers/wpy+/parser.c:60-97 | `pypstdio.print("s")` with the flag set adds exactly one PRINT node holding s, and the bare-print rule does not fire on its `print` |
| WpyParser.ReturnRecorded | interpilers/wpy+/parser.c:100-104 | every `return x` in the body gives a RETURN child carrying the text of x |
| WpyParser.FlagSticky | interpilers/wpy+/parser.c:7-35 | once set, the flag stays set: a later `parse` accepts `pypstdio` without an include of its own |
| WpyParser.FoldedIncludeRejected | interpilers/wpy+/parser.c:26-41 | an INCLUDE token directly followed by `func`, which is what the lexer makes of `#include<name>` and a function after it, is a malformed directive: `parse` returns NULL and leaves the flag alone |
| WpyParser.IncludeGroupSetsFlag | interpilers/wpy+/parser.c:26-41 | an INCLUDE token followed by `< pypstdio >` and then `func name` is accepted and sets the pypstdio flag |
| WpyParser.IncludesFlagSource | interpilers/wpy+/parser.c:26-41 | the include loop sets the flag only when it was already set or an INCLUDE token is followed by `< pypstdio >` |
| WpyParser.OnlyIncludeGroupSetsFlag | interpilers/wpy+/parser.c:20-41 | starting from a cleared flag, `parse` sets it only when some INCLUDE token is followed by `< pypstdio >` |
| WpyParser.Parser.constructor | interpilers/wpy+/parser.c:7 | the flag starts cleared |
| WpyParser.Parser.ParseIncludes | interpilers/wpy+/parser.c:26-42 | the include loop stops where `Includes` says and leaves the flag as it says |
| WpyParser.Parser.ParseBody | interpilers/wpy+/parser.c:59-105 | the body loop returns the children `BodyScan` specifies, or nothing where it aborts |
| WpyParser.Parser.Parse | interpilers/wpy+/parser.c:20-108 | `parse` returns the tree and leaves the flag as `ParseSpec` specifies |
| WpyInterp.FindFrom | interpilers/wpy+/interpiler.c:77-89 | the search from an index finds the first entry with the name at or after it, or reports that none has it |
| WpyInterp.LookupFirst | interpilers/wpy+/interpiler.c:77-89 | the lookup finds a value exactly when some entry names it with that value and no earlier entry has that name |
| WpyInterp.LookupNone | interpilers/wpy+/interpiler.c:90-92 | nothing is found exactly when no entry has the name |
| WpyInterp.LookupShadow | interpilers/wpy+/interpiler.c:77-89 | an earlier declaration shadows every later one of the same name |
| WpyInterp.LookupNewest | interpilers/wpy+/interpiler.c:50-89 | a name declared for the first time is found with its new value |
| WpyInterp.Render | interpilers/wpy+/interpiler.c:79-85 | a character prints as itself, a string as its text, and an integer as decimal text that `atoi` reads back as the same integer |
| WpyInterp.PrintedStep | interpilers/wpy+/interpiler.c:71-95 | each turn of the argument loop prints the argument and, unless it is the last, one space |
| WpyInterp.PrintedIsJoin | interpilers/wpy+/interpiler.c:71-95 | after i turns the output is the first i argument texts joined by single spaces, plus a trailing space while arguments remain |
| WpyInterp.PrintLineFormat | interpilers/wpy+/interpiler.c:70-97 | a PRINT line is the argument texts separated by single spaces and ended by one newline |
| WpyInterp.LastSpace | interpilers/wpy+/interpiler.c:94 | the last space of a line is a space and no space follows it |
| WpyInterp.SplitJoin | interpilers/wpy+/interpiler.c:71-95 | arguments whose texts hold no space can be read back from the line, since the separators are exactly the spaces |
| WpyInterp.LastSpaceOfJoin | interpilers/wpy+/interpiler.c:94 | appending a space and a word without spaces makes that space the last one |
| WpyInterp.Declared | interpilers/wpy+/interpiler.c:50-66 | a declaration's entry carries the declared name; `int` reads its text with `atoi`, `char` keeps the first character, `string` keeps the text, and any other type declares nothing |
| WpyInterp.ExecExtends | interpilers/wpy+/interpiler.c:40-127 | execution only appends to the table, one entry per `int`, `char` or `string` declaration reached; the entries already there are untouched |
| WpyInterp.ExecSeqExtends | interpilers/wpy+/interpiler.c:44-48 | the same for a list of children executed in order |
| WpyInterp.IntDeclRoundTrip | interpilers/wpy+/interpiler.c:51-80 | an `int` declaration of a decimal text of a new name prints back as the same text |
| WpyInterp.CharDeclFirst | interpilers/wpy+/interpiler.c:56-82 | a `char` declaration keeps only the first character of its text |
| WpyInterp.ExecParsedChildren | interpilers/wpy+/interpiler.c:44-101 | PRINT and RETURN leaves, the only children the parser makes, print a bare newline and `Program returned: x` lines and declare nothing |
| WpyInterp.ParsedProgramOutput | interpilers/wpy+/interpiler.c:40-127 | every tree `parse` returns can be executed, declares nothing, and makes one newline-terminated write per child (a RETURN value that holds a newline makes that write span two lines) |
| WpyInterp.RunOnlyFunctions | interpilers/wpy+/interpiler.c:132-144 | the program runs, with `Running function:` and no error, exactly when the root is a FUNCTION; otherwise nothing is executed: standard output stays empty, the variable table is unchanged, and the one error line is `No AST to run.` for a NULL root and `Top-level AST is not a function.` for any other |
| WpyInterp.Interpreter.constructor | interpilers/wpy+/interpiler.c:34-35 | the table starts empty and nothing has been written |
| WpyInterp.Interpreter.Find | interpilers/wpy+/interpiler.c:77-89 | the lookup loop returns `Lookup` of the declared variables |
| WpyInterp.Interpreter.ShowName | interpilers/wpy+/interpiler.c:76-92 | printing an identifier writes its value, or `[undefined:name]` |
| WpyInterp.Interpreter.ArgString | interpilers/wpy+/interpiler.c:72-93 | one PRINT argument writes a literal's text or an identifier's value, and any other kind writes nothing |
| WpyInterp.Interpreter.PrintArgs | interpilers/wpy+/interpiler.c:70-97 | the PRINT case appends exactly `PrintLine` to standard output |
| WpyInterp.Interpreter.ExecuteNode | interpilers/wpy+/interpiler.c:40-127 | `execute_node` appends the output of `Exec` and leaves the table as it says |
| WpyInterp.Interpreter.ExecuteChildren | interpilers/wpy+/interpiler.c:44-48 | the FUNCTION case executes the children in order, as `ExecSeq` says |
| WpyInterp.Interpreter.Declare | interpilers/wpy+/interpiler.c:50-68 | the VAR_DECL case appends the entry `Declared` gives, if any, and prints nothing |
| WpyInterp.Interpreter.RunProgram | interpilers/wpy+/interpiler.c:132-144 | `run_program` writes standard output and standard error and updates the table as `RunSpec` says |
| WpyInterp.Interpreter.Interpret | interpilers/wpy+/interpiler.c:146-152 | `interpret` prints `Nothing to interpret.` for a NULL tree and otherwise runs the program |
| WpyInterp.ExecSeqStep | interpilers/wpy+/interpiler.c:45-47 | executing one more child appends its output and its table changes |
| WnuAst.Leaf | compilers/wnu-c/ast.c:6-16 | `ast_new` as a value: the kind, no name, no lexeme, value 0 and no children |
| WnuAst.Ast.constructor | compilers/wnu-c/ast.c:6-16 | `ast_new` gives a node with the kind, no sibling, no child and a cleared payload |
| WnuAst.LinkedChildrenDistinct | compilers/wnu-c/ast.c:18-24 | a well-linked sibling chain never repeats a node, so the walk along `next` visits each child once |
| WnuAst.ChainShift | compilers/wnu-c/ast.c:21-22 | two places of the chain holding the same node hold the same nodes from there on |
| WnuAst.OnlyLastEndsChain | compilers/wnu-c/ast.c:21-22 | every child but the last has a next sibling, so the walk stops exactly at the last child |
| WnuAst.AppendChild | compilers/wnu-c/ast.c:18-24 | `ast_append_child` changes nothing for a NULL parent or child; otherwise the child becomes the last child, as the first child of a childless parent or as the last sibling's `next`, and only those fields change |
| WnuLexer.RunEnd | compilers/wnu-c/lexer.c:82-166 | a `while (p(peek_char())) get_char();` loop stops at the end of the buffer or at the first character outside its class, having passed only characters inside it |
| WnuLexer.RunEndExact | compilers/wnu-c/lexer.c:82-166 | that stopping point is the only one with those two properties |
| WnuLexer.BlockEnd | compilers/wnu-c/lexer.c:89-95 | a block comment's body ends just after the first `*/`, or at the end of the buffer when there is none |
| WnuLexer.SkipBlank | compilers/wnu-c/lexer.c:71-100 | skipping stops within the buffer, at a character that is no blank and starts no comment |
| WnuLexer.SkipBlankIdempotent | compilers/wnu-c/lexer.c:71-100 | skipping again from where skipping stopped does not move |
| WnuLexer.LineCommentSkipped | compilers/wnu-c/lexer.c:79-83 | a line comment ends before its newline, which is then skipped as white space |
| WnuLexer.UnterminatedBlockComment | compilers/wnu-c/lexer.c:86-96 | a block comment with no closing `*/` swallows the rest of the buffer |
| WnuLexer.BlockCommentsDoNotNest | compilers/wnu-c/lexer.c:86-96 | the first `*/` closes a block comment, whatever opened after it |
| WnuLexer.KeywordKind | compilers/wnu-c/lexer.c:139-156 | an identifier is a keyword exactly when it is one of the fifteen in the chain, and then has that keyword's kind |
| WnuLexer.OtherKeywordsAreIdentifiers | compilers/wnu-c/lexer.c:139-156 | other C keywords of the token set, such as `const`, `long`, `unsigned` and `sizeof`, are read as identifiers |
| WnuLexer.TwoChar | compilers/wnu-c/lexer.c:203-223 | a two-character operator is never recognised at the last character of the buffer |
| WnuLexer.TwoCharSound | compilers/wnu-c/lexer.c:207-222 | the if-chain recognises nothing outside the table of two-character operators |
| WnuLexer.TwoCharComplete | compilers/wnu-c/lexer.c:207-222 | every operator of the table is recognised with its kind, the repeated `->` and `-=` tests never being reached |
| WnuLexer.StringEnd | compilers/wnu-c/lexer.c:177-181 | a string literal's body ends just after a closing quote, or at the end of the buffer |
| WnuLexer.StringClosesAtFirstQuote | compilers/wnu-c/lexer.c:177-181 | with no backslash before it, the first quote closes the literal |
| WnuLexer.EscapedQuoteKept | compilers/wnu-c/lexer.c:178 | a backslash-escaped quote does not close the literal |
| WnuLexer.CharEnd | compilers/wnu-c/lexer.c:191-194 | a character literal's body stays within the buffer |
| WnuLexer.IdentAt | compilers/wnu-c/lexer.c:131-160 | an identifier token consumes at least one character and its lexeme is the text consumed |
| WnuLexer.NumberAt | compilers/wnu-c/lexer.c:163-171 | an integer token consumes at least one character and its lexeme is the text consumed |
| WnuLexer.StringAt | compilers/wnu-c/lexer.c:174-186 | a string token consumes at least one character and its lexeme is the text consumed, quotes included |
| WnuLexer.CharAt | compilers/wnu-c/lexer.c:189-199 | a character token consumes at least one character and its lexeme is the text consumed, apostrophes included |
| WnuLexer.OperatorAt | compilers/wnu-c/lexer.c:203-257 | an operator, punctuation or unknown token consumes one or two characters and its lexeme is the text consumed |
| WnuLexer.TokenAt | compilers/wnu-c/lexer.c:124-257 | past the blanks, the token is end of input exactly at the end of the buffer, with no lexeme and no move; any other token consumes at least one character and its lexeme is the text consumed |
| WnuLexer.Scan | compilers/wnu-c/lexer.c:110-257 | a token carries the location from before the skipping; it has no lexeme exactly when it is end of input; without a buffer nothing moves; otherwise the cursor never moves backwards and moves forwards for every token but end of input |
| WnuLexer.EofRepeats | compilers/wnu-c/lexer.c:117-128 | once the end of input is reached, every later call reports it again, at the same location and without moving |
| WnuLexer.ScanCountsLines | compilers/wnu-c/lexer.c:58-257 | the line advances by one for every newline consumed, blanks and comments included |
| WnuLexer.IdentifierToken | compilers/wnu-c/lexer.c:131-160 | an identifier is the longest run of letters, digits and underscores, and is a keyword exactly when it is one of the fifteen |
| WnuLexer.IntLiteralsAreDigits | compilers/wnu-c/lexer.c:110-257 | whatever the input, a token the lexer calls an integer literal has a lexeme of digits only |
| WnuLexer.NumberToken | compilers/wnu-c/lexer.c:163-171 | an integer literal is a non-empty run of decimal digits not followed by another digit |
| WnuLexer.StringToken | compilers/wnu-c/lexer.c:174-186 | a string literal's lexeme keeps its quotes: it opens with one and, unless the buffer ran out first, closes with one |
| WnuLexer.TwoCharOperatorToken | compilers/wnu-c/lexer.c:203-223 | longest match: a two-character operator is one token, not two |
| WnuLexer.UnknownCharToken | compilers/wnu-c/lexer.c:252-256 | a character that starts no token is an unknown token of its own, with that character as its lexeme |
| WnuLexer.Lexer.constructor | compilers/wnu-c/lexer.c:11-15 | the lexer starts with no buffer, at line 1, column 1 |
| WnuLexer.Lexer.Init | compilers/wnu-c/lexer.c:25-44 | `lexer_init`, once the file is read, installs the text with the cursor at 0, line 1, column 1 |
| WnuLexer.Lexer.Free | compilers/wnu-c/lexer.c:46-50 | `lexer_free` drops the buffer and resets the cursor, leaving the location alone |
| WnuLexer.Lexer.PeekChar | compilers/wnu-c/lexer.c:52-56 | `peek_char` returns the character at the cursor, or EOF without a buffer or at its end |
| WnuLexer.Lexer.GetChar | compilers/wnu-c/lexer.c:58-69 | `get_char` returns what `peek_char` would; on a character it moves the cursor by one and the location over it, a newline starting a new line at column 1 |
| WnuLexer.Lexer.AdvanceRun | compilers/wnu-c/lexer.c:82-166 | a class loop stops where `RunEnd` says, with the location moved over every character passed |
| WnuLexer.Lexer.SkipBlockBody | compilers/wnu-c/lexer.c:89-95 | the block-comment loop stops where `BlockEnd` says |
| WnuLexer.Lexer.SkipLineComment | compilers/wnu-c/lexer.c:79-83 | a line comment is skipped up to, not including, its newline |
| WnuLexer.Lexer.SkipBlockComment | compilers/wnu-c/lexer.c:86-96 | a block comment is skipped through its `*/`, or to the end |
| WnuLexer.Lexer.SkipWhitespaceAndComments | compilers/wnu-c/lexer.c:71-100 | `skip_whitespace_and_comments` stops where `SkipBlank` says, with the location moved over everything skipped; without a buffer nothing moves |
| WnuLexer.Lexer.ReadIdent | compilers/wnu-c/lexer.c:131-160 | the identifier branch returns the kind and lexeme `IdentAt` specifies |
| WnuLexer.Lexer.ReadNumber | compilers/wnu-c/lexer.c:163-171 | the integer branch returns the kind and lexeme `NumberAt` specifies |
| WnuLexer.Lexer.SkipStringBody | compilers/wnu-c/lexer.c:177-181 | the string loop stops where `StringEnd` says |
| WnuLexer.Lexer.ReadString | compilers/wnu-c/lexer.c:174-186 | the string branch returns the kind and lexeme `StringAt` specifies |
| WnuLexer.Lexer.ReadChar | compilers/wnu-c/lexer.c:189-199 | the character branch returns the kind and lexeme `CharAt` specifies |
| WnuLexer.Lexer.ReadOperator | compilers/wnu-c/lexer.c:201-257 | the operator branches return the kind and lexeme `OperatorAt` specifies |
| WnuLexer.Lexer.Next | compilers/wnu-c/lexer.c:110-257 | `lexer_next` returns the token and leaves the cursor and location as `Scan` specifies |
| WnuParser.Tokens | compilers/wnu-c/lexer.c:110-257 | the tokens the lexer hands out from a position end with exactly one end of input, at the end |
| WnuParser.Lex | compilers/wnu-c/lexer.c:117-128 | one call of `lexer_next` takes the head of the stream, and asked again after end of input the lexer reports it again; any other token shortens the stream |
| WnuParser.LexStep | compilers/wnu-c/lexer.c:110-257 | lexing one token from the buffer is taking the head of its token stream, and what is left is the stream from the new position |
| WnuParser.NextS | compilers/wnu-c/parser.c:22-25 | `next_token` clears the pending token and never lets the parse grow; handing out a real token shrinks it |
| WnuParser.PeekS | compilers/wnu-c/parser.c:32-38 | `peek_token` leaves the token it returns pending |
| WnuParser.AcceptS | compilers/wnu-c/parser.c:40-48 | `accept_kind` never lets the parse grow, and accepting a real token shrinks it |
| WnuParser.ExprS | compilers/wnu-c/parser.c:64-119 | `parse_expression` consumes at least one token unless the next is end of input; an identifier followed by `(` starts a call named by it, and any other identifier is a variable reference whose following token stays pending |
| WnuParser.CallS | compilers/wnu-c/parser.c:86-108 | a call's first child is the callee; it has no arguments exactly when `)` comes first, and otherwise its arguments are those the argument loop parses, in source order |
| WnuParser.ArgsS | compilers/wnu-c/parser.c:96-103 | the argument loop parses at least one argument |
| WnuParser.StmtS | compilers/wnu-c/parser.c:121-152 | `parse_statement` consumes at least one token unless the next is end of input, and what it returns is a return, a declaration or an expression statement |
| WnuParser.BlockS | compilers/wnu-c/parser.c:157-163 | the statement loop never lets the parse grow, and everything it collects is a statement |
| WnuParser.CompoundS | compilers/wnu-c/parser.c:154-165 | `parse_compound_stmt` always yields a compound statement, and every child of it is a statement |
| WnuParser.FuncDefS | compilers/wnu-c/parser.c:167-180 | `parse_function_definition` consumes the `int` it starts at, and what it returns is a function definition with one compound-statement body |
| WnuParser.UnitS | compilers/wnu-c/parser.c:184-198 | every child the top-level loop adds is a function definition with one compound-statement body |
| WnuParser.TranslationUnitS | compilers/wnu-c/parser.c:182-200 | `parser_parse_translation_unit` always yields a translation unit whose children are all function definitions |
| WnuParser.PeekIdempotent | compilers/wnu-c/parser.c:32-38 | peeking twice is peeking once |
| WnuParser.NextAfterPeek | compilers/wnu-c/parser.c:22-38 | `next_token` after a peek returns the peeked token and leaves the state a direct `next_token` would have left |
| WnuParser.AcceptConsumesOnlyOnMatch | compilers/wnu-c/parser.c:40-48 | `accept_kind` returns the next token and consumes it exactly when it has the kind, and otherwise leaves what later calls see unchanged |
| WnuParser.NoBufferEmptyUnit | compilers/wnu-c/lexer.c:117-120 | without a buffer every token is end of input, and the translation unit is empty |
| WnuParser.NonIntTokenDropped | compilers/wnu-c/parser.c:194-197 | a top-level token other than `int` and end of input is dropped on its own, and parsing carries on after it |
| WnuParser.FuncDefShape | compilers/wnu-c/parser.c:167-180 | a function definition exists exactly when `int` and an identifier come first; it is named by the identifier and has one compound-statement child |
| WnuParser.ReturnShape | compilers/wnu-c/parser.c:123-130 | a return statement always has exactly one child, the expression after `return`, so `return;` gets an unknown expression that consumes the semicolon |
| WnuParser.IntLiteralValue | compilers/wnu-c/parser.c:66-72 | an integer literal's node holds the decimal value of its digits |
| WnuParser.UnknownExpression | compilers/wnu-c/parser.c:115-118 | anything but a literal or an identifier is an unknown expression that consumes exactly that one token |
| WnuParser.BlockStops | compilers/wnu-c/parser.c:157-163 | the statement loop stops, consuming it, at `}`; stops at end of input without consuming it; and stops at a declaration without a name |
| WnuParser.BlockStep | compilers/wnu-c/parser.c:157-163 | one round of the statement loop: stop after consuming `}`, stop at end of input or at a NULL statement, else add the statement and go on |
| WnuParser.StmtAfterPeek | compilers/wnu-c/parser.c:121-152 | a statement parsed after the loop has peeked is the statement parsed without the peek |
| WnuParser.ArgsStep | compilers/wnu-c/parser.c:97-102 | one round of the argument loop: an expression, then go on exactly when a comma follows |
| WnuParser.UnitStep | compilers/wnu-c/parser.c:184-198 | one round of the top-level loop: stop at end of input, drop a token other than `int`, stop when a definition fails, else add it and go on |
| WnuParser.Parser.constructor | compilers/wnu-c/parser.c:19-20 | the parser starts with no pending token |
| WnuParser.Parser.Init | compilers/wnu-c/parser.c:202-206 | `parser_init`, once the file is read, starts the lexer at the beginning of the text with nothing pending |
| WnuParser.Parser.NextToken | compilers/wnu-c/parser.c:22-25 | `next_token` returns the token and leaves the state as `NextS` specifies |
| WnuParser.Parser.PushToken | compilers/wnu-c/parser.c:27-30 | `push_token` makes the token pending and changes nothing else |
| WnuParser.Parser.PeekToken | compilers/wnu-c/parser.c:32-38 | `peek_token` returns the token and leaves the state as `PeekS` specifies |
| WnuParser.Parser.AcceptKind | compilers/wnu-c/parser.c:40-48 | `accept_kind` returns the token and leaves the state as `AcceptS` specifies |
| WnuParser.Parser.ExpectKind | compilers/wnu-c/parser.c:50-55 | `expect_kind` behaves as `accept_kind`, the repeated peek changing nothing |
| WnuParser.Parser.ParseExpression | compilers/wnu-c/parser.c:64-119 | `parse_expression` returns the tree and state `ExprS` specifies |
| WnuParser.Parser.ParseCall | compilers/wnu-c/parser.c:86-108 | the call branch returns the tree and state `CallS` specifies |
| WnuParser.Parser.ParseArguments | compilers/wnu-c/parser.c:96-103 | the argument loop returns the arguments and state `ArgsS` specifies |
| WnuParser.Parser.ParseStatement | compilers/wnu-c/parser.c:121-152 | `parse_statement` returns the tree, or NULL, and the state `StmtS` specifies |
| WnuParser.Parser.ParseCompoundStmt | compilers/wnu-c/parser.c:154-165 | `parse_compound_stmt` returns the tree and state `CompoundS` specifies |
| WnuParser.Parser.ParseBlock | compilers/wnu-c/parser.c:157-163 | the statement loop returns the statements and state `BlockS` specifies |
| WnuParser.Parser.ParseFunctionDefinition | compilers/wnu-c/parser.c:167-180 | `parse_function_definition` returns the tree, or NULL, and the state `FuncDefS` specifies |
| WnuParser.Parser.ParseTranslationUnit | compilers/wnu-c/parser.c:182-200 | `parser_parse_translation_unit` returns the tree and state `TranslationUnitS` specifies |
| WnuParser.Parser.ParseUnits | compilers/wnu-c/parser.c:184-198 | the top-level loop returns the definitions and state `UnitS` specifies |
| CLib.Atoi | compilers/wnu-c/parser.c:69 | `atoi` of a run of decimal digits is their decimal value |
| CLib.AtoiOfRendering | interpilers/wpy+/interpiler.c:54 | reading back what `printf("%d")` prints gives the same integer, so a value the interpreter stores as text reads back unchanged |

## Left out

- The WNU-C code generators (`codegen.c`, `codegen_stub.c`) are not part of this model. They emit LLVM through a foreign library.
- `pyppgraphics.c`, the assembler and linker wrappers (`asmintoobject*.c`, `objectintoexe*.c`, `gra.asmintoobject.c`, `gra.objectintoexe.c`), the editor extensions and the REPL are not part of this model. They drive external tools or terminals.
- The `main` functions and file reading (`load_file`, `lexer_init`'s `fopen`) are not modelled. The source text is a parameter instead, and a file that cannot be opened is not modelled.
- The generators' `fopen` of the output file and its failure (`return 1`) are not modelled. The generated lines are the result.
- Freeing and printing are not modelled: `free_ast`, `free_token`, `print_ast`, `node_type_name`, `ast_free`, `ast_print`, `parser_free`. They change no state the model observes.
- Allocation failure is not modelled (`ast_new`, `make_node`, `strdup`, the "Out of memory" path of `load_file`).
- C `int` overflow, including overflow inside `atoi`, is not modelled. Integers are unbounded.
- Character classes are the ASCII ones of the C locale. Bytes above 127 are never letters, digits or white space.
- The error messages written to standard error by the Python+ lexer (`lexer.c:216`) and parser (`parser.c:39`, `46`, `52`, `65`) are not modelled. The failing outcome itself is modelled.
- The message of `expect_kind` (WNU-C `parser.c:53`) is not modelled. Its token and state are.
- The `default` branch of `execute_node` is not modelled. Every node kind the parser makes has a branch.
- The duplicated tests for `->` and `-=` in the WNU-C lexer (`lexer.c:218-219`) are unreachable, because earlier tests take those inputs. The model has each operator once.
- `make_ident_from_token` (WNU-C `parser.c:58-62`) is never called, so it is not modelled.
- The check `drop.kind == TOK_EOF` (WNU-C `parser.c:197`) can never hold, because end of input stopped the loop just before. The model drops the token and carries on.
- `tokens.h` of WNU-C defines no spelling table, so token kinds have no printed names here.
- WnuParser: the parser builds its trees as values (`Tree`) rather than through `ast_append_child`. Pointer sharing between parse trees is therefore not captured. `AppendChild` models the append on its own.
- PyppGraAsm: the graphics generator's rewrite of literal nodes is modelled on values. Because of this the model does not capture that the caller's tree is changed in place.
- WpyInterp: strings are taken to contain no NUL, as `printf("%s")` would cut them there.
- WpyInterp.Interpreter.ExecuteNode requires that declarations never overflow the 256-entry variable table and that each declaration has its name, type and value set. The C code writes past the array or dereferences NULL in those cases.
- PyppGraAsm.GraCodegen.GenNode requires that every graphics call carries the argument children it reads. The C code reads them unchecked.
- PyppGraAsm.GraCodegen.Generate carries the same requirement for the whole tree.
- PyppParser.Parser.ParseReturn requires a token at the cursor. `parse_statement` calls it only on a `return` token.
- PyppDbString.Code: a character of the string stands for one byte, but characters above 255 are not excluded. For such a character the model prints a code that `%u` of an `unsigned char` never prints.

## Where the code and its description differ

The model follows the code.
- The 64-bit generator emits no default `return 0` at the end of a function without one (`pyppintoasm.c:122-166`). A body without a `Return` falls through.
- The 64-bit generator numbers Prints across every function but lowers only those in `main`. The data labels and the references can therefore disagree (`PyppAsm64.PrintElsewhereShiftsLabels`, `PyppAsm64.PrintOfNameHasNoLabel`).
- The graphics generator never resets `str_counter`. A second generation in one process continues the numbering (`PyppGraAsm.GenerateTwice`).
- The Python+ lexer folds `#include<name>` into one INCLUDE token, but the parser expects `< identifier >` after it. So `#include<pypstdio>` directly followed by `func` is rejected (`WpyParser.FoldedIncludeRejected`). An include is accepted only when the source repeats the group after the folded token, as in `#include<pypstdio><pypstdio>`: the `>` is consumed with the folded name, and the second group lexes as `<`, an identifier and `>`. That is the only way the flag gets set (`WpyParser.IncludeGroupSetsFlag`, `WpyParser.OnlyIncludeGroupSetsFlag`).
- `has_pypstdio` is never cleared between parses (`WpyParser.FlagSticky`).
- In WNU-C, `return;` gets an unknown-expression child that consumes the `;` (`WnuParser.ReturnShape`).
- The 64-bit generator writes a `"` byte inside a quoted run as `""`, believing NASM reads that as one quote (`pyppintoasm.c:43`). NASM takes the contents of a quoted string literally, with no doubled-quote escape. So `a"b` is written as `"a""b"` (`PyppDbString.QuoteWrittenTwice`), which NASM does not read as `a"b`. The round trip `PyppDbString.DbStringRoundTrip` holds only under the encoder's own convention.
- The Python+ parser keeps the printed string of `pypstdio.print("...")` and `print("...")` in the PRINT node's own text (`parser.c:78`, `parser.c:93`). `execute_node` prints only a PRINT node's children (`interpiler.c:70-97`), and the parser gives it none. So a parsed print writes a bare newline (`WpyInterp.ExecParsedChildren`, `WpyInterp.ParsedProgramOutput`).
