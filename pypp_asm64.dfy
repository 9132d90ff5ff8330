/**
 * The Python++ 64-bit NASM generator (compilers/wpy++/pyppintoasm.c).
 *
 * The generated file is a sequence of lines, one per newline the C code
 * writes. It is a data section (a `fmt_str` line, then one `strN` label per
 * printed literal), a text header, and the lowering of `main`: each Print
 * calls printf with the next string label and each Return calls exit, both
 * under 32 bytes of Windows x64 shadow space.
 */
module PyppAsm64 {
  import opened CLib
  import opened PyppAst
  import opened PyppDbString

  // ---------------------------------------------------------------------
  // Fixed text
  // ---------------------------------------------------------------------

  const FmtLine: string := "fmt_str db \"%s\", 0"
  const TextHeader: seq<string> := ["section .text", "extern printf", "extern exit", "global main", ""]
  const SubRsp: string := "    sub rsp, 32              ; shadow space"
  const AddRsp: string := "    add rsp, 32"
  const RefPrefix: string := "    lea rdx, [rel str"
  const LeaFmt: string := "    lea rcx, [rel fmt_str]   ; RCX = \"%s\""
  const CallPrintf: string := "    call printf"
  const CallExit: string := "    call exit"

  /** `snprintf(label, .., "str%d", k)`. */
  function Label(k: nat): string {
    "str" + NatToString(k)
  }

  /** The line passing label k to printf in RDX. */
  function RdxLine(k: nat): string {
    RefPrefix + NatToString(k) + "]     ; RDX = &string"
  }

  /** The line passing an exit code in ECX. */
  function EcxLine(imm: string): string {
    "    mov ecx, " + imm + "              ; RCX = exit code"
  }

  function PrintLines(k: nat): seq<string> {
    [SubRsp, LeaFmt, RdxLine(k), CallPrintf, AddRsp]
  }

  function ReturnLines(imm: string): seq<string> {
    [SubRsp, EcxLine(imm), CallExit, AddRsp]
  }

  /** The exit code a Return passes: its first child's text, else "0". */
  function ExitCode(n: Node): string {
    if |n.children| > 0 && n.children[0].value.Some? then n.children[0].value.value else "0"
  }

  // ---------------------------------------------------------------------
  // The data section
  // ---------------------------------------------------------------------

  /** The literal a statement gives a data label to, if any: a Print whose
      first child is a literal with a text. */
  function StmtLiteral(st: Node): seq<string> {
    if st.kind == Print && |st.children| > 0
       && st.children[0].kind == Literal && st.children[0].value.Some?
    then [st.children[0].value.value]
    else []
  }

  /** The labelled literals of the first k statements of a function body. */
  function BodyLiterals(body: Node, k: nat): seq<string>
    requires k <= |body.children|
  {
    if k == 0 then [] else BodyLiterals(body, k - 1) + StmtLiteral(body.children[k - 1])
  }

  /** A function's labelled literals: those of its first child, its body. */
  function FuncLiterals(f: Node): seq<string> {
    if f.kind == Function && |f.children| > 0
    then BodyLiterals(f.children[0], |f.children[0].children|)
    else []
  }

  /** The labelled literals of the first k top-level nodes. */
  function ProgramLiterals(ast: Node, k: nat): seq<string>
    requires k <= |ast.children|
  {
    if k == 0 then [] else ProgramLiterals(ast, k - 1) + FuncLiterals(ast.children[k - 1])
  }

  /** Label k holds the k-th labelled literal, in the `db` encoding. */
  function DataLines(vals: seq<string>): (r: seq<string>)
    ensures |r| == |vals|
  {
    seq(|vals|, k requires 0 <= k < |vals| => DbLine(Label(k), vals[k]))
  }

  function DataSection(ast: Node): seq<string> {
    ["section .data", FmtLine] + DataLines(ProgramLiterals(ast, |ast.children|)) + [""]
  }

  lemma DataLinesSnoc(vals: seq<string>, v: string)
    ensures DataLines(vals + [v]) == DataLines(vals) + [DbLine(Label(|vals|), v)]
  {
  }

  /** The data section is the format line, then `str0`, `str1`, ... with no
      gap, label k holding the k-th labelled literal, and nothing else. */
  lemma DataSectionLabels(ast: Node)
    ensures var vals := ProgramLiterals(ast, |ast.children|); var d := DataSection(ast);
      && |d| == |vals| + 3
      && d[0] == "section .data" && d[1] == FmtLine && d[|d| - 1] == ""
      && forall k :: 0 <= k < |vals| ==>
           d[k + 2] == Label(k) + " db " + Body(vals[k]) + ", 0"
  {
    var vals := ProgramLiterals(ast, |ast.children|);
    var dl := DataLines(vals);
    var d := DataSection(ast);
    assert d == ["section .data", FmtLine] + dl + [""];
    forall k | 0 <= k < |vals|
      ensures d[k + 2] == Label(k) + " db " + Body(vals[k]) + ", 0"
    {
      assert d[k + 2] == dl[k] == DbLine(Label(k), vals[k]);
    }
  }

  /** Distinct literals get distinct labels. */
  lemma LabelsDistinct(j: nat, k: nat)
    requires j != k
    ensures Label(j) != Label(k)
  {
    if Label(j) == Label(k) {
      assert Label(j)[3..] == NatToString(j);
      assert Label(k)[3..] == NatToString(k);
      NatToStringInjective(j, k);
    }
  }

  // ---------------------------------------------------------------------
  // Code emission, as a function of the node and the string index it
  // starts with: the lines and the index afterwards.
  // ---------------------------------------------------------------------

  function Gen(n: Node, idx: nat): (r: (seq<string>, nat))
    ensures r.1 >= idx
    decreases n, |n.children| + 1
  {
    match n.kind
    case Function =>
      if n.value == Some("main") then
        var (ls, i) := GenChildren(n, |n.children|, idx);
        (["main:"] + ls, i)
      else ([], idx)
    case Block => GenChildren(n, |n.children|, idx)
    case Print => (PrintLines(idx), idx + 1)
    case Return => (ReturnLines(ExitCode(n)), idx)
    case _ => ([], idx)
  }

  /** The lowering of the first k children of n, in order. */
  function GenChildren(n: Node, k: nat, idx: nat): (r: (seq<string>, nat))
    requires k <= |n.children|
    ensures r.1 >= idx
    decreases n, k
  {
    if k == 0 then ([], idx)
    else
      var (a, i) := GenChildren(n, k - 1, idx);
      var (b, j) := Gen(n.children[k - 1], i);
      (a + b, j)
  }

  /** The whole file `generate_asm_to_file` writes. */
  function AsmFile(ast: Node): seq<string> {
    DataSection(ast) + TextHeader + GenChildren(ast, |ast.children|, 0).0
  }

  // ---------------------------------------------------------------------
  // What the emitted code does with the string index and the stack.
  // ---------------------------------------------------------------------

  /** The number of Print statements the lowering reaches: those in a
      function named main, through any nesting of blocks. */
  function Lowered(n: Node): nat
    decreases n, |n.children| + 1
  {
    match n.kind
    case Function => if n.value == Some("main") then LoweredIn(n, |n.children|) else 0
    case Block => LoweredIn(n, |n.children|)
    case Print => 1
    case _ => 0
  }

  function LoweredIn(n: Node, k: nat): nat
    requires k <= |n.children|
    decreases n, k
  {
    if k == 0 then 0 else LoweredIn(n, k - 1) + Lowered(n.children[k - 1])
  }

  /** The label index a line passes to printf in RDX, if it is such a line. */
  function RefIndex(l: string): Option<nat> {
    if |l| >= |RefPrefix| && l[..|RefPrefix|] == RefPrefix then
      var rest := l[|RefPrefix|..];
      var k := DigitRun(rest);
      if k > 0 then Some(DigitsValue(rest[..k])) else None
    else None
  }

  /** The label indices referenced by a sequence of lines, in order. */
  function Refs(ls: seq<string>): seq<nat>
    decreases |ls|
  {
    if ls == [] then []
    else
      var r := RefIndex(ls[|ls| - 1]);
      Refs(ls[..|ls| - 1]) + (if r.Some? then [r.value] else [])
  }

  function Range(a: nat, b: nat): (r: seq<nat>)
    requires a <= b
    ensures |r| == b - a && forall i :: 0 <= i < b - a ==> r[i] == a + i
  {
    seq(b - a, i requires 0 <= i < b - a => a + i)
  }

  lemma RangeAppend(a: nat, b: nat, c: nat)
    requires a <= b <= c
    ensures Range(a, b) + Range(b, c) == Range(a, c)
  {
  }

  /** The stack space a line allocates (shadow space only). */
  function Delta(l: string): int {
    if l == SubRsp then 32 else if l == AddRsp then -32 else 0
  }

  function Net(ls: seq<string>): int
    decreases |ls|
  {
    if ls == [] then 0 else Net(ls[..|ls| - 1]) + Delta(ls[|ls| - 1])
  }

  lemma {:induction false} RefsAppend(a: seq<string>, b: seq<string>)
    ensures Refs(a + b) == Refs(a) + Refs(b)
    decreases |b|
  {
    if b != [] {
      var n := |b| - 1;
      assert (a + b)[..|a| + n] == a + b[..n];
      RefsAppend(a, b[..n]);
    } else {
      assert a + b == a;
    }
  }

  lemma {:induction false} NetAppend(a: seq<string>, b: seq<string>)
    ensures Net(a + b) == Net(a) + Net(b)
    decreases |b|
  {
    if b != [] {
      var n := |b| - 1;
      assert (a + b)[..|a| + n] == a + b[..n];
      NetAppend(a, b[..n]);
    } else {
      assert a + b == a;
    }
  }

  lemma RefIndexOfPrint(k: nat)
    ensures RefIndex(RdxLine(k)) == Some(k)
  {
    var d := NatToString(k);
    var tail := "]     ; RDX = &string";
    var l := RefPrefix + d + tail;
    assert l[..|RefPrefix|] == RefPrefix;
    assert l[|RefPrefix|..] == d + tail;
    DigitRunPrefix(d, tail);
    assert (d + tail)[..|d|] == d;
    NatToStringValue(k);
  }

  /** A line that differs from the RDX prefix somewhere passes no label. */
  lemma NotRef(l: string, i: nat)
    requires i < |l| && i < |RefPrefix| && l[i] != RefPrefix[i]
    ensures RefIndex(l) == None
  {
    if |l| >= |RefPrefix| {
      assert l[..|RefPrefix|][i] != RefPrefix[i];
    }
  }

  lemma FixedLinesPassNoLabel()
    ensures RefIndex(SubRsp) == None && RefIndex(AddRsp) == None
    ensures RefIndex(LeaFmt) == None && RefIndex(CallPrintf) == None
    ensures RefIndex(CallExit) == None
  {
    NotRef(SubRsp, 4);
    NotRef(AddRsp, 4);
    NotRef(LeaFmt, 9);
    NotRef(CallPrintf, 4);
    NotRef(CallExit, 4);
  }

  function RefOf(l: string): seq<nat> {
    if RefIndex(l).Some? then [RefIndex(l).value] else []
  }

  lemma RefsCons(l: string, ls: seq<string>)
    ensures Refs([l] + ls) == RefOf(l) + Refs(ls)
  {
    RefsAppend([l], ls);
    assert [l][..0] == [];
  }

  lemma NetCons(l: string, ls: seq<string>)
    ensures Net([l] + ls) == Delta(l) + Net(ls)
  {
    NetAppend([l], ls);
    assert [l][..0] == [];
  }

  /** A Print block references its label, and frees what it allocates. */
  lemma PrintLinesMeaning(k: nat)
    ensures Refs(PrintLines(k)) == [k]
    ensures Net(PrintLines(k)) == 0
  {
    PrintLinesRefs(k);
    PrintLinesNet(k);
  }

  lemma PrintLinesRefs(k: nat)
    ensures Refs(PrintLines(k)) == [k]
  {
    var ls := PrintLines(k);
    var e := [ls[4]] + [];
    var d := [ls[3]] + e;
    var c := [ls[2]] + d;
    var b := [ls[1]] + c;
    assert ls == [ls[0]] + b;
    RefIndexOfPrint(k);
    FixedLinesPassNoLabel();
    RefsCons(ls[4], []);
    RefsCons(ls[3], e);
    RefsCons(ls[2], d);
    RefsCons(ls[1], c);
    RefsCons(ls[0], b);
  }

  lemma PrintLinesNet(k: nat)
    ensures Net(PrintLines(k)) == 0
  {
    var ls := PrintLines(k);
    var e := [ls[4]] + [];
    var d := [ls[3]] + e;
    var c := [ls[2]] + d;
    var b := [ls[1]] + c;
    assert ls == [ls[0]] + b;
    assert RdxLine(k)[4] == 'l';
    NetCons(ls[4], []);
    NetCons(ls[3], e);
    NetCons(ls[2], d);
    NetCons(ls[1], c);
    NetCons(ls[0], b);
  }

  /** A Return block references no label, and frees what it allocates. */
  lemma ReturnLinesMeaning(imm: string)
    ensures Refs(ReturnLines(imm)) == []
    ensures Net(ReturnLines(imm)) == 0
  {
    var ls := ReturnLines(imm);
    var d := [ls[3]] + [];
    var c := [ls[2]] + d;
    var b := [ls[1]] + c;
    assert ls == [ls[0]] + b;
    assert EcxLine(imm)[4] == 'm';
    FixedLinesPassNoLabel();
    NotRef(ls[1], 4);
    RefsCons(ls[3], []);
    RefsCons(ls[2], d);
    RefsCons(ls[1], c);
    RefsCons(ls[0], b);
    NetCons(ls[3], []);
    NetCons(ls[2], d);
    NetCons(ls[1], c);
    NetCons(ls[0], b);
  }

  /** The lowering references `str{idx}`, `str{idx+1}`, ... in order, one
      per Print it reaches, and advances the string index by that many. */
  lemma {:induction false} GenRefs(n: Node, idx: nat)
    ensures Gen(n, idx).1 == idx + Lowered(n)
    ensures Refs(Gen(n, idx).0) == Range(idx, Gen(n, idx).1)
    decreases n, |n.children| + 1
  {
    match n.kind
    case Function =>
      if n.value == Some("main") {
        GenChildrenRefs(n, |n.children|, idx);
        RefsAppend(["main:"], GenChildren(n, |n.children|, idx).0);
        assert Refs(["main:"]) == [] by { assert ["main:"][..0] == []; }
      } else {
        assert Range(idx, idx) == [];
      }
    case Block => GenChildrenRefs(n, |n.children|, idx);
    case Print => PrintLinesMeaning(idx);
    case Return => ReturnLinesMeaning(ExitCode(n));
    case _ => assert Range(idx, idx) == [];
  }

  lemma {:induction false} GenChildrenRefs(n: Node, k: nat, idx: nat)
    requires k <= |n.children|
    ensures GenChildren(n, k, idx).1 == idx + LoweredIn(n, k)
    ensures Refs(GenChildren(n, k, idx).0) == Range(idx, GenChildren(n, k, idx).1)
    decreases n, k
  {
    if k == 0 {
      assert Range(idx, idx) == [];
    } else {
      var (a, i) := GenChildren(n, k - 1, idx);
      var (b, j) := Gen(n.children[k - 1], i);
      GenChildrenRefs(n, k - 1, idx);
      GenRefs(n.children[k - 1], i);
      RefsAppend(a, b);
      RangeAppend(idx, i, j);
    }
  }

  /** Every shadow space the lowering allocates, it frees. */
  lemma {:induction false} GenStackBalanced(n: Node, idx: nat)
    ensures Net(Gen(n, idx).0) == 0
    decreases n, |n.children| + 1
  {
    match n.kind
    case Function =>
      if n.value == Some("main") {
        GenChildrenStackBalanced(n, |n.children|, idx);
        NetAppend(["main:"], GenChildren(n, |n.children|, idx).0);
        assert Net(["main:"]) == 0 by { assert ["main:"][..0] == []; }
      }
    case Block => GenChildrenStackBalanced(n, |n.children|, idx);
    case Print => PrintLinesMeaning(idx);
    case Return => ReturnLinesMeaning(ExitCode(n));
    case _ =>
  }

  lemma {:induction false} GenChildrenStackBalanced(n: Node, k: nat, idx: nat)
    requires k <= |n.children|
    ensures Net(GenChildren(n, k, idx).0) == 0
    decreases n, k
  {
    if k > 0 {
      var (a, i) := GenChildren(n, k - 1, idx);
      GenChildrenStackBalanced(n, k - 1, idx);
      GenStackBalanced(n.children[k - 1], i);
      NetAppend(a, Gen(n.children[k - 1], i).0);
    }
  }

  /** Only a function named main is lowered, and only functions, blocks,
      Print and Return statements emit anything. */
  lemma OnlyMainEmits(n: Node, idx: nat)
    requires n.kind == Function ==> n.value != Some("main")
    requires n.kind != Block && n.kind != Print && n.kind != Return
    ensures Gen(n, idx) == ([], idx)
  {
  }

  /** A Return lowers to a call of exit with its first child's text, or 0
      when it has none, inside its own shadow space; it uses no label. */
  lemma ReturnLowering(n: Node, idx: nat)
    requires n.kind == Return
    ensures Gen(n, idx).1 == idx
    ensures |n.children| > 0 && n.children[0].value.Some? ==>
      Gen(n, idx).0 == [SubRsp, EcxLine(n.children[0].value.value), CallExit, AddRsp]
    ensures |n.children| == 0 || n.children[0].value.None? ==>
      Gen(n, idx).0 == [SubRsp, EcxLine("0"), CallExit, AddRsp]
  {
  }

  // ---------------------------------------------------------------------
  // The whole file
  // ---------------------------------------------------------------------

  lemma {:induction false} RefsNone(ls: seq<string>)
    requires forall i :: 0 <= i < |ls| ==> RefIndex(ls[i]) == None
    ensures Refs(ls) == []
    decreases |ls|
  {
    if ls != [] {
      RefsNone(ls[..|ls| - 1]);
    }
  }

  lemma {:induction false} NetNone(ls: seq<string>)
    requires forall i :: 0 <= i < |ls| ==> Delta(ls[i]) == 0
    ensures Net(ls) == 0
    decreases |ls|
  {
    if ls != [] {
      NetNone(ls[..|ls| - 1]);
    }
  }

  /** A line that does not start with a blank is neither a shadow-space
      line nor a printf argument. */
  lemma UnindentedLine(l: string)
    requires l == [] || l[0] != ' '
    ensures RefIndex(l) == None && Delta(l) == 0
  {
    if l != [] {
      NotRef(l, 0);
      assert SubRsp[0] == ' ' && AddRsp[0] == ' ';
    }
  }

  /** Neither the data section nor the header passes a label or touches
      the stack. */
  lemma PreambleInert(ast: Node)
    ensures Refs(DataSection(ast) + TextHeader) == []
    ensures Net(DataSection(ast) + TextHeader) == 0
  {
    var vals := ProgramLiterals(ast, |ast.children|);
    var ls := DataSection(ast) + TextHeader;
    forall i | 0 <= i < |ls|
      ensures RefIndex(ls[i]) == None && Delta(ls[i]) == 0
    {
      if 2 <= i < |vals| + 2 {
        assert ls[i] == DbLine(Label(i - 2), vals[i - 2]);
        assert ls[i][0] == 's';
      } else {
        assert ls[i] in {"section .data", FmtLine, "", "section .text", "extern printf", "extern exit", "global main"};
      }
      UnindentedLine(ls[i]);
    }
    RefsNone(ls);
    NetNone(ls);
  }

  /** out.asm passes printf the labels str0, str1, ... in order, one per
      Print lowered in main, and leaves the stack as it found it. */
  lemma AsmFileMeaning(ast: Node)
    ensures Refs(AsmFile(ast)) == Range(0, LoweredIn(ast, |ast.children|))
    ensures Net(AsmFile(ast)) == 0
  {
    var code := GenChildren(ast, |ast.children|, 0).0;
    PreambleInert(ast);
    GenChildrenRefs(ast, |ast.children|, 0);
    GenChildrenStackBalanced(ast, |ast.children|, 0);
    RefsAppend(DataSection(ast) + TextHeader, code);
    NetAppend(DataSection(ast) + TextHeader, code);
  }

  // ---------------------------------------------------------------------
  // Data labels against printf references. The data section labels every
  // Print of a literal in every function's body; the lowering numbers
  // every Print it reaches in main. The two agree on trees of the shape
  // the parser builds when only main prints, and only literals.
  // ---------------------------------------------------------------------

  predicate StmtAligned(st: Node, inMain: bool) {
    st.kind != Block && st.kind != Function
    && (st.kind == Print ==> inMain && StmtLiteral(st) != [])
  }

  predicate FunctionAligned(f: Node) {
    f.kind == Function && |f.children| == 1 && f.children[0].kind == Block
    && forall j :: 0 <= j < |f.children[0].children| ==>
         StmtAligned(f.children[0].children[j], f.value == Some("main"))
  }

  predicate Aligned(ast: Node) {
    forall i :: 0 <= i < |ast.children| ==> FunctionAligned(ast.children[i])
  }

  lemma {:induction false} BodyAligned(body: Node, k: nat, inMain: bool)
    requires k <= |body.children|
    requires forall j :: 0 <= j < |body.children| ==> StmtAligned(body.children[j], inMain)
    ensures inMain ==> LoweredIn(body, k) == |BodyLiterals(body, k)|
    ensures !inMain ==> BodyLiterals(body, k) == []
    decreases k
  {
    if k > 0 {
      BodyAligned(body, k - 1, inMain);
      var st := body.children[k - 1];
      assert StmtAligned(st, inMain);
      if st.kind == Print {
        assert |StmtLiteral(st)| == 1 && Lowered(st) == 1;
      } else {
        assert StmtLiteral(st) == [] && Lowered(st) == 0;
      }
    }
  }

  lemma FunctionLabels(f: Node)
    requires FunctionAligned(f)
    ensures Lowered(f) == |FuncLiterals(f)|
  {
    var body := f.children[0];
    BodyAligned(body, |body.children|, f.value == Some("main"));
    if f.value == Some("main") {
      assert LoweredIn(f, 1) == Lowered(body);
    }
  }

  lemma {:induction false} ProgramLabels(ast: Node, k: nat)
    requires k <= |ast.children| && Aligned(ast)
    ensures LoweredIn(ast, k) == |ProgramLiterals(ast, k)|
    decreases k
  {
    if k > 0 {
      ProgramLabels(ast, k - 1);
      FunctionLabels(ast.children[k - 1]);
    }
  }

  /** When only main prints, and only literals, the k-th printf call gets
      str{k}: every reference has its label and every label is used. */
  lemma LabelsMatchReferences(ast: Node)
    requires Aligned(ast)
    ensures Refs(AsmFile(ast)) == Range(0, |ProgramLiterals(ast, |ast.children|)|)
  {
    ProgramLabels(ast, |ast.children|);
    AsmFileMeaning(ast);
  }

  function PrintOf(arg: Node): Node {
    Node(Print, None, [arg])
  }

  function FunctionOf(name: string, stmts: seq<Node>): Node {
    Node(Function, Some(name), [Node(Block, None, stmts)])
  }

  /** A literal printed in another function takes str0, so main's own
      print is passed the other function's text and str1 is never used. */
  lemma PrintElsewhereShiftsLabels()
    ensures var ast := Node(Program, None, [
              FunctionOf("helper", [PrintOf(Node(Literal, Some("\"a\""), []))]),
              FunctionOf("main", [PrintOf(Node(Literal, Some("\"b\""), []))])]);
      && ProgramLiterals(ast, 2) == ["\"a\"", "\"b\""]
      && Refs(AsmFile(ast)) == [0]
  {
    var ast := Node(Program, None, [
      FunctionOf("helper", [PrintOf(Node(Literal, Some("\"a\""), []))]),
      FunctionOf("main", [PrintOf(Node(Literal, Some("\"b\""), []))])]);
    AsmFileMeaning(ast);
    assert LoweredIn(ast, 2) == 1 by {
      var main := ast.children[1];
      assert LoweredIn(main.children[0], 1) == 1;
      assert LoweredIn(main, 1) == 1;
    }
  }

  /** Printing a name gives no data label but still takes an index, so
      the program refers to str0 while defining no label at all. */
  lemma PrintOfNameHasNoLabel()
    ensures var ast := Node(Program, None, [
              FunctionOf("main", [PrintOf(Node(Identifier, Some("x"), []))])]);
      && ProgramLiterals(ast, 1) == []
      && Refs(AsmFile(ast)) == [0]
  {
    var ast := Node(Program, None, [
      FunctionOf("main", [PrintOf(Node(Identifier, Some("x"), []))])]);
    AsmFileMeaning(ast);
    assert LoweredIn(ast, 1) == 1 by {
      var main := ast.children[0];
      assert LoweredIn(main.children[0], 1) == 1;
      assert LoweredIn(main, 1) == 1;
    }
  }

  // ---------------------------------------------------------------------
  // The generator object: the output file as the lines written so far and
  // the `CodegenCtx` string index.
  // ---------------------------------------------------------------------

  class Codegen {
    var lines: seq<string>
    var strIndex: nat

    constructor ()
      ensures lines == [] && strIndex == 0
    {
      lines, strIndex := [], 0;
    }

    /** `emit_data_section`. */
    method EmitDataSection(ast: Node)
      modifies this
      ensures lines == old(lines) + DataSection(ast)
      ensures strIndex == old(strIndex)
    {
      lines := lines + ["section .data"];
      lines := lines + [FmtLine];
      ghost var l0 := lines;
      assert l0 == old(lines) + ["section .data", FmtLine];
      ghost var vals: seq<string> := [];
      var strCount := 0;
      var i := 0;
      while i < |ast.children|
        invariant i <= |ast.children| && strIndex == old(strIndex)
        invariant vals == ProgramLiterals(ast, i)
        invariant strCount == |vals| && lines == l0 + DataLines(vals)
      {
        var f := ast.children[i];
        if f.kind == Function && |f.children| > 0 {
          strCount := EmitBodyData(f.children[0], strCount, l0, vals);
        }
        vals := vals + FuncLiterals(f);
        i := i + 1;
      }
      ConcatAssoc(old(lines), ["section .data", FmtLine], DataLines(vals));
      lines := lines + [""];
    }

    /** The inner loop of `emit_data_section`: one label per labelled
        literal of a function body, numbered on from strCount. */
    method EmitBodyData(body: Node, strCount: nat, ghost l0: seq<string>, ghost before: seq<string>)
      returns (count: nat)
      requires strCount == |before| && lines == l0 + DataLines(before)
      modifies this
      ensures count == |before + BodyLiterals(body, |body.children|)|
      ensures lines == l0 + DataLines(before + BodyLiterals(body, |body.children|))
      ensures strIndex == old(strIndex)
    {
      count := strCount;
      ghost var vals := before;
      var j := 0;
      while j < |body.children|
        invariant j <= |body.children| && strIndex == old(strIndex)
        invariant vals == before + BodyLiterals(body, j)
        invariant count == |vals| && lines == l0 + DataLines(vals)
      {
        var st := body.children[j];
        if st.kind == Print && |st.children| > 0 {
          var lit := st.children[0];
          if lit.kind == Literal && lit.value.Some? {
            var line := EmitDbString(Label(count), lit.value.value);
            DataLinesSnoc(vals, lit.value.value);
            lines := lines + [line];
            count := count + 1;
          }
        }
        ConcatAssoc(before, BodyLiterals(body, j), StmtLiteral(st));
        vals := vals + StmtLiteral(st);
        j := j + 1;
      }
    }

    /** `emit_text_section_header`. */
    method EmitTextHeader()
      modifies this
      ensures lines == old(lines) + TextHeader
      ensures strIndex == old(strIndex)
    {
      lines := lines + ["section .text"];
      lines := lines + ["extern printf"];
      lines := lines + ["extern exit"];
      lines := lines + ["global main", ""];
    }

    /** `gen_node`. */
    method GenNode(n: Node)
      modifies this
      ensures lines == old(lines) + Gen(n, old(strIndex)).0
      ensures strIndex == Gen(n, old(strIndex)).1
      decreases n, 1
    {
      match n.kind
      case Function =>
        if n.value == Some("main") {
          lines := lines + ["main:"];
          GenEach(n);
          ConcatAssoc(old(lines), ["main:"], GenChildren(n, |n.children|, old(strIndex)).0);
        }
      case Block =>
        GenEach(n);
      case Print =>
        lines := lines + PrintLines(strIndex);
        strIndex := strIndex + 1;
      case Return =>
        lines := lines + ReturnLines(ExitCode(n));
      case _ =>
        assert lines == old(lines) + [];
    }

    /** The loop over a node's children that `gen_node` runs for a function
        and for a block. */
    method GenEach(n: Node)
      modifies this
      ensures lines == old(lines) + GenChildren(n, |n.children|, old(strIndex)).0
      ensures strIndex == GenChildren(n, |n.children|, old(strIndex)).1
      decreases n, 0
    {
      var i := 0;
      while i < |n.children|
        invariant i <= |n.children|
        invariant lines == old(lines) + GenChildren(n, i, old(strIndex)).0
        invariant strIndex == GenChildren(n, i, old(strIndex)).1
      {
        ghost var a := GenChildren(n, i, old(strIndex)).0;
        GenNode(n.children[i]);
        ConcatAssoc(old(lines), a, Gen(n.children[i], GenChildren(n, i, old(strIndex)).1).0);
        i := i + 1;
      }
    }
  }

  /** `generate_asm_to_file`: the lines of out.asm. */
  method GenerateAsm(ast: Node) returns (out: seq<string>)
    ensures out == AsmFile(ast)
  {
    var g := new Codegen();
    g.EmitDataSection(ast);
    g.EmitTextHeader();
    var i := 0;
    while i < |ast.children|
      invariant i <= |ast.children|
      invariant g.lines == DataSection(ast) + TextHeader + GenChildren(ast, i, 0).0
      invariant g.strIndex == GenChildren(ast, i, 0).1
    {
      ghost var a := GenChildren(ast, i, 0).0;
      g.GenNode(ast.children[i]);
      ConcatAssoc(DataSection(ast) + TextHeader, a, Gen(ast.children[i], GenChildren(ast, i, 0).1).0);
      i := i + 1;
    }
    out := g.lines;
  }
}
