/**
 * The Python++ 32-bit NASM generator (compilers/wpy++/pyppintoasm32.c).
 *
 * It labels the same literals as the 64-bit generator, but writes each
 * literal's text as it is, and passes arguments on the stack: a Print
 * pushes its label, calls printf and pops the argument again; a Return
 * pushes its exit code and calls exit, which does not come back.
 */
module PyppAsm32 {
  import opened CLib
  import opened PyppAst
  import opened PyppAsm64

  const TextHeader32: seq<string> := ["section .text", "extern printf", "extern exit", "global main", ""]
  const PushPrefix: string := "    push "
  const AddEsp: string := "    add esp, 4"

  function PushLine(x: string): string {
    PushPrefix + x
  }

  function Print32(k: nat): seq<string> {
    [PushLine(Label(k)), CallPrintf, AddEsp]
  }

  function Return32(imm: string): seq<string> {
    [PushLine(imm), CallExit]
  }

  /** `str%d db %s, 0`: the literal's text is written unencoded. */
  function DataLine32(k: nat, v: string): string {
    Label(k) + " db " + v + ", 0"
  }

  function DataLines32(vals: seq<string>): (r: seq<string>)
    ensures |r| == |vals|
  {
    seq(|vals|, k requires 0 <= k < |vals| => DataLine32(k, vals[k]))
  }

  function DataSection32(ast: Node): seq<string> {
    ["section .data"] + DataLines32(ProgramLiterals(ast, |ast.children|)) + [""]
  }

  lemma DataLines32Snoc(vals: seq<string>, v: string)
    ensures DataLines32(vals + [v]) == DataLines32(vals) + [DataLine32(|vals|, v)]
  {
  }

  /** The 32-bit data section labels the same literals as the 64-bit one,
      `str0`, `str1`, ... with no gap, each holding its literal's own text,
      and has no format line. */
  lemma DataSection32Labels(ast: Node)
    ensures var vals := ProgramLiterals(ast, |ast.children|); var d := DataSection32(ast);
      && |d| == |vals| + 2 && d[0] == "section .data" && d[|d| - 1] == ""
      && (forall k :: 0 <= k < |vals| ==> d[k + 1] == "str" + NatToString(k) + " db " + vals[k] + ", 0")
      && |d| + 1 == |DataSection(ast)|
  {
    var vals := ProgramLiterals(ast, |ast.children|);
    var dl := DataLines32(vals);
    var d := DataSection32(ast);
    assert d == ["section .data"] + dl + [""];
    forall k | 0 <= k < |vals|
      ensures d[k + 1] == "str" + NatToString(k) + " db " + vals[k] + ", 0"
    {
      assert d[k + 1] == dl[k] == DataLine32(k, vals[k]);
    }
  }

  // ---------------------------------------------------------------------
  // Code emission
  // ---------------------------------------------------------------------

  function Gen32(n: Node, idx: nat): (r: (seq<string>, nat))
    ensures r.1 >= idx
    decreases n, |n.children| + 1
  {
    match n.kind
    case Function =>
      if n.value == Some("main") then
        var (ls, i) := Gen32Children(n, |n.children|, idx);
        (["main:"] + ls, i)
      else ([], idx)
    case Block => Gen32Children(n, |n.children|, idx)
    case Print => (Print32(idx), idx + 1)
    case Return => (Return32(ExitCode(n)), idx)
    case _ => ([], idx)
  }

  function Gen32Children(n: Node, k: nat, idx: nat): (r: (seq<string>, nat))
    requires k <= |n.children|
    ensures r.1 >= idx
    decreases n, k
  {
    if k == 0 then ([], idx)
    else
      var (a, i) := Gen32Children(n, k - 1, idx);
      var (b, j) := Gen32(n.children[k - 1], i);
      (a + b, j)
  }

  /** The whole of out32.asm. */
  function Asm32File(ast: Node): seq<string> {
    DataSection32(ast) + TextHeader32 + Gen32Children(ast, |ast.children|, 0).0
  }

  // ---------------------------------------------------------------------
  // The stack: a push takes 4 bytes, `add esp, 4` gives them back.
  // ---------------------------------------------------------------------

  function Delta32(l: string): int {
    if |l| >= |PushPrefix| && l[..|PushPrefix|] == PushPrefix then 4
    else if l == AddEsp then -4
    else 0
  }

  function Net32(ls: seq<string>): int
    decreases |ls|
  {
    if ls == [] then 0 else Net32(ls[..|ls| - 1]) + Delta32(ls[|ls| - 1])
  }

  /** The Return statements the lowering reaches. */
  function Exits(n: Node): nat
    decreases n, |n.children| + 1
  {
    match n.kind
    case Function => if n.value == Some("main") then ExitsIn(n, |n.children|) else 0
    case Block => ExitsIn(n, |n.children|)
    case Return => 1
    case _ => 0
  }

  function ExitsIn(n: Node, k: nat): nat
    requires k <= |n.children|
    decreases n, k
  {
    if k == 0 then 0 else ExitsIn(n, k - 1) + Exits(n.children[k - 1])
  }

  lemma {:induction false} Net32Append(a: seq<string>, b: seq<string>)
    ensures Net32(a + b) == Net32(a) + Net32(b)
    decreases |b|
  {
    if b != [] {
      var n := |b| - 1;
      assert (a + b)[..|a| + n] == a + b[..n];
      Net32Append(a, b[..n]);
    } else {
      assert a + b == a;
    }
  }

  lemma Net32Cons(l: string, ls: seq<string>)
    ensures Net32([l] + ls) == Delta32(l) + Net32(ls)
  {
    Net32Append([l], ls);
    assert [l][..0] == [];
  }

  lemma PushDelta(x: string)
    ensures Delta32(PushLine(x)) == 4
  {
    assert PushLine(x)[..|PushPrefix|] == PushPrefix;
  }

  lemma FixedLinesDelta32()
    ensures Delta32(CallPrintf) == 0 && Delta32(CallExit) == 0 && Delta32(AddEsp) == -4
    ensures Delta32("main:") == 0
  {
    assert CallPrintf[4] != PushPrefix[4] && CallPrintf[..|PushPrefix|][4] == CallPrintf[4];
    assert CallExit[4] != PushPrefix[4] && CallExit[..|PushPrefix|][4] == CallExit[4];
    assert AddEsp[4] != PushPrefix[4] && AddEsp[..|PushPrefix|][4] == AddEsp[4];
  }

  /** A Print pops the argument it pushed. */
  lemma Print32Balanced(k: nat)
    ensures Net32(Print32(k)) == 0
  {
    var ls := Print32(k);
    var c := [ls[2]] + [];
    var b := [ls[1]] + c;
    assert ls == [ls[0]] + b;
    PushDelta(Label(k));
    FixedLinesDelta32();
    Net32Cons(ls[2], []);
    Net32Cons(ls[1], c);
    Net32Cons(ls[0], b);
  }

  /** A Return leaves its pushed exit code on the stack: exit does not
      return, and nothing cleans up after it. */
  lemma Return32Leaves(imm: string)
    ensures Net32(Return32(imm)) == 4
  {
    var ls := Return32(imm);
    var b := [ls[1]] + [];
    assert ls == [ls[0]] + b;
    PushDelta(imm);
    FixedLinesDelta32();
    Net32Cons(ls[1], []);
    Net32Cons(ls[0], b);
  }

  /** The lowering advances the string index once per Print, and the only
      stack left behind is one word per Return. */
  lemma {:induction false} Gen32Meaning(n: Node, idx: nat)
    ensures Gen32(n, idx).1 == idx + Lowered(n)
    ensures Net32(Gen32(n, idx).0) == 4 * Exits(n)
    decreases n, |n.children| + 1
  {
    match n.kind
    case Function =>
      if n.value == Some("main") {
        Gen32ChildrenMeaning(n, |n.children|, idx);
        Net32Cons("main:", Gen32Children(n, |n.children|, idx).0);
        FixedLinesDelta32();
      }
    case Block => Gen32ChildrenMeaning(n, |n.children|, idx);
    case Print => Print32Balanced(idx);
    case Return => Return32Leaves(ExitCode(n));
    case _ =>
  }

  lemma {:induction false} Gen32ChildrenMeaning(n: Node, k: nat, idx: nat)
    requires k <= |n.children|
    ensures Gen32Children(n, k, idx).1 == idx + LoweredIn(n, k)
    ensures Net32(Gen32Children(n, k, idx).0) == 4 * ExitsIn(n, k)
    decreases n, k
  {
    if k > 0 {
      var (a, i) := Gen32Children(n, k - 1, idx);
      Gen32ChildrenMeaning(n, k - 1, idx);
      Gen32Meaning(n.children[k - 1], i);
      Net32Append(a, Gen32(n.children[k - 1], i).0);
    }
  }

  /** The 32-bit lowering emits code exactly where the 64-bit one does and
      uses the same string indices. */
  lemma {:induction false} SameIndicesAs64(n: Node, idx: nat)
    ensures Gen32(n, idx).1 == Gen(n, idx).1
    ensures Gen32(n, idx).0 == [] <==> Gen(n, idx).0 == []
    decreases n, |n.children| + 1
  {
    match n.kind
    case Function =>
      if n.value == Some("main") {
        SameIndicesAs64Children(n, |n.children|, idx);
      }
    case Block => SameIndicesAs64Children(n, |n.children|, idx);
    case _ =>
  }

  lemma {:induction false} SameIndicesAs64Children(n: Node, k: nat, idx: nat)
    requires k <= |n.children|
    ensures Gen32Children(n, k, idx).1 == GenChildren(n, k, idx).1
    ensures Gen32Children(n, k, idx).0 == [] <==> GenChildren(n, k, idx).0 == []
    decreases n, k
  {
    if k > 0 {
      SameIndicesAs64Children(n, k - 1, idx);
      SameIndicesAs64(n.children[k - 1], Gen32Children(n, k - 1, idx).1);
    }
  }

  /** Only a function named main is lowered, and only functions, blocks,
      Print and Return statements emit anything. */
  lemma OnlyMainEmits32(n: Node, idx: nat)
    requires n.kind == Function ==> n.value != Some("main")
    requires n.kind != Block && n.kind != Print && n.kind != Return
    ensures Gen32(n, idx) == ([], idx)
  {
  }

  /** A Return pushes its first child's text, or 0 when it has none. */
  lemma Return32Lowering(n: Node, idx: nat)
    requires n.kind == Return
    ensures Gen32(n, idx).1 == idx
    ensures |n.children| > 0 && n.children[0].value.Some? ==>
      Gen32(n, idx).0 == [PushPrefix + n.children[0].value.value, CallExit]
    ensures |n.children| == 0 || n.children[0].value.None? ==>
      Gen32(n, idx).0 == [PushPrefix + "0", CallExit]
  {
  }

  // ---------------------------------------------------------------------
  // The generator object
  // ---------------------------------------------------------------------

  class Codegen32 {
    var lines: seq<string>
    var strIndex: nat

    constructor ()
      ensures lines == [] && strIndex == 0
    {
      lines, strIndex := [], 0;
    }

    /** `emit_data_section`. */
    method EmitDataSection(ast: Node)
      modifies this
      ensures lines == old(lines) + DataSection32(ast)
      ensures strIndex == old(strIndex)
    {
      lines := lines + ["section .data"];
      ghost var l0 := lines;
      ghost var vals: seq<string> := [];
      var strCount := 0;
      var i := 0;
      while i < |ast.children|
        invariant i <= |ast.children| && strIndex == old(strIndex)
        invariant vals == ProgramLiterals(ast, i)
        invariant strCount == |vals| && lines == l0 + DataLines32(vals)
      {
        var f := ast.children[i];
        if f.kind == Function && |f.children| > 0 {
          strCount := EmitBodyData(f.children[0], strCount, l0, vals);
        }
        vals := vals + FuncLiterals(f);
        i := i + 1;
      }
      ConcatAssoc(old(lines), ["section .data"], DataLines32(vals));
      lines := lines + [""];
    }

    /** The inner loop of `emit_data_section`. */
    method EmitBodyData(body: Node, strCount: nat, ghost l0: seq<string>, ghost before: seq<string>)
      returns (count: nat)
      requires strCount == |before| && lines == l0 + DataLines32(before)
      modifies this
      ensures count == |before + BodyLiterals(body, |body.children|)|
      ensures lines == l0 + DataLines32(before + BodyLiterals(body, |body.children|))
      ensures strIndex == old(strIndex)
    {
      count := strCount;
      ghost var vals := before;
      var j := 0;
      while j < |body.children|
        invariant j <= |body.children| && strIndex == old(strIndex)
        invariant vals == before + BodyLiterals(body, j)
        invariant count == |vals| && lines == l0 + DataLines32(vals)
      {
        var st := body.children[j];
        if st.kind == Print && |st.children| > 0 {
          var lit := st.children[0];
          if lit.kind == Literal && lit.value.Some? {
            DataLines32Snoc(vals, lit.value.value);
            lines := lines + [DataLine32(count, lit.value.value)];
            count := count + 1;
          }
        }
        ConcatAssoc(before, BodyLiterals(body, j), StmtLiteral(st));
        vals := vals + StmtLiteral(st);
        j := j + 1;
      }
    }

    /** `emit_text_header`. */
    method EmitTextHeader()
      modifies this
      ensures lines == old(lines) + TextHeader32
      ensures strIndex == old(strIndex)
    {
      lines := lines + ["section .text"];
      lines := lines + ["extern printf"];
      lines := lines + ["extern exit"];
      lines := lines + ["global main", ""];
    }

    /** `gen_node`. */
    method GenNode(n: Node)
      modifies this
      ensures lines == old(lines) + Gen32(n, old(strIndex)).0
      ensures strIndex == Gen32(n, old(strIndex)).1
      decreases n, 1
    {
      match n.kind
      case Function =>
        if n.value == Some("main") {
          lines := lines + ["main:"];
          GenEach(n);
          ConcatAssoc(old(lines), ["main:"], Gen32Children(n, |n.children|, old(strIndex)).0);
        }
      case Block =>
        GenEach(n);
      case Print =>
        lines := lines + Print32(strIndex);
        strIndex := strIndex + 1;
      case Return =>
        lines := lines + Return32(ExitCode(n));
      case _ =>
        assert lines == old(lines) + [];
    }

    /** The loop over a node's children in `gen_node`. */
    method GenEach(n: Node)
      modifies this
      ensures lines == old(lines) + Gen32Children(n, |n.children|, old(strIndex)).0
      ensures strIndex == Gen32Children(n, |n.children|, old(strIndex)).1
      decreases n, 0
    {
      var i := 0;
      while i < |n.children|
        invariant i <= |n.children|
        invariant lines == old(lines) + Gen32Children(n, i, old(strIndex)).0
        invariant strIndex == Gen32Children(n, i, old(strIndex)).1
      {
        ghost var a := Gen32Children(n, i, old(strIndex)).0;
        GenNode(n.children[i]);
        ConcatAssoc(old(lines), a, Gen32(n.children[i], Gen32Children(n, i, old(strIndex)).1).0);
        i := i + 1;
      }
    }
  }

  /** `generate_asm32`: the lines of out32.asm. */
  method GenerateAsm32(ast: Node) returns (out: seq<string>)
    ensures out == Asm32File(ast)
  {
    var g := new Codegen32();
    g.EmitDataSection(ast);
    g.EmitTextHeader();
    var i := 0;
    while i < |ast.children|
      invariant i <= |ast.children|
      invariant g.lines == DataSection32(ast) + TextHeader32 + Gen32Children(ast, i, 0).0
      invariant g.strIndex == Gen32Children(ast, i, 0).1
    {
      ghost var a := Gen32Children(ast, i, 0).0;
      g.GenNode(ast.children[i]);
      ConcatAssoc(DataSection32(ast) + TextHeader32, a, Gen32(ast.children[i], Gen32Children(ast, i, 0).1).0);
      i := i + 1;
    }
    out := g.lines;
  }
}
