/**
 * The Python++ graphics generator (compilers/wpy++/gra.pyppintoasm.c).
 *
 * Two passes over the tree. `collect_strings` walks the whole tree in
 * pre-order and gives every literal whose text starts with a double quote
 * the next label `strN` of a counter that lives for the whole process: the
 * label's data line is written, and the literal's text is overwritten with
 * the label. `gen_node` then lowers the calls `graphics.Init`, `Clear`,
 * `DrawText`, `DrawRect` and `Loop` found in `main` to calls into the
 * graphics runtime, the arguments in RCX, RDX, R8 and R9.
 *
 * The overwriting is modelled on values: the pass returns the rewritten
 * tree, which the lowering then reads.
 */
module PyppGraAsm {
  import opened CLib
  import opened PyppAst
  import opened PyppAsm64

  // ---------------------------------------------------------------------
  // String collection
  // ---------------------------------------------------------------------

  /** A literal the collection pass gives a label to: its text starts
      with a double quote. */
  predicate IsStringLit(n: Node) {
    n.kind == Literal && n.value.Some? && |n.value.value| > 0 && n.value.value[0] == '"'
  }

  /** `"%s db %s,0"`: the literal's text is written as it is, quotes and all. */
  function GraDataLine(k: nat, v: string): string {
    Label(k) + " db " + v + ",0"
  }

  /** `collect_strings` on n with the counter at k: the rewritten tree, the
      data lines written and the counter afterwards. */
  function Collect(n: Node, k: nat): (r: (Node, seq<string>, nat))
    decreases n
  {
    var (self, d0, k0) :=
      if IsStringLit(n) then (n.(value := Some(Label(k))), [GraDataLine(k, n.value.value)], k + 1)
      else (n, [], k);
    var (kids, d1, k1) := CollectSeq(n.children, k0);
    (self.(children := kids), d0 + d1, k1)
  }

  /** The loop over the children, left to right. */
  function CollectSeq(ks: seq<Node>, k: nat): (r: (seq<Node>, seq<string>, nat))
    ensures |r.0| == |ks|
    decreases ks
  {
    if ks == [] then ([], [], k)
    else
      var m := |ks| - 1;
      var (a, d, k1) := CollectSeq(ks[..m], k);
      var (c, e, k2) := Collect(ks[m], k1);
      (a + [c], d + e, k2)
  }

  // ---------------------------------------------------------------------
  // A reference description: the tree read in pre-order, one entry per
  // node with its kind, its text and its number of children. The
  // pre-order sequence with the counts determines the tree.
  // ---------------------------------------------------------------------

  datatype Entry = Entry(kind: NodeType, value: Option<string>, arity: nat)

  function PreOrder(n: Node): seq<Entry>
    decreases n
  {
    [Entry(n.kind, n.value, |n.children|)] + PreOrderSeq(n.children)
  }

  function PreOrderSeq(ks: seq<Node>): seq<Entry>
    decreases ks
  {
    if ks == [] then [] else PreOrderSeq(ks[..|ks| - 1]) + PreOrder(ks[|ks| - 1])
  }

  predicate IsStringEntry(e: Entry) {
    e.kind == Literal && e.value.Some? && |e.value.value| > 0 && e.value.value[0] == '"'
  }

  /** The number of string literals among the entries. */
  function CountStrings(es: seq<Entry>): nat
    decreases |es|
  {
    if es == [] then 0
    else CountStrings(es[..|es| - 1]) + (if IsStringEntry(es[|es| - 1]) then 1 else 0)
  }

  /** The entries with the string literals' texts replaced by `strK`, `strK+1`,
      ... counted left to right from k; every other entry unchanged. */
  function Relabel(es: seq<Entry>, k: nat): seq<Entry>
    decreases |es|
  {
    if es == [] then []
    else
      var m := |es| - 1;
      var e := es[m];
      Relabel(es[..m], k)
      + [if IsStringEntry(e) then e.(value := Some(Label(k + CountStrings(es[..m])))) else e]
  }

  /** The data lines for the string literals among the entries, numbered
      from k in the same order. */
  function StringLines(es: seq<Entry>, k: nat): seq<string>
    decreases |es|
  {
    if es == [] then []
    else
      var m := |es| - 1;
      StringLines(es[..m], k)
      + (if IsStringEntry(es[m]) then [GraDataLine(k + CountStrings(es[..m]), es[m].value.value)] else [])
  }

  lemma {:induction false} CountStringsAppend(a: seq<Entry>, b: seq<Entry>)
    ensures CountStrings(a + b) == CountStrings(a) + CountStrings(b)
    decreases |b|
  {
    if b != [] {
      var m := |b| - 1;
      assert (a + b)[..|a| + m] == a + b[..m];
      CountStringsAppend(a, b[..m]);
    } else {
      assert a + b == a;
    }
  }

  lemma {:induction false} RelabelAppend(a: seq<Entry>, b: seq<Entry>, k: nat)
    ensures Relabel(a + b, k) == Relabel(a, k) + Relabel(b, k + CountStrings(a))
    ensures StringLines(a + b, k) == StringLines(a, k) + StringLines(b, k + CountStrings(a))
    decreases |b|
  {
    if b != [] {
      var m := |b| - 1;
      assert (a + b)[..|a| + m] == a + b[..m];
      assert (a + b)[|a| + m] == b[m];
      RelabelAppend(a, b[..m], k);
      CountStringsAppend(a, b[..m]);
    } else {
      assert a + b == a;
    }
  }

  /** What one node contributes before its children. */
  lemma RelabelHead(n: Node, k: nat)
    ensures var e := Entry(n.kind, n.value, |n.children|);
      && CountStrings([e]) == (if IsStringLit(n) then 1 else 0)
      && Relabel([e], k) == [if IsStringLit(n) then e.(value := Some(Label(k))) else e]
      && StringLines([e], k) == (if IsStringLit(n) then [GraDataLine(k, n.value.value)] else [])
  {
    var e := Entry(n.kind, n.value, |n.children|);
    assert [e][..0] == [];
  }

  /** The collection pass, read in pre-order: the k-th string literal met
      gets label `str{k}` in the tree and the k-th data line; nothing else
      in the tree changes, and the counter ends past the last label. */
  lemma {:induction false} CollectMeaning(n: Node, k: nat)
    ensures var (n', d, k') := Collect(n, k);
      && PreOrder(n') == Relabel(PreOrder(n), k)
      && d == StringLines(PreOrder(n), k)
      && k' == k + CountStrings(PreOrder(n))
    decreases n
  {
    var (self, d0, k0) :=
      if IsStringLit(n) then (n.(value := Some(Label(k))), [GraDataLine(k, n.value.value)], k + 1)
      else (n, [], k);
    var (kids, d1, k1) := CollectSeq(n.children, k0);
    var e := Entry(n.kind, n.value, |n.children|);
    CollectSeqMeaning(n.children, k0);
    RelabelHead(n, k);
    RelabelAppend([e], PreOrderSeq(n.children), k);
    CountStringsAppend([e], PreOrderSeq(n.children));
  }

  lemma {:induction false} CollectSeqMeaning(ks: seq<Node>, k: nat)
    ensures var (ks', d, k') := CollectSeq(ks, k);
      && PreOrderSeq(ks') == Relabel(PreOrderSeq(ks), k)
      && d == StringLines(PreOrderSeq(ks), k)
      && k' == k + CountStrings(PreOrderSeq(ks))
    decreases ks
  {
    if ks != [] {
      var m := |ks| - 1;
      var (a, d, k1) := CollectSeq(ks[..m], k);
      var (c, e, k2) := Collect(ks[m], k1);
      CollectSeqMeaning(ks[..m], k);
      CollectMeaning(ks[m], k1);
      RelabelAppend(PreOrderSeq(ks[..m]), PreOrder(ks[m]), k);
      CountStringsAppend(PreOrderSeq(ks[..m]), PreOrder(ks[m]));
      assert (a + [c])[..m] == a;
    }
  }

  /** A label does not start with a double quote. */
  lemma RelabelNoStrings(es: seq<Entry>, k: nat)
    ensures CountStrings(Relabel(es, k)) == 0
    decreases |es|
  {
    if es != [] {
      var m := |es| - 1;
      RelabelNoStrings(es[..m], k);
      CountStringsAppend(Relabel(es[..m], k), Relabel([es[m]], k + CountStrings(es[..m])));
      assert Relabel([es[m]], k + CountStrings(es[..m]))[..0] == [];
    }
  }

  lemma {:induction false} StringLinesNone(es: seq<Entry>, k: nat)
    requires CountStrings(es) == 0
    ensures StringLines(es, k) == []
    decreases |es|
  {
    if es != [] {
      StringLinesNone(es[..|es| - 1], k);
    }
  }

  /** After one pass no literal starts with a quote, so running the pass
      again (the counter is never reset) writes no data line and leaves
      the tree and the counter as they are. */
  lemma CollectTwice(n: Node, k: nat, k2: nat)
    ensures var (n', _, _) := Collect(n, k);
      var (n'', d, k3) := Collect(n', k2);
      PreOrder(n'') == PreOrder(n') && d == [] && k3 == k2
  {
    var (n', _, _) := Collect(n, k);
    CollectMeaning(n, k);
    CollectMeaning(n', k2);
    RelabelNoStrings(PreOrder(n), k);
    RelabelUnchanged(PreOrder(n'), k2);
    StringLinesNone(PreOrder(n'), k2);
  }

  lemma {:induction false} RelabelUnchanged(es: seq<Entry>, k: nat)
    requires CountStrings(es) == 0
    ensures Relabel(es, k) == es
    decreases |es|
  {
    if es != [] {
      var m := |es| - 1;
      RelabelUnchanged(es[..m], k);
      assert es[..m] + [es[m]] == es;
    }
  }

  // ---------------------------------------------------------------------
  // Lowering of graphics calls
  // ---------------------------------------------------------------------

  const GraphicsPrefix: string := "graphics."

  /** `strncmp(value, "graphics.", 9) == 0`. */
  predicate HasGraphicsPrefix(v: string) {
    |v| >= 9 && v[..9] == GraphicsPrefix
  }

  /** The number of children `gen_node` reads for a graphics method, for
      the methods it knows. */
  function Arity(m: string): Option<nat> {
    if m == "Init" then Some(3)
    else if m == "Clear" then Some(1)
    else if m == "DrawText" then Some(3)
    else if m == "DrawRect" then Some(4)
    else if m == "Loop" then Some(0)
    else None
  }

  /** The method of a node that calls a known graphics method. */
  function Method(n: Node): Option<string> {
    if n.kind == NodeType.Identifier && n.value.Some? && HasGraphicsPrefix(n.value.value)
       && Arity(n.value.value[9..]).Some?
    then Some(n.value.value[9..])
    else None
  }

  /** What `gen_node` needs of a tree: every graphics call it lowers has
      at least as many children as its method reads, each with a text.
      The C code reads `children[0..arity-1]` unchecked. */
  predicate Lowerable(n: Node)
    decreases n
  {
    if n.kind == Function then n.value == Some("main") ==> LowerableSeq(n.children)
    else if n.kind == Block then LowerableSeq(n.children)
    else Method(n).Some? ==> CallReady(n)
  }

  /** A graphics call with the children its method reads, each with a text. */
  predicate CallReady(n: Node) {
    Method(n).Some? &&
    var a := Arity(Method(n).value).value;
    |n.children| >= a && forall j :: 0 <= j < a ==> n.children[j].value.Some?
  }

  predicate LowerableSeq(ks: seq<Node>)
    decreases ks
  {
    ks != [] ==> LowerableSeq(ks[..|ks| - 1]) && Lowerable(ks[|ks| - 1])
  }

  function Arg(n: Node, j: nat): string
    requires j < |n.children| && n.children[j].value.Some?
  {
    n.children[j].value.value
  }

  /** The texts of the first `arity` children, the call's arguments. */
  function Args(n: Node): seq<string>
    requires CallReady(n)
  {
    var a := Arity(Method(n).value).value;
    seq(a, j requires 0 <= j < a => Arg(n, j))
  }

  /** The lines `gen_node` writes for a call of method m, as it writes them. */
  function LinesFor(m: string, a: seq<string>): seq<string>
    requires Arity(m).Some? && |a| == Arity(m).value
  {
    if m == "Init" then
      ["    lea rcx, [rel " + a[0] + "]", "    mov rdx, " + a[1], "    mov r8, " + a[2], "    call graphics_Init"]
    else if m == "Clear" then
      ["    lea rcx, [rel " + a[0] + "]", "    call graphics_Clear"]
    else if m == "DrawText" then
      ["    mov rcx, " + a[0], "    mov rdx, " + a[1], "    lea r8, [rel " + a[2] + "]", "    call graphics_DrawText"]
    else if m == "DrawRect" then
      ["    mov rcx, " + a[0], "    mov rdx, " + a[1], "    mov r8, " + a[2], "    mov r9, " + a[3],
       "    call graphics_DrawRect"]
    else
      ["    call graphics_Loop"]
  }

  function CallLines(n: Node): seq<string>
    requires CallReady(n)
  {
    LinesFor(Method(n).value, Args(n))
  }

  /** `gen_node`. */
  function GraGen(n: Node): seq<string>
    requires Lowerable(n)
    decreases n
  {
    if n.kind == Function then (if n.value == Some("main") then GraGenSeq(n.children) else [])
    else if n.kind == Block then GraGenSeq(n.children)
    else if Method(n).Some? then CallLines(n)
    else []
  }

  function GraGenSeq(ks: seq<Node>): seq<string>
    requires LowerableSeq(ks)
    decreases ks
  {
    if ks == [] then [] else GraGenSeq(ks[..|ks| - 1]) + GraGen(ks[|ks| - 1])
  }

  const GraTextHeader: seq<string> :=
    ["section .text", "extern graphics_Init", "extern graphics_Clear", "extern graphics_DrawText",
     "extern graphics_DrawRect", "extern graphics_Loop", "global WinMain", "", "WinMain:"]

  const GraEpilogue: seq<string> := ["    xor eax, eax", "    ret"]

  /** The whole of outgra.asm, written with the counter at k: the data lines
      of the collection pass, then the lowering of the rewritten tree's
      top-level nodes, then a return of 0 from WinMain. */
  function GraFile(ast: Node, k: nat): seq<string>
    requires LowerableSeq(Collect(ast, k).0.children)
  {
    var (ast', data, _) := Collect(ast, k);
    ["section .data"] + data + [""] + GraTextHeader + GraGenSeq(ast'.children) + GraEpilogue
  }

  // ---------------------------------------------------------------------
  // The Windows x64 convention, as a reference: argument j goes in the
  // j-th of RCX, RDX, R8, R9; a string goes by address (`lea`), a number
  // by value (`mov`).
  // ---------------------------------------------------------------------

  const ArgRegs: seq<string> := ["rcx", "rdx", "r8", "r9"]

  /** Which arguments of a method are strings passed by address. */
  function Signature(m: string): seq<bool> {
    if m == "Init" then [true, false, false]
    else if m == "Clear" then [true]
    else if m == "DrawText" then [false, false, true]
    else if m == "DrawRect" then [false, false, false, false]
    else []
  }

  function LeaPrefix(j: nat): string
    requires j < 4
  {
    "    lea " + ArgRegs[j] + ", [rel "
  }

  function MovPrefix(j: nat): string
    requires j < 4
  {
    "    mov " + ArgRegs[j] + ", "
  }

  function ArgLine(j: nat, byAddress: bool, v: string): string
    requires j < 4
  {
    if byAddress then LeaPrefix(j) + v + "]" else MovPrefix(j) + v
  }

  lemma RegisterPrefixes()
    ensures LeaPrefix(0) == "    lea rcx, [rel " && LeaPrefix(2) == "    lea r8, [rel "
    ensures MovPrefix(0) == "    mov rcx, " && MovPrefix(1) == "    mov rdx, "
    ensures MovPrefix(2) == "    mov r8, " && MovPrefix(3) == "    mov r9, "
  {
  }

  function ConventionLines(m: string, args: seq<string>): seq<string>
    requires |Signature(m)| <= 4 && |args| >= |Signature(m)|
  {
    seq(|Signature(m)|, j requires 0 <= j < |Signature(m)| => ArgLine(j, Signature(m)[j], args[j]))
    + ["    call graphics_" + m]
  }

  /** Every known method takes at most four arguments, so all of them fit
      in registers, and `gen_node` reads exactly that many children. */
  lemma SignatureFits(m: string)
    requires Arity(m).Some?
    ensures |Signature(m)| == Arity(m).value <= 4
  {
  }

  /** Each graphics call passes its j-th argument in the j-th argument
      register, by address for strings and by value for numbers, and then
      calls the runtime entry point named after the method. */
  lemma CallLinesFollowConvention(m: string, a: seq<string>)
    requires Arity(m).Some? && |a| == Arity(m).value
    ensures |Signature(m)| == |a| && LinesFor(m, a) == ConventionLines(m, a)
  {
    if m == "Init" || m == "DrawText" {
      ThreeArgConvention(m, a);
    } else if m == "Clear" {
      ClearConvention(a);
    } else if m == "DrawRect" {
      DrawRectConvention(a);
    } else {
      EntryPointNames();
      assert ConventionLines(m, a) == ["    call graphics_" + "Loop"];
    }
  }

  /** The two three-argument calls, `Init` and `DrawText`. */
  lemma ThreeArgConvention(m: string, a: seq<string>)
    requires (m == "Init" || m == "DrawText") && |a| == 3
    ensures ConventionLines(m, a) == LinesFor(m, a)
  {
    var sig := Signature(m);
    RegisterPrefixes();
    EntryPointNames();
    assert ConventionLines(m, a)
      == [ArgLine(0, sig[0], a[0]), ArgLine(1, sig[1], a[1]), ArgLine(2, sig[2], a[2])] + ["    call graphics_" + m];
  }

  lemma ClearConvention(a: seq<string>)
    requires |a| == 1
    ensures ConventionLines("Clear", a) == LinesFor("Clear", a)
  {
    var sig := Signature("Clear");
    RegisterPrefixes();
    EntryPointNames();
    assert ConventionLines("Clear", a) == [ArgLine(0, sig[0], a[0])] + ["    call graphics_" + "Clear"];
  }

  lemma DrawRectConvention(a: seq<string>)
    requires |a| == 4
    ensures ConventionLines("DrawRect", a) == LinesFor("DrawRect", a)
  {
    var sig := Signature("DrawRect");
    RegisterPrefixes();
    EntryPointNames();
    assert ConventionLines("DrawRect", a)
      == [ArgLine(0, sig[0], a[0]), ArgLine(1, sig[1], a[1]), ArgLine(2, sig[2], a[2]), ArgLine(3, sig[3], a[3])]
         + ["    call graphics_" + "DrawRect"];
  }

  lemma EntryPointNames()
    ensures "    call graphics_" + "Init" == "    call graphics_Init"
    ensures "    call graphics_" + "Clear" == "    call graphics_Clear"
    ensures "    call graphics_" + "DrawText" == "    call graphics_DrawText"
    ensures "    call graphics_" + "DrawRect" == "    call graphics_DrawRect"
    ensures "    call graphics_" + "Loop" == "    call graphics_Loop"
  {
  }

  /** A statement that is not a known graphics call writes nothing: an
      identifier without the prefix or with an unknown method, a print, or
      any other kind of node; so does every function but main. */
  lemma OnlyGraphicsCallsEmit(n: Node)
    requires n.kind != Block && Method(n).None?
    requires n.kind == Function ==> n.value != Some("main")
    ensures Lowerable(n) && GraGen(n) == []
  {
  }

  /** Unlike the console generator, the graphics lowering writes neither
      the shadow-space reservation nor its release around the runtime calls. */
  lemma {:induction false} NoStackAdjustment(n: Node)
    requires Lowerable(n)
    ensures forall l <- GraGen(n) :: Delta(l) == 0
    decreases n
  {
    if n.kind == Function {
      if n.value == Some("main") { NoStackAdjustmentSeq(n.children); }
    } else if n.kind == Block {
      NoStackAdjustmentSeq(n.children);
    } else if Method(n).Some? {
      forall l <- CallLines(n) ensures Delta(l) == 0 {
        assert l[4] != SubRsp[4];
      }
    }
  }

  lemma {:induction false} NoStackAdjustmentSeq(ks: seq<Node>)
    requires LowerableSeq(ks)
    ensures forall l <- GraGenSeq(ks) :: Delta(l) == 0
    decreases ks
  {
    if ks != [] {
      NoStackAdjustmentSeq(ks[..|ks| - 1]);
      NoStackAdjustment(ks[|ks| - 1]);
    }
  }

  /** The collection pass changes only literals, so whatever the lowering
      could read before, it can read after. */
  lemma {:induction false} CollectKeepsLowerable(n: Node, k: nat)
    requires Lowerable(n)
    ensures Lowerable(Collect(n, k).0)
    decreases n
  {
    var (self, _, k0) :=
      if IsStringLit(n) then (n.(value := Some(Label(k))), [GraDataLine(k, n.value.value)], k + 1)
      else (n, [], k);
    var (kids, _, _) := CollectSeq(n.children, k0);
    var n' := self.(children := kids);
    assert n' == Collect(n, k).0;
    assert n'.kind == n.kind && (n.kind != Literal ==> n'.value == n.value);
    CollectSeqKeeps(n.children, k0, (n.kind == Function && n.value == Some("main")) || n.kind == Block);
    if Method(n).Some? {
      var a := Arity(Method(n).value).value;
      forall j | 0 <= j < a ensures n'.children[j].value.Some? {
        CollectSeqValue(n.children, k0, j);
      }
    }
  }

  lemma {:induction false} CollectSeqKeeps(ks: seq<Node>, k: nat, deep: bool)
    requires deep ==> LowerableSeq(ks)
    ensures deep ==> LowerableSeq(CollectSeq(ks, k).0)
    decreases ks
  {
    if ks != [] && deep {
      var m := |ks| - 1;
      var (a, _, k1) := CollectSeq(ks[..m], k);
      var c := Collect(ks[m], k1).0;
      CollectSeqKeeps(ks[..m], k, deep);
      CollectKeepsLowerable(ks[m], k1);
      assert (a + [c])[..m] == a;
    }
  }

  /** A child with a text still has one after the pass. */
  lemma {:induction false} CollectSeqValue(ks: seq<Node>, k: nat, j: nat)
    requires j < |ks| && ks[j].value.Some?
    ensures CollectSeq(ks, k).0[j].value.Some?
    decreases ks
  {
    var m := |ks| - 1;
    var (a, _, k1) := CollectSeq(ks[..m], k);
    if j < m {
      CollectSeqValue(ks[..m], k, j);
    }
  }

  lemma GraFileDefined(ast: Node, k: nat)
    requires LowerableSeq(ast.children)
    ensures LowerableSeq(Collect(ast, k).0.children)
  {
    var k0 := if IsStringLit(ast) then k + 1 else k;
    CollectSeqKeeps(ast.children, k0, true);
  }

  /** The loop over the children handles the first child first: its
      rewriting and its data lines come before the others'. */
  lemma {:induction false} CollectSeqHead(ks: seq<Node>, k: nat)
    requires |ks| > 0
    ensures CollectSeq(ks, k).0[0] == Collect(ks[0], k).0
    ensures Collect(ks[0], k).1 <= CollectSeq(ks, k).1
    decreases ks
  {
    var m := |ks| - 1;
    if m == 0 {
      assert ks[..0] == [];
    } else {
      CollectSeqHead(ks[..m], k);
    }
  }

  /** The string passed first to `graphics.Init` or `graphics.Clear` (the
      window title, the clear colour) reaches the runtime by address: its
      literal gets the next label, whose data line is the first the call
      contributes, and the call loads that label's address into RCX. */
  lemma FirstArgByLabel(n: Node, k: nat)
    requires Lowerable(n) && (Method(n) == Some("Init") || Method(n) == Some("Clear"))
    requires IsStringLit(n.children[0])
    ensures var (n', d, _) := Collect(n, k);
      Lowerable(n') && Method(n') == Method(n)
      && CallLines(n')[0] == "    lea rcx, [rel " + Label(k) + "]"
      && |d| > 0 && d[0] == GraDataLine(k, n.children[0].value.value)
  {
    CollectKeepsLowerable(n, k);
    CollectSeqHead(n.children, k);
    var c := n.children[0];
    assert Collect(c, k).1 == [GraDataLine(k, c.value.value)] + CollectSeq(c.children, k + 1).1;
  }

  // ---------------------------------------------------------------------
  // The generator: the output file and the process-wide `str_counter`.
  // ---------------------------------------------------------------------

  class GraCodegen {
    var out: seq<string>
    var strCounter: nat

    constructor ()
      ensures out == [] && strCounter == 0
    {
      out, strCounter := [], 0;
    }

    /** `emit_string_label`: writes the data line and returns the literal
        with the label as its text. */
    method EmitStringLabel(lit: Node) returns (lit': Node)
      requires IsStringLit(lit)
      modifies this
      ensures out == old(out) + [GraDataLine(old(strCounter), lit.value.value)]
      ensures strCounter == old(strCounter) + 1
      ensures lit' == lit.(value := Some(Label(old(strCounter))))
    {
      var lab := Label(strCounter);
      strCounter := strCounter + 1;
      out := out + [lab + " db " + lit.value.value + ",0"];
      lit' := lit.(value := Some(lab));
    }

    /** `collect_strings`. */
    method CollectStrings(n: Node) returns (n': Node)
      modifies this
      ensures out == old(out) + Collect(n, old(strCounter)).1
      ensures n' == Collect(n, old(strCounter)).0 && strCounter == Collect(n, old(strCounter)).2
      decreases n, 1
    {
      n' := n;
      if n.kind == Literal && n.value.Some? && |n.value.value| > 0 && n.value.value[0] == '"' {
        n' := EmitStringLabel(n);
      }
      ghost var mid := out;
      var kids := CollectEach(n.children);
      n' := n'.(children := kids);
    }

    /** The loop over the children in `collect_strings`. */
    method CollectEach(ks: seq<Node>) returns (ks': seq<Node>)
      modifies this
      ensures out == old(out) + CollectSeq(ks, old(strCounter)).1
      ensures ks' == CollectSeq(ks, old(strCounter)).0 && strCounter == CollectSeq(ks, old(strCounter)).2
      decreases ks, 0
    {
      ks' := [];
      var i := 0;
      assert ks[..0] == [] && out[|old(out)|..] == [];
      while i < |ks|
        invariant i <= |ks|
        invariant |old(out)| <= |out| && out[..|old(out)|] == old(out)
        invariant CollectSeq(ks[..i], old(strCounter)) == (ks', out[|old(out)|..], strCounter)
      {
        assert ks[..i + 1][..i] == ks[..i];
        ghost var before := out;
        var c := CollectStrings(ks[i]);
        assert out[|old(out)|..] == before[|old(out)|..] + out[|before|..];
        ks' := ks' + [c];
        i := i + 1;
      }
      assert ks[..i] == ks;
      assert out == old(out) + out[|old(out)|..];
    }

    /** `gen_node`. */
    method GenNode(n: Node)
      requires Lowerable(n)
      modifies this`out
      ensures out == old(out) + GraGen(n)
      decreases n, 1
    {
      if n.kind == Function {
        if n.value == Some("main") {
          GenEach(n.children);
        }
      } else if n.kind == Block {
        GenEach(n.children);
      } else if Method(n).Some? {
        out := out + CallLines(n);
      }
    }

    method GenEach(ks: seq<Node>)
      requires LowerableSeq(ks)
      modifies this`out
      ensures out == old(out) + GraGenSeq(ks)
      decreases ks, 0
    {
      var i := 0;
      while i < |ks|
        invariant i <= |ks| && LowerableSeq(ks[..i])
        invariant out == old(out) + GraGenSeq(ks[..i])
      {
        assert ks[..i + 1][..i] == ks[..i];
        LowerablePrefix(ks, i + 1);
        GenNode(ks[i]);
        i := i + 1;
      }
      assert ks[..i] == ks;
    }

    /** `gra_generate_asm_to_file`: rewrites outgra.asm. The counter goes
        on from wherever an earlier call left it. */
    method Generate(ast: Node) returns (ast': Node)
      requires LowerableSeq(ast.children)
      modifies this
      ensures LowerableSeq(Collect(ast, old(strCounter)).0.children)
      ensures out == GraFile(ast, old(strCounter))
      ensures ast' == Collect(ast, old(strCounter)).0 && strCounter == Collect(ast, old(strCounter)).2
    {
      GraFileDefined(ast, strCounter);
      out := ["section .data"];
      ast' := CollectStrings(ast);
      out := out + [""];
      out := out + GraTextHeader;
      GenEach(ast'.children);
      out := out + GraEpilogue;
    }
  }

  lemma {:induction false} LowerablePrefix(ks: seq<Node>, i: nat)
    requires i <= |ks| && LowerableSeq(ks)
    ensures LowerableSeq(ks[..i]) && (i > 0 ==> Lowerable(ks[i - 1]))
    decreases |ks|
  {
    if i < |ks| {
      assert ks[..|ks| - 1][..i] == ks[..i];
      LowerablePrefix(ks[..|ks| - 1], i);
    } else {
      assert ks[..i] == ks;
    }
  }

  /** Two generations in one process: the second numbers its labels on
      from where the first stopped. */
  method GenerateTwice(a: Node, b: Node) returns (first: seq<string>, second: seq<string>)
    requires LowerableSeq(a.children) && LowerableSeq(b.children)
    ensures LowerableSeq(Collect(a, 0).0.children)
    ensures var k := Collect(a, 0).2;
      LowerableSeq(Collect(b, k).0.children)
      && first == GraFile(a, 0) && second == GraFile(b, k)
  {
    var g := new GraCodegen();
    var _ := g.Generate(a);
    first := g.out;
    var _ := g.Generate(b);
    second := g.out;
  }
}
