/** The Python+ tree-walking interpreter (interpilers/wpy+/interpiler.c):
    a fixed table of 256 variables filled in declaration order and
    searched from the front, so the first declaration of a name wins;
    standard output and standard error are the text written so far. */
module WpyInterp {
  import opened CLib
  import opened WpyAst
  import WpyTokens
  import WpyParser

  /** `variables[256]`. */
  const TableSize: nat := 256

  /** The three kinds of value a variable holds (`VAR_INT`, `VAR_CHAR`,
      `VAR_STRING` and the union beside them). */
  datatype Value = IntVal(i: int) | CharVal(c: char) | StrVal(s: string)

  datatype Variable = Variable(name: string, value: Value)

  // ---------------------------------------------------------------------
  // The symbol table
  // ---------------------------------------------------------------------

  /** The first index at or after v holding `name`. */
  function FindFrom(t: seq<Variable>, name: string, v: nat): (r: Option<nat>)
    requires v <= |t|
    ensures r.Some? ==> v <= r.value < |t| && t[r.value].name == name
    ensures r.Some? ==> forall m :: v <= m < r.value ==> t[m].name != name
    ensures r.None? ==> forall m :: v <= m < |t| ==> t[m].name != name
    decreases |t| - v
  {
    if v == |t| then None
    else if t[v].name == name then Some(v)
    else FindFrom(t, name, v + 1)
  }

  /** The value the lookup loops find for `name`. */
  function Lookup(t: seq<Variable>, name: string): Option<Value> {
    var k := FindFrom(t, name, 0);
    if k.Some? then Some(t[k.value].value) else None
  }

  /** The lookup finds v exactly when some entry names it with value v and
      no earlier entry has that name. */
  lemma LookupFirst(t: seq<Variable>, name: string, v: Value)
    ensures Lookup(t, name) == Some(v) <==>
      exists k :: 0 <= k < |t| && t[k] == Variable(name, v) && forall m :: 0 <= m < k ==> t[m].name != name
  {
    var r := FindFrom(t, name, 0);
    forall k | 0 <= k < |t| && t[k] == Variable(name, v) && (forall m :: 0 <= m < k ==> t[m].name != name)
      ensures r == Some(k)
    {
      assert r.Some?;
      assert !(r.value < k);
      assert !(k < r.value);
    }
    if r.Some? {
      assert t[r.value] == Variable(name, t[r.value].value);
    }
  }

  /** Nothing found means no entry has the name. */
  lemma LookupNone(t: seq<Variable>, name: string)
    ensures Lookup(t, name).None? <==> forall k :: 0 <= k < |t| ==> t[k].name != name
  {
    var r := FindFrom(t, name, 0);
    if r.Some? {
      assert t[r.value].name == name;
    }
  }

  /** An earlier declaration shadows every later one of the same name. */
  lemma {:induction false} LookupShadow(t: seq<Variable>, extra: seq<Variable>, name: string)
    requires Lookup(t, name).Some?
    ensures Lookup(t + extra, name) == Lookup(t, name)
  {
    var k := FindFrom(t, name, 0).value;
    LookupFirst(t, name, t[k].value);
    LookupFirst(t + extra, name, t[k].value);
    assert (t + extra)[k] == t[k];
    assert forall m :: 0 <= m < k ==> (t + extra)[m] == t[m];
  }

  /** A name declared for the first time is found with its new value. */
  lemma {:induction false} LookupNewest(t: seq<Variable>, x: Variable)
    requires Lookup(t, x.name).None?
    ensures Lookup(t + [x], x.name) == Some(x.value)
  {
    LookupNone(t, x.name);
    LookupFirst(t + [x], x.name, x.value);
    assert (t + [x])[|t|] == x;
    assert forall m :: 0 <= m < |t| ==> (t + [x])[m] == t[m];
  }

  // ---------------------------------------------------------------------
  // Output formatting
  // ---------------------------------------------------------------------

  /** printf's %d, %c and %s of a variable's value. */
  function Render(v: Value): (s: string)
    ensures v.CharVal? ==> s == [v.c]
    ensures v.StrVal? ==> s == v.s
    ensures v.IntVal? ==> Atoi(s) == v.i
  {
    match v
    case IntVal(i) => AtoiOfRendering(i); IntToString(i)
    case CharVal(c) => [c]
    case StrVal(s) => s
  }

  /** What an identifier prints: its value, or `[undefined:name]`. */
  function Show(t: seq<Variable>, name: string): string {
    var v := Lookup(t, name);
    if v.Some? then Render(v.value) else "[undefined:" + name + "]"
  }

  /** What one PRINT argument prints: a literal's text, an identifier's
      value; other kinds print nothing. */
  function ArgText(arg: Node, t: seq<Variable>): string {
    if arg.kind == Literal then arg.value
    else if arg.kind == NodeType.Identifier then Show(t, arg.value)
    else ""
  }

  /** The text the argument loop has printed after i iterations: each
      argument, followed by a space unless it is the last. */
  function Printed(args: seq<Node>, t: seq<Variable>, i: nat): string
    requires i <= |args|
  {
    if i == 0 then ""
    else Printed(args, t, i - 1) + ArgText(args[i - 1], t) + (if i - 1 < |args| - 1 then " " else "")
  }

  lemma PrintedStep(args: seq<Node>, t: seq<Variable>, i: nat)
    requires i < |args|
    ensures Printed(args, t, i + 1) == Printed(args, t, i) + ArgText(args[i], t) + (if i < |args| - 1 then " " else "")
  {
  }

  /** A PRINT node's whole output. */
  function PrintLine(args: seq<Node>, t: seq<Variable>): string {
    Printed(args, t, |args|) + "\n"
  }

  /** The strings joined with one space between neighbours. */
  function JoinSpace(xs: seq<string>): string {
    if |xs| == 0 then ""
    else if |xs| == 1 then xs[0]
    else JoinSpace(xs[..|xs| - 1]) + " " + xs[|xs| - 1]
  }

  function Texts(args: seq<Node>, t: seq<Variable>): (r: seq<string>)
    ensures |r| == |args| && forall k :: 0 <= k < |args| ==> r[k] == ArgText(args[k], t)
  {
    seq(|args|, k requires 0 <= k < |args| => ArgText(args[k], t))
  }

  lemma {:induction false} PrintedIsJoin(args: seq<Node>, t: seq<Variable>, i: nat)
    requires i <= |args|
    ensures Printed(args, t, i) == JoinSpace(Texts(args, t)[..i]) + (if 0 < i < |args| then " " else "")
  {
    if i > 0 {
      PrintedIsJoin(args, t, i - 1);
      var xs := Texts(args, t)[..i];
      assert xs[..i - 1] == Texts(args, t)[..i - 1];
    }
  }

  /** A PRINT line is the argument texts separated by single spaces and
      ended by one newline. */
  lemma PrintLineFormat(args: seq<Node>, t: seq<Variable>)
    ensures PrintLine(args, t) == JoinSpace(Texts(args, t)) + "\n"
  {
    PrintedIsJoin(args, t, |args|);
    assert Texts(args, t)[..|args|] == Texts(args, t);
  }

  /** The last space in s. */
  function LastSpace(s: string): (r: nat)
    requires ' ' in s
    ensures r < |s| && s[r] == ' ' && forall k :: r < k < |s| ==> s[k] != ' '
  {
    if s[|s| - 1] == ' ' then |s| - 1
    else
      assert ' ' in s[..|s| - 1] by {
        var k :| 0 <= k < |s| && s[k] == ' ';
        assert s[..|s| - 1][k] == ' ';
      }
      LastSpace(s[..|s| - 1])
  }

  /** Cutting a line at every space. */
  function SplitSpaces(s: string): seq<string>
    decreases |s|
  {
    if ' ' !in s then [s]
    else var i := LastSpace(s); SplitSpaces(s[..i]) + [s[i + 1..]]
  }

  /** Arguments whose texts hold no space can be read back from the line:
      the separators are exactly the spaces. */
  lemma {:induction false} SplitJoin(xs: seq<string>)
    requires |xs| >= 1 && forall k :: 0 <= k < |xs| ==> ' ' !in xs[k]
    ensures SplitSpaces(JoinSpace(xs)) == xs
  {
    if |xs| == 1 {
    } else {
      var init := xs[..|xs| - 1];
      LastSpaceOfJoin(JoinSpace(init), xs[|xs| - 1]);
      SplitJoin(init);
    }
  }

  /** Appending a space and a word without spaces: the new space is the last one. */
  lemma LastSpaceOfJoin(a: string, last: string)
    requires ' ' !in last
    ensures var s := a + " " + last;
      ' ' in s && LastSpace(s) == |a| && s[..|a|] == a && s[|a| + 1..] == last
  {
    var s := a + " " + last;
    assert s[|a|] == ' ';
    forall k | |a| < k < |s|
      ensures s[k] != ' '
    {
      assert s[k] == last[k - |a| - 1];
    }
    var r := LastSpace(s);
    assert !(r < |a|) && !(r > |a|);
  }

  // ---------------------------------------------------------------------
  // Execution
  // ---------------------------------------------------------------------

  /** What `execute_node` needs of a tree: the three `var_*` fields of
      every declaration it reaches are set. */
  predicate Executable(n: Node)
    decreases n
  {
    && (n.kind == VarDecl ==> n.varType.Some? && n.varName.Some? && n.varValue.Some?)
    && (n.kind == Function ==> forall k :: 0 <= k < |n.children| ==> Executable(n.children[k]))
  }

  /** The entry a declaration appends: `int` is read with atoi, `char`
      keeps the first character, `string` keeps the text; any other type
      declares nothing. */
  function Declared(n: Node): (r: Option<Variable>)
    requires n.kind == VarDecl && Executable(n)
    ensures r.Some? ==> r.value.name == n.varName.value
  {
    var ty, v := n.varType.value, n.varValue.value;
    if ty == "int" then Some(Variable(n.varName.value, IntVal(Atoi(v))))
    else if ty == "char" then Some(Variable(n.varName.value, CharVal(At(v, 0))))
    else if ty == "string" then Some(Variable(n.varName.value, StrVal(v)))
    else None
  }

  /** The number of entries executing n appends. */
  function Added(n: Node): nat
    requires Executable(n)
    decreases n, 1
  {
    if n.kind == Function then AddedSeq(n.children)
    else if n.kind == VarDecl && Declared(n).Some? then 1
    else 0
  }

  function AddedSeq(ks: seq<Node>): nat
    requires forall k :: 0 <= k < |ks| ==> Executable(ks[k])
    decreases ks, 0
  {
    if ks == [] then 0 else AddedSeq(ks[..|ks| - 1]) + Added(ks[|ks| - 1])
  }

  /** `execute_node` on n with the table at t: what it prints and the
      table afterwards. */
  function Exec(n: Node, t: seq<Variable>): (string, seq<Variable>)
    requires Executable(n)
    decreases n, 1
  {
    if n.kind == Function then ExecSeq(n.children, t)
    else if n.kind == VarDecl then
      var d := Declared(n);
      ("", if d.Some? then t + [d.value] else t)
    else if n.kind == Print then (PrintLine(n.children, t), t)
    else if n.kind == Return then ("Program returned: " + n.value + "\n", t)
    else if n.kind == Literal then (n.value, t)
    else (Show(t, n.value), t)
  }

  /** The children executed in order. */
  function ExecSeq(ks: seq<Node>, t: seq<Variable>): (string, seq<Variable>)
    requires forall k :: 0 <= k < |ks| ==> Executable(ks[k])
    decreases ks, 0
  {
    if ks == [] then ("", t)
    else
      var prev := ExecSeq(ks[..|ks| - 1], t);
      var last := Exec(ks[|ks| - 1], prev.1);
      (prev.0 + last.0, last.1)
  }

  /** Execution only appends to the table: one entry per `int`, `char` or
      `string` declaration reached, none for anything else, and the
      entries already there are untouched. */
  lemma {:induction false} ExecExtends(n: Node, t: seq<Variable>)
    requires Executable(n)
    ensures |Exec(n, t).1| == |t| + Added(n) && Exec(n, t).1[..|t|] == t
    decreases n, 1
  {
    if n.kind == Function {
      ExecSeqExtends(n.children, t);
    }
  }

  lemma {:induction false} ExecSeqExtends(ks: seq<Node>, t: seq<Variable>)
    requires forall k :: 0 <= k < |ks| ==> Executable(ks[k])
    ensures |ExecSeq(ks, t).1| == |t| + AddedSeq(ks) && ExecSeq(ks, t).1[..|t|] == t
    decreases ks, 0
  {
    if ks != [] {
      var prev := ExecSeq(ks[..|ks| - 1], t).1;
      ExecSeqExtends(ks[..|ks| - 1], t);
      ExecExtends(ks[|ks| - 1], prev);
      var next := Exec(ks[|ks| - 1], prev).1;
      assert next[..|t|] == next[..|prev|][..|t|];
    }
  }

  /** An `int` declaration of a decimal text reads back as the same text
      when the name is new. */
  lemma IntDeclRoundTrip(t: seq<Variable>, name: string, i: int)
    requires Lookup(t, name).None?
    ensures var n := MakeNode(VarDecl, "").(varType := Some("int"), varName := Some(name), varValue := Some(IntToString(i)));
      Show(Exec(n, t).1, name) == IntToString(i)
  {
    AtoiOfRendering(i);
    LookupNewest(t, Variable(name, IntVal(i)));
  }

  /** A `char` declaration keeps only the first character of its text. */
  lemma CharDeclFirst(t: seq<Variable>, name: string, text: string)
    requires Lookup(t, name).None? && |text| >= 1
    ensures var n := MakeNode(VarDecl, "").(varType := Some("char"), varName := Some(name), varValue := Some(text));
      Show(Exec(n, t).1, name) == text[..1]
  {
    LookupNewest(t, Variable(name, CharVal(text[0])));
  }

  /** The parser's PRINT nodes have no arguments, so they print a bare
      newline; its RETURN nodes print their text. Running a parsed
      program therefore declares nothing and prints one line per child. */
  function ParsedOutput(ks: seq<Node>): string {
    if ks == [] then ""
    else
      var last := ks[|ks| - 1];
      ParsedOutput(ks[..|ks| - 1]) + (if last.kind == Print then "\n" else "Program returned: " + last.value + "\n")
  }

  lemma {:induction false} ExecParsedChildren(ks: seq<Node>, t: seq<Variable>)
    requires forall k :: 0 <= k < |ks| ==> (ks[k].kind == Print || ks[k].kind == NodeType.Return) && ks[k].children == []
    ensures forall k :: 0 <= k < |ks| ==> Executable(ks[k])
    ensures ExecSeq(ks, t) == (ParsedOutput(ks), t)
  {
    if ks != [] {
      ExecParsedChildren(ks[..|ks| - 1], t);
      assert PrintLine([], t) == "\n";
    }
  }

  lemma ParsedProgramOutput(toks: seq<WpyTokens.Token>, flag: bool, t: seq<Variable>)
    requires WpyParser.ParseSpec(toks, flag).0.Some?
    ensures var n := WpyParser.ParseSpec(toks, flag).0.value;
      Executable(n) && Exec(n, t) == (ParsedOutput(n.children), t)
  {
    WpyParser.ParseShape(toks, flag);
    var n := WpyParser.ParseSpec(toks, flag).0.value;
    assert forall c :: c in n.children ==> (c.kind == Print || c.kind == NodeType.Return) && c.children == [];
    ExecParsedChildren(n.children, t);
  }

  /** `run_program` with the table at t: standard output, standard error
      and the table afterwards. */
  function RunSpec(root: Option<Node>, t: seq<Variable>): (string, string, seq<Variable>)
    requires root.Some? && root.value.kind == Function ==> Executable(root.value)
  {
    if root.None? then ("", "No AST to run.\n", t)
    else if root.value.kind == Function then
      var (o, t') := Exec(root.value, t);
      ("Running function: " + root.value.value + "\n" + o, "", t')
    else ("", "Top-level AST is not a function.\n", t)
  }

  /** Only a FUNCTION root is run; anything else writes one error line and
      leaves the output and the table alone. */
  lemma RunOnlyFunctions(root: Option<Node>, t: seq<Variable>)
    requires root.Some? && root.value.kind == Function ==> Executable(root.value)
    ensures var (o, e, t') := RunSpec(root, t);
      && ((root.Some? && root.value.kind == Function) <==> (e == "" && |o| >= 18 && o[..18] == "Running function: "))
      && (!(root.Some? && root.value.kind == Function) ==>
            o == "" && t' == t
            && e == (if root.None? then "No AST to run.\n" else "Top-level AST is not a function.\n"))
  {
  }

  // ---------------------------------------------------------------------
  // The interpreter state
  // ---------------------------------------------------------------------

  class Interpreter {
    /** `variables`: a fixed array, of which the first `varCount` are in use. */
    const variables: array<Variable>
    var varCount: nat
    /** What has been written to standard output and standard error. */
    var out: string
    var err: string

    ghost predicate Valid()
      reads this`varCount
    {
      variables.Length == TableSize && varCount <= TableSize
    }

    /** The declared variables, in declaration order. */
    ghost function Table(): seq<Variable>
      requires Valid()
      reads this`varCount, variables
    {
      variables[..varCount]
    }

    constructor ()
      ensures Valid() && Table() == [] && out == "" && err == ""
    {
      variables := new Variable[TableSize](_ => Variable("", IntVal(0)));
      varCount := 0;
      out, err := "", "";
    }

    /** The lookup loop: the first entry with the name. */
    method Find(name: string) returns (v: Option<Value>)
      requires Valid()
      ensures v == Lookup(Table(), name)
    {
      var k := 0;
      while k < varCount
        invariant k <= varCount
        invariant FindFrom(Table(), name, k) == FindFrom(Table(), name, 0)
      {
        if variables[k].name == name {
          return Some(variables[k].value);
        }
        k := k + 1;
      }
      return None;
    }

    /** What printing an identifier writes. */
    method ShowName(name: string) returns (s: string)
      requires Valid()
      ensures s == Show(Table(), name)
    {
      var v := Find(name);
      if v.Some? {
        s := Render(v.value);
      } else {
        s := "[undefined:" + name + "]";
      }
    }

    /** What printing one PRINT argument writes. */
    method ArgString(arg: Node) returns (s: string)
      requires Valid()
      ensures s == ArgText(arg, Table())
    {
      s := "";
      if arg.kind == Literal {
        s := arg.value;
      } else if arg.kind == NodeType.Identifier {
        s := ShowName(arg.value);
      }
    }

    /** The PRINT case: the argument loop, then the newline. */
    method PrintArgs(args: seq<Node>)
      requires Valid()
      modifies this`out
      ensures out == old(out) + PrintLine(args, Table())
    {
      ghost var t := Table();
      var i := 0;
      while i < |args|
        invariant i <= |args| && Table() == t
        invariant out == old(out) + Printed(args, t, i)
      {
        var text := ArgString(args[i]);
        var sep := if i < |args| - 1 then " " else "";
        PrintedStep(args, t, i);
        ConcatAssoc(old(out), Printed(args, t, i), text);
        ConcatAssoc(old(out), Printed(args, t, i) + text, sep);
        out := out + text + sep;
        i := i + 1;
      }
      out := out + "\n";
    }

    /** `execute_node`. */
    method ExecuteNode(n: Node)
      requires Valid() && Executable(n) && varCount + Added(n) <= TableSize
      modifies this, variables
      ensures Valid() && err == old(err)
      ensures out == old(out) + Exec(n, old(Table())).0 && Table() == Exec(n, old(Table())).1
      decreases n
    {
      if n.kind == Function {
        ExecuteChildren(n.children);
      } else if n.kind == VarDecl {
        Declare(n);
      } else if n.kind == Print {
        PrintArgs(n.children);
      } else if n.kind == Return {
        out := out + "Program returned: " + n.value + "\n";
      } else if n.kind == Literal {
        out := out + n.value;
      } else {
        var text := ShowName(n.value);
        out := out + text;
      }
    }

    /** The FUNCTION case: the children executed in order. */
    method ExecuteChildren(ks: seq<Node>)
      requires Valid() && (forall k :: 0 <= k < |ks| ==> Executable(ks[k])) && varCount + AddedSeq(ks) <= TableSize
      modifies this, variables
      ensures Valid() && err == old(err)
      ensures out == old(out) + ExecSeq(ks, old(Table())).0 && Table() == ExecSeq(ks, old(Table())).1
      decreases ks
    {
      ghost var t0 := Table();
      var i := 0;
      while i < |ks|
        invariant i <= |ks| && Valid() && err == old(err)
        invariant out == old(out) + ExecSeq(ks[..i], t0).0
        invariant Table() == ExecSeq(ks[..i], t0).1
        invariant varCount + AddedSeq(ks[i..]) <= TableSize
      {
        ExecSeqStep(ks, i, t0);
        AddedSeqSplit(ks, i);
        ExecExtends(ks[i], Table());
        ghost var before := out;
        ExecuteNode(ks[i]);
        ConcatAssoc(old(out), ExecSeq(ks[..i], t0).0, out[|before|..]);
        i := i + 1;
      }
      assert ks[..i] == ks;
    }

    /** The VAR_DECL case. */
    method Declare(n: Node)
      requires Valid() && n.kind == VarDecl && Executable(n) && varCount + Added(n) <= TableSize
      modifies this, variables
      ensures Valid() && out == old(out) && err == old(err)
      ensures Table() == Exec(n, old(Table())).1
    {
      var ty, v := n.varType.value, n.varValue.value;
      if ty == "int" {
        variables[varCount] := Variable(n.varName.value, IntVal(Atoi(v)));
        varCount := varCount + 1;
      } else if ty == "char" {
        variables[varCount] := Variable(n.varName.value, CharVal(At(v, 0)));
        varCount := varCount + 1;
      } else if ty == "string" {
        variables[varCount] := Variable(n.varName.value, StrVal(v));
        varCount := varCount + 1;
      }
    }

    /** `run_program`. */
    method RunProgram(root: Option<Node>)
      requires Valid()
      requires root.Some? && root.value.kind == Function ==> Executable(root.value) && varCount + Added(root.value) <= TableSize
      modifies this, variables
      ensures Valid()
      ensures var (o, e, t) := RunSpec(root, old(Table()));
        out == old(out) + o && err == old(err) + e && Table() == t
    {
      if root.None? {
        err := err + "No AST to run.\n";
        return;
      }
      if root.value.kind == Function {
        out := out + "Running function: " + root.value.value + "\n";
        ExecuteNode(root.value);
      } else {
        err := err + "Top-level AST is not a function.\n";
      }
    }

    /** `interpret`. */
    method Interpret(root: Option<Node>)
      requires Valid()
      requires root.Some? && root.value.kind == Function ==> Executable(root.value) && varCount + Added(root.value) <= TableSize
      modifies this, variables
      ensures Valid()
      ensures root.None? ==> out == old(out) + "Nothing to interpret.\n" && err == old(err) && Table() == old(Table())
      ensures root.Some? ==> var (o, e, t) := RunSpec(root, old(Table()));
        out == old(out) + o && err == old(err) + e && Table() == t
    {
      if root.None? {
        out := out + "Nothing to interpret.\n";
        return;
      }
      RunProgram(root);
    }
  }

  /** Executing one more child. */
  lemma ExecSeqStep(ks: seq<Node>, i: nat, t: seq<Variable>)
    requires i < |ks| && forall k :: 0 <= k < |ks| ==> Executable(ks[k])
    ensures var prev := ExecSeq(ks[..i], t);
      ExecSeq(ks[..i + 1], t) == (prev.0 + Exec(ks[i], prev.1).0, Exec(ks[i], prev.1).1)
  {
    assert ks[..i + 1][..i] == ks[..i];
  }

  /** Splitting the declarations counted over a children list at i. */
  lemma {:induction false} AddedSeqSplit(ks: seq<Node>, i: nat)
    requires i < |ks| && forall k :: 0 <= k < |ks| ==> Executable(ks[k])
    ensures AddedSeq(ks[i..]) == Added(ks[i]) + AddedSeq(ks[i + 1..])
  {
    AddedSeqFront(ks[i..]);
    assert ks[i..][1..] == ks[i + 1..];
  }

  lemma {:induction false} AddedSeqFront(ks: seq<Node>)
    requires |ks| >= 1 && forall k :: 0 <= k < |ks| ==> Executable(ks[k])
    ensures AddedSeq(ks) == Added(ks[0]) + AddedSeq(ks[1..])
    decreases |ks|
  {
    if |ks| > 1 {
      AddedSeqFront(ks[..|ks| - 1]);
      assert ks[..|ks| - 1][1..] == ks[1..][..|ks[1..]| - 1];
    } else {
      assert ks[..0] == [] && ks[1..] == [];
    }
  }
}
