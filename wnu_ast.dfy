/** The C compiler's syntax tree (compilers/wnu-c/ast.h, ast.c).

    A node links its children through `child` (the first one) and each
    child's `next` (the following sibling). The class keeps, as a ghost
    field, the sequence of children that chain spells out, so that
    `AppendChild` can be specified as adding one element at its end.

    The parser builds its trees as values (`Tree`); the pointer-level
    append is modelled on its own by `Ast` and `AppendChild`. */
module WnuAst {
  import opened CLib

  datatype AstKind =
    | Unknown | TranslationUnit | FuncDef | ParamList | CompoundStmt
    | ReturnStmt | DeclStmt | ExprStmt | BinaryExpr | CallExpr
    | StringLiteral | IntLiteral | Identifier

  /** A node and its children as a value: the payload `ast_new` clears
      (`name`, `int_value`, `lexeme`) and the children in sibling order. */
  datatype Tree = Tree(
    kind: AstKind,
    name: Option<string>,
    intValue: int,
    lexeme: Option<string>,
    children: seq<Tree>)

  /** `ast_new` as a value: the kind, no payload, no children. */
  function Leaf(kind: AstKind): (t: Tree)
    ensures t.kind == kind && t.name.None? && t.lexeme.None? && t.intValue == 0 && t.children == []
  {
    Tree(kind, None, 0, None, [])
  }

  class Ast {
    var kind: AstKind
    var next: Ast?
    var child: Ast?
    var name: Option<string>
    var intValue: int
    var lexeme: Option<string>
    /** The children, first to last. */
    ghost var kids: seq<Ast>

    /** `child` and the `next` fields of the children spell out `kids`,
        and the last child ends the chain. */
    ghost predicate Linked()
      reads this, kids
    {
      (child == null <==> kids == [])
      && (kids != [] ==> child == kids[0] && kids[|kids| - 1].next == null)
      && (forall i :: 0 <= i < |kids| - 1 ==> kids[i].next == kids[i + 1])
    }

    /** `ast_new` (an allocation failure is not modelled). */
    constructor (k: AstKind)
      ensures kind == k && next == null && child == null
      ensures name.None? && lexeme.None? && intValue == 0
      ensures kids == [] && Linked()
    {
      kind, next, child := k, null, null;
      name, lexeme, intValue := None, None, 0;
      kids := [];
    }
  }

  /** A well-linked chain never repeats a node, so the walk along `next`
      from the first child visits every child once and stops. */
  lemma LinkedChildrenDistinct(a: Ast)
    requires a.Linked()
    ensures forall i, j :: 0 <= i < j < |a.kids| ==> a.kids[i] != a.kids[j]
  {
    var ks := a.kids;
    forall i, j | 0 <= i < j < |ks|
      ensures ks[i] != ks[j]
    {
      var d := |ks| - 1 - j;
      ChainShift(ks, i, j, d);
      assert ks[i + d].next == ks[i + d + 1];
    }
  }

  /** Two places of the chain holding the same node hold the same nodes
      from there on, as far as the last child. */
  lemma {:induction false} ChainShift(ks: seq<Ast>, i: nat, j: nat, d: nat)
    requires i < j && j + d < |ks|
    requires forall k :: 0 <= k < |ks| - 1 ==> ks[k].next == ks[k + 1]
    ensures ks[i] == ks[j] ==> ks[i + d] == ks[j + d]
    decreases d
  {
    if d > 0 {
      ChainShift(ks, i, j, d - 1);
      assert ks[i + d - 1].next == ks[i + d] && ks[j + d - 1].next == ks[j + d];
    }
  }

  /** Every child but the last has a next sibling, so the walk in
      `ast_append_child` stops exactly at the last child. */
  lemma OnlyLastEndsChain(a: Ast)
    requires a.Linked()
    ensures forall i :: 0 <= i < |a.kids| && a.kids[i].next == null ==> i == |a.kids| - 1
  {
    forall i | 0 <= i < |a.kids| - 1
      ensures a.kids[i].next != null
    {
      assert a.kids[i].next == a.kids[i + 1];
    }
  }

  /** The last child, whose `next` the append overwrites. */
  ghost function LastKid(parent: Ast?): set<Ast>
    reads parent
  {
    if parent != null && parent.kids != [] then {parent.kids[|parent.kids| - 1]} else {}
  }

  /** `ast_append_child`: a NULL parent or child changes nothing; otherwise
      the child becomes the first child of a childless parent, or the
      `next` of the last child, found by walking the sibling chain. Only
      those two fields (and the ghost list) change. */
  method AppendChild(parent: Ast?, c: Ast?)
    requires parent != null && c != null ==> parent.Linked() && c !in parent.kids && c.next == null
    modifies if c != null then {parent} else {}`child
    modifies if c != null then {parent} else {}`kids
    modifies if c != null then LastKid(parent) else {}`next
    ensures parent != null && c != null ==> parent.kids == old(parent.kids) + [c] && parent.Linked()
    ensures parent != null && c != null && old(parent.child) == null ==> parent.child == c
    ensures parent != null && c != null && old(parent.child) != null ==> parent.child == old(parent.child)
  {
    if parent == null || c == null {
      return;
    }
    if parent.child == null {
      parent.child := c;
      parent.kids := [c];
      return;
    }
    var p := parent.child;
    ghost var i := 0;
    while p.next != null
      invariant parent.Linked() && 0 <= i < |parent.kids| && p == parent.kids[i]
      decreases |parent.kids| - i
    {
      p := p.next;
      i := i + 1;
    }
    OnlyLastEndsChain(parent);
    p.next := c;
    parent.kids := parent.kids + [c];
  }
}
