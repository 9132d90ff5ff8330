/** The Python++ syntax tree (compilers/wpy++/parser.h).

    A node is a value: its kind, an optional text (`value`, NULL in C when
    absent) and its children in order. `make_node` is the constructor with
    no children. */
module PyppAst {
  import opened CLib

  datatype NodeType =
    | Program | Function | Block | Print | Return | Literal | Identifier
    | Call  // declared in parser.h, never built by the parser

  datatype Node = Node(kind: NodeType, value: Option<string>, children: seq<Node>)

  /** The children a possibly-NULL node contributes: none or itself. */
  function Listed(child: Option<Node>): seq<Node> {
    if child.Some? then [child.value] else []
  }

  /** `add_child`: appends a child at the end; a NULL child is ignored. */
  function AddChild(parent: Node, child: Option<Node>): (r: Node)
    ensures r.kind == parent.kind && r.value == parent.value
    ensures r.children == parent.children + Listed(child)
  {
    match child
    case None => parent.(children := parent.children + [])
    case Some(c) => parent.(children := parent.children + [c])
  }
}
