/**
 * Expression nodes with parent and child pointers, and what it means for such
 * nodes to form a tree or a tree with a hole.
 *
 * A unary operator's left child is the node itself, so that it looks taken.
 */
module AstTree {

  datatype Operator =
    | Concatenation | Addition | Subtraction | Multiplication | Division | Negation
    | And | Or | Not | IsTrue | IsFalse | IsUnknown
    | Eq | Ne | Lt | Gt | Lte | Gte | Between | NotBetween | BetweenAnd
    | IsNull | IsNotNull | In | NotIn | Like | NotLike | Exists | Unique | NullTruth

  predicate IsUnary(op: Operator) {
    op in {Negation, Not, IsTrue, IsFalse, IsUnknown, IsNull, In, Exists, Unique, IsNotNull, NotIn}
  }

  datatype Operand = NoOperand | Identifier(name: string) | FieldId(fid: int) | Value(text: string)

  /** A row's full id, and the row returned for it. */
  datatype RowKey = RowKey(rowid: int, tableid: int, engineid: int)
  type Rows = map<RowKey, string>

  class Ast {
    var parent: Ast?
    var rightchild: Ast?
    var leftchild: Ast?
    var isoperator: bool
    var operatortype: Operator
    var operand: Operand
    var predicateResults: Rows

    constructor ForOperator(parentarg: Ast?, op: Operator)
      ensures isoperator && operatortype == op && parent == parentarg && rightchild == null
      ensures leftchild == if IsUnary(op) then this else null
      ensures predicateResults == map[] && operand == NoOperand
    {
      parent := parentarg;
      rightchild := null;
      leftchild := null;
      isoperator := true;
      operatortype := op;
      operand := NoOperand;
      predicateResults := map[];
      new;
      if IsUnary(op) {
        leftchild := this;
      }
    }

    constructor ForOperand(parentarg: Ast?, operandarg: Operand)
      ensures !isoperator && operand == operandarg && parent == parentarg
      ensures rightchild == null && leftchild == null && predicateResults == map[]
    {
      parent := parentarg;
      rightchild := null;
      leftchild := null;
      isoperator := false;
      operatortype := Eq;
      operand := operandarg;
      predicateResults := map[];
    }
  }

  /** The shape that a set of linked nodes has. */
  datatype Tree = Leaf(node: Ast) | Unary(node: Ast, right: Tree) | Binary(node: Ast, left: Tree, right: Tree)

  function Nodes(t: Tree): (s: set<Ast>)
    ensures t.node in s
  {
    match t
    case Leaf(n) => {n}
    case Unary(n, r) => {n} + Nodes(r)
    case Binary(n, l, r) => {n} + Nodes(l) + Nodes(r)
  }

  function Size(t: Tree): nat {
    match t
    case Leaf(_) => 1
    case Unary(_, r) => 1 + Size(r)
    case Binary(_, l, r) => 1 + Size(l) + Size(r)
  }

  /** The nodes are distinct and linked both ways as the tree says; the root's parent is `parent`. */
  ghost predicate Linked(t: Tree, parent: Ast?)
    reads Nodes(t)`parent, Nodes(t)`rightchild, Nodes(t)`leftchild, Nodes(t)`isoperator, Nodes(t)`operatortype
  {
    match t
    case Leaf(n) => n.parent == parent && !n.isoperator && n.leftchild == null && n.rightchild == null
    case Unary(n, r) =>
      && n.parent == parent && n.isoperator && IsUnary(n.operatortype)
      && n.leftchild == n && n.rightchild == r.node && n !in Nodes(r) && Linked(r, n)
    case Binary(n, l, r) =>
      && n.parent == parent && n.isoperator && !IsUnary(n.operatortype)
      && n.leftchild == l.node && n.rightchild == r.node
      && n !in Nodes(l) && n !in Nodes(r) && Nodes(l) !! Nodes(r)
      && Linked(l, n) && Linked(r, n)
  }

  /**
   * A tree with a hole, innermost node first. `RightOpen` is a binary node that
   * has no left child yet.
   */
  datatype Path =
    | Top
    | UnaryAt(node: Ast, up: Path)
    | LeftOf(node: Ast, sibling: Tree, up: Path)
    | RightOf(node: Ast, sibling: Tree, up: Path)
    | RightOpen(node: Ast, up: Path)

  function Holder(p: Path): Ast? {
    if p.Top? then null else p.node
  }

  function PathNodes(p: Path): set<Ast> {
    match p
    case Top => {}
    case UnaryAt(n, up) => {n} + PathNodes(up)
    case LeftOf(n, s, up) => {n} + Nodes(s) + PathNodes(up)
    case RightOf(n, s, up) => {n} + Nodes(s) + PathNodes(up)
    case RightOpen(n, up) => {n} + PathNodes(up)
  }

  /** The nodes around the hole are distinct and linked; the hole's slot holds `hole`. */
  ghost predicate LinkedPath(p: Path, hole: Ast?)
    reads PathNodes(p)`parent, PathNodes(p)`rightchild, PathNodes(p)`leftchild,
          PathNodes(p)`isoperator, PathNodes(p)`operatortype
  {
    p.Top? ||
    (&& p.node.parent == Holder(p.up) && p.node.isoperator && p.node !in PathNodes(p.up)
     && LinkedPath(p.up, p.node)
     && match p
        case UnaryAt(n, up) => IsUnary(n.operatortype) && n.leftchild == n && n.rightchild == hole
        case LeftOf(n, s, up) =>
          && !IsUnary(n.operatortype) && n.leftchild == hole && n.rightchild == s.node
          && n !in Nodes(s) && Nodes(s) !! PathNodes(up) && Linked(s, n)
        case RightOf(n, s, up) =>
          && !IsUnary(n.operatortype) && n.leftchild == s.node && n.rightchild == hole
          && n !in Nodes(s) && Nodes(s) !! PathNodes(up) && Linked(s, n)
        case RightOpen(n, up) => !IsUnary(n.operatortype) && n.leftchild == null && n.rightchild == hole)
  }

  /** `t` fills the hole of `p`. */
  ghost predicate Focus(t: Tree, p: Path)
    reads Nodes(t)`parent, Nodes(t)`rightchild, Nodes(t)`leftchild, Nodes(t)`isoperator, Nodes(t)`operatortype
    reads PathNodes(p)`parent, PathNodes(p)`rightchild, PathNodes(p)`leftchild,
          PathNodes(p)`isoperator, PathNodes(p)`operatortype
  {
    Linked(t, Holder(p)) && LinkedPath(p, t.node) && Nodes(t) !! PathNodes(p)
  }

  /** No node still waits for its left child. */
  predicate Complete(p: Path) {
    p.Top? || (!p.RightOpen? && Complete(p.up))
  }

  /** One level up: the holder with all its children. */
  function Grown(t: Tree, p: Path): Tree
    requires !p.Top? && !p.RightOpen?
  {
    match p
    case UnaryAt(n, _) => Unary(n, t)
    case LeftOf(n, s, _) => Binary(n, t, s)
    case RightOf(n, s, _) => Binary(n, s, t)
  }

  /** The whole tree. */
  function Plug(t: Tree, p: Path): Tree
    requires Complete(p)
    decreases p
  {
    if p.Top? then t else Plug(Grown(t, p), p.up)
  }

  lemma FocusUp(t: Tree, p: Path)
    requires Focus(t, p) && !p.Top? && !p.RightOpen?
    ensures Focus(Grown(t, p), p.up)
  {
  }

  lemma FocusDown(t: Tree, p: Path)
    requires Focus(t, p)
    ensures t.Unary? ==> Focus(t.right, UnaryAt(t.node, p))
    ensures t.Binary? ==> Focus(t.left, LeftOf(t.node, t.right, p)) && Focus(t.right, RightOf(t.node, t.left, p))
  {
  }

  // The nodes named by a tree or a path that a method was given all exist.

  lemma {:induction false} NodesExist(t: Tree)
    ensures allocated(Nodes(t))
  {
    match t
    case Leaf(_) =>
    case Unary(_, r) => NodesExist(r);
    case Binary(_, l, r) => NodesExist(l); NodesExist(r);
  }

  lemma {:induction false} PathNodesExist(p: Path)
    ensures allocated(PathNodes(p))
  {
    match p
    case Top =>
    case UnaryAt(_, up) => PathNodesExist(up);
    case LeftOf(_, s, up) => NodesExist(s); PathNodesExist(up);
    case RightOf(_, s, up) => NodesExist(s); PathNodesExist(up);
    case RightOpen(_, up) => PathNodesExist(up);
  }
}
