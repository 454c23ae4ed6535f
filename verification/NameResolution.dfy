/**
 * The non-recursive walk that replaces every identifier of an expression by its
 * field id. It keeps only the current node and the direction it was reached from.
 */
module NameResolution {
  import opened AstTree
  import opened Options

  datatype Direction = FromAbove | FromLeft | FromRight

  function Leaves(t: Tree): nat {
    match t
    case Leaf(_) => 1
    case Unary(_, r) => Leaves(r)
    case Binary(_, l, r) => Leaves(l) + Leaves(r)
  }

  /** What the leaves hold, from left to right. */
  ghost function Operands(t: Tree): (vs: seq<Operand>)
    reads Nodes(t)`operand
    ensures |vs| == Leaves(t)
  {
    match t
    case Leaf(n) => [n.operand]
    case Unary(_, r) => Operands(r)
    case Binary(_, l, r) => Operands(l) + Operands(r)
  }

  /** What the leaves to the left of the hole hold, and those to its right. */
  ghost function Before(p: Path): (vs: seq<Operand>)
    reads PathNodes(p)`operand
  {
    match p
    case Top => []
    case UnaryAt(_, up) => Before(up)
    case LeftOf(_, _, up) => Before(up)
    case RightOf(_, s, up) => Before(up) + Operands(s)
    case RightOpen(_, up) => Before(up)
  }

  ghost function Behind(p: Path): seq<Operand>
    reads PathNodes(p)`operand
  {
    match p
    case Top => []
    case UnaryAt(_, up) => Behind(up)
    case LeftOf(_, s, up) => Operands(s) + Behind(up)
    case RightOf(_, _, up) => Behind(up)
    case RightOpen(_, up) => Behind(up)
  }

  lemma {:induction false} OperandsOfPlug(t: Tree, p: Path)
    requires Complete(p)
    ensures Operands(Plug(t, p)) == Before(p) + Operands(t) + Behind(p)
    decreases p
  {
    if !p.Top? {
      OperandsOfPlug(Grown(t, p), p.up);
    }
  }

  lemma {:induction false} PlugNodes(t: Tree, p: Path)
    requires Complete(p)
    ensures Nodes(Plug(t, p)) == Nodes(t) + PathNodes(p)
    decreases p
  {
    if !p.Top? {
      PlugNodes(Grown(t, p), p.up);
    }
  }

  // ----- how many steps are left -----

  function StepsBelow(t: Tree): nat {
    match t
    case Leaf(_) => 3
    case Unary(_, r) => 3 + StepsBelow(r)
    case Binary(_, l, r) => 3 + StepsBelow(l) + StepsBelow(r)
  }

  function StepsFrom(t: Tree, d: Direction): nat {
    match d
    case FromAbove => StepsBelow(t)
    case FromLeft => 2 + (match t case Leaf(_) => 0 case Unary(_, r) => StepsBelow(r) case Binary(_, _, r) => StepsBelow(r))
    case FromRight => 1
  }

  function StepsAbove(p: Path): nat {
    match p
    case Top => 0
    case UnaryAt(_, up) => 1 + StepsAbove(up)
    case LeftOf(_, s, up) => 2 + StepsBelow(s) + StepsAbove(up)
    case RightOf(_, _, up) => 1 + StepsAbove(up)
    case RightOpen(_, up) => 1 + StepsAbove(up)
  }

  // ----- what the walk has done -----

  /** The leaves the walk has left behind when it reaches `t` from `d`. */
  function Passed(t: Tree, p: Path, d: Direction): nat {
    LeavesBefore(p) +
    match d
    case FromAbove => 0
    case FromLeft => if t.Binary? then Leaves(t.left) else 0
    case FromRight => Leaves(t)
  }

  function LeavesBefore(p: Path): nat {
    match p
    case Top => 0
    case UnaryAt(_, up) => LeavesBefore(up)
    case LeftOf(_, _, up) => LeavesBefore(up)
    case RightOf(_, s, up) => LeavesBefore(up) + Leaves(s)
    case RightOpen(_, up) => LeavesBefore(up)
  }

  lemma {:induction false} BeforeLength(p: Path)
    ensures |Before(p)| == LeavesBefore(p)
  {
    match p
    case Top =>
    case UnaryAt(_, up) => BeforeLength(up);
    case LeftOf(_, _, up) => BeforeLength(up);
    case RightOf(_, s, up) => BeforeLength(up);
    case RightOpen(_, up) => BeforeLength(up);
  }

  predicate Known(fields: map<string, int>, v: Operand) {
    v.Identifier? ==> v.name in fields
  }

  function Resolved(fields: map<string, int>, v: Operand): Operand {
    if v.Identifier? && v.name in fields then FieldId(fields[v.name]) else v
  }

  /** The first `k` operands were known and are resolved; the others are as they were. */
  predicate ResolvedUpTo(fields: map<string, int>, was: seq<Operand>, now: seq<Operand>, k: nat) {
    && |was| == |now| && k <= |was|
    && (forall i :: 0 <= i < k ==> Known(fields, was[i]) && now[i] == Resolved(fields, was[i]))
    && (forall i :: k <= i < |was| ==> now[i] == was[i])
  }

  /** Every identifier is the name of a field. */
  predicate NamesAreFields(fields: map<string, int>, vs: seq<Operand>) {
    forall v :: v in vs && v.Identifier? ==> v.name in fields
  }

  /** Every identifier has become its field's id, and all else is as it was. */
  predicate NamesReplaced(fields: map<string, int>, was: seq<Operand>, now: seq<Operand>) {
    && |was| == |now|
    && forall i :: 0 <= i < |was| ==>
         if was[i].Identifier? then was[i].name in fields && now[i] == FieldId(fields[was[i].name]) else now[i] == was[i]
  }

  lemma AllResolved(fields: map<string, int>, was: seq<Operand>, now: seq<Operand>)
    requires ResolvedUpTo(fields, was, now, |was|)
    ensures NamesAreFields(fields, was) && NamesReplaced(fields, was, now)
  {
  }

  lemma OneUnknown(fields: map<string, int>, was: seq<Operand>, k: nat)
    requires k < |was| && !Known(fields, was[k])
    ensures !NamesAreFields(fields, was)
    ensures was[k].Identifier? && was[k].name !in fields
  {
  }

  /** The walk is at `w`; no leaf it leaves behind is an identifier, and those it has left behind are resolved. */
  ghost predicate Walking(fields: map<string, int>, was: seq<Operand>, t0: Tree, w: Place)
    reads Nodes(w.t), PathNodes(w.p), Nodes(t0)
  {
    match w
    case Place(t, p, d) =>
      && Complete(p) && Focus(t, p) && Plug(t, p) == t0
      && (!d.FromAbove? && t.Leaf? ==> !t.node.operand.Identifier?)
      && ResolvedUpTo(fields, was, Operands(t0), Passed(t, p, d))
  }

  function StepsLeft(w: Place): nat {
    StepsFrom(w.t, w.d) + StepsAbove(w.p)
  }

  class Statement {
    /** The fields of the current table. */
    const fields: map<string, int>

    constructor (f: map<string, int>)
      ensures fields == f
    {
      fields := f;
    }

    function GetFieldId(fname: string): Option<int> {
      if fname in fields then Some(fields[fname]) else None
    }

    /**
     * True exactly when every identifier is a field of the table, and then each
     * one has become that field's id. On false this holds of the leaves to the
     * left of the first unknown one, and no others have changed. Nothing but
     * operands of leaves is assigned.
     */
    method ResolveFieldNames(root: Ast, ghost t0: Tree) returns (ok: bool, ghost upTo: nat)
      requires root == t0.node && Linked(t0, null)
      modifies LeafNodes(t0)`operand
      ensures Linked(t0, null)
      ensures ok <==> NamesAreFields(fields, old(Operands(t0)))
      ensures ok ==> NamesReplaced(fields, old(Operands(t0)), Operands(t0))
      ensures ResolvedUpTo(fields, old(Operands(t0)), Operands(t0), upTo)
      ensures if ok then upTo == Leaves(t0)
              else upTo < Leaves(t0) && var v := old(Operands(t0))[upTo]; v.Identifier? && v.name !in fields
    {
      var myPosition: Ast, direction := root, FromAbove;
      ghost var was, w := Operands(t0), Place(t0, Top, FromAbove);
      while true
        invariant Walking(fields, was, t0, w) && myPosition == w.t.node && direction == w.d && Linked(t0, null)
        decreases StepsLeft(w)
      {
        ghost var upTo := LeavesBefore(w.p);
        var known, finished;
        known, finished, myPosition, direction, w := Visit(myPosition, direction, w, t0, was);
        if !known {
          OneUnknown(fields, was, upTo);
          return false, upTo;
        }
        if finished {
          AllResolved(fields, was, Operands(t0));
          return true, Leaves(t0);
        }
      }
    }

    /** One turn of the loop; it ends the walk at an unknown identifier or back at the root. */
    method Visit(position: Ast, direction: Direction, ghost w: Place, ghost t0: Tree, ghost was: seq<Operand>)
      returns (known: bool, finished: bool, node: Ast, d: Direction, ghost w': Place)
      requires Walking(fields, was, t0, w) && position == w.t.node && direction == w.d
      modifies LeafNodes(t0)`operand
      ensures Linked(t0, null)
      ensures !known ==> ResolvedUpTo(fields, was, Operands(t0), LeavesBefore(w.p))
      ensures !known ==> LeavesBefore(w.p) < |was| && !Known(fields, was[LeavesBefore(w.p)])
      ensures known && finished ==> ResolvedUpTo(fields, was, Operands(t0), |was|)
      ensures known && !finished ==> Walking(fields, was, t0, w') && node == w'.t.node && d == w'.d && StepsLeft(w') < StepsLeft(w)
    {
      known, finished, node, d, w' := true, false, position, direction, w;
      ghost var t, p := w.t, w.p;
      if !node.isoperator && node.operand.Identifier? {
        assert t == Leaf(node);
        known := Convert(node, t, p, t0, was);
        if !known {
          return;
        }
        d := FromRight;
      }
      NextCounts(t, p, d);
      NextResolved(fields, was, t, p, d, t0);
      w' := Next(t, p, d);
      finished, node, d := Turn(node, d, t, p, t0);
    }

    /** An identifier's name becomes its field id, if it has one. */
    method Convert(myPosition: Ast, ghost t: Tree, ghost p: Path, ghost t0: Tree, ghost was: seq<Operand>)
      returns (known: bool)
      requires Complete(p) && Focus(t, p) && Plug(t, p) == t0 && t == Leaf(myPosition)
      requires myPosition.operand.Identifier?
      requires ResolvedUpTo(fields, was, Operands(t0), LeavesBefore(p))
      modifies LeafNodes(t0)`operand
      ensures Focus(t, p) && Linked(t0, null)
      ensures known ==> !myPosition.operand.Identifier?
      ensures known ==> ResolvedUpTo(fields, was, Operands(t0), LeavesBefore(p) + 1)
      ensures !known ==> ResolvedUpTo(fields, was, Operands(t0), LeavesBefore(p))
      ensures !known ==> LeavesBefore(p) < |was| && !Known(fields, was[LeavesBefore(p)])
    {
      LookAt(t, p, t0);
      LeafInPlug(t, p);
      PlugLinked(t, p);
      ghost var k, values := LeavesBefore(p), Operands(t0);
      assert was[k] == values[k] == myPosition.operand;
      var fid := GetFieldId(myPosition.operand.name);
      if fid.None? {
        return false;
      }
      myPosition.operand := FieldId(fid.value);
      LookAt(t, p, t0);
      assert Operands(t0) == values[k := FieldId(fid.value)];
      return true;
    }

    /** The switch on the direction. */
    method Turn(myPosition: Ast, direction: Direction, ghost t: Tree, ghost p: Path, ghost t0: Tree)
      returns (finished: bool, node: Ast, d: Direction)
      requires Complete(p) && Focus(t, p) && Plug(t, p) == t0 && myPosition == t.node
      ensures Operands(t0) == old(Operands(t0)) && t.node.operand == old(t.node.operand)
      ensures finished <==> p.Top? && direction.FromRight?
      ensures var n := Next(t, p, direction); n.t.node == node && n.d == d && Focus(n.t, n.p) && Plug(n.t, n.p) == t0
      ensures Linked(t0, null)
    {
      PlugLinked(t, p);
      NextIsLinked(t, p, direction, t0);
      node, d := myPosition, direction;
      match direction {
        case FromAbove =>
          if myPosition.leftchild == null || myPosition == myPosition.leftchild {
            d := FromLeft;
          } else {
            node := myPosition.leftchild;
          }
        case FromLeft =>
          if myPosition.rightchild == null {
            d := FromRight;
          } else {
            node := myPosition.rightchild;
            d := FromAbove;
          }
        case FromRight =>
          if myPosition.parent == null {
            return true, node, d;
          }
          d := if myPosition == myPosition.parent.leftchild then FromLeft else FromRight;
          node := myPosition.parent;
      }
      finished := false;
    }
  }

  /** Where the walk is. */
  datatype Place = Place(t: Tree, p: Path, d: Direction)

  /** Where it is after one switch on the direction. */
  function Next(t: Tree, p: Path, d: Direction): Place {
    match d
    case FromAbove => if t.Binary? then Place(t.left, LeftOf(t.node, t.right, p), FromAbove) else Place(t, p, FromLeft)
    case FromLeft =>
      if t.Leaf? then Place(t, p, FromRight)
      else Place(t.right, if t.Unary? then UnaryAt(t.node, p) else RightOf(t.node, t.left, p), FromAbove)
    case FromRight =>
      if p.Top? || p.RightOpen? then Place(t, p, d)
      else Place(Grown(t, p), p.up, if p.LeftOf? then FromLeft else FromRight)
  }

  lemma NextCounts(t: Tree, p: Path, d: Direction)
    requires Complete(p)
    ensures var n := Next(t, p, d);
      && Complete(n.p) && (!n.d.FromAbove? && n.t.Leaf? ==> n.t == t)
      && Passed(n.t, n.p, n.d) == Passed(t, p, d) + (if t.Leaf? && d.FromLeft? then 1 else 0)
      && (!d.FromRight? || !p.Top? ==> StepsFrom(n.t, n.d) + StepsAbove(n.p) < StepsFrom(t, d) + StepsAbove(p))
  {
  }

  /** A leaf that is left behind without an assignment is no identifier. */
  lemma NextResolved(fields: map<string, int>, was: seq<Operand>, t: Tree, p: Path, d: Direction, t0: Tree)
    requires Complete(p) && Plug(t, p) == t0
    requires !d.FromAbove? && t.Leaf? ==> !t.node.operand.Identifier?
    requires ResolvedUpTo(fields, was, Operands(t0), Passed(t, p, d))
    ensures ResolvedUpTo(fields, was, Operands(t0), Passed(Next(t, p, d).t, Next(t, p, d).p, Next(t, p, d).d))
  {
    NextCounts(t, p, d);
    LookAt(t, p, t0);
  }

  lemma {:induction false} PlugLinked(t: Tree, p: Path)
    requires Focus(t, p) && Complete(p)
    ensures Linked(Plug(t, p), null)
    decreases p
  {
    if !p.Top? {
      FocusUp(t, p);
      PlugLinked(Grown(t, p), p.up);
    }
  }

  lemma NextIsLinked(t: Tree, p: Path, d: Direction, t0: Tree)
    requires Complete(p) && Focus(t, p) && Plug(t, p) == t0
    ensures var n := Next(t, p, d); Focus(n.t, n.p) && Plug(n.t, n.p) == t0
  {
    FocusDown(t, p);
    if d.FromRight? && !p.Top? {
      FocusUp(t, p);
    }
  }

  /** The leaf in focus, in the list of all operands. */
  lemma LookAt(t: Tree, p: Path, t0: Tree)
    requires Complete(p) && Plug(t, p) == t0
    ensures Operands(t0) == Before(p) + Operands(t) + Behind(p)
    ensures |Before(p)| == LeavesBefore(p)
  {
    OperandsOfPlug(t, p);
    BeforeLength(p);
  }

  function LeafNodes(t: Tree): (s: set<Ast>)
    ensures s <= Nodes(t)
  {
    match t
    case Leaf(n) => {n}
    case Unary(_, r) => LeafNodes(r)
    case Binary(_, l, r) => LeafNodes(l) + LeafNodes(r)
  }

  lemma {:induction false} LeafInPlug(t: Tree, p: Path)
    requires Complete(p)
    ensures LeafNodes(t) <= LeafNodes(Plug(t, p))
    decreases p
  {
    if !p.Top? {
      LeafInPlug(Grown(t, p), p.up);
    }
  }
}
