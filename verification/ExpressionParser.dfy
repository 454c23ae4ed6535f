/**
 * Rebuilding a pointer tree from the postfix stack the grammar leaves behind.
 * The top of the stack is its last element, so a subtree is popped root first,
 * right child before left child.
 */
module ExpressionParser {
  import opened AstTree
  import opened Options

  datatype StackMember = OperatorItem(op: Operator) | OperandItem(val: Operand) | ExpressionMark | OtherItem

  // ----- expressions as values, and their stack form -----

  datatype Expr = Atom(val: Operand) | Prefix(op: Operator, arg: Expr) | Infix(op: Operator, left: Expr, right: Expr)

  predicate WellFormed(e: Expr) {
    match e
    case Atom(_) => true
    case Prefix(op, a) => IsUnary(op) && WellFormed(a)
    case Infix(op, l, r) => !IsUnary(op) && WellFormed(l) && WellFormed(r)
  }

  /** parsedStack; its top is what was pushed last. */
  datatype Stack = Empty | Push(top: StackMember, below: Stack)

  function Postfix(e: Expr): seq<StackMember> {
    match e
    case Atom(v) => [OperandItem(v)]
    case Prefix(op, a) => Postfix(a) + [OperatorItem(op)]
    case Infix(op, l, r) => Postfix(l) + Postfix(r) + [OperatorItem(op)]
  }

  function PushAll(items: seq<StackMember>, s: Stack): Stack {
    if items == [] then s else Push(items[|items| - 1], PushAll(items[..|items| - 1], s))
  }

  /** The stack after an expression's postfix form is pushed (PushedIsPostfix). */
  function Pushed(e: Expr, s: Stack): Stack {
    match e
    case Atom(v) => Push(OperandItem(v), s)
    case Prefix(op, a) => Push(OperatorItem(op), Pushed(a, s))
    case Infix(op, l, r) => Push(OperatorItem(op), Pushed(r, Pushed(l, s)))
  }

  lemma {:induction false} PushAllAppend(a: seq<StackMember>, b: seq<StackMember>, s: Stack)
    ensures PushAll(a + b, s) == PushAll(b, PushAll(a, s))
    decreases |b|
  {
    if b == [] {
      assert a + b == a;
    } else {
      assert (a + b)[..|a + b| - 1] == a + b[..|b| - 1];
      PushAllAppend(a, b[..|b| - 1], s);
    }
  }

  lemma {:induction false} PushedIsPostfix(e: Expr, s: Stack)
    ensures Pushed(e, s) == PushAll(Postfix(e), s)
  {
    match e
    case Atom(v) =>
      assert PushAll([OperandItem(v)][..0], s) == s;
    case Prefix(op, a) =>
      PushedIsPostfix(a, s);
      assert Postfix(e)[..|Postfix(e)| - 1] == Postfix(a);
    case Infix(op, l, r) =>
      PushedIsPostfix(l, s);
      PushedIsPostfix(r, Pushed(l, s));
      PushAllAppend(Postfix(l), Postfix(r), s);
      assert Postfix(e)[..|Postfix(e)| - 1] == Postfix(l) + Postfix(r);
  }

  /** The stack without its expression marks, which carry no content. */
  function Strip(s: Stack): Stack {
    match s
    case Empty => Empty
    case Push(m, b) => if m.ExpressionMark? then Strip(b) else Push(m, Strip(b))
  }

  /** `rest` is what lies below one of the operands of `s`. */
  predicate CutBelowOperand(s: Stack, rest: Stack) {
    s.Push? && ((s.top.OperandItem? && s.below == rest) || CutBelowOperand(s.below, rest))
  }

  /** The expression a tree of nodes stands for. */
  ghost function ExprOf(t: Tree): Expr
    reads Nodes(t)`operatortype, Nodes(t)`operand
  {
    match t
    case Leaf(n) => Atom(n.operand)
    case Unary(n, r) => Prefix(n.operatortype, ExprOf(r))
    case Binary(n, l, r) => Infix(n.operatortype, ExprOf(l), ExprOf(r))
  }

  // ----- the loop, as a function of the stack -----

  /** What still surrounds the hole, innermost first. */
  datatype Frames =
    | Done
    | InPrefix(op: Operator, up: Frames)
    | InRight(op: Operator, up: Frames)
    | InLeft(op: Operator, right: Expr, up: Frames)

  /** Either a whole expression or the point where no further item fits; and the stack left. */
  datatype Outcome = Whole(e: Expr, rest: Stack) | Stuck(rest: Stack)

  /** The expression `e` has just been completed in the innermost hole. */
  function Fill(f: Frames, e: Expr, s: Stack): Outcome
    decreases s, 1, f
  {
    match f
    case Done => Whole(e, s)
    case InPrefix(op, up) => Fill(up, Prefix(op, e), s)
    case InRight(op, up) => Resume(InLeft(op, e, up), s)
    case InLeft(op, r, up) => Fill(up, Infix(op, e, r), s)
  }

  /** The innermost hole takes the next item. */
  function Resume(f: Frames, s: Stack): Outcome
    decreases s, 0
  {
    match s
    case Empty => Stuck(s)
    case Push(OperatorItem(op), b) => Resume(if IsUnary(op) then InPrefix(op, f) else InRight(op, f), b)
    case Push(OperandItem(v), b) => Fill(f, Atom(v), b)
    case Push(ExpressionMark, b) => Resume(f, b)
    case Push(OtherItem, b) => Stuck(s)
  }

  /** The stack that `s` is part of once what surrounds the hole is put back above it. */
  function Around(f: Frames, s: Stack): Stack {
    match f
    case Done => s
    case InPrefix(op, up) => Around(up, Push(OperatorItem(op), s))
    case InRight(op, up) => Around(up, Push(OperatorItem(op), s))
    case InLeft(op, r, up) => Around(up, Push(OperatorItem(op), Pushed(r, s)))
  }

  predicate FramesOk(f: Frames) {
    match f
    case Done => true
    case InPrefix(op, up) => IsUnary(op) && FramesOk(up)
    case InRight(op, up) => !IsUnary(op) && FramesOk(up)
    case InLeft(op, r, up) => !IsUnary(op) && WellFormed(r) && FramesOk(up)
  }

  // ----- unparsing is undone -----

  /** Wherever marks lie between its items, a pushed expression is taken whole and only it. */
  lemma {:induction false} ResumeTakes(f: Frames, e: Expr, s: Stack, base: Stack) returns (rest: Stack)
    requires WellFormed(e) && Strip(s) == Pushed(e, base)
    ensures Strip(rest) == base && Resume(f, s) == Fill(f, e, rest)
    decreases e, s
  {
    if s.top.ExpressionMark? {
      rest := ResumeTakes(f, e, s.below, base);
      return;
    }
    match e
    case Atom(v) =>
      rest := s.below;
    case Prefix(op, a) =>
      rest := ResumeTakes(InPrefix(op, f), a, s.below, base);
    case Infix(op, l, r) =>
      var mid := ResumeTakes(InRight(op, f), r, s.below, Pushed(l, base));
      rest := ResumeTakes(InLeft(op, r, f), l, mid, base);
  }

  // ----- what is parsed unparses -----

  lemma {:induction false} ResumeSound(f: Frames, s: Stack)
    requires FramesOk(f) && Resume(f, s).Whole?
    ensures WellFormed(Resume(f, s).e) && CutBelowOperand(s, Resume(f, s).rest)
    ensures Around(f, Strip(s)) == Pushed(Resume(f, s).e, Strip(Resume(f, s).rest))
    decreases s, 0
  {
    match s
    case Push(OperatorItem(op), b) =>
      ResumeSound(if IsUnary(op) then InPrefix(op, f) else InRight(op, f), b);
    case Push(OperandItem(v), b) =>
      FillSound(f, Atom(v), b);
    case Push(ExpressionMark, b) =>
      ResumeSound(f, b);
    case _ =>
  }

  lemma {:induction false} FillSound(f: Frames, e: Expr, s: Stack)
    requires FramesOk(f) && WellFormed(e) && Fill(f, e, s).Whole?
    ensures var r := Fill(f, e, s); WellFormed(r.e) && (r.rest == s || CutBelowOperand(s, r.rest))
    ensures Around(f, Pushed(e, Strip(s))) == Pushed(Fill(f, e, s).e, Strip(Fill(f, e, s).rest))
    decreases s, 1, f
  {
    match f
    case Done =>
    case InPrefix(op, up) => FillSound(up, Prefix(op, e), s);
    case InRight(op, up) => ResumeSound(InLeft(op, e, up), s);
    case InLeft(op, right, up) => FillSound(up, Infix(op, e, right), s);
  }

  // ----- consumeExpression -----

  /** The initial item may be one mark; a second one there is an anomaly, unlike marks further down. */
  function Consume(s: Stack): Outcome
    requires s.Push? && (s.top.ExpressionMark? ==> s.below.Push?)
  {
    var s' := if s.top.ExpressionMark? then s.below else s;
    if s'.top.ExpressionMark? then Stuck(s') else Resume(Done, s')
  }

  /** The first item that is not the one mark allowed on top. */
  function Front(s: Stack): StackMember
    requires s.Push? && (s.top.ExpressionMark? ==> s.below.Push?)
  {
    if s.top.ExpressionMark? then s.below.top else s.top
  }

  /** The surroundings of the hole, as values. */
  ghost function FramesOf(p: Path): Frames
    reads PathNodes(p)`operatortype, PathNodes(p)`operand
  {
    match p
    case Top => Done
    case UnaryAt(n, up) => InPrefix(n.operatortype, FramesOf(up))
    case RightOpen(n, up) => InRight(n.operatortype, FramesOf(up))
    case LeftOf(n, s, up) => InLeft(n.operatortype, ExprOf(s), FramesOf(up))
    case RightOf(_, _, up) => FramesOf(up)
  }

  /** Right children are built first, so no node under construction is reached from its right. */
  predicate Building(p: Path) {
    p.Top? || (!p.RightOf? && Building(p.up))
  }

  /** The outermost node, or `x` when nothing surrounds the hole. */
  function Outermost(p: Path, x: Ast?): Ast? {
    if p.Top? then x else Outermost(p.up, p.node)
  }

  class Larxer {
    var parsedStack: Stack

    constructor (s: Stack)
      ensures parsedStack == s
    {
      parsedStack := s;
    }

    method PopStack() returns (item: StackMember)
      requires parsedStack.Push?
      modifies this
      ensures item == old(parsedStack).top && parsedStack == old(parsedStack).below
    {
      item := parsedStack.top;
      parsedStack := parsedStack.below;
    }

    /**
     * The loop is at node `current`: either all its children are there (`t` is
     * its tree and `p` surrounds it), or it is the innermost node of `p` and
     * waits for a child.
     */
    ghost predicate At(current: Ast, t: Option<Tree>, p: Path, root: Ast)
      reads Involved(t, p)
    {
      && Building(p)
      && (t.Some? ==> Focus(t.value, p) && !t.value.Leaf? && current == t.value.node && root == Outermost(p, current))
      && (t.None? ==> !p.Top? && LinkedPath(p, null) && current == p.node && root == Outermost(p, null))
    }

    static ghost function Involved(t: Option<Tree>, p: Path): set<Ast> {
      PathNodes(p) + if t.Some? then Nodes(t.value) else {}
    }

    /** What the remaining steps will yield. */
    ghost function Ahead(t: Option<Tree>, p: Path): Outcome
      reads this, Involved(t, p)
    {
      if t.Some? then Fill(FramesOf(p), ExprOf(t.value), parsedStack) else Resume(FramesOf(p), parsedStack)
    }

    /**
     * On success `t` is the tree at the returned root. When the stack runs out
     * nothing is returned; at an item that fits nowhere that item stays on the
     * stack and the unfinished root is returned.
     */
    method ConsumeExpression() returns (root: Ast?, ghost t: Option<Tree>)
      requires parsedStack.Push? && parsedStack.top.ExpressionMark? ==> parsedStack.below.Push?
      modifies this
      ensures old(parsedStack).Empty? ==> root == null && t == None && parsedStack == old(parsedStack)
      ensures old(parsedStack).Push? ==> parsedStack == Consume(old(parsedStack)).rest
      ensures old(parsedStack).Push? ==> (t.Some? <==> Consume(old(parsedStack)).Whole?)
      ensures t.Some? ==> fresh(Nodes(t.value)) && root == t.value.node && Linked(t.value, null)
      ensures t.Some? ==> old(parsedStack).Push? && ExprOf(t.value) == Consume(old(parsedStack)).e
      ensures t.None? ==> (root != null <==> old(parsedStack).Push? && Front(old(parsedStack)).OperatorItem? && parsedStack.Push?)
    {
      if parsedStack.Empty? {
        return null, None;
      }
      ghost var goal := Consume(parsedStack);
      var item := PopStack();
      if item.ExpressionMark? {
        item := PopStack();
      }
      ghost var front := Push(item, parsedStack);
      assert !item.ExpressionMark? ==> goal == Resume(Done, front);
      var rootnode: Ast;
      if item.OperatorItem? {
        rootnode := new Ast.ForOperator(null, item.op);
      } else if item.OperandItem? {
        rootnode := new Ast.ForOperand(null, item.val);
        assert goal == Fill(Done, Atom(item.val), parsedStack) == Whole(Atom(item.val), parsedStack);
        return rootnode, Some(Leaf(rootnode));
      } else {
        parsedStack := Push(item, parsedStack);
        return null, None;
      }
      ghost var p := if IsUnary(item.op) then UnaryAt(rootnode, Top) else RightOpen(rootnode, Top);
      assert FramesOf(Top) == Done && PathNodes(p) == {rootnode};
      assert goal == Ahead(None, p);
      root, t := Build(rootnode, p);
    }

    /** The loop, from a root that has no children yet. */
    method Build(rootnode: Ast, ghost p0: Path) returns (root: Ast?, ghost t: Option<Tree>)
      requires At(rootnode, None, p0, rootnode)
      modifies this, PathNodes(p0)
      ensures parsedStack == old(Ahead(None, p0)).rest
      ensures t.Some? <==> old(Ahead(None, p0)).Whole?
      ensures t.Some? ==> (forall n :: n in Nodes(t.value) ==> n in PathNodes(p0) || fresh(n)) && root == t.value.node && Linked(t.value, null)
      ensures t.Some? ==> ExprOf(t.value) == old(Ahead(None, p0)).e
      ensures t.None? ==> (root != null <==> parsedStack.Push?)
    {
      PathNodesExist(p0);
      ghost var goal := Ahead(None, p0);
      var currentnode: Ast := rootnode;
      ghost var p, done: Option<Tree> := p0, None;
      ghost var base, added: set<Ast> := PathNodes(p0), {};
      while true
        invariant At(currentnode, done, p, rootnode) && Ahead(done, p) == goal
        invariant fresh(added) && Involved(done, p) <= base + added
        decreases parsedStack
      {
        var finished;
        currentnode, finished, done, p := Climb(currentnode, rootnode, done, p);
        if finished {
          return rootnode, done;
        }
        if parsedStack.Empty? {
          return null, None;
        }
        ghost var newnodes;
        var fits;
        fits, currentnode, newnodes, done, p := TakeItem(currentnode, rootnode, p);
        added := added + newnodes;
        if !fits {
          return rootnode, None;
        }
      }
    }

    /** The next item, at a node that waits for a child; one that fits nowhere is pushed back. */
    method TakeItem(current: Ast, root: Ast, ghost p: Path)
      returns (fits: bool, node: Ast, ghost newnodes: set<Ast>, ghost t: Option<Tree>, ghost p': Path)
      requires At(current, None, p, root) && parsedStack.Push?
      modifies this, current`leftchild, current`rightchild
      ensures fits <==> !old(parsedStack).top.OtherItem?
      ensures parsedStack == if fits then old(parsedStack).below else old(parsedStack)
      ensures fits ==> At(node, t, p', root) && Ahead(t, p') == old(Ahead(None, p))
      ensures fresh(newnodes) && Involved(t, p') <= PathNodes(p) + newnodes
    {
      PathNodesExist(p);
      node, newnodes, t, p' := current, {}, None, p;
      ghost var f := FramesOf(p);
      var item := PopStack();
      assert old(Ahead(None, p)) == Resume(f, Push(item, parsedStack));
      if item.OperatorItem? {
        node, p' := AddOperator(current, item.op, root, p);
        newnodes := {node};
      } else if item.OperandItem? {
        ghost var leaf;
        leaf, t, p' := AddOperand(current, item.val, root, p);
        newnodes := {leaf};
      } else if item.OtherItem? {
        parsedStack := Push(item, parsedStack);
        return false, node, newnodes, t, p';
      }
      fits := true;
    }

    /** The inner loop: up while the node has all its children. */
    method Climb(current: Ast, root: Ast, ghost t: Option<Tree>, ghost p: Path)
      returns (node: Ast, finished: bool, ghost t': Option<Tree>, ghost p': Path)
      requires At(current, t, p, root)
      ensures At(node, t', p', root) && Ahead(t', p') == Ahead(t, p)
      ensures Involved(t', p') <= Involved(t, p)
      ensures if finished then p' == Top && t'.Some? else t' == None
      ensures if finished then node == root && node.parent == null else node.rightchild == null || node.leftchild == null
    {
      node, t', p' := current, t, p;
      while node.rightchild != null && node.leftchild != null
        invariant At(node, t', p', root) && Ahead(t', p') == Ahead(t, p)
        invariant Involved(t', p') <= Involved(t, p)
        decreases t'.Some?, p'
      {
        if node.parent == null {
          return node, true, t', p';
        }
        node := node.parent;
        if p'.RightOpen? {
          p', t' := LeftOf(p'.node, t'.value, p'.up), None;
        } else {
          FocusUp(t'.value, p');
          p', t' := p'.up, Some(Grown(t'.value, p'));
        }
      }
      finished := false;
    }

    method AddOperator(current: Ast, op: Operator, root: Ast, ghost p: Path) returns (newnode: Ast, ghost p': Path)
      requires At(current, None, p, root)
      modifies current`leftchild, current`rightchild
      ensures At(newnode, None, p', root)
      ensures fresh(newnode) && PathNodes(p') == PathNodes(p) + {newnode}
      ensures FramesOf(p') == if IsUnary(op) then InPrefix(op, old(FramesOf(p))) else InRight(op, old(FramesOf(p)))
    {
      PathNodesExist(p);
      newnode := new Ast.ForOperator(current, op);
      Attach(current, newnode, p);
      p' := if IsUnary(op) then UnaryAt(newnode, p) else RightOpen(newnode, p);
    }

    method AddOperand(current: Ast, v: Operand, root: Ast, ghost p: Path)
      returns (ghost newnode: Ast, ghost t: Option<Tree>, ghost p': Path)
      requires At(current, None, p, root)
      modifies current`leftchild, current`rightchild
      ensures At(current, t, p', root)
      ensures fresh(newnode) && Involved(t, p') <= PathNodes(p) + {newnode}
      ensures Ahead(t, p') == Fill(old(FramesOf(p)), Atom(v), parsedStack)
    {
      PathNodesExist(p);
      var leaf := new Ast.ForOperand(current, v);
      newnode := leaf;
      Attach(current, leaf, p);
      assert ExprOf(Leaf(newnode)) == Atom(v);
      if p.RightOpen? {
        t, p' := None, LeftOf(current, Leaf(newnode), p.up);
        assert FramesOf(p') == InLeft(current.operatortype, Atom(v), FramesOf(p.up));
      } else {
        FocusUp(Leaf(newnode), p);
        t, p' := Some(Grown(Leaf(newnode), p)), p.up;
      }
    }

    /** A new node goes to the right while there is none, otherwise to the left. */
    static method Attach(currentnode: Ast, newnode: Ast, ghost p: Path)
      requires !p.Top? && currentnode == p.node && Building(p) && LinkedPath(p, null)
      requires newnode !in PathNodes(p)
      modifies currentnode`leftchild, currentnode`rightchild
      ensures LinkedPath(p, newnode)
      ensures FramesOf(p) == old(FramesOf(p))
    {
      if currentnode.rightchild == null {
        currentnode.rightchild := newnode;
      } else {
        currentnode.leftchild := newnode;
      }
    }
  }

  // ----- the promise of the parser -----

  /** The postfix form of any expression, pushed on any stack with marks between its items, is rebuilt; the rest is left. */
  lemma PushedIsRebuilt(e: Expr, s: Stack, base: Stack)
    requires WellFormed(e) && Strip(s) == Pushed(e, base)
    requires s.top.ExpressionMark? ==> !s.below.top.ExpressionMark?
    ensures Consume(s).Whole? && Consume(s).e == e && Strip(Consume(s).rest) == base
    ensures CutBelowOperand(s, Consume(s).rest)
  {
    var s' := if s.top.ExpressionMark? then s.below else s;
    var rest := ResumeTakes(Done, e, s', base);
    ResumeSound(Done, s');
  }

  /** Whatever is rebuilt was pushed as its postfix form. */
  lemma RebuiltWasPushed(s: Stack)
    requires s.Push? && (s.top.ExpressionMark? ==> s.below.Push?)
    requires Consume(s).Whole?
    ensures WellFormed(Consume(s).e) && Strip(s) == Pushed(Consume(s).e, Strip(Consume(s).rest))
    ensures CutBelowOperand(s, Consume(s).rest)
  {
    ResumeSound(Done, if s.top.ExpressionMark? then s.below else s);
  }

  /** With at most one mark on top, parsing succeeds exactly on the stacks that hold some expression's postfix form on top. */
  lemma ParsesIff(s: Stack)
    requires s.Push? && (s.top.ExpressionMark? ==> s.below.Push? && !s.below.top.ExpressionMark?)
    ensures Consume(s).Whole? <==> exists e, base :: WellFormed(e) && Strip(s) == Pushed(e, base)
  {
    if Consume(s).Whole? {
      RebuiltWasPushed(s);
    } else if e, base :| WellFormed(e) && Strip(s) == Pushed(e, base) {
      PushedIsRebuilt(e, s, base);
    }
  }

  // ----- when parsing fails -----

  /** `rest` is `s` with some items popped. */
  predicate PoppedTo(s: Stack, rest: Stack) {
    s == rest || (s.Push? && PoppedTo(s.below, rest))
  }

  /** A failed parse has popped everything down to the first item that fits nowhere, or all there was. */
  lemma {:induction false} StuckWhere(f: Frames, s: Stack)
    requires Resume(f, s).Stuck?
    ensures var r := Resume(f, s).rest; PoppedTo(s, r) && (r.Empty? || r.top.OtherItem?)
    decreases s, 0
  {
    match s
    case Push(OperatorItem(op), b) => StuckWhere(if IsUnary(op) then InPrefix(op, f) else InRight(op, f), b);
    case Push(OperandItem(v), b) => FillStuckWhere(f, Atom(v), b);
    case Push(ExpressionMark, b) => StuckWhere(f, b);
    case _ =>
  }

  lemma {:induction false} FillStuckWhere(f: Frames, e: Expr, s: Stack)
    requires Fill(f, e, s).Stuck?
    ensures var r := Fill(f, e, s).rest; PoppedTo(s, r) && (r.Empty? || r.top.OtherItem?)
    decreases s, 1, f
  {
    match f
    case Done =>
    case InPrefix(op, up) => FillStuckWhere(up, Prefix(op, e), s);
    case InRight(op, up) => StuckWhere(InLeft(op, e, up), s);
    case InLeft(op, r, up) => FillStuckWhere(up, Infix(op, e, r), s);
  }

  /** The parse of a stack that begins with two marks fails at the second, which stays. */
  lemma TwoMarksFail(s: Stack)
    ensures Consume(Push(ExpressionMark, Push(ExpressionMark, s))) == Stuck(Push(ExpressionMark, s))
  {
  }
}
