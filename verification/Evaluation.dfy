/**
 * Evaluating a search condition: a walk over the pointer tree that collapses AND
 * and OR nodes in place while the predicates below them complete at once or in
 * the background. A backgrounded predicate ends the walk; its completion starts
 * it again at that node.
 */
module Evaluation {
  import opened AstTree
  import opened Conditions

  predicate IsPredicate(op: Operator) {
    op in {Eq, Ne, Lt, Gt, Lte, Gte, Between, NotBetween, Like, NotLike, IsNull, IsNotNull}
  }

  /** AND and OR over predicates whose operands are values. */
  ghost predicate Condition(t: Tree)
    reads Nodes(t)`operatortype
  {
    match t
    case Leaf(_) => true
    case Unary(n, r) => IsPredicate(n.operatortype) && r.Leaf?
    case Binary(n, l, r) =>
      if n.operatortype in {And, Or} then Condition(l) && Condition(r)
      else IsPredicate(n.operatortype) && l.Leaf? && r.Leaf?
  }

  ghost function CondOf(t: Tree): Cond
    reads Nodes(t)`operatortype, Nodes(t)`predicateResults
  {
    match t
    case Leaf(n) => Found(n.predicateResults)
    case Unary(n, _) => Question(n)
    case Binary(n, l, r) =>
      if n.operatortype in {And, Or} then Combined(n.operatortype, CondOf(l), CondOf(r)) else Question(n)
  }

  ghost function AroundOf(p: Path): Around
    reads PathNodes(p)`operatortype, PathNodes(p)`predicateResults
  {
    match p
    case LeftOf(n, s, up) => ThenRight(n.operatortype, CondOf(s), AroundOf(up))
    case RightOf(n, s, up) => AfterLeft(n.operatortype, s.node.predicateResults, AroundOf(up))
    case _ => Nothing
  }

  /** The walk is under ANDs and ORs whose left side is finished when it is on the right. */
  ghost predicate Surrounding(p: Path)
    reads PathNodes(p)`operatortype
  {
    match p
    case Top => true
    case LeftOf(n, s, up) => n.operatortype in {And, Or} && Condition(s) && Surrounding(up)
    case RightOf(n, s, up) => n.operatortype in {And, Or} && s.Leaf? && Surrounding(up)
    case _ => false
  }

  /** Where the walk is: a subtree and what surrounds it. */
  datatype Place = Place(t: Tree, p: Path)

  ghost function ViewOf(t: Tree, p: Path): View
    reads Nodes(t)`operatortype, Nodes(t)`predicateResults
    reads PathNodes(p)`operatortype, PathNodes(p)`predicateResults
  {
    View(AroundOf(p), CondOf(t))
  }

  ghost predicate Placed(w: Place)
    reads Nodes(w.t), PathNodes(w.p)
  {
    match w
    case Place(t, p) => Focus(t, p) && Condition(t) && Surrounding(p)
  }

  /** `w'` is a child of `w`. */
  predicate InPlace(w: Place, w': Place) {
    match w.t
    case Binary(n, l, r) => w' == Place(l, LeftOf(n, r, w.p)) || w' == Place(r, RightOf(n, l, w.p))
    case _ => false
  }

  /** Operators not yet carried out. */
  function Work(t: Tree): nat {
    match t
    case Leaf(_) => 0
    case Unary(_, r) => 1 + Work(r)
    case Binary(_, l, r) => 1 + Work(l) + Work(r)
  }

  function WorkUp(p: Path): nat {
    match p
    case Top => 0
    case UnaryAt(_, up) => 1 + WorkUp(up)
    case LeftOf(_, s, up) => 1 + Work(s) + WorkUp(up)
    case RightOf(_, s, up) => 1 + Work(s) + WorkUp(up)
    case RightOpen(_, up) => 1 + WorkUp(up)
  }

  function WorkOf(w: Place): nat {
    Work(w.t) + WorkUp(w.p)
  }

  function Everything(w: Place): set<Ast> {
    Nodes(w.t) + PathNodes(w.p)
  }

  function RootUp(n: Ast, p: Path): Ast {
    if p.Top? then n else RootUp(p.node, p.up)
  }

  function RootOf(w: Place): Ast {
    RootUp(w.t.node, w.p)
  }

  /** Leaving a finished node for its parent. */
  lemma GoUp(w: Place)
    requires Placed(w) && w.t.Leaf? && !w.p.Top?
    ensures Placed(Place(Grown(w.t, w.p), w.p.up))
    ensures Into(ViewOf(Grown(w.t, w.p), w.p.up), ViewOf(w.t, w.p))
    ensures Everything(Place(Grown(w.t, w.p), w.p.up)) == Everything(w)
    ensures WorkOf(Place(Grown(w.t, w.p), w.p.up)) == WorkOf(w) && RootOf(Place(Grown(w.t, w.p), w.p.up)) == RootOf(w)
  {
    FocusUp(w.t, w.p);
    assert w.p.RightOf? ==> CondOf(w.p.sibling) == Found(w.p.sibling.node.predicateResults);
  }

  lemma GoIn(w: Place, w': Place)
    requires InPlace(w, w')
    ensures Everything(w') == Everything(w) && WorkOf(w') == WorkOf(w) && Size(w'.t) < Size(w.t)
    ensures RootOf(w') == RootOf(w)
  {
  }

  class Statement {
    const env: Env

    constructor (env: Env)
      ensures this.env == env
    {
      this.env := env;
    }

    /** The rows are restricted, and those dropped are collected engine by engine. */
    method Intersect(left: Rows, right: Rows) returns (results: Rows, enginerowids: map<int, seq<RowKey>>)
      ensures results == Restrict(left, right)
      ensures Grouped(enginerowids, Dropped(env, left, right))
    {
      results, enginerowids := map[], map[];
      var todo := left.Keys;
      ghost var ks := {};
      while todo != {}
        invariant todo <= left.Keys
        invariant results == map k | k in left && k in right && k !in todo :: left[k]
        invariant ks == Dropped(env, left, right) - todo && Grouped(enginerowids, ks)
        decreases todo
      {
        var k: RowKey :| k in todo;
        if k in right {
          results := results[k := left[k]];
        } else if k !in env.stagedRows {
          GroupedAdd(enginerowids, ks, k);
          enginerowids := enginerowids[k.engineid := Get(enginerowids, k.engineid) + [k]];
          ks := ks + {k};
        }
        todo := todo - {k};
      }
      assert ks == Dropped(env, left, right);
    }

    /** One message to each engine, naming the keys collected for it; each dropped key is in exactly one. */
    method Rollbacks(enginerowids: map<int, seq<RowKey>>, ghost ks: set<RowKey>) returns (sent: seq<Rollback>)
      requires Grouped(enginerowids, ks)
      ensures SentTo(sent, ks, enginerowids.Keys) && DropsOf(sent) == multiset(ks)
    {
      sent := [];
      var todo: set<int> := enginerowids.Keys;
      ghost var gone: set<int> := {};
      while todo != {}
        invariant todo <= enginerowids.Keys && gone == enginerowids.Keys - todo
        invariant SentTo(sent, ks, gone)
        decreases todo
      {
        assert (forall e: int :: e !in todo) ==> todo == {};
        var e: int :| e in todo;
        SentOne(enginerowids, sent, ks, gone, e);
        sent := sent + [Rollback(e, enginerowids[e])];
        todo := todo - {e};
        gone := gone + {e};
      }
      assert gone == enginerowids.Keys;
      AllEngines(enginerowids, ks);
    }

    /** The node becomes a value; its children are let go. */
    method Collapse(n: Ast, ghost t: Tree, ghost p: Path)
      requires Placed(Place(t, p)) && t.node == n
      modifies n`isoperator, n`leftchild, n`rightchild
      ensures Placed(Place(Leaf(n), p)) && AroundOf(p) == old(AroundOf(p))
    {
      assert n !in PathNodes(p);
      n.isoperator := false;
      n.leftchild := null;
      n.rightchild := null;
      assert LinkedPath(p, n);
    }

    method SetResults(n: Ast, results: Rows, ghost t: Tree, ghost p: Path)
      requires Placed(Place(t, p)) && t.node == n
      modifies n`predicateResults
      ensures n.predicateResults == results
      ensures Placed(Place(t, p)) && AroundOf(p) == old(AroundOf(p))
    {
      assert n !in PathNodes(p);
      n.predicateResults := results;
    }

    /** What an AND keeps, as the left side has it, and the messages about what it drops: never a staged row. */
    method Conjunction(left: Rows, right: Rows) returns (results: Rows, sent: seq<Rollback>)
      ensures forall k :: k in results <==> k in left && k in right
      ensures forall k :: k in results ==> results[k] == left[k]
      ensures forall k :: Named(sent, k) <==> k in left && k !in right && k !in env.stagedRows
      ensures results == Restrict(left, right)
      ensures DropsOf(sent) == multiset(Dropped(env, left, right)) && OnePerEngine(sent)
    {
      var enginerowids;
      results, enginerowids := Intersect(left, right);
      sent := Rollbacks(enginerowids, Dropped(env, left, right));
      forall k ensures Named(sent, k) <==> k in left && k !in right && k !in env.stagedRows {
        NamedIff(sent, k);
      }
    }

    /** The rows of both sides, combined. */
    method CarryRows(op: Operator, left: Rows, right: Rows) returns (results: Rows, sent: seq<Rollback>)
      ensures CarriedOut(op, left, right, env.stagedRows, results, sent) && OnePerEngine(sent)
      ensures results == if op == And then Restrict(left, right) else Union(left, right)
      ensures DropsOf(sent) == if op == And then multiset(Dropped(env, left, right)) else multiset{}
    {
      if op == And {
        results, sent := Conjunction(left, right);
      } else {
        results, sent := Union(left, right), [];
        assert forall k :: !Named(sent, k);
      }
    }

    /** What the two finished children of an AND or OR hold. */
    method Sides(n: Ast, ghost t: Tree, ghost p: Path) returns (left: Rows, right: Rows)
      requires Placed(Place(t, p)) && t.Binary? && t.node == n && t.left.Leaf? && t.right.Leaf?
      requires n.operatortype in {And, Or}
      ensures ViewOf(t, p) == View(AroundOf(p), Combined(n.operatortype, Found(left), Found(right)))
    {
      left, right := n.leftchild.predicateResults, n.rightchild.predicateResults;
      assert CondOf(t.left) == Found(left) && CondOf(t.right) == Found(right);
    }

    /** AND and OR, once both children are finished. */
    method Carry(n: Ast, ghost t: Tree, ghost p: Path) returns (sent: seq<Rollback>)
      requires Placed(Place(t, p)) && t.Binary? && t.node == n && t.left.Leaf? && t.right.Leaf?
      requires n.operatortype in {And, Or}
      modifies n
      ensures Placed(Place(Leaf(n), p))
      ensures Carried(env, old(ViewOf(t, p)), ViewOf(Leaf(n), p), DropsOf(sent), []) && OnePerEngine(sent)
    {
      NodesExist(t);
      PathNodesExist(p);
      var op := n.operatortype;
      var left, right := Sides(n, t, p);
      var results;
      results, sent := CarryRows(op, left, right);
      RowsCarried(env, AroundOf(p), op, left, right, results, sent);
      BecomeValue(n, results, t, p);
    }

    method BecomeValue(n: Ast, results: Rows, ghost t: Tree, ghost p: Path)
      requires Placed(Place(t, p)) && t.node == n
      modifies n`isoperator, n`leftchild, n`rightchild, n`predicateResults
      ensures Placed(Place(Leaf(n), p)) && ViewOf(Leaf(n), p) == View(old(AroundOf(p)), Found(results))
    {
      Collapse(n, t, p);
      SetResults(n, results, Leaf(n), p);
    }

    /**
     * Ast::evaluate. True: the node is a value and its parent is next. False: a
     * child is next, or nothing is, because the node's predicate is in the
     * background.
     */
    method Evaluate(n: Ast, ghost w: Place)
      returns (ok: bool, next: Ast?, sent: seq<Rollback>, ghost asked: seq<Ast>, ghost w': Place)
      requires Placed(w) && w.t.node == n
      modifies n
      ensures Placed(w') && OnePerEngine(sent)
      ensures ok ==> w' == Place(Leaf(n), w.p) && next == Holder(w.p)
      ensures ok ==> Progress(env, old(ViewOf(w.t, w.p)), ViewOf(w'.t, w'.p), DropsOf(sent), asked)
      ensures !ok ==> !w.t.Leaf? && sent == []
      ensures !ok && next != null ==> InPlace(w, w') && next == w'.t.node && !w'.t.Leaf? && asked == []
      ensures !ok && next != null ==> Into(old(ViewOf(w.t, w.p)), ViewOf(w'.t, w'.p))
      ensures !ok && next == null ==> w' == Place(Leaf(n), w.p)
      ensures !ok && next == null ==>
                Progress(env, old(ViewOf(w.t, w.p)), View(AroundOf(w.p), Found(Answer(env, n))), DropsOf(sent), asked)
    {
      sent, asked, w' := [], [], Place(Leaf(n), w.p);
      if !n.isoperator {
        return true, n.parent, sent, asked, w';
      }
      FocusDown(w.t, w.p);
      if !IsUnary(n.operatortype) {
        if n.leftchild.isoperator {
          w' := Place(w.t.left, LeftOf(n, w.t.right, w.p));
          return false, n.leftchild, sent, asked, w';
        }
      }
      if n.rightchild.isoperator {
        w' := Place(w.t.right, RightOf(n, w.t.left, w.p));
        assert CondOf(w.t.left) == Found(w.t.left.node.predicateResults);
        return false, n.rightchild, sent, asked, w';
      }
      ghost var c := AroundOf(w.p);
      if n.operatortype in {And, Or} {
        sent := Carry(n, w.t, w.p);
        return true, n.parent, sent, asked, w';
      }
      asked := [n];
      Collapse(n, w.t, w.p);
      if n in env.atOnce {
        SetResults(n, Answer(env, n), Leaf(n), w.p);
        return true, n.parent, sent, asked, w';
      }
      return false, null, sent, asked, w';
    }

    /**
     * Statement::searchExpression, until the condition is evaluated or a
     * predicate goes into the background.
     */
    method SearchExpression(start: Ast, ghost w: Place)
      returns (finished: bool, node: Ast, sent: seq<Rollback>, ghost asked: seq<Ast>, ghost w': Place)
      requires Placed(w) && w.t.node == start
      modifies Everything(w)
      ensures Placed(w') && w'.t == Leaf(node) && Everything(w') <= Everything(w) && WorkOf(w') <= WorkOf(w)
      ensures RootOf(w') == RootOf(w)
      ensures finished ==> w'.p == Top && Ahead(env, sent, asked, ViewOf(w'.t, w'.p), old(Whole(env, ViewOf(w.t, w.p))))
      ensures !finished ==> WorkOf(w') < WorkOf(w)
      ensures !finished ==>
                Ahead(env, sent, asked, View(AroundOf(w'.p), Found(Answer(env, node))), old(Whole(env, ViewOf(w.t, w.p))))
    {
      ghost var total := Whole(env, ViewOf(w.t, w.p));
      var astNode := start;
      sent, asked, w' := [], [], w;
      assert DropsOf([]) + total.drops == total.drops && [] + total.asked == total.asked;
      while true
        invariant Placed(w') && w'.t.node == astNode
        invariant Everything(w') <= Everything(w) && WorkOf(w') <= WorkOf(w) && RootOf(w') == RootOf(w)
        invariant Ahead(env, sent, asked, ViewOf(w'.t, w'.p), total)
        decreases WorkOf(w'), if w'.t.Leaf? then 1 else 0, Size(w'.t)
      {
        ghost var g, w0 := ViewOf(w'.t, w'.p), w';
        var ok, nextAstNode, more;
        ghost var a;
        ok, nextAstNode, more, a, w' := Evaluate(astNode, w');
        ghost var g' := ViewOf(w'.t, w'.p);
        if ok {
          AheadStep(env, sent, asked, g, total, more, a, g');
          sent, asked := sent + more, asked + a;
          if nextAstNode == null {
            return true, astNode, sent, asked, w';
          }
          GoUp(w');
          IntoKeeps(env, ViewOf(Grown(w'.t, w'.p), w'.p.up), g');
          w' := Place(Grown(w'.t, w'.p), w'.p.up);
          astNode := nextAstNode;
        } else {
          if nextAstNode == null {
            AheadStep(env, sent, asked, g, total, more, a, View(AroundOf(w'.p), Found(Answer(env, astNode))));
            return false, astNode, sent + more, asked + a, w';
          }
          GoIn(w0, w');
          IntoKeeps(env, g, g');
          astNode := nextAstNode;
        }
      }
    }

    /**
     * The condition from start to end: whenever the walk stops at a backgrounded
     * predicate, its answer arrives and the walk is resumed there. No message is
     * about a staged row.
     */
    method Run(root: Ast, ghost t0: Tree) returns (sent: seq<Rollback>, ghost asked: seq<Ast>)
      requires root == t0.node && Linked(t0, null) && Condition(t0)
      modifies Nodes(t0)
      ensures root.predicateResults == old(MeaningOf(env, CondOf(t0))).rows
      ensures DropsOf(sent) == old(MeaningOf(env, CondOf(t0))).drops
      ensures SparesStaged(sent, env.stagedRows)
      ensures asked == old(MeaningOf(env, CondOf(t0))).asked
    {
      ghost var cond := CondOf(t0);
      sent, asked := Resume(root, t0);
      NoneStaged(env, cond, sent);
    }

    /** Search, and search again from wherever an answer has arrived. */
    method Resume(root: Ast, ghost t0: Tree) returns (sent: seq<Rollback>, ghost asked: seq<Ast>)
      requires root == t0.node && Linked(t0, null) && Condition(t0)
      modifies Nodes(t0)
      ensures root.predicateResults == old(MeaningOf(env, CondOf(t0))).rows
      ensures DropsOf(sent) == old(MeaningOf(env, CondOf(t0))).drops
      ensures asked == old(MeaningOf(env, CondOf(t0))).asked
    {
      NodesExist(t0);
      ghost var total := MeaningOf(env, CondOf(t0));
      ghost var w := Place(t0, Top);
      assert Whole(env, ViewOf(w.t, w.p)) == total;
      var finished, node;
      finished, node, sent, asked, w := SearchExpression(root, w);
      while !finished
        invariant Placed(w) && w.t == Leaf(node) && Everything(w) <= Nodes(t0) && RootOf(w) == root
        invariant finished ==> w.p == Top && Ahead(env, sent, asked, ViewOf(w.t, w.p), total)
        invariant !finished ==> Ahead(env, sent, asked, View(AroundOf(w.p), Found(Answer(env, node))), total)
        decreases !finished, WorkOf(w)
      {
        SetResults(node, Answer(env, node), w.t, w.p);
        ghost var g := ViewOf(w.t, w.p);
        assert g == View(AroundOf(w.p), Found(Answer(env, node)));
        var more;
        ghost var a;
        finished, node, more, a, w := SearchExpression(node, w);
        AheadTwice(env, sent, asked, g, total, more, a,
                   if finished then ViewOf(w.t, w.p) else View(AroundOf(w.p), Found(Answer(env, node))));
        sent, asked := sent + more, asked + a;
      }
    }
  }

  /** No message of a whole evaluation is about a staged row. */
  lemma NoneStaged(e: Env, c: Cond, sent: seq<Rollback>)
    requires DropsOf(sent) == MeaningOf(e, c).drops
    ensures SparesStaged(sent, e.stagedRows)
  {
    forall k | Named(sent, k) ensures k !in e.stagedRows {
      NamedIff(sent, k);
      MeaningByRow(e, c, k);
    }
  }

  /** The predicates of a tree, from left to right. */
  ghost function Predicates(t: Tree): seq<Ast>
    reads Nodes(t)`operatortype
  {
    match t
    case Leaf(_) => []
    case Unary(n, _) => [n]
    case Binary(n, l, r) => if n.operatortype in {And, Or} then Predicates(l) + Predicates(r) else [n]
  }

  /** Each predicate is asked exactly once, from left to right, whatever the answers and delays. */
  lemma {:induction false} AskedOnce(e: Env, t: Tree, parent: Ast?)
    requires Linked(t, parent)
    ensures MeaningOf(e, CondOf(t)).asked == Predicates(t)
    ensures forall n :: n in Predicates(t) ==> n in Nodes(t)
    ensures forall n :: n in Predicates(t) <==> n in Questions(CondOf(t))
    ensures forall i, j :: 0 <= i < j < |Predicates(t)| ==> Predicates(t)[i] != Predicates(t)[j]
  {
    if t.Binary? && t.node.operatortype in {And, Or} {
      AskedOnce(e, t.left, t.node);
      AskedOnce(e, t.right, t.node);
      var l, r := Predicates(t.left), Predicates(t.right);
      forall i, j | 0 <= i < j < |l + r| ensures (l + r)[i] != (l + r)[j] {
        assert i < |l| ==> (l + r)[i] in l;
        assert j >= |l| ==> (l + r)[j] in r;
      }
    }
  }
}
