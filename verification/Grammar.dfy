/**
 * What the SQL grammar pushes for expressions and search conditions (parser.yy),
 * and what the parser makes of it. How many operands an operator takes is said
 * here by the productions, independently of the table in AstTree.
 */
module Grammar {
  import opened AstTree
  import opened ExpressionParser

  /** expression2; a parameter, an aggregate and a subquery are operands too. */
  datatype Scalar = Atomic(v: Operand) | Arithmetic(op: Operator, left: Scalar, right: Scalar) | Minus(e: Scalar)

  /** search_condition2, with the predicates that take one, two or three expressions. */
  datatype Search =
    | Compare(op: Operator, left: Scalar, right: Scalar)
    | Resemble(op: Operator, e: Scalar, pattern: Operand)
    | Range(op: Operator, e: Scalar, lower: Scalar, upper: Scalar)
    | Test(op: Operator, e: Scalar)
    | Quantified(op: Operator, subquery: Operand)
    | Inverse(c: Search)
    | Both(first: Search, second: Search)
    | Either(first: Search, second: Search)
    | Truth(op: Operator, c: Search)

  predicate ScalarOk(e: Scalar) {
    match e
    case Atomic(_) => true
    case Arithmetic(op, l, r) =>
      op in {Concatenation, Addition, Subtraction, Multiplication, Division} && ScalarOk(l) && ScalarOk(r)
    case Minus(a) => ScalarOk(a)
  }

  predicate Grammatical(c: Search) {
    match c
    case Compare(op, l, r) => op in {Eq, Ne, Lt, Gt, Lte, Gte} && ScalarOk(l) && ScalarOk(r)
    case Resemble(op, e, _) => op in {Like, NotLike} && ScalarOk(e)
    case Range(op, e, lower, upper) => op in {Operator.Between, NotBetween} && ScalarOk(e) && ScalarOk(lower) && ScalarOk(upper)
    case Test(op, e) => op in {IsNull, IsNotNull, In, NotIn} && ScalarOk(e)
    case Quantified(op, _) => op in {Exists, Unique}
    case Inverse(a) => Grammatical(a)
    case Both(l, r) => Grammatical(l) && Grammatical(r)
    case Either(l, r) => Grammatical(l) && Grammatical(r)
    case Truth(op, a) => op in {IsTrue, IsFalse, IsUnknown, NullTruth} && Grammatical(a)
  }

  // ----- what the actions push -----

  function EmitScalar(e: Scalar, s: Stack): Stack {
    match e
    case Atomic(v) => Push(OperandItem(v), s)
    case Arithmetic(op, l, r) => Push(OperatorItem(op), EmitScalar(r, EmitScalar(l, s)))
    case Minus(a) => Push(OperatorItem(Operator.Negation), EmitScalar(a, s))
  }

  /** An expression is followed by its mark. */
  function EmitExpression(e: Scalar, s: Stack): Stack {
    Push(ExpressionMark, EmitScalar(e, s))
  }

  function Emit(c: Search, s: Stack): Stack {
    match c
    case Compare(op, l, r) => Push(OperatorItem(op), EmitExpression(r, EmitExpression(l, s)))
    case Resemble(op, e, pattern) => Push(OperatorItem(op), Push(OperandItem(pattern), EmitExpression(e, s)))
    case Range(op, e, lower, upper) =>
      Push(OperatorItem(op), Push(OperatorItem(BetweenAnd), EmitExpression(upper, EmitExpression(lower, EmitExpression(e, s)))))
    case Test(op, e) => Push(OperatorItem(op), EmitExpression(e, s))
    case Quantified(op, q) => Push(OperatorItem(op), Push(OperandItem(q), s))
    case Inverse(a) => Push(OperatorItem(Not), Emit(a, s))
    case Both(l, r) => Push(OperatorItem(And), Emit(r, Emit(l, s)))
    case Either(l, r) => Push(OperatorItem(Or), Emit(r, Emit(l, s)))
    case Truth(op, a) => Push(OperatorItem(op), Emit(a, s))
  }

  // ----- what was meant -----

  function ScalarTree(e: Scalar): Expr {
    match e
    case Atomic(v) => Atom(v)
    case Arithmetic(op, l, r) => Infix(op, ScalarTree(l), ScalarTree(r))
    case Minus(a) => Prefix(Operator.Negation, ScalarTree(a))
  }

  function SearchTree(c: Search): Expr {
    match c
    case Compare(op, l, r) => Infix(op, ScalarTree(l), ScalarTree(r))
    case Resemble(op, e, pattern) => Infix(op, ScalarTree(e), Atom(pattern))
    case Range(op, e, lower, upper) => Infix(op, ScalarTree(e), Infix(BetweenAnd, ScalarTree(lower), ScalarTree(upper)))
    case Test(op, e) => Prefix(op, ScalarTree(e))
    case Quantified(op, q) => Prefix(op, Atom(q))
    case Inverse(a) => Prefix(Not, SearchTree(a))
    case Both(l, r) => Infix(And, SearchTree(l), SearchTree(r))
    case Either(l, r) => Infix(Or, SearchTree(l), SearchTree(r))
    case Truth(op, a) => Prefix(op, SearchTree(a))
  }

  /** How many tests for the truth value NULL, whose operator the parser does not know to be unary. */
  function NullTruths(c: Search): nat {
    match c
    case Inverse(a) => NullTruths(a)
    case Both(l, r) => NullTruths(l) + NullTruths(r)
    case Either(l, r) => NullTruths(l) + NullTruths(r)
    case Truth(op, a) => NullTruths(a) + if op == NullTruth then 1 else 0
    case _ => 0
  }

  // ----- what the parser takes -----

  lemma {:induction false} ScalarTaken(f: Frames, e: Scalar, s: Stack)
    requires ScalarOk(e)
    ensures Resume(f, EmitScalar(e, s)) == Fill(f, ScalarTree(e), s)
    decreases e
  {
    match e
    case Atomic(_) =>
    case Arithmetic(op, l, r) =>
      ScalarTaken(InRight(op, f), r, EmitScalar(l, s));
      ScalarTaken(InLeft(op, ScalarTree(r), f), l, s);
    case Minus(a) => ScalarTaken(InPrefix(Operator.Negation, f), a, s);
  }

  lemma ExpressionTaken(f: Frames, e: Scalar, s: Stack)
    requires ScalarOk(e)
    ensures Resume(f, EmitExpression(e, s)) == Fill(f, ScalarTree(e), s)
  {
    ScalarTaken(f, e, s);
  }

  /** Predicates are taken whole. */
  lemma PredicateTaken(f: Frames, c: Search, s: Stack)
    requires Grammatical(c) && (c.Compare? || c.Resemble? || c.Range? || c.Test? || c.Quantified?)
    ensures Resume(f, Emit(c, s)) == Fill(f, SearchTree(c), s)
  {
    match c
    case Compare(op, l, r) =>
      ExpressionTaken(InRight(op, f), r, EmitExpression(l, s));
      ExpressionTaken(InLeft(op, ScalarTree(r), f), l, s);
    case Resemble(op, e, pattern) =>
      assert Resume(InRight(op, f), Push(OperandItem(pattern), EmitExpression(e, s)))
             == Fill(InRight(op, f), Atom(pattern), EmitExpression(e, s));
      ExpressionTaken(InLeft(op, Atom(pattern), f), e, s);
    case Range(op, e, lower, upper) =>
      var both := InRight(BetweenAnd, InRight(op, f));
      ExpressionTaken(both, upper, EmitExpression(lower, EmitExpression(e, s)));
      ExpressionTaken(InLeft(BetweenAnd, ScalarTree(upper), InRight(op, f)), lower, EmitExpression(e, s));
      ExpressionTaken(InLeft(op, Infix(BetweenAnd, ScalarTree(lower), ScalarTree(upper)), f), e, s);
    case Test(op, e) => ExpressionTaken(InPrefix(op, f), e, s);
    case Quantified(op, q) =>
      assert Resume(InPrefix(op, f), Push(OperandItem(q), s)) == Fill(InPrefix(op, f), Atom(q), s);
  }

  /** Without a test for NULL the whole condition is taken, as it was meant, and nothing below it. */
  lemma {:induction false} SearchTaken(f: Frames, c: Search, s: Stack)
    requires Grammatical(c) && NullTruths(c) == 0
    ensures Resume(f, Emit(c, s)) == Fill(f, SearchTree(c), s)
    decreases c
  {
    match c
    case Inverse(a) => SearchTaken(InPrefix(Not, f), a, s);
    case Both(l, r) =>
      SearchTaken(InRight(And, f), r, Emit(l, s));
      SearchTaken(InLeft(And, SearchTree(r), f), l, s);
    case Either(l, r) =>
      SearchTaken(InRight(Or, f), r, Emit(l, s));
      SearchTaken(InLeft(Or, SearchTree(r), f), l, s);
    case Truth(op, a) => SearchTaken(InPrefix(op, f), a, s);
    case _ => PredicateTaken(f, c, s);
  }

  /** The left operands still to come. */
  function Awaited(f: Frames): nat {
    match f
    case Done => 0
    case InPrefix(_, up) => Awaited(up)
    case InRight(_, up) => 1 + Awaited(up)
    case InLeft(_, _, up) => Awaited(up)
  }

  lemma {:induction false} FilledStillWaits(f: Frames, e: Expr, s: Stack) returns (f': Frames)
    requires Awaited(f) > 0
    ensures Fill(f, e, s) == Resume(f', s) && Awaited(f') == Awaited(f) - 1
    decreases f
  {
    match f
    case InPrefix(op, up) => f' := FilledStillWaits(up, Prefix(op, e), s);
    case InRight(op, up) => f' := InLeft(op, e, up);
    case InLeft(op, r, up) => f' := FilledStillWaits(up, Infix(op, e, r), s);
  }

  /** Each test for NULL makes the parser wait for one operand more than there is. */
  lemma {:induction false} TakesTooLittle(f: Frames, c: Search, s: Stack) returns (f': Frames)
    requires Grammatical(c) && NullTruths(c) > 0
    ensures Resume(f, Emit(c, s)) == Resume(f', s) && Awaited(f') == Awaited(f) + NullTruths(c) - 1
    decreases c, 1
  {
    match c
    case Inverse(a) => f' := TakesTooLittle(InPrefix(Not, f), a, s);
    case Both(l, r) => f' := PairTakesTooLittle(And, f, c, l, r, s);
    case Either(l, r) => f' := PairTakesTooLittle(Or, f, c, l, r, s);
    case Truth(op, a) =>
      if op != NullTruth {
        f' := TakesTooLittle(InPrefix(op, f), a, s);
      } else if NullTruths(a) == 0 {
        SearchTaken(InRight(op, f), a, s);
        f' := InLeft(op, SearchTree(a), f);
      } else {
        f' := TakesTooLittle(InRight(op, f), a, s);
      }
  }

  lemma {:induction false} PairTakesTooLittle(op: Operator, f: Frames, c: Search, l: Search, r: Search, s: Stack) returns (f': Frames)
    requires c == Both(l, r) || c == Either(l, r)
    requires op in {And, Or} && Grammatical(l) && Grammatical(r) && NullTruths(l) + NullTruths(r) > 0
    ensures Resume(f, Push(OperatorItem(op), Emit(r, Emit(l, s)))) == Resume(f', s)
    ensures Awaited(f') == Awaited(f) + NullTruths(l) + NullTruths(r) - 1
    decreases c, 0
  {
    if NullTruths(r) == 0 {
      SearchTaken(InRight(op, f), r, Emit(l, s));
      f' := TakesTooLittle(InLeft(op, SearchTree(r), f), l, s);
    } else {
      var f1 := TakesTooLittle(InRight(op, f), r, Emit(l, s));
      if NullTruths(l) == 0 {
        SearchTaken(f1, l, s);
        f' := FilledStillWaits(f1, SearchTree(l), s);
      } else {
        f' := TakesTooLittle(f1, l, s);
      }
    }
  }

  function Height(s: Stack): nat {
    match s
    case Empty => 0
    case Push(_, b) => 1 + Height(b)
  }

  lemma {:induction false} ResumePops(f: Frames, s: Stack)
    requires Resume(f, s).Whole?
    ensures Height(Resume(f, s).rest) < Height(s)
    decreases s, 0
  {
    match s
    case Push(OperatorItem(op), b) => ResumePops(if IsUnary(op) then InPrefix(op, f) else InRight(op, f), b);
    case Push(OperandItem(v), b) => FillPops(f, Atom(v), b);
    case Push(ExpressionMark, b) => ResumePops(f, b);
    case _ =>
  }

  lemma {:induction false} FillPops(f: Frames, e: Expr, s: Stack)
    requires Fill(f, e, s).Whole?
    ensures Height(Fill(f, e, s).rest) <= Height(s)
    decreases s, 1, f
  {
    match f
    case Done =>
    case InPrefix(op, up) => FillPops(up, Prefix(op, e), s);
    case InRight(op, up) => ResumePops(InLeft(op, e, up), s);
    case InLeft(op, r, up) => FillPops(up, Infix(op, e, r), s);
  }

  /**
   * The parser makes of what the grammar pushes for a search condition the condition's
   * own tree, and leaves what lies below, exactly when no truth value is compared with
   * NULL. Otherwise it goes on into what lies below; with nothing there it fails.
   */
  lemma ConditionsParseIff(c: Search, s: Stack)
    requires Grammatical(c)
    ensures Consume(Emit(c, s)) == Whole(SearchTree(c), s) <==> NullTruths(c) == 0
    ensures Consume(Emit(c, Empty)).Whole? <==> NullTruths(c) == 0
  {
    if NullTruths(c) == 0 {
      SearchTaken(Done, c, s);
      SearchTaken(Done, c, Empty);
    } else {
      var f := TakesTooLittle(Done, c, s);
      if Resume(f, s).Whole? {
        ResumePops(f, s);
      }
      f := TakesTooLittle(Done, c, Empty);
    }
  }

  /** Expressions elsewhere in a statement always come back. */
  lemma ExpressionsParse(e: Scalar, s: Stack)
    requires ScalarOk(e)
    ensures Consume(EmitExpression(e, s)) == Whole(ScalarTree(e), s)
  {
    ScalarTaken(Done, e, s);
  }
}
