/**
 * What a search condition of ANDs and ORs over predicates means, and the steps
 * by which a walk over it may change its form without changing that meaning.
 */
module Conditions {
  import opened AstTree

  /** A ROLLBACKCMD to one engine, which unlocks the rows named. */
  datatype Rollback = Rollback(engineid: int, rows: seq<RowKey>)

  // ----- what a search condition means -----

  /** The rows it selects, the rows its ANDs drop, and the predicates it asks, in order. */
  datatype Meaning = Meaning(rows: Rows, drops: multiset<RowKey>, asked: seq<Ast>)

  /** A condition as a value: rows already found, a predicate still to ask, or two conditions combined. */
  datatype Cond = Found(rows: Rows) | Question(n: Ast) | Combined(op: Operator, left: Cond, right: Cond)

  /** What surrounds the hole, innermost first, as a value. */
  datatype Around = Nothing | ThenRight(op: Operator, right: Cond, up: Around) | AfterLeft(op: Operator, left: Rows, up: Around)

  function Restrict(a: Rows, b: Rows): Rows {
    map k | k in a && k in b :: a[k]
  }

  /** Where both have a row the left one is kept. */
  function Union(a: Rows, b: Rows): Rows {
    b + a
  }

  /** The condition, seen from the hole. */
  datatype View = View(c: Around, h: Cond)

  /** What the walk cannot know: each predicate's answer, which come at once, and what is staged. */
  datatype Env = Env(answers: map<Ast, Rows>, atOnce: set<Ast>, stagedRows: set<RowKey>)

  function Answer(e: Env, n: Ast): Rows {
    if n in e.answers then e.answers[n] else map[]
  }

  /** The rows an AND drops and gives up the lock on: left, not right, not staged. */
  function Dropped(e: Env, a: Rows, b: Rows): set<RowKey> {
    set k | k in a && k !in b && k !in e.stagedRows
  }

  function Combine(e: Env, op: Operator, a: Meaning, b: Meaning): Meaning {
    if op == And then
      Meaning(Restrict(a.rows, b.rows), a.drops + b.drops + multiset(Dropped(e, a.rows, b.rows)), a.asked + b.asked)
    else
      Meaning(Union(a.rows, b.rows), a.drops + b.drops, a.asked + b.asked)
  }

  function MeaningOf(e: Env, c: Cond): Meaning {
    match c
    case Found(rows) => Meaning(rows, multiset{}, [])
    case Question(n) => Meaning(Answer(e, n), multiset{}, [n])
    case Combined(op, l, r) => Combine(e, op, MeaningOf(e, l), MeaningOf(e, r))
  }

  function DropsOf(ms: seq<Rollback>): multiset<RowKey> {
    if ms == [] then multiset{} else DropsOf(ms[..|ms| - 1]) + multiset(ms[|ms| - 1].rows)
  }

  /** The meaning of the whole when the hole means `m`. */
  function MeaningUp(e: Env, c: Around, m: Meaning): Meaning {
    match c
    case Nothing => m
    case ThenRight(op, right, up) => MeaningUp(e, up, Combine(e, op, m, MeaningOf(e, right)))
    case AfterLeft(op, left, up) => MeaningUp(e, up, Combine(e, op, Meaning(left, multiset{}, []), m))
  }

  /** What `m` is, after the drops `d` and the questions `a`. */
  function Prepend(d: multiset<RowKey>, a: seq<Ast>, m: Meaning): Meaning {
    Meaning(m.rows, d + m.drops, a + m.asked)
  }

  lemma LeftPrepends(e: Env, op: Operator, m: Meaning, r: Meaning, d: multiset<RowKey>, a: seq<Ast>)
    ensures Combine(e, op, Prepend(d, a, m), r) == Prepend(d, a, Combine(e, op, m, r))
  {
    assert (a + m.asked) + r.asked == a + (m.asked + r.asked);
  }

  lemma RightPrepends(e: Env, op: Operator, l: Meaning, m: Meaning, d: multiset<RowKey>, a: seq<Ast>)
    requires l.asked == []
    ensures Combine(e, op, l, Prepend(d, a, m)) == Prepend(d, a, Combine(e, op, l, m))
  {
    assert [] + (a + m.asked) == a + ([] + m.asked);
  }

  lemma {:induction false} UpPrepends(e: Env, c: Around, m: Meaning, d: multiset<RowKey>, a: seq<Ast>)
    ensures MeaningUp(e, c, Prepend(d, a, m)) == Prepend(d, a, MeaningUp(e, c, m))
    decreases c
  {
    match c
    case Nothing =>
    case ThenRight(op, right, up) =>
      LeftPrepends(e, op, m, MeaningOf(e, right), d, a);
      UpPrepends(e, up, Combine(e, op, m, MeaningOf(e, right)), d, a);
    case AfterLeft(op, left, up) =>
      var l := Meaning(left, multiset{}, []);
      RightPrepends(e, op, l, m, d, a);
      UpPrepends(e, up, Combine(e, op, l, m), d, a);
  }

  // ----- the walk, as steps on values -----

  function Whole(e: Env, g: View): Meaning {
    MeaningUp(e, g.c, MeaningOf(e, g.h))
  }

  /** An AND or OR of finished sides is carried out. */
  predicate Carried(e: Env, g: View, g': View, d: multiset<RowKey>, a: seq<Ast>) {
    match g.h
    case Combined(op, Found(l), Found(r)) =>
      && g.c == g'.c && a == []
      && (if op == And then g'.h == Found(Restrict(l, r)) && d == multiset(Dropped(e, l, r))
          else g'.h == Found(Union(l, r)) && d == multiset{})
    case _ => false
  }

  /** A predicate is asked, and yields its answer. */
  predicate Asked(e: Env, g: View, g': View, d: multiset<RowKey>, a: seq<Ast>) {
    match g.h
    case Question(n) => g.c == g'.c && g'.h == Found(Answer(e, n)) && d == multiset{} && a == [n]
    case _ => false
  }

  /** The focus is one level further in. */
  predicate Into(g: View, g': View) {
    g.h.Combined? && ((g'.c == ThenRight(g.h.op, g.h.right, g.c) && g'.h == g.h.left)
      || (g.h.left.Found? && g'.c == AfterLeft(g.h.op, g.h.left.rows, g.c) && g'.h == g.h.right))
  }

  lemma IntoKeeps(e: Env, g: View, g': View)
    requires Into(g, g')
    ensures Whole(e, g) == Whole(e, g')
  {
    assert MeaningOf(e, g.h) == Combine(e, g.h.op, MeaningOf(e, g.h.left), MeaningOf(e, g.h.right));
  }

  lemma StepHere(e: Env, g: View, g': View, d: multiset<RowKey>, a: seq<Ast>)
    requires Carried(e, g, g', d, a) || Asked(e, g, g', d, a)
    ensures MeaningOf(e, g.h) == Prepend(d, a, MeaningOf(e, g'.h))
  {
    var none: multiset<RowKey> := multiset{};
    assert d + none == d && none + none + d == d && none + none == none && a + [] == a;
  }

  // ----- the AND's rollback messages -----

  function Get(m: map<int, seq<RowKey>>, e: int): seq<RowKey> {
    if e in m then m[e] else []
  }

  /** `m` holds each key of `ks` once, under its engine, and nothing else. */
  ghost predicate Grouped(m: map<int, seq<RowKey>>, ks: set<RowKey>) {
    forall e: int, k: RowKey :: multiset(Get(m, e))[k] == if k in ks && k.engineid == e then 1 else 0
  }

  lemma GroupedAdd(m: map<int, seq<RowKey>>, ks: set<RowKey>, k: RowKey)
    requires Grouped(m, ks) && k !in ks
    ensures Grouped(m[k.engineid := Get(m, k.engineid) + [k]], ks + {k})
  {
    var m' := m[k.engineid := Get(m, k.engineid) + [k]];
    forall e: int, j: RowKey
      ensures multiset(Get(m', e))[j] == if j in ks + {k} && j.engineid == e then 1 else 0
    {
      assert multiset(Get(m, e))[j] == if j in ks && j.engineid == e then 1 else 0;
      assert e != k.engineid ==> Get(m', e) == Get(m, e);
    }
  }

  function KeysOf(ks: set<RowKey>, engines: set<int>): set<RowKey> {
    set k | k in ks && k.engineid in engines
  }

  /** No engine gets two messages, and each message names only its engine's rows. */
  ghost predicate OnePerEngine(sent: seq<Rollback>) {
    && (forall i, j :: 0 <= i < j < |sent| ==> sent[i].engineid != sent[j].engineid)
    && (forall r, k :: r in sent && k in r.rows ==> k.engineid == r.engineid)
  }

  /** One message to each of these engines, with exactly the keys of `ks` that are its own. */
  ghost predicate SentTo(sent: seq<Rollback>, ks: set<RowKey>, engines: set<int>) {
    && DropsOf(sent) == multiset(KeysOf(ks, engines))
    && (forall r :: r in sent ==> r.engineid in engines)
    && OnePerEngine(sent)
  }

  lemma OneEngine(m: map<int, seq<RowKey>>, ks: set<RowKey>, engines: set<int>, e: int)
    requires Grouped(m, ks) && e !in engines
    ensures multiset(KeysOf(ks, engines + {e})) == multiset(KeysOf(ks, engines)) + multiset(Get(m, e))
  {
    forall k: RowKey
      ensures multiset(KeysOf(ks, engines + {e}))[k] == (multiset(KeysOf(ks, engines)) + multiset(Get(m, e)))[k]
    {
      assert multiset(Get(m, e))[k] == if k in ks && k.engineid == e then 1 else 0;
    }
  }

  lemma SentOne(m: map<int, seq<RowKey>>, sent: seq<Rollback>, ks: set<RowKey>, engines: set<int>, e: int)
    requires Grouped(m, ks) && e !in engines && e in m && SentTo(sent, ks, engines)
    ensures SentTo(sent + [Rollback(e, m[e])], ks, engines + {e})
  {
    var r := Rollback(e, m[e]);
    OneEngine(m, ks, engines, e);
    forall k | k in r.rows ensures k.engineid == e {
      assert multiset(Get(m, e))[k] == if k in ks && k.engineid == e then 1 else 0;
    }
    assert (sent + [r])[..|sent|] == sent;
  }

  lemma {:induction false} DropsAppend(a: seq<Rollback>, b: seq<Rollback>)
    ensures DropsOf(a + b) == DropsOf(a) + DropsOf(b)
    decreases |b|
  {
    if b == [] {
      assert a + b == a;
    } else {
      assert (a + b)[..|a + b| - 1] == a + b[..|b| - 1];
      DropsAppend(a, b[..|b| - 1]);
    }
  }

  lemma AllEngines(m: map<int, seq<RowKey>>, ks: set<RowKey>)
    requires Grouped(m, ks)
    ensures KeysOf(ks, m.Keys) == ks
  {
    forall k | k in ks ensures k.engineid in m {
      assert multiset(Get(m, k.engineid))[k] == 1;
    }
  }

  /** Nothing happened, or one step did. */
  predicate Progress(e: Env, g: View, g': View, d: multiset<RowKey>, a: seq<Ast>) {
    match g
    case View(_, Found(_)) => g == g' && d == multiset{} && a == []
    case _ => Carried(e, g, g', d, a) || Asked(e, g, g', d, a)
  }

  /** With `sent` and `asked` done and `g` ahead, the meaning is `total`. */
  predicate Ahead(e: Env, sent: seq<Rollback>, asked: seq<Ast>, g: View, total: Meaning) {
    match g
    case View(_, _) => total == Prepend(DropsOf(sent), asked, Whole(e, g))
  }

  lemma AheadStep(e: Env, sent: seq<Rollback>, asked: seq<Ast>, g: View, total: Meaning,
                  more: seq<Rollback>, a: seq<Ast>, g': View)
    requires Ahead(e, sent, asked, g, total) && Progress(e, g, g', DropsOf(more), a)
    ensures Ahead(e, sent + more, asked + a, g', total)
  {
    DropsAppend(sent, more);
    ProgressKeeps(e, g, g', DropsOf(more), a);
    PrependTwice(DropsOf(sent), asked, DropsOf(more), a, Whole(e, g'));
  }

  lemma ProgressKeeps(e: Env, g: View, g': View, d: multiset<RowKey>, a: seq<Ast>)
    requires Progress(e, g, g', d, a)
    ensures Whole(e, g) == Prepend(d, a, Whole(e, g'))
  {
    if g.h.Found? {
      var m := Whole(e, g');
      assert d + m.drops == m.drops && a + m.asked == m.asked;
    } else {
      StepHere(e, g, g', d, a);
      UpPrepends(e, g.c, MeaningOf(e, g'.h), d, a);
    }
  }

  lemma PrependTwice(d: multiset<RowKey>, a: seq<Ast>, d': multiset<RowKey>, a': seq<Ast>, m: Meaning)
    ensures Prepend(d, a, Prepend(d', a', m)) == Prepend(d + d', a + a', m)
  {
    assert a + (a' + m.asked) == (a + a') + m.asked;
    assert d + (d' + m.drops) == (d + d') + m.drops;
  }

  lemma AheadTwice(e: Env, sent: seq<Rollback>, asked: seq<Ast>, g: View, total: Meaning,
                   more: seq<Rollback>, a: seq<Ast>, g': View)
    requires Ahead(e, sent, asked, g, total) && Ahead(e, more, a, g', Whole(e, g))
    ensures Ahead(e, sent + more, asked + a, g', total)
  {
    DropsAppend(sent, more);
    PrependTwice(DropsOf(sent), asked, DropsOf(more), a, Whole(e, g'));
  }

  // ----- the meaning, row by row -----

  /** Whether the row satisfies the condition: AND and OR of what the predicates answer about it. */
  predicate True(e: Env, c: Cond, k: RowKey) {
    match c
    case Found(rows) => k in rows
    case Question(n) => n in e.answers && k in e.answers[n]
    case Combined(op, l, r) => if op == And then True(e, l, k) && True(e, r, k) else True(e, l, k) || True(e, r, k)
  }

  /** Of several texts for one row the one found furthest to the left counts. */
  function TextOf(e: Env, c: Cond, k: RowKey): string
    requires True(e, c, k)
  {
    match c
    case Found(rows) => rows[k]
    case Question(n) => e.answers[n][k]
    case Combined(op, l, r) => if True(e, l, k) then TextOf(e, l, k) else TextOf(e, r, k)
  }

  /** How often the row's lock is given up: once for each AND whose left side it satisfies and whose right side not. */
  function TimesDropped(e: Env, c: Cond, k: RowKey): nat {
    match c
    case Combined(op, l, r) =>
      TimesDropped(e, l, k) + TimesDropped(e, r, k)
      + if op == And && True(e, l, k) && !True(e, r, k) && k !in e.stagedRows then 1 else 0
    case _ => 0
  }

  /** The rows selected are those that satisfy the condition; a row dropped failed an AND on its right and is not staged. */
  lemma {:induction false} MeaningByRow(e: Env, c: Cond, k: RowKey)
    ensures k in MeaningOf(e, c).rows <==> True(e, c, k)
    ensures True(e, c, k) ==> MeaningOf(e, c).rows[k] == TextOf(e, c, k)
    ensures MeaningOf(e, c).drops[k] == TimesDropped(e, c, k)
    ensures k in e.stagedRows ==> k !in MeaningOf(e, c).drops
  {
    if c.Combined? {
      MeaningByRow(e, c.left, k);
      MeaningByRow(e, c.right, k);
      CombineByRow(e, c.op, MeaningOf(e, c.left), MeaningOf(e, c.right), k);
    }
  }

  lemma CombineByRow(e: Env, op: Operator, a: Meaning, b: Meaning, k: RowKey)
    ensures var m := Combine(e, op, a, b);
      && (k in m.rows <==> if op == And then k in a.rows && k in b.rows else k in a.rows || k in b.rows)
      && (k in m.rows ==> m.rows[k] == if k in a.rows then a.rows[k] else b.rows[k])
      && m.drops[k] == a.drops[k] + b.drops[k]
           + if op == And && k in a.rows && k !in b.rows && k !in e.stagedRows then 1 else 0
  {
  }

  /** Some message names the row. */
  predicate Named(sent: seq<Rollback>, k: RowKey) {
    exists r :: r in sent && k in r.rows
  }

  lemma {:induction false} NamedIff(sent: seq<Rollback>, k: RowKey)
    ensures Named(sent, k) <==> k in DropsOf(sent)
    decreases |sent|
  {
    if sent != [] {
      var init, r := sent[..|sent| - 1], sent[|sent| - 1];
      assert sent == init + [r];
      NamedIff(init, k);
      assert r in sent && forall x :: x in sent <==> x in init || x == r;
    }
  }

  /** An AND keeps the left rows that are also right and names the other left ones unless they are staged; an OR keeps all, left first. */
  ghost predicate CarriedOut(op: Operator, left: Rows, right: Rows, stagedRows: set<RowKey>, results: Rows, sent: seq<Rollback>) {
    && (forall k :: k in results <==> if op == And then k in left && k in right else k in left || k in right)
    && (forall k :: k in results ==> results[k] == if k in left then left[k] else right[k])
    && (forall k :: Named(sent, k) <==> op == And && k in left && k !in right && k !in stagedRows)
  }

  /** No message is about a staged row. */
  ghost predicate SparesStaged(sent: seq<Rollback>, stagedRows: set<RowKey>) {
    forall k :: Named(sent, k) ==> k !in stagedRows
  }

  lemma RowsCarried(e: Env, c: Around, op: Operator, l: Rows, r: Rows, results: Rows, sent: seq<Rollback>)
    requires results == if op == And then Restrict(l, r) else Union(l, r)
    requires DropsOf(sent) == if op == And then multiset(Dropped(e, l, r)) else multiset{}
    ensures Carried(e, View(c, Combined(op, Found(l), Found(r))), View(c, Found(results)), DropsOf(sent), [])
  {
  }

  /** What carrying out an AND or OR means for each row. */
  lemma CarriedRows(e: Env, c: Around, op: Operator, l: Rows, r: Rows, g': View, sent: seq<Rollback>)
    requires Carried(e, View(c, Combined(op, Found(l), Found(r))), g', DropsOf(sent), [])
    ensures g'.c == c && g'.h.Found? && CarriedOut(op, l, r, e.stagedRows, g'.h.rows, sent)
  {
    forall k ensures Named(sent, k) <==> op == And && k in l && k !in r && k !in e.stagedRows {
      NamedIff(sent, k);
    }
  }

  // ----- what the meaning promises -----

  /** No AND lies below an OR. */
  predicate OrsInnermost(c: Cond) {
    match c
    case Combined(op, l, r) => if op == And then OrsInnermost(l) && OrsInnermost(r) else NoAnd(l) && NoAnd(r)
    case _ => true
  }

  predicate NoAnd(c: Cond) {
    match c
    case Combined(op, l, r) => op != And && NoAnd(l) && NoAnd(r)
    case _ => true
  }

  function Questions(c: Cond): set<Ast> {
    match c
    case Found(_) => {}
    case Question(n) => {n}
    case Combined(_, l, r) => Questions(l) + Questions(r)
  }

  /** Every side is a predicate still to ask, and no two are the same. */
  predicate Fresh(c: Cond) {
    match c
    case Found(_) => false
    case Question(_) => true
    case Combined(op, l, r) => op in {And, Or} && Fresh(l) && Fresh(r) && Questions(l) !! Questions(r)
  }

  /** A row is returned although an AND has had its lock released. */
  predicate ReleasedYetReturned(e: Env, c: Cond) {
    exists k :: k in MeaningOf(e, c).drops && k in MeaningOf(e, c).rows
  }

  lemma {:induction false} NoAndNoDrops(e: Env, c: Cond)
    requires NoAnd(c)
    ensures MeaningOf(e, c).drops == multiset{}
  {
    if c.Combined? {
      NoAndNoDrops(e, c.left);
      NoAndNoDrops(e, c.right);
    }
  }

  lemma {:induction false} ReturnedRowsStayLocked(e: Env, c: Cond)
    requires OrsInnermost(c)
    ensures !ReleasedYetReturned(e, c)
  {
    if c.Combined? && c.op == And {
      ReturnedRowsStayLocked(e, c.left);
      ReturnedRowsStayLocked(e, c.right);
      var l, r := MeaningOf(e, c.left), MeaningOf(e, c.right);
      forall k | k in MeaningOf(e, c).drops ensures k !in MeaningOf(e, c).rows {
        assert k in l.drops || k in r.drops || k in Dropped(e, l.rows, r.rows);
      }
    } else {
      NoAndNoDrops(e, c);
    }
  }

  /** Answers that give row `k` to the predicates in `yes` and nothing to the others. */
  function Giving(k: RowKey, yes: set<Ast>): Env {
    Env(map n | n in yes :: map[k := ""], {}, {})
  }

  lemma {:induction false} AllYes(k: RowKey, yes: set<Ast>, c: Cond)
    requires Fresh(c) && Questions(c) <= yes
    ensures k in MeaningOf(Giving(k, yes), c).rows
  {
    if c.Combined? {
      AllYes(k, yes, c.left);
      AllYes(k, yes, c.right);
    }
  }

  lemma {:induction false} AllNo(k: RowKey, yes: set<Ast>, c: Cond)
    requires Fresh(c) && Questions(c) !! yes
    ensures k !in MeaningOf(Giving(k, yes), c).rows
  {
    if c.Combined? {
      AllNo(k, yes, c.left);
      AllNo(k, yes, c.right);
    }
  }

  lemma Selected(yes: set<Ast>, all: set<Ast>, no: set<Ast>, part: set<Ast>)
    requires yes * all == all - no && part <= all
    ensures yes * part == part - no
    ensures part !! no ==> part <= yes
  {
    forall n | n in part ensures n in yes <==> n !in no {
      assert n in yes * all <==> n in all - no;
    }
  }

  /** Some predicates of `c` can be left out so that an AND in it drops `k`. */
  lemma {:induction false} DropBelow(k: RowKey, c: Cond) returns (no: set<Ast>)
    requires Fresh(c) && !NoAnd(c)
    ensures no <= Questions(c)
    ensures forall yes :: yes * Questions(c) == Questions(c) - no ==> k in MeaningOf(Giving(k, yes), c).drops
  {
    if c.op == And {
      no := Questions(c.right);
      forall yes | yes * Questions(c) == Questions(c) - no ensures k in MeaningOf(Giving(k, yes), c).drops {
        assert Questions(c.left) <= yes;
        AllYes(k, yes, c.left);
        AllNo(k, yes, c.right);
        var e := Giving(k, yes);
        assert k in Dropped(e, MeaningOf(e, c.left).rows, MeaningOf(e, c.right).rows);
      }
    } else {
      var side := if NoAnd(c.left) then c.right else c.left;
      no := DropBelow(k, side);
      forall yes | yes * Questions(c) == Questions(c) - no ensures k in MeaningOf(Giving(k, yes), c).drops {
        Selected(yes, Questions(c), no, Questions(side));
      }
    }
  }

  /** Some predicates can be left out so that `k` is dropped below an OR and returned all the same. */
  lemma {:induction false} DropAndReturn(k: RowKey, c: Cond) returns (no: set<Ast>)
    requires Fresh(c) && !OrsInnermost(c)
    ensures no <= Questions(c)
    ensures forall yes :: yes * Questions(c) == Questions(c) - no ==>
              k in MeaningOf(Giving(k, yes), c).drops && k in MeaningOf(Giving(k, yes), c).rows
  {
    var side, other := c.left, c.right;
    if c.op == And {
      if OrsInnermost(c.left) {
        side, other := c.right, c.left;
      }
      no := DropAndReturn(k, side);
    } else {
      if NoAnd(c.left) {
        side, other := c.right, c.left;
      }
      no := DropBelow(k, side);
    }
    forall yes | yes * Questions(c) == Questions(c) - no
      ensures k in MeaningOf(Giving(k, yes), c).drops && k in MeaningOf(Giving(k, yes), c).rows
    {
      Selected(yes, Questions(c), no, Questions(side));
      Selected(yes, Questions(c), no, Questions(other));
      AllYes(k, yes, other);
    }
  }

  /** The rows returned are still locked, whatever the predicates answer, exactly when no AND lies below an OR. */
  lemma LocksKeptIff(c: Cond)
    requires Fresh(c)
    ensures OrsInnermost(c) <==> forall e: Env :: !ReleasedYetReturned(e, c)
  {
    if OrsInnermost(c) {
      forall e: Env ensures !ReleasedYetReturned(e, c) {
        ReturnedRowsStayLocked(e, c);
      }
    } else {
      var k := RowKey(0, 0, 0);
      var no := DropAndReturn(k, c);
      var yes := Questions(c) - no;
      assert yes * Questions(c) == Questions(c) - no;
      assert ReleasedYetReturned(Giving(k, yes), c);
    }
  }
}
