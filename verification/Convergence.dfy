/**
 * What the order of messages does to a replica's indices, as values. A delete that
 * finds no entry is parked and tried again after every message, in the domain of
 * that message, so that it may take another domain's entry: it strays.
 */
module Convergence {
  import opened Sequences

  datatype Loc = Loc(rowid: int, engineid: int)

  /** An entry of a non-unique index, as a message names it: without a domain. */
  datatype Entry = Entry(tableid: int, fieldid: int, value: int, loc: Loc)

  /** Every domain has tables of its own, and all domains number them alike. */
  datatype Key = Key(domain: int, tableid: int, fieldid: int, value: int)
  datatype Spot = Spot(domain: int, entry: Entry)

  /** One change. `domain` and `sub` are those of its message; the engine keeps only `sub`, and never looks at `domain`. */
  datatype Item =
    | Row(domain: int, sub: int, rowid: int, text: string)
    | Index(domain: int, sub: int, isadd: bool, entry: Entry)

  datatype ApplyMsg = ApplyMsg(domain: int, sub: int, applierid: int, rows: seq<Item>, indices: seq<Item>)
  datatype Backlog = Backlog(applierid: int, rows: seq<Item>, indices: seq<Item>)
  datatype Ack = Ack(sub: int, applierid: int)

  /** A parked delete that took its entry from another domain's index. */
  datatype Stray = Stray(item: Item, into: int)

  /** A multimap per index: the entries of one value, in the order of insertion. */
  type IndexMap = map<Key, seq<Loc>>

  function Home(i: Item): Spot
    requires i.Index?
  {
    Spot(i.domain, i.entry)
  }

  function KeyOf(p: Spot): Key {
    Key(p.domain, p.entry.tableid, p.entry.fieldid, p.entry.value)
  }

  predicate Belong(rows: seq<Item>, indices: seq<Item>, sub: int) {
    && (forall i :: i in rows ==> i.Row? && i.sub == sub)
    && (forall i :: i in indices ==> i.Index? && i.sub == sub)
  }

  predicate WellFormed(m: ApplyMsg) {
    Belong(m.rows, m.indices, m.sub) && forall i :: i in m.rows + m.indices ==> i.domain == m.domain
  }

  // ----- counting -----

  function CountIn(items: seq<Item>, isadd: bool, p: Spot): nat {
    if items == [] then 0
    else
      var i := items[|items| - 1];
      CountIn(items[..|items| - 1], isadd, p) + if i.Index? && i.isadd == isadd && Home(i) == p then 1 else 0
  }

  function Times(items: seq<Item>, i: Item): nat {
    if items == [] then 0
    else Times(items[..|items| - 1], i) + if items[|items| - 1] == i then 1 else 0
  }

  function Bucket(m: IndexMap, k: Key): seq<Loc> {
    if k in m then m[k] else []
  }

  function CountAt(m: IndexMap, p: Spot): nat {
    multiset(Bucket(m, KeyOf(p)))[p.entry.loc]
  }

  /** How many deletes have taken this entry from its domain on behalf of others. */
  function Into(strays: seq<Stray>, p: Spot): nat {
    if strays == [] then 0
    else
      var x := strays[|strays| - 1];
      Into(strays[..|strays| - 1], p) + if x.item.Index? && Spot(x.into, x.item.entry) == p then 1 else 0
  }

  /** How many deletes that were meant for this entry have taken another domain's. */
  function OutOf(strays: seq<Stray>, p: Spot): nat {
    if strays == [] then 0
    else
      var x := strays[|strays| - 1];
      OutOf(strays[..|strays| - 1], p) + if x.item.Index? && Home(x.item) == p then 1 else 0
  }

  function TimesStrayed(strays: seq<Stray>, i: Item): nat {
    if strays == [] then 0
    else TimesStrayed(strays[..|strays| - 1], i) + if strays[|strays| - 1].item == i then 1 else 0
  }

  lemma StraySnoc(strays: seq<Stray>, x: Stray)
    ensures forall p :: Into(strays + [x], p) == Into(strays, p) + if x.item.Index? && Spot(x.into, x.item.entry) == p then 1 else 0
    ensures forall p :: OutOf(strays + [x], p) == OutOf(strays, p) + if x.item.Index? && Home(x.item) == p then 1 else 0
    ensures forall i :: TimesStrayed(strays + [x], i) == TimesStrayed(strays, i) + if x.item == i then 1 else 0
  {
    assert (strays + [x])[..|strays|] == strays;
  }

  function AllItems(ms: seq<ApplyMsg>): seq<Item> {
    if ms == [] then [] else AllItems(ms[..|ms| - 1]) + (ms[|ms| - 1].rows + ms[|ms| - 1].indices)
  }

  lemma {:induction false} CountAppend(a: seq<Item>, b: seq<Item>, isadd: bool, e: Spot)
    ensures CountIn(a + b, isadd, e) == CountIn(a, isadd, e) + CountIn(b, isadd, e)
    decreases |b|
  {
    if b == [] {
      assert a + b == a;
    } else {
      assert (a + b)[..|a + b| - 1] == a + b[..|b| - 1];
      CountAppend(a, b[..|b| - 1], isadd, e);
    }
  }

  lemma {:induction false} TimesAppend(a: seq<Item>, b: seq<Item>, i: Item)
    ensures Times(a + b, i) == Times(a, i) + Times(b, i)
    decreases |b|
  {
    if b == [] {
      assert a + b == a;
    } else {
      assert (a + b)[..|a + b| - 1] == a + b[..|b| - 1];
      TimesAppend(a, b[..|b| - 1], i);
    }
  }

  lemma TimesSnoc(items: seq<Item>, j: Item, i: Item)
    ensures Times(items + [j], i) == Times(items, i) + if i == j then 1 else 0
  {
    assert (items + [j])[..|items|] == items;
  }

  lemma {:induction false} TimesIn(items: seq<Item>, i: Item)
    ensures Times(items, i) > 0 <==> i in items
    decreases |items|
  {
    if items != [] {
      assert items == items[..|items| - 1] + [items[|items| - 1]];
      TimesIn(items[..|items| - 1], i);
    }
  }

  lemma CountOne(i: Item, isadd: bool, e: Spot)
    ensures CountIn([i], isadd, e) == if i.Index? && i.isadd == isadd && Home(i) == e then 1 else 0
  {
    assert [i][..0] == [];
  }

  /** Where the last element of one sequence stands in a permutation of it. */
  lemma TakeOut<T>(a: seq<T>, b: seq<T>) returns (k: nat)
    requires a != [] && multiset(a) == multiset(b)
    ensures k < |b| && b[k] == a[|a| - 1] && b == b[..k] + [b[k]] + b[k + 1..]
    ensures multiset(a[..|a| - 1]) == multiset(b[..k] + b[k + 1..])
  {
    var x, a' := a[|a| - 1], a[..|a| - 1];
    assert a == a' + [x];
    assert x in multiset(b);
    k :| 0 <= k < |b| && b[k] == x;
    Without(a, |a| - 1);
    Without(b, k);
    assert a[|a|..] == [] && a' + [] == a';
  }

  lemma Without<T>(s: seq<T>, k: nat)
    requires k < |s|
    ensures s == s[..k] + [s[k]] + s[k + 1..]
    ensures multiset(s[..k] + s[k + 1..]) == multiset(s) - multiset{s[k]}
  {
    assert s == s[..k] + [s[k]] + s[k + 1..];
    assert multiset(s) == multiset(s[..k]) + multiset{s[k]} + multiset(s[k + 1..]);
    assert multiset(s[..k] + s[k + 1..]) == multiset(s[..k]) + multiset(s[k + 1..]);
  }

  /** The count of a sequence is a property of its multiset. */
  lemma {:induction false} CountByMultiset(a: seq<Item>, b: seq<Item>, isadd: bool, e: Spot)
    requires multiset(a) == multiset(b)
    ensures CountIn(a, isadd, e) == CountIn(b, isadd, e)
    decreases |a|
  {
    if a == [] {
      assert |multiset(b)| == |b|;
    } else {
      var k := TakeOut(a, b);
      CountByMultiset(a[..|a| - 1], b[..k] + b[k + 1..], isadd, e);
      CountAround(b, k, isadd, e);
    }
  }

  lemma CountAround(b: seq<Item>, k: nat, isadd: bool, e: Spot)
    requires k < |b|
    ensures CountIn(b, isadd, e) == CountIn(b[..k] + b[k + 1..], isadd, e)
              + if b[k].Index? && b[k].isadd == isadd && Home(b[k]) == e then 1 else 0
  {
    assert b == b[..k] + [b[k]] + b[k + 1..];
    CountAppend(b[..k], [b[k]], isadd, e);
    CountAppend(b[..k] + [b[k]], b[k + 1..], isadd, e);
    CountAppend(b[..k], b[k + 1..], isadd, e);
    CountOne(b[k], isadd, e);
  }

  // ----- the engine's state, as values -----

  /** `applied` is what was applied in its own domain, `misplaced` the row changes applied in another one. */
  datatype State = State(index: IndexMap, parked: seq<Item>, seen: seq<Item>, applied: seq<Item>,
                         strays: seq<Stray>, misplaced: seq<Item>)

  /** How often an item has been dealt with, wherever. */
  function Handled(s: State, i: Item): nat {
    Times(s.applied, i) + TimesStrayed(s.strays, i) + Times(s.misplaced, i)
  }

  predicate Astray(x: Stray) {
    x.item.Index? && !x.item.isadd && x.into != x.item.domain
  }

  /**
   * In each domain, index entries and parked deletes differ by as much as adds and
   * deletes seen, but for the deletes that have strayed; every item is dealt with or
   * parked.
   */
  ghost predicate Balanced(s: State) {
    match s
    case State(index, parked, seen, applied, strays, misplaced) =>
      && (forall p :: CountAt(index, p) - CountIn(parked, false, p) + Into(strays, p) - OutOf(strays, p)
                      == CountIn(seen, true, p) - CountIn(seen, false, p))
      && (forall i :: Times(seen, i) == Handled(s, i) + Times(parked, i))
      && (forall i :: i in parked && i.Index? ==> !i.isadd)
      && (forall x :: x in strays ==> Astray(x))
  }

  /** No parked delete would find its entry in its own domain. */
  ghost predicate Settled(index: IndexMap, items: seq<Item>) {
    forall i :: i in items && i.Index? ==> CountAt(index, Home(i)) == 0
  }

  /** No parked delete, wherever it belongs, would find its entry in domain `d`. */
  ghost predicate SettledIn(index: IndexMap, items: seq<Item>, d: int) {
    forall i :: i in items && i.Index? ==> CountAt(index, Spot(d, i.entry)) == 0
  }

  /** The parked deletes of all domains but `d` would not find their entries at home. */
  ghost predicate SettledOutside(index: IndexMap, items: seq<Item>, d: int) {
    forall i :: i in items && i.Index? && i.domain != d ==> CountAt(index, Home(i)) == 0
  }

  /** What holds while a message of domain `d` is being applied. */
  ghost predicate Working(s: State, d: int) {
    match s
    case State(index, parked, _, _, _, _) => Balanced(s) && SettledOutside(index, parked, d)
  }

  /** What applying an item in domain `d` does to the indices. */
  ghost predicate IndexStep(m: IndexMap, m': IndexMap, d: int, i: Item, ok: bool) {
    match i
    case Row(_, _, _, _) => m == m'
    case Index(_, _, isadd, entry) =>
      if ok then (forall p :: CountAt(m', p) == CountAt(m, p) + if p == Spot(d, entry) then if isadd then 1 else -1 else 0)
      else m == m' && !isadd && CountAt(m, Spot(d, entry)) == 0
  }

  lemma AddsEntry(m: IndexMap, d: int, i: Item)
    requires i.Index? && i.isadd
    ensures var k := KeyOf(Spot(d, i.entry));
      IndexStep(m, m[k := Bucket(m, k) + [i.entry.loc]], d, i, true)
  {
  }

  lemma TakesEntry(m: IndexMap, d: int, i: Item, it: nat)
    requires i.Index? && !i.isadd
    requires it < |Bucket(m, KeyOf(Spot(d, i.entry)))| && Bucket(m, KeyOf(Spot(d, i.entry)))[it] == i.entry.loc
    ensures var k := KeyOf(Spot(d, i.entry));
      var bucket := Bucket(m, k);
      IndexStep(m, m[k := bucket[..it] + bucket[it + 1..]], d, i, true)
  {
    Without(Bucket(m, KeyOf(Spot(d, i.entry))), it);
  }

  lemma CountSnoc(items: seq<Item>, i: Item)
    ensures forall b, e :: CountIn(items + [i], b, e) ==
              CountIn(items, b, e) + if i.Index? && i.isadd == b && Home(i) == e then 1 else 0
  {
    forall b, e ensures CountIn(items + [i], b, e) ==
                          CountIn(items, b, e) + if i.Index? && i.isadd == b && Home(i) == e then 1 else 0 {
      CountAppend(items, [i], b, e);
      CountOne(i, b, e);
    }
  }

  /** A new item is applied, or parked. */
  function Taken(s: State, i: Item, ok: bool, m': IndexMap): State {
    if ok then s.(index := m', seen := s.seen + [i], applied := s.applied + [i])
    else s.(index := m', seen := s.seen + [i], parked := s.parked + [i])
  }

  lemma NewItem(s: State, i: Item, ok: bool, m': IndexMap)
    requires Working(s, i.domain) && IndexStep(s.index, m', i.domain, i, ok)
    ensures Working(Taken(s, i, ok, m'), i.domain)
  {
    if ok { NewApplied(s, i, m'); } else { NewParked(s, i, m'); }
  }

  lemma NewApplied(s: State, i: Item, m': IndexMap)
    requires Working(s, i.domain) && IndexStep(s.index, m', i.domain, i, true)
    ensures Working(Taken(s, i, true, m'), i.domain)
  {
    var s' := Taken(s, i, true, m');
    CountSnoc(s.seen, i);
    forall j ensures Times(s'.seen, j) == Handled(s', j) + Times(s.parked, j) {
      TimesSnoc(s.seen, i, j);
      TimesSnoc(s.applied, i, j);
    }
  }

  lemma NewParked(s: State, i: Item, m': IndexMap)
    requires Working(s, i.domain) && IndexStep(s.index, m', i.domain, i, false)
    ensures Working(Taken(s, i, false, m'), i.domain)
  {
    var s' := Taken(s, i, false, m');
    CountSnoc(s.seen, i);
    CountSnoc(s.parked, i);
    forall j ensures Times(s'.seen, j) == Handled(s', j) + Times(s'.parked, j) {
      TimesSnoc(s.seen, i, j);
      TimesSnoc(s.parked, i, j);
    }
  }

  /** A parked item, wherever it is, has been applied after all, in the domain of the moment. */
  function Retried(s: State, k: nat, d: int, m': IndexMap): State
    requires k < |s.parked|
  {
    var i, s' := s.parked[k], s.(index := m', parked := s.parked[..k] + s.parked[k + 1..]);
    if i.domain == d then s'.(applied := s.applied + [i])
    else if i.Index? then s'.(strays := s.strays + [Stray(i, d)])
    else s'.(misplaced := s.misplaced + [i])
  }

  lemma OldApplied(s: State, k: nat, d: int, m': IndexMap)
    requires k < |s.parked| && Working(s, d) && IndexStep(s.index, m', d, s.parked[k], true)
    ensures Working(Retried(s, k, d, m'), d)
  {
    var s' := Retried(s, k, d, m');
    RetriedCounts(s, k, d, m');
    RetriedTimes(s, k, d, m');
    assert forall i :: i in s'.parked ==> i in s.parked;
    assert s.parked[k] in s.parked;
  }

  lemma RetriedCounts(s: State, k: nat, d: int, m': IndexMap)
    requires k < |s.parked| && Working(s, d) && IndexStep(s.index, m', d, s.parked[k], true)
    ensures var s' := Retried(s, k, d, m');
      forall p :: CountAt(s'.index, p) - CountIn(s'.parked, false, p) + Into(s'.strays, p) - OutOf(s'.strays, p)
                  == CountIn(s'.seen, true, p) - CountIn(s'.seen, false, p)
  {
    var i, s' := s.parked[k], Retried(s, k, d, m');
    assert i in s.parked;
    StraySnoc(s.strays, Stray(i, d));
    forall p ensures CountAt(s'.index, p) - CountIn(s'.parked, false, p) + Into(s'.strays, p) - OutOf(s'.strays, p)
                     == CountAt(s.index, p) - CountIn(s.parked, false, p) + Into(s.strays, p) - OutOf(s.strays, p) {
      CountAround(s.parked, k, false, p);
    }
  }

  lemma RetriedTimes(s: State, k: nat, d: int, m': IndexMap)
    requires k < |s.parked|
    ensures var s' := Retried(s, k, d, m');
      forall j :: Handled(s', j) + Times(s'.parked, j) == Handled(s, j) + Times(s.parked, j)
  {
    var i, s' := s.parked[k], Retried(s, k, d, m');
    StraySnoc(s.strays, Stray(i, d));
    forall j ensures Handled(s', j) + Times(s'.parked, j) == Handled(s, j) + Times(s.parked, j) {
      TimesAround(s.parked, k, j);
      TimesSnoc(s.applied, i, j);
      TimesSnoc(s.misplaced, i, j);
    }
  }

  lemma TimesAround(b: seq<Item>, k: nat, j: Item)
    requires k < |b|
    ensures Times(b, j) == Times(b[..k] + b[k + 1..], j) + if b[k] == j then 1 else 0
  {
    assert b == b[..k] + [b[k]] + b[k + 1..];
    TimesSnoc(b[..k], b[k], j);
    TimesAppend(b[..k] + [b[k]], b[k + 1..], j);
    TimesAppend(b[..k], b[k + 1..], j);
  }

  // ----- convergence -----

  function Excess(a: nat, b: nat): nat {
    if a > b then a - b else 0
  }

  /** The domain holds what its messages call for: entries present less deletes parked are adds less deletes seen. */
  ghost predicate InSyncAt(s: State, p: Spot) {
    CountAt(s.index, p) - CountIn(s.parked, false, p) == CountIn(s.seen, true, p) - CountIn(s.seen, false, p)
  }

  ghost predicate InSync(s: State) {
    forall p :: InSyncAt(s, p)
  }

  predicate HasExcess(s: State, p: Spot, adds: nat, dels: nat) {
    var into, outOf := Into(s.strays, p), OutOf(s.strays, p);
    && CountAt(s.index, p) == Excess(adds + outOf, dels + into)
    && CountIn(s.parked, false, p) == Excess(dels + into, adds + outOf)
  }

  /**
   * Each entry is present as often as adds exceed deletes, and its delete parked as
   * often as deletes exceed adds, once strays are counted where they went; without
   * counting strays, exactly when as many came in as went out.
   */
  lemma {:induction false} Converged(s: State, p: Spot)
    requires Balanced(s) && Settled(s.index, s.parked)
    ensures var adds, dels := CountIn(s.seen, true, p), CountIn(s.seen, false, p);
      var into, outOf := Into(s.strays, p), OutOf(s.strays, p);
      && HasExcess(s, p, adds, dels)
      && (into == outOf <==> CountAt(s.index, p) == Excess(adds, dels) && CountIn(s.parked, false, p) == Excess(dels, adds))
      && (into == outOf <==> InSyncAt(s, p))
  {
    if CountIn(s.parked, false, p) > 0 {
      CountedIsIn(s.parked, false, p);
    }
  }

  lemma {:induction false} CountedIsIn(items: seq<Item>, isadd: bool, e: Spot)
    requires CountIn(items, isadd, e) > 0
    ensures exists i :: i in items && i.Index? && i.isadd == isadd && Home(i) == e
  {
    var i := items[|items| - 1];
    if !(i.Index? && i.isadd == isadd && Home(i) == e) {
      CountedIsIn(items[..|items| - 1], isadd, e);
    }
  }

  lemma {:induction false} ItemsByMultiset(a: seq<ApplyMsg>, b: seq<ApplyMsg>)
    requires multiset(a) == multiset(b)
    ensures multiset(AllItems(a)) == multiset(AllItems(b))
    decreases |a|
  {
    if a == [] {
      assert |multiset(b)| == |b|;
    } else {
      var k := TakeOut(a, b);
      var m := a[|a| - 1];
      ItemsByMultiset(a[..|a| - 1], b[..k] + b[k + 1..]);
      ItemsAppend(b[..k], [m]);
      ItemsAppend(b[..k] + [m], b[k + 1..]);
      ItemsAppend(b[..k], b[k + 1..]);
      assert AllItems([m]) == AllItems([m][..0]) + (m.rows + m.indices);
    }
  }

  lemma {:induction false} ItemsAppend(a: seq<ApplyMsg>, b: seq<ApplyMsg>)
    ensures AllItems(a + b) == AllItems(a) + AllItems(b)
    decreases |b|
  {
    if b == [] {
      assert a + b == a;
    } else {
      assert (a + b)[..|a + b| - 1] == a + b[..|b| - 1];
      ItemsAppend(a, b[..|b| - 1]);
    }
  }

  lemma AlikeSeen(a: seq<ApplyMsg>, b: seq<ApplyMsg>, p: Spot)
    requires multiset(a) == multiset(b)
    ensures forall isadd :: CountIn(AllItems(a), isadd, p) == CountIn(AllItems(b), isadd, p)
  {
    ItemsByMultiset(a, b);
    CountByMultiset(AllItems(a), AllItems(b), true, p);
    CountByMultiset(AllItems(a), AllItems(b), false, p);
  }

  /** Both hold the entry equally often and park equally many deletes of it. */
  predicate SameAt(s: State, s': State, p: Spot) {
    CountAt(s.index, p) == CountAt(s'.index, p) && CountIn(s.parked, false, p) == CountIn(s'.parked, false, p)
  }

  lemma SameExcess(s: State, s': State, p: Spot, adds: nat, dels: nat)
    requires HasExcess(s, p, adds, dels) && HasExcess(s', p, adds, dels)
    ensures SameAt(s, s', p) <==> OutOf(s.strays, p) - Into(s.strays, p) == OutOf(s'.strays, p) - Into(s'.strays, p)
  {
  }

  /**
   * Two replicas that got the same messages, in whatever orders, hold the same of an
   * entry and park the same deletes of it exactly when strays have changed its count
   * alike; in particular when both are in sync.
   */
  lemma OrderDoesNotMatter(s: State, s': State, ms: seq<ApplyMsg>, ms': seq<ApplyMsg>, p: Spot)
    requires Balanced(s) && Settled(s.index, s.parked) && s.seen == AllItems(ms)
    requires Balanced(s') && Settled(s'.index, s'.parked) && s'.seen == AllItems(ms')
    requires multiset(ms) == multiset(ms')
    ensures SameAt(s, s', p) <==> OutOf(s.strays, p) - Into(s.strays, p) == OutOf(s'.strays, p) - Into(s'.strays, p)
    ensures InSyncAt(s, p) && InSyncAt(s', p) ==> SameAt(s, s', p)
  {
    AlikeSeen(ms, ms', p);
    Converged(s, p);
    Converged(s', p);
    SameExcess(s, s', p, CountIn(s.seen, true, p), CountIn(s.seen, false, p));
  }

  // ----- one message after another -----

  /**
   * What applying a whole message may do. Afterwards nothing parked would find its
   * entry at home or in the message's domain; what has strayed was parked before.
   */
  ghost predicate Received(s: State, m: ApplyMsg, s': State) {
    && WellFormed(m)
    && Balanced(s') && Settled(s'.index, s'.parked) && SettledIn(s'.index, s'.parked, m.domain)
    && s'.seen == s.seen + (m.rows + m.indices)
    && s.strays <= s'.strays
    && (forall n :: |s.strays| <= n < |s'.strays| ==> s'.strays[n].into == m.domain && s'.strays[n].item in s.parked)
    && forall i :: Times(s'.misplaced, i) > Times(s.misplaced, i) ==> i.domain != m.domain && i in s.parked
  }

  const START := State(map[], [], [], [], [], [])

  /** The states of an engine before, between and after the messages. */
  ghost predicate Trace(ss: seq<State>, ms: seq<ApplyMsg>) {
    && |ss| == |ms| + 1 && ss[0] == START
    && forall n :: 0 <= n < |ms| ==> Received(ss[n], ms[n], ss[n + 1])
  }

  lemma {:induction false} TraceSound(ss: seq<State>, ms: seq<ApplyMsg>, n: nat)
    requires Trace(ss, ms) && n <= |ms|
    ensures Balanced(ss[n]) && Settled(ss[n].index, ss[n].parked) && ss[n].seen == AllItems(ms[..n])
  {
    if n > 0 {
      TraceSound(ss, ms, n - 1);
      assert Received(ss[n - 1], ms[n - 1], ss[n]);
      assert ms[..n][..n - 1] == ms[..n - 1] && ms[..n][n - 1] == ms[n - 1];
    }
  }

  /** Strays into a domain raise its count of them, and never that of what has left it. */
  lemma {:induction false} StraysCount(strays: seq<Stray>, more: seq<Stray>, d: int, e: Entry)
    requires forall x :: x in more ==> Astray(x) && x.into == d
    ensures OutOf(strays + more, Spot(d, e)) == OutOf(strays, Spot(d, e))
    ensures Into(strays + more, Spot(d, e)) >= Into(strays, Spot(d, e))
    ensures more != [] && Astray(more[|more| - 1]) && more[|more| - 1].item.entry == e ==> Into(strays + more, Spot(d, e)) > Into(strays, Spot(d, e))
    decreases |more|
  {
    if more == [] {
      assert strays + more == strays;
    } else {
      var x, init := more[|more| - 1], more[..|more| - 1];
      assert x in more && strays + more == (strays + init) + [x];
      StraysCount(strays, init, d, e);
      StraySnoc(strays + init, x);
    }
  }

  lemma SyncLost(s: State, s': State, more: seq<Stray>, d: int)
    requires Balanced(s) && Balanced(s') && InSync(s) && s'.strays == s.strays + more
    requires forall x :: x in more ==> x.into == d
    ensures InSync(s') <==> more == []
  {
    forall p ensures InSyncAt(s, p) && (InSyncAt(s', p) <==> Into(s'.strays, p) == OutOf(s'.strays, p)) {
      assert InSyncAt(s, p);
    }
    if more == [] {
      assert s'.strays == s.strays;
    } else {
      forall x | x in more ensures Astray(x) {
        assert x in s'.strays;
      }
      assert more[|more| - 1] in more;
      var e := more[|more| - 1].item.entry;
      StraysCount(s.strays, more, d, e);
      assert InSyncAt(s, Spot(d, e)) && !InSyncAt(s', Spot(d, e));
    }
  }

  /** A message keeps every domain in sync exactly when no parked delete strays. */
  lemma StepInSyncIff(s: State, m: ApplyMsg, s': State)
    requires Balanced(s) && InSync(s) && Received(s, m, s')
    ensures InSync(s') <==> s'.strays == s.strays
  {
    var more := s'.strays[|s.strays|..];
    assert s'.strays == s.strays + more;
    forall x | x in more ensures x.into == m.domain {
      var n :| 0 <= n < |more| && more[n] == x;
      assert x == s'.strays[|s.strays| + n];
    }
    SyncLost(s, s', more, m.domain);
  }

  lemma StartsInSync()
    ensures Balanced(START) && InSync(START)
  {
    forall p ensures InSyncAt(START, p) {}
  }

  lemma SyncStep(ss: seq<State>, ms: seq<ApplyMsg>, n: nat)
    requires Trace(ss, ms) && 0 < n <= |ms|
    ensures ss[n - 1].strays <= ss[n].strays
    ensures InSync(ss[n - 1]) ==> (InSync(ss[n]) <==> ss[n].strays == ss[n - 1].strays)
  {
    TraceSound(ss, ms, n - 1);
    assert Received(ss[n - 1], ms[n - 1], ss[n]);
    if InSync(ss[n - 1]) {
      StepInSyncIff(ss[n - 1], ms[n - 1], ss[n]);
    }
  }

  ghost predicate SyncedUpTo(ss: seq<State>, n: nat)
    requires n < |ss|
  {
    forall k :: 0 <= k <= n ==> InSync(ss[k])
  }

  lemma {:induction false} SyncUpTo(ss: seq<State>, ms: seq<ApplyMsg>, n: nat)
    requires Trace(ss, ms) && n <= |ms|
    ensures SyncedUpTo(ss, n) <==> ss[n].strays == []
  {
    if n == 0 {
      StartsInSync();
    } else {
      SyncUpTo(ss, ms, n - 1);
      SyncStep(ss, ms, n);
      assert SyncedUpTo(ss, n) <==> SyncedUpTo(ss, n - 1) && InSync(ss[n]);
    }
  }

  /** An engine has been in sync all along exactly when no delete has ever strayed. */
  lemma RunInSyncIff(ss: seq<State>, ms: seq<ApplyMsg>)
    requires Trace(ss, ms)
    ensures SyncedUpTo(ss, |ms|) <==> ss[|ms|].strays == []
  {
    SyncUpTo(ss, ms, |ms|);
  }

  /** While something of one domain is parked, only messages of that domain come. */
  ghost predicate Undisturbed(ss: seq<State>, ms: seq<ApplyMsg>) {
    |ss| == |ms| + 1 && forall n :: 0 <= n < |ms| ==> OnlyOf(ss[n].parked, ms[n].domain)
  }

  predicate OnlyOf(items: seq<Item>, d: int) {
    forall i :: i in items ==> i.domain == d
  }

  /** Whatever strays was parked for another domain. */
  lemma StrayedFromElsewhere(s: State, m: ApplyMsg, s': State, n: nat)
    requires Received(s, m, s') && |s.strays| <= n < |s'.strays|
    ensures s'.strays[n].item in s.parked && s'.strays[n].item.domain != m.domain
  {
    assert s'.strays[n] in s'.strays;
  }

  lemma NothingStrays(s: State, m: ApplyMsg, s': State)
    requires Received(s, m, s') && OnlyOf(s.parked, m.domain)
    ensures s'.strays == s.strays && forall i :: Times(s'.misplaced, i) <= Times(s.misplaced, i)
  {
    if |s.strays| < |s'.strays| {
      StrayedFromElsewhere(s, m, s', |s.strays|);
    }
  }

  lemma {:induction false} UndisturbedUpTo(ss: seq<State>, ms: seq<ApplyMsg>, n: nat)
    requires Trace(ss, ms) && Undisturbed(ss, ms) && n <= |ms|
    ensures ss[n].strays == [] && forall i :: Times(ss[n].misplaced, i) == 0
  {
    if n > 0 {
      UndisturbedUpTo(ss, ms, n - 1);
      TraceSound(ss, ms, n - 1);
      assert Received(ss[n - 1], ms[n - 1], ss[n]) && OnlyOf(ss[n - 1].parked, ms[n - 1].domain);
      NothingStrays(ss[n - 1], ms[n - 1], ss[n]);
    }
  }

  lemma UndisturbedInSync(ss: seq<State>, ms: seq<ApplyMsg>)
    requires Trace(ss, ms) && Undisturbed(ss, ms)
    ensures InSync(ss[|ms|])
  {
    UndisturbedUpTo(ss, ms, |ms|);
    RunInSyncIff(ss, ms);
  }

  lemma {:induction false} ItemsOnlyOf(ms: seq<ApplyMsg>, d: int)
    requires forall m :: m in ms ==> WellFormed(m) && m.domain == d
    ensures OnlyOf(AllItems(ms), d)
    decreases |ms|
  {
    if ms != [] {
      var m := ms[|ms| - 1];
      ItemsOnlyOf(ms[..|ms| - 1], d);
      assert m in ms;
      forall i | i in m.rows + m.indices ensures i.domain == d {}
    }
  }

  /** In particular when all messages are of one domain. */
  lemma OneDomainUndisturbed(ss: seq<State>, ms: seq<ApplyMsg>, d: int)
    requires Trace(ss, ms) && forall m :: m in ms ==> m.domain == d
    ensures Undisturbed(ss, ms)
  {
    forall n | 0 <= n < |ms| ensures OnlyOf(ss[n].parked, ms[n].domain) {
      TraceSound(ss, ms, n);
      forall m | m in ms[..n] ensures WellFormed(m) && m.domain == d {
        var k :| 0 <= k < n && ms[k] == m;
        assert Received(ss[k], ms[k], ss[k + 1]) && ms[k] in ms;
      }
      ItemsOnlyOf(ms[..n], d);
      forall i | i in ss[n].parked ensures i.domain == d {
        TimesIn(ss[n].parked, i);
        TimesIn(ss[n].seen, i);
      }
      assert ms[n] in ms;
    }
  }

  // ----- exactly what strays in a walk -----

  function Deletes(items: seq<Item>, e: Entry): nat {
    if items == [] then 0
    else
      var i := items[|items| - 1];
      Deletes(items[..|items| - 1], e) + if i.Index? && i.entry == e then 1 else 0
  }

  /** With `before` tried first, parked delete `i` still finds its entry in domain `d`. */
  predicate Finds(m: IndexMap, d: int, before: seq<Item>, i: Item) {
    i.Index? && Deletes(before, i.entry) < CountAt(m, Spot(d, i.entry))
  }

  /** The deletes that stray when these parked items are tried in order in domain `d`. */
  function StraysOf(m: IndexMap, d: int, items: seq<Item>): seq<Stray> {
    if items == [] then []
    else
      var before, i := items[..|items| - 1], items[|items| - 1];
      StraysOf(m, d, before) + if i.domain != d && Finds(m, d, before, i) then [Stray(i, d)] else []
  }

  /** At its turn, the `n`-th finds its entry in a domain that is not its own. */
  predicate StraysAt(m: IndexMap, d: int, items: seq<Item>, n: nat) {
    n < |items| && items[n].domain != d && Finds(m, d, items[..n], items[n])
  }

  /** In this order, some parked delete of another domain finds its entry in domain `d`. */
  ghost predicate ForeignFinds(m: IndexMap, d: int, items: seq<Item>) {
    exists n: nat :: StraysAt(m, d, items, n)
  }

  lemma StraysAtInit(m: IndexMap, d: int, items: seq<Item>, n: nat)
    requires n + 1 < |items|
    ensures StraysAt(m, d, items, n) <==> StraysAt(m, d, items[..|items| - 1], n)
  {
    assert items[..|items| - 1][..n] == items[..n];
  }

  lemma ForeignSnoc(m: IndexMap, d: int, items: seq<Item>)
    requires items != []
    ensures ForeignFinds(m, d, items) <==>
              ForeignFinds(m, d, items[..|items| - 1]) || StraysAt(m, d, items, |items| - 1)
  {
    var init := items[..|items| - 1];
    if n: nat :| StraysAt(m, d, items, n) {
      if n + 1 < |items| { StraysAtInit(m, d, items, n); }
    }
    if n: nat :| StraysAt(m, d, init, n) {
      StraysAtInit(m, d, items, n);
    }
  }

  lemma {:induction false} StraysOfIff(m: IndexMap, d: int, items: seq<Item>)
    ensures StraysOf(m, d, items) != [] <==> ForeignFinds(m, d, items)
    ensures forall x :: x in StraysOf(m, d, items) ==> x.into == d
    decreases |items|
  {
    if items != [] {
      StraysOfIff(m, d, items[..|items| - 1]);
      ForeignSnoc(m, d, items);
    }
  }

  /** Row changes applied in domain `d` on behalf of others were parked before. */
  ghost predicate OnlyMisplaces(s: State, d: int, s': State) {
    forall i :: && Times(s'.misplaced, i) + Times(s'.parked, i) <= Times(s.misplaced, i) + Times(s.parked, i)
                && (i.domain == d ==> Times(s'.misplaced, i) <= Times(s.misplaced, i))
  }

  /** A walk in domain `d` over everything parked, in this order. */
  ghost predicate Walked(s: State, d: int, order: seq<Item>, s': State) {
    Balanced(s) && Balanced(s') && s'.seen == s.seen && s'.strays == s.strays + StraysOf(s.index, d, order)
  }

  /** The walk keeps every domain in sync exactly when no parked delete of another domain finds its entry in this one. */
  lemma WalkInSyncIff(s: State, d: int, order: seq<Item>, s': State)
    requires Walked(s, d, order, s') && InSync(s)
    ensures InSync(s') <==> !ForeignFinds(s.index, d, order)
  {
    StraysOfIff(s.index, d, order);
    SyncLost(s, s', StraysOf(s.index, d, order), d);
  }

  /** A walk under way: where it started, the domain, and what has been tried. */
  datatype Tour = Tour(m0: IndexMap, strays0: seq<Stray>, d: int, done: seq<Item>)

  ghost predicate OnTour(t: Tour, index: IndexMap, strays: seq<Stray>) {
    match t
    case Tour(m0, strays0, d, done) =>
      && strays == strays0 + StraysOf(m0, d, done)
      && forall p :: CountAt(index, p) == if p.domain == d then Excess(CountAt(m0, p), Deletes(done, p.entry)) else CountAt(m0, p)
  }

  function Further(t: Tour, items: seq<Item>): Tour {
    t.(done := t.done + items)
  }

  /** A delete succeeds exactly when it finds its entry. */
  lemma FindsIff(t: Tour, index: IndexMap, strays: seq<Stray>, i: Item, ok: bool, index': IndexMap)
    requires OnTour(t, index, strays) && IndexStep(index, index', t.d, i, ok) && i.Index? && !i.isadd
    ensures ok <==> Finds(t.m0, t.d, t.done, i)
  {
    var p := Spot(t.d, i.entry);
    assert CountAt(index, p) == Excess(CountAt(t.m0, p), Deletes(t.done, i.entry));
    assert ok ==> CountAt(index', p) == CountAt(index, p) - 1;
  }

  lemma TourStrays(t: Tour, i: Item)
    ensures StraysOf(t.m0, t.d, t.done + [i]) ==
            StraysOf(t.m0, t.d, t.done) + if i.domain != t.d && Finds(t.m0, t.d, t.done, i) then [Stray(i, t.d)] else []
    ensures forall e :: Deletes(t.done + [i], e) == Deletes(t.done, e) + if i.Index? && i.entry == e then 1 else 0
  {
    assert (t.done + [i])[..|t.done|] == t.done;
  }

  lemma TourStep(t: Tour, index: IndexMap, strays: seq<Stray>, i: Item, ok: bool, index': IndexMap)
    requires OnTour(t, index, strays) && IndexStep(index, index', t.d, i, ok) && (i.Index? ==> !i.isadd)
    ensures OnTour(Further(t, [i]), index', if ok && i.Index? && i.domain != t.d then strays + [Stray(i, t.d)] else strays)
  {
    TourStrays(t, i);
    if i.Index? {
      FindsIff(t, index, strays, i, ok, index');
    }
    var more := if ok && i.Index? && i.domain != t.d then [Stray(i, t.d)] else [];
    Assoc(t.strays0, StraysOf(t.m0, t.d, t.done), more);
    assert strays + [] == strays;
  }

  // ----- two domains in one engine -----

  const ENTRY := Entry(1, 0, 5, Loc(7, 0))

  function Change(domain: int, sub: int, isadd: bool): ApplyMsg {
    ApplyMsg(domain, sub, sub, [], [Index(domain, sub, isadd, ENTRY)])
  }

  const DELETE1 := Change(1, 10, false)
  const ADD1 := Change(1, 30, true)
  const ADD2 := Change(2, 20, true)

  /** One more change of this entry. */
  lemma SeenOne(s: State, domain: int, sub: int, isadd: bool, s': State)
    requires Received(s, Change(domain, sub, isadd), s')
    ensures var i := Index(domain, sub, isadd, ENTRY);
      && s'.seen == s.seen + [i]
      && (forall j :: Times(s'.seen, j) == Times(s.seen, j) + if i == j then 1 else 0)
      && (forall b, p :: CountIn(s'.seen, b, p) == CountIn(s.seen, b, p) + if b == isadd && p == Spot(domain, ENTRY) then 1 else 0)
  {
    var i := Index(domain, sub, isadd, ENTRY);
    assert [] + [i] == [i];
    CountSnoc(s.seen, i);
    forall j ensures Times(s'.seen, j) == Times(s.seen, j) + if i == j then 1 else 0 {
      TimesSnoc(s.seen, i, j);
    }
  }

  lemma NothingParked(s: State)
    requires Balanced(s) && forall i :: i in s.seen && !(i.Index? && i.isadd) ==> Times(s.parked, i) == 0
    ensures s.parked == []
  {
    if s.parked != [] {
      var i := s.parked[0];
      TimesIn(s.parked, i);
      TimesIn(s.seen, i);
    }
  }

  lemma {:induction false} AllTheSame(strays: seq<Stray>, i: Item)
    requires forall x :: x in strays ==> x.item == i
    ensures TimesStrayed(strays, i) == |strays|
  {
    if strays != [] {
      assert strays[|strays| - 1] in strays;
      AllTheSame(strays[..|strays| - 1], i);
    }
  }

  lemma OnlyThisStrays(s1: State, s2: State)
    requires Received(START, DELETE1, s1) && Received(s1, ADD2, s2)
    ensures |s2.strays| <= 1 && forall x :: x in s2.strays ==> x == Stray(DELETE1.indices[0], 2)
  {
    var i := DELETE1.indices[0];
    SeenOne(START, 1, 10, false, s1);
    SeenOne(s1, 2, 20, true, s2);
    NothingStrays(START, DELETE1, s1);
    forall x | x in s2.strays ensures x == Stray(i, 2) {
      var n :| 0 <= n < |s2.strays| && s2.strays[n] == x;
      StrayedFromElsewhere(s1, ADD2, s2, n);
      TimesIn(s1.parked, x.item);
      TimesIn(s1.seen, x.item);
    }
    AllTheSame(s2.strays, i);
    assert Times(s2.seen, i) == Handled(s2, i) + Times(s2.parked, i);
  }

  lemma SomethingStrays(s1: State, s2: State)
    requires Received(START, DELETE1, s1) && Received(s1, ADD2, s2)
    ensures s2.strays != []
  {
    SeenOne(START, 1, 10, false, s1);
    SeenOne(s1, 2, 20, true, s2);
    if s2.strays == [] {
      Converged(s2, Spot(1, ENTRY));
      Converged(s2, Spot(2, ENTRY));
      CountedIsIn(s2.parked, false, Spot(1, ENTRY));
    }
  }

  /** Adds and deletes of the entry seen in the two domains. */
  predicate Tally(s: State, adds1: nat, dels1: nat, adds2: nat, dels2: nat) {
    && CountIn(s.seen, true, Spot(1, ENTRY)) == adds1 && CountIn(s.seen, false, Spot(1, ENTRY)) == dels1
    && CountIn(s.seen, true, Spot(2, ENTRY)) == adds2 && CountIn(s.seen, false, Spot(2, ENTRY)) == dels2
  }

  predicate OnlyThisDelete(s: State) {
    forall i :: i in s.seen && !(i.Index? && i.isadd) ==> i == DELETE1.indices[0]
  }

  /** A delete is parked for domain 1; the add of the same entry in domain 2 is lost to it. */
  lemma DeleteStrays(s1: State, s2: State)
    requires Received(START, DELETE1, s1) && Received(s1, ADD2, s2)
    ensures s2.strays == [Stray(DELETE1.indices[0], 2)]
  {
    OnlyThisStrays(s1, s2);
    SomethingStrays(s1, s2);
    assert s2.strays[0] in s2.strays;
  }

  lemma DeleteSeen(s1: State, s2: State)
    requires Received(START, DELETE1, s1) && Received(s1, ADD2, s2)
    ensures Tally(s2, 0, 1, 1, 0) && OnlyThisDelete(s2) && Times(s2.seen, DELETE1.indices[0]) == 1
  {
    SeenOne(START, 1, 10, false, s1);
    SeenOne(s1, 2, 20, true, s2);
  }

  lemma StrayedDeleteIsGone(s: State)
    requires Balanced(s) && s.strays == [Stray(DELETE1.indices[0], 2)] && OnlyThisDelete(s)
    requires Times(s.seen, DELETE1.indices[0]) == 1
    ensures s.parked == []
  {
    AllTheSame(s.strays, DELETE1.indices[0]);
    assert Times(s.seen, DELETE1.indices[0]) == Handled(s, DELETE1.indices[0]) + Times(s.parked, DELETE1.indices[0]);
    NothingParked(s);
  }

  lemma DeleteFirst(s2: State, s3: State)
    requires Balanced(s2) && s2.strays == [Stray(DELETE1.indices[0], 2)] && Tally(s2, 0, 1, 1, 0) && OnlyThisDelete(s2)
    requires Times(s2.seen, DELETE1.indices[0]) == 1 && Received(s2, ADD1, s3)
    ensures CountAt(s3.index, Spot(1, ENTRY)) == 1 && CountAt(s3.index, Spot(2, ENTRY)) == 0 && s3.parked == []
  {
    StrayedDeleteIsGone(s2);
    SeenOne(s2, 1, 30, true, s3);
    NothingStrays(s2, ADD1, s3);
    StraySnoc([], Stray(DELETE1.indices[0], 2));
    assert [] + [Stray(DELETE1.indices[0], 2)] == s3.strays;
    Converged(s3, Spot(1, ENTRY));
    Converged(s3, Spot(2, ENTRY));
    StrayedDeleteIsGone(s3);
  }

  lemma AddThenDelete(s1: State, s2: State)
    requires Received(START, ADD1, s1) && Received(s1, DELETE1, s2)
    ensures s2.strays == [] && Tally(s2, 1, 1, 0, 0) && OnlyThisDelete(s2)
  {
    SeenOne(START, 1, 30, true, s1);
    SeenOne(s1, 1, 10, false, s2);
    NothingStrays(START, ADD1, s1);
    NothingParked(s1);
    NothingStrays(s1, DELETE1, s2);
  }

  lemma AddFirst(s2: State, s3: State)
    requires Balanced(s2) && Settled(s2.index, s2.parked) && s2.strays == [] && Tally(s2, 1, 1, 0, 0) && OnlyThisDelete(s2)
    requires Received(s2, ADD2, s3)
    ensures CountAt(s3.index, Spot(1, ENTRY)) == 0 && CountAt(s3.index, Spot(2, ENTRY)) == 1 && s3.parked == []
  {
    DeleteDone(s2);
    SeenOne(s2, 2, 20, true, s3);
    NothingStrays(s2, ADD2, s3);
    Converged(s3, Spot(1, ENTRY));
    Converged(s3, Spot(2, ENTRY));
    DeleteDone(s3);
  }

  /** As many adds as deletes: nothing is parked. */
  lemma DeleteDone(s: State)
    requires Balanced(s) && Settled(s.index, s.parked) && s.strays == [] && OnlyThisDelete(s)
    requires CountIn(s.seen, true, Spot(1, ENTRY)) == CountIn(s.seen, false, Spot(1, ENTRY))
    ensures s.parked == []
  {
    Converged(s, Spot(1, ENTRY));
    TimesCount(s.parked, DELETE1.indices[0]);
    NothingParked(s);
  }

  lemma {:induction false} TimesCount(items: seq<Item>, i: Item)
    requires i.Index?
    ensures Times(items, i) <= CountIn(items, i.isadd, Home(i))
  {
    if items != [] {
      TimesCount(items[..|items| - 1], i);
    }
  }

  lemma OfThree(ss: seq<State>, a: ApplyMsg, b: ApplyMsg, c: ApplyMsg)
    requires Trace(ss, [a, b, c])
    ensures |ss| == 4 && Received(START, a, ss[1]) && Received(ss[1], b, ss[2]) && Received(ss[2], c, ss[3])
  {
    var ms := [a, b, c];
    assert Received(ss[0], ms[0], ss[1]) && Received(ss[1], ms[1], ss[2]) && Received(ss[2], ms[2], ss[3]);
  }

  /**
   * The same three messages leave the entry in domain 1 or in domain 2, depending on
   * their order, and nothing parked: a delete that waits in domain 1 takes the entry
   * that is added to domain 2.
   */
  lemma DomainsMixedUp(ss: seq<State>, ts: seq<State>)
    requires Trace(ss, [DELETE1, ADD2, ADD1]) && Trace(ts, [ADD1, DELETE1, ADD2])
    ensures multiset([DELETE1, ADD2, ADD1]) == multiset([ADD1, DELETE1, ADD2])
    ensures CountAt(ss[3].index, Spot(1, ENTRY)) == 1 && CountAt(ss[3].index, Spot(2, ENTRY)) == 0 && ss[3].parked == []
    ensures CountAt(ts[3].index, Spot(1, ENTRY)) == 0 && CountAt(ts[3].index, Spot(2, ENTRY)) == 1 && ts[3].parked == []
  {
    OfThree(ss, DELETE1, ADD2, ADD1);
    DeleteStrays(ss[1], ss[2]);
    DeleteSeen(ss[1], ss[2]);
    DeleteFirst(ss[2], ss[3]);
    OfThree(ts, ADD1, DELETE1, ADD2);
    AddThenDelete(ts[1], ts[2]);
    AddFirst(ts[2], ts[3]);
  }
}
