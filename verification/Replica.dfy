/**
 * A replica's engine applies the changes of committed subtransactions, which may
 * arrive in any order and from several domains. What cannot be applied yet is
 * parked and tried again after every message, in the domain of that message; a
 * subtransaction is acknowledged once nothing of it is parked.
 */
module Replica {
  import opened Convergence

  type Backlogs = map<int, Backlog>
  datatype Stock = Stock(bs: Backlogs, parked: seq<Item>)
  datatype Books = Books(acks: seq<Ack>, bs: Backlogs, ms: seq<ApplyMsg>)

  function TimesOn(bs: Backlogs, i: Item): nat {
    if i.sub in bs then Times(bs[i.sub].rows, i) + Times(bs[i.sub].indices, i) else 0
  }

  predicate NonEmpty(b: Backlog) {
    b.rows != [] || b.indices != []
  }

  /** Each parked subtransaction has something parked, all of it its own; together that is `parked`. */
  ghost predicate Shelved(k: Stock) {
    match k
    case Stock(bs, parked) =>
      && (forall sub :: sub in bs ==> Belong(bs[sub].rows, bs[sub].indices, sub) && NonEmpty(bs[sub]))
      && (forall i :: Times(parked, i) == TimesOn(bs, i))
  }

  /** The appliers that a subtransaction's messages came from, in order. */
  function AppliersOf(ms: seq<ApplyMsg>, sub: int): seq<int> {
    if ms == [] then []
    else
      var m := ms[|ms| - 1];
      AppliersOf(ms[..|ms| - 1], sub) + if m.sub == sub then [m.applierid] else []
  }

  /** The appliers to which a subtransaction has been acknowledged, in order. */
  function AckedTo(acks: seq<Ack>, sub: int): seq<int> {
    if acks == [] then []
    else
      var a := acks[|acks| - 1];
      AckedTo(acks[..|acks| - 1], sub) + if a.sub == sub then [a.applierid] else []
  }

  /**
   * No more acknowledgements than messages, one fewer while something is parked;
   * at least one once nothing is; and each goes to an applier that has sent.
   */
  predicate AckedRight(k: Books, sub: int) {
    match k
    case Books(acks, bs, ms) =>
      var from, to := AppliersOf(ms, sub), AckedTo(acks, sub);
      && |to| + (if sub in bs then 1 else 0) <= |from|
      && (from != [] && sub !in bs ==> to != [])
      && (forall n :: 0 <= n < |to| ==> to[n] in from)
      && (sub in bs ==> bs[sub].applierid in from)
  }

  ghost predicate AcksMatch(k: Books) {
    forall sub :: AckedRight(k, sub)
  }

  /** `i` joins the backlog of its subtransaction. */
  function Shelve(bs: Backlogs, applierid: int, i: Item): Backlogs {
    bs[i.sub := With(if i.sub in bs then bs[i.sub] else Backlog(applierid, [], []), i)]
  }

  function With(b: Backlog, i: Item): Backlog {
    if i.Row? then b.(rows := b.rows + [i]) else b.(indices := b.indices + [i])
  }

  lemma WithBelongs(b: Backlog, i: Item)
    requires Belong(b.rows, b.indices, i.sub)
    ensures Belong(With(b, i).rows, With(b, i).indices, i.sub) && NonEmpty(With(b, i))
  {
  }

  lemma ShelveTimes(bs: Backlogs, parked: seq<Item>, applierid: int, i: Item, j: Item)
    requires Times(parked, j) == TimesOn(bs, j)
    ensures Times(parked + [i], j) == TimesOn(Shelve(bs, applierid, i), j)
  {
    TimesSnoc(parked, i, j);
    WithTimes(if i.sub in bs then bs[i.sub] else Backlog(applierid, [], []), i, j);
  }

  lemma ShelveKeeps(bs: Backlogs, parked: seq<Item>, applierid: int, i: Item)
    requires Shelved(Stock(bs, parked))
    ensures Shelved(Stock(Shelve(bs, applierid, i), parked + [i]))
  {
    WithBelongs(if i.sub in bs then bs[i.sub] else Backlog(applierid, [], []), i);
    forall j ensures Times(parked + [i], j) == TimesOn(Shelve(bs, applierid, i), j) {
      ShelveTimes(bs, parked, applierid, i, j);
    }
  }

  lemma WithTimes(b: Backlog, i: Item, j: Item)
    ensures Times(With(b, i).rows, j) + Times(With(b, i).indices, j)
         == Times(b.rows, j) + Times(b.indices, j) + if i == j then 1 else 0
  {
    TimesSnoc(b.rows, i, j);
    TimesSnoc(b.indices, i, j);
  }

  class Engine {
    var index: IndexMap
    var backgrounded: Backlogs
    var acks: seq<Ack>
    ghost var parked: seq<Item>
    ghost var seen: seq<Item>
    ghost var applied: seq<Item>
    ghost var strays: seq<Stray>
    ghost var misplaced: seq<Item>
    ghost var delivered: seq<ApplyMsg>
    /** The states before, between and after the messages. */
    ghost var history: seq<State>

    ghost function Values(): State
      reads this`index, this`parked, this`seen, this`applied, this`strays, this`misplaced
    {
      State(index, parked, seen, applied, strays, misplaced)
    }

    ghost predicate Valid()
      reads this
    {
      match Values()
      case State(index, parked, seen, _, _, _) =>
      && Balanced(Values()) && Settled(index, parked) && Shelved(Stock(backgrounded, parked))
      && seen == AllItems(delivered)
      && AcksMatch(Books(acks, backgrounded, delivered))
      && Trace(history, delivered) && history[|delivered|] == Values()
    }

    constructor ()
      ensures Valid() && delivered == [] && acks == [] && backgrounded == map[]
    {
      index, backgrounded, acks := map[], map[], [];
      parked, seen, applied, strays, misplaced, delivered := [], [], [], [], [], [];
      history := [START];
    }

    /** applyItem for a non-unique index of domain `d`: an add always succeeds, a delete needs its entry. */
    method ApplyIndex(d: int, i: Item) returns (ok: bool)
      requires i.Index?
      modifies this`index
      ensures IndexStep(old(index), index, d, i, ok)
    {
      var k := KeyOf(Spot(d, i.entry));
      var bucket := Bucket(index, k);
      if i.isadd {
        AddsEntry(index, d, i);
        index := index[k := bucket + [i.entry.loc]];
        return true;
      }
      var it := 0;
      while it < |bucket|
        invariant it <= |bucket| && index == old(index)
        invariant i.entry.loc !in bucket[..it]
      {
        if bucket[it] == i.entry.loc {
          TakesEntry(index, d, i, it);
          index := index[k := bucket[..it] + bucket[it + 1..]];
          return true;
        }
        it := it + 1;
      }
      assert bucket[..it] == bucket;
      return false;
    }

    /**
     * applyItem, in the schema of domain `d`. Whether a row change can be applied yet
     * depends on the table, which is not modelled: either answer is possible.
     */
    method ApplyItem(d: int, i: Item) returns (ok: bool)
      modifies this`index
      ensures IndexStep(old(index), index, d, i, ok)
    {
      if i.Row? {
        ok := *;
      } else {
        ok := ApplyIndex(d, i);
      }
    }

    /** Engine::background: the item joins its subtransaction's list, which is made when there is none. */
    method Background(m: ApplyMsg, i: Item)
      requires i.sub == m.sub
      modifies this`backgrounded
      ensures backgrounded == Shelve(old(backgrounded), m.applierid, i)
    {
      if m.sub !in backgrounded {
        backgrounded := backgrounded[m.sub := Backlog(m.applierid, [], [])];
      }
      var b := backgrounded[m.sub];
      backgrounded := backgrounded[m.sub := if i.Row? then b.(rows := b.rows + [i]) else b.(indices := b.indices + [i])];
    }

    /** One item of a new message, applied or else parked. */
    method ApplyOrPark(m: ApplyMsg, i: Item)
      requires Working(Values(), m.domain) && Shelved(Stock(backgrounded, parked)) && i.sub == m.sub && i.domain == m.domain
      modifies this`index, this`applied, this`backgrounded, this`parked, this`seen
      ensures Working(Values(), m.domain) && Shelved(Stock(backgrounded, parked)) && seen == old(seen) + [i]
      ensures OnlyAdds(old(backgrounded), backgrounded, m) && ParksOnly(old(parked), parked, m.domain)
    {
      ghost var s := Values();
      var ok := ApplyItem(m.domain, i);
      NewItem(s, i, ok, index);
      seen := seen + [i];
      if ok {
        applied := applied + [i];
      } else {
        ShelveKeeps(backgrounded, parked, m.applierid, i);
        Background(m, i);
        parked := parked + [i];
      }
      assert Values() == Taken(s, i, ok, index);
    }

    /** The items of a new message, in order. */
    method ApplyNew(m: ApplyMsg, items: seq<Item>)
      requires Working(Values(), m.domain) && Shelved(Stock(backgrounded, parked))
      requires forall i :: i in items ==> i.sub == m.sub && i.domain == m.domain
      modifies this`index, this`applied, this`backgrounded, this`parked, this`seen
      ensures Working(Values(), m.domain) && Shelved(Stock(backgrounded, parked)) && seen == old(seen) + items
      ensures OnlyAdds(old(backgrounded), backgrounded, m) && ParksOnly(old(parked), parked, m.domain)
    {
      var n := 0;
      while n < |items|
        invariant n <= |items|
        invariant Working(Values(), m.domain) && Shelved(Stock(backgrounded, parked))
        invariant seen == old(seen) + items[..n]
        invariant OnlyAdds(old(backgrounded), backgrounded, m) && ParksOnly(old(parked), parked, m.domain)
      {
        ApplyOrPark(m, items[n]);
        assert items[..n + 1] == items[..n] + [items[n]];
        n := n + 1;
      }
      assert items[..n] == items;
    }

    /** A parked item is tried again, in the domain of the walk. */
    method Retry(i: Item, d: int, ghost t: Tour) returns (ok: bool)
      requires t.d == d && Working(Values(), d) && OnTour(t, index, strays) && i in parked
      modifies this`index, this`applied, this`parked, this`strays, this`misplaced
      ensures Tried(old(Values()), Further(t, [i]), i, ok, Values())
    {
      ghost var s := Values();
      ok := ApplyItem(d, i);
      if ok {
        ghost var k :| 0 <= k < |parked| && parked[k] == i;
        ghost var s' := Retried(s, k, d, index);
        RetriedKeeps(s, k, d, index);
        parked, applied, strays, misplaced := s'.parked, s'.applied, s'.strays, s'.misplaced;
        assert Values() == s';
        RetrySucceeds(s, t, k, index);
      } else {
        RetryFails(s, t, i);
      }
    }

    /** The walk over one parked list: what succeeds is dropped from it. */
    method RetryList(items: seq<Item>, d: int, ghost t: Tour) returns (kept: seq<Item>)
      requires t.d == d && Working(Values(), d) && OnTour(t, index, strays)
      requires forall i :: Times(items, i) <= Times(parked, i)
      modifies this`index, this`applied, this`parked, this`strays, this`misplaced
      ensures ListTried(old(Values()), Further(t, items), items, kept, Values()) && OnlyMisplaces(old(Values()), d, Values())
    {
      kept := [];
      var n := 0;
      ghost var before, tour := [], t;
      ListStarts(Values(), t);
      assert items[..0] == [] && Further(t, []) == t;
      while n < |items|
        invariant n <= |items| && before == items[..n] && tour == Further(t, before)
        invariant ListTried(old(Values()), tour, before, kept, Values())
        invariant OnlyMisplaces(old(Values()), d, Values())
      {
        var i := items[n];
        FurtherNext(t, items, n);
        ghost var mid := Values();
        StillParked(old(Values()), tour, items, n, kept, mid);
        var ok := Retry(i, d, tour);
        OnlyMisplacesOn(old(Values()), mid, Values(), d);
        ListNext(old(Values()), tour, before, kept, mid, Further(tour, [i]), i, ok, Values());
        kept := if ok then kept else kept + [i];
        before, tour := before + [i], Further(tour, [i]);
        n := n + 1;
      }
      assert items[..n] == items;
    }

    /** Both lists of one parked subtransaction. */
    method RetryBoth(sub: int, d: int, ghost t: Tour) returns (rows: seq<Item>, indices: seq<Item>)
      requires t.d == d && Working(Values(), d) && OnTour(t, index, strays)
      requires Shelved(Stock(backgrounded, parked)) && sub in backgrounded
      modifies this`index, this`applied, this`parked, this`strays, this`misplaced
      ensures BothTried(old(Values()), Further(t, Both(backgrounded[sub])), rows, indices, Values())
      ensures Shelved(Stock(Replaced(backgrounded, sub, rows, indices), parked))
    {
      ghost var s := Values();
      var b := backgrounded[sub];
      ListsFit(backgrounded, parked, sub);
      rows := RetryList(b.rows, d, t);
      ghost var mid := Values();
      RestFits(backgrounded, s.parked, sub, parked, rows);
      indices := RetryList(b.indices, d, Further(t, b.rows));
      FurtherBoth(t, b);
      BothDone(s, Further(t, b.rows), b, rows, mid, Further(t, Both(b)), indices, Values());
      Reshelved(backgrounded, s.parked, sub, parked, rows, indices);
    }

    /** One parked subtransaction: acknowledged and forgotten once nothing of it is left. */
    method RetrySubtransaction(sub: int, d: int, ghost t: Tour)
      requires t.d == d && Working(Values(), d) && OnTour(t, index, strays)
      requires Shelved(Stock(backgrounded, parked)) && sub in backgrounded
      requires AcksMatch(Books(acks, backgrounded, delivered))
      modifies this`index, this`applied, this`parked, this`strays, this`misplaced, this`backgrounded, this`acks
      ensures Working(Values(), d) && OnTour(Further(t, Both(old(backgrounded)[sub])), index, strays)
      ensures Shelved(Stock(backgrounded, parked)) && Shrinks(old(index), index)
      ensures AcksMatch(Books(acks, backgrounded, delivered))
      ensures backgrounded - {sub} == old(backgrounded) - {sub} && old(acks) <= acks
      ensures SettledShelf(index, backgrounded, d, sub) && OnlyMisplaces(old(Values()), d, Values())
    {
      var rows, indices := RetryBoth(sub, d, t);
      AckOrReplace(sub, rows, indices);
    }

    method AckOrReplace(sub: int, rows: seq<Item>, indices: seq<Item>)
      requires sub in backgrounded && AcksMatch(Books(acks, backgrounded, delivered))
      modifies this`backgrounded, this`acks
      ensures backgrounded == Replaced(old(backgrounded), sub, rows, indices)
      ensures AcksMatch(Books(acks, backgrounded, delivered)) && old(acks) <= acks
    {
      AckOrKeep(acks, backgrounded, delivered, sub, rows, indices);
      if rows == [] && indices == [] {
        acks := acks + [Ack(sub, backgrounded[sub].applierid)];
        backgrounded := backgrounded - {sub};
      } else {
        backgrounded := backgrounded[sub := Backlog(backgrounded[sub].applierid, rows, indices)];
      }
    }

    /** The walk over everything parked, in the order of the subtransactions, in the domain of the last message. */
    method Walk(d: int) returns (ghost order: seq<Item>)
      requires Working(Values(), d) && Shelved(Stock(backgrounded, parked)) && AcksMatch(Books(acks, backgrounded, delivered))
      modifies this`index, this`applied, this`parked, this`strays, this`misplaced, this`backgrounded, this`acks
      ensures Working(Values(), d) && Shelved(Stock(backgrounded, parked)) && AcksMatch(Books(acks, backgrounded, delivered))
      ensures SettledIn(index, parked, d) && old(acks) <= acks
      ensures order == InOrder(old(backgrounded), old(backgrounded.Keys)) && forall i :: i in order ==> i in old(parked)
      ensures Walked(old(Values()), d, order, Values()) && OnlyMisplaces(old(Values()), d, Values())
    {
      ghost var bs0 := backgrounded;
      order := InOrder(bs0, bs0.Keys);
      OrderIsParked(bs0, parked, bs0.Keys);
      ghost var t := Tour(index, strays, d, []);
      TourStarts(index, strays, d);
      var todo := backgrounded.Keys;
      while todo != {}
        invariant Shelved(Stock(backgrounded, parked)) && AcksMatch(Books(acks, backgrounded, delivered))
        invariant Working(Values(), d) && OnTour(t, index, strays) && OnlyMisplaces(old(Values()), d, Values())
        invariant t == Tour(old(index), old(strays), d, t.done)
        invariant todo <= bs0.Keys && t.done + InOrder(bs0, todo) == order
        invariant Untouched(bs0, backgrounded, todo) && old(acks) <= acks
        invariant forall sub :: sub !in todo ==> SettledShelf(index, backgrounded, d, sub)
        decreases todo
      {
        var sub := Least(todo);
        ghost var bs, m := backgrounded, index;
        ghost var before := Values();
        RetrySubtransaction(sub, d, t);
        OnlyMisplacesOn(old(Values()), before, Values(), d);
        NextInOrder(bs0, todo, t.done);
        t := Further(t, Both(bs0[sub]));
        StillSettled(m, index, bs, backgrounded, d, sub, todo);
        StillUntouched(bs0, bs, backgrounded, sub, todo);
        todo := todo - {sub};
      }
      assert t.done + [] == t.done;
      AllSettled(index, backgrounded, parked, d);
    }

    /** Engine::apply */
    method Apply(m: ApplyMsg)
      requires Valid() && WellFormed(m)
      modifies this
      ensures Valid() && delivered == old(delivered) + [m]
      ensures old(acks) <= acks && history == old(history) + [Values()]
    {
      ghost var s := Values();
      ApplyMessage(m);
      ghost var mid := Values();
      ghost var order := Walk(m.domain);
      WholeMessage(s, m, mid, order, Values());
      TraceSnoc(history, old(delivered), m, Values());
      history := history + [Values()];
    }

    /** The message itself, and its acknowledgement when none of it had to be parked. */
    method ApplyMessage(m: ApplyMsg)
      requires Working(Values(), m.domain) && Shelved(Stock(backgrounded, parked)) && AcksMatch(Books(acks, backgrounded, delivered))
      requires seen == AllItems(delivered) && WellFormed(m)
      modifies this`index, this`applied, this`parked, this`seen, this`backgrounded, this`acks, this`delivered
      ensures Working(Values(), m.domain) && Shelved(Stock(backgrounded, parked)) && AcksMatch(Books(acks, backgrounded, delivered))
      ensures delivered == old(delivered) + [m] && seen == AllItems(delivered) == old(seen) + (m.rows + m.indices)
      ensures ParksOnly(old(parked), parked, m.domain) && old(acks) <= acks
    {
      assert forall i :: i in m.rows || i in m.indices ==> i in m.rows + m.indices;
      ApplyNew(m, m.rows);
      ApplyNew(m, m.indices);
      assert old(seen) + m.rows + m.indices == old(seen) + (m.rows + m.indices);
      AckIfClear(m, old(backgrounded));
    }

    method AckIfClear(m: ApplyMsg, ghost bs: Backlogs)
      requires AcksMatch(Books(acks, bs, delivered)) && OnlyAdds(bs, backgrounded, m)
      modifies this`acks, this`delivered
      ensures AcksMatch(Books(acks, backgrounded, delivered))
      ensures delivered == old(delivered) + [m] && AllItems(delivered) == AllItems(old(delivered)) + (m.rows + m.indices)
      ensures old(acks) <= acks
    {
      NewMessage(acks, bs, backgrounded, delivered, m);
      if m.sub !in backgrounded {
        acks := acks + [Ack(m.sub, m.applierid)];
      }
      delivered := delivered + [m];
      assert delivered[..|delivered| - 1] == old(delivered);
    }
  }

  /** Both lists of a backlog, in the order in which they are walked. */
  function Both(b: Backlog): seq<Item> {
    b.rows + b.indices
  }

  lemma {:induction false} HasLeast(keys: set<int>)
    requires keys != {}
    ensures exists k :: k in keys && forall x :: x in keys ==> k <= x
  {
    assert (forall k: int :: k !in keys) ==> keys == {};
    var k :| k in keys;
    var rest := keys - {k};
    assert forall x :: x in keys ==> x == k || x in rest;
    if rest != {} {
      HasLeast(rest);
      var l :| l in rest && forall x :: x in rest ==> l <= x;
      var least := if k <= l then k else l;
      assert least in keys && forall x :: x in keys ==> least <= x;
    }
  }

  /** Where an ordered map begins. */
  function Least(keys: set<int>): (k: int)
    requires keys != {}
    ensures k in keys && forall x :: x in keys ==> k <= x
  {
    HasLeast(keys);
    var k :| k in keys && forall x :: x in keys ==> k <= x;
    k
  }

  /** Everything parked for these subtransactions, in the order of the walk. */
  function InOrder(bs: Backlogs, keys: set<int>): seq<Item>
    requires keys <= bs.Keys
  {
    if keys == {} then [] else Both(bs[Least(keys)]) + InOrder(bs, keys - {Least(keys)})
  }

  lemma NextInOrder(bs: Backlogs, todo: set<int>, done: seq<Item>)
    requires {} != todo <= bs.Keys
    ensures done + InOrder(bs, todo) == (done + Both(bs[Least(todo)])) + InOrder(bs, todo - {Least(todo)})
  {
    var sub := Least(todo);
    assert done + (Both(bs[sub]) + InOrder(bs, todo - {sub})) == (done + Both(bs[sub])) + InOrder(bs, todo - {sub});
  }

  ghost predicate Untouched(bs0: Backlogs, bs: Backlogs, todo: set<int>) {
    forall sub :: sub in todo ==> sub in bs0 && sub in bs && bs[sub] == bs0[sub]
  }

  lemma StillUntouched(bs0: Backlogs, bs: Backlogs, bs': Backlogs, sub: int, todo: set<int>)
    requires Untouched(bs0, bs, todo) && bs - {sub} == bs' - {sub}
    ensures Untouched(bs0, bs', todo - {sub})
  {
    forall x | x in todo - {sub} ensures x in bs0 && x in bs' && bs'[x] == bs0[x] {
      assert x in bs - {sub} && (bs - {sub})[x] == (bs' - {sub})[x];
    }
  }

  lemma TourStarts(index: IndexMap, strays: seq<Stray>, d: int)
    ensures OnTour(Tour(index, strays, d, []), index, strays)
  {
    assert strays + [] == strays;
  }

  lemma FurtherNext(t: Tour, items: seq<Item>, n: nat)
    requires n < |items|
    ensures items[..n + 1] == items[..n] + [items[n]]
    ensures Further(Further(t, items[..n]), [items[n]]) == Further(t, items[..n + 1])
  {
    assert (t.done + items[..n]) + [items[n]] == t.done + items[..n + 1];
  }

  /** Trying one parked item in a walk, with or without success; `t` is where the walk is afterwards. */
  ghost predicate Tried(s: State, t: Tour, i: Item, ok: bool, s': State) {
    match s'
    case State(index, parked, seen, _, strays, _) =>
      && Working(s', t.d) && OnTour(t, index, strays) && Shrinks(s.index, index) && seen == s.seen
      && (forall j :: Times(parked, j) == Times(s.parked, j) - if ok && i == j then 1 else 0)
      && (!ok && i.Index? ==> CountAt(index, Spot(t.d, i.entry)) == 0)
      && OnlyMisplaces(s, t.d, s')
  }

  lemma RetriedKeeps(s: State, k: nat, d: int, m': IndexMap)
    requires k < |s.parked|
    ensures var s' := Retried(s, k, d, m'); s'.index == m' && s'.seen == s.seen
  {
  }

  lemma OnlyMisplacesOn(s: State, s': State, s'': State, d: int)
    requires OnlyMisplaces(s, d, s') && OnlyMisplaces(s', d, s'')
    ensures OnlyMisplaces(s, d, s'')
  {
  }

  lemma RetriedMisplaces(s: State, k: nat, d: int, m': IndexMap)
    requires k < |s.parked|
    ensures OnlyMisplaces(s, d, Retried(s, k, d, m'))
  {
    TakenOnce(s.parked, k);
    var i, s' := s.parked[k], Retried(s, k, d, m');
    forall j ensures Times(s'.misplaced, j) == Times(s.misplaced, j) + if i.domain != d && i.Row? && i == j then 1 else 0 {
      TimesSnoc(s.misplaced, i, j);
    }
  }

  lemma DeleteShrinks(m: IndexMap, m': IndexMap, d: int, i: Item)
    requires IndexStep(m, m', d, i, true) && (i.Index? ==> !i.isadd)
    ensures Shrinks(m, m')
  {
  }

  lemma RetrySucceeds(s: State, t: Tour, k: nat, m': IndexMap)
    requires k < |s.parked| && Working(s, t.d) && OnTour(t, s.index, s.strays)
    requires IndexStep(s.index, m', t.d, s.parked[k], true)
    ensures Tried(s, Further(t, [s.parked[k]]), s.parked[k], true, Retried(s, k, t.d, m'))
  {
    var i := s.parked[k];
    assert i in s.parked;
    OldApplied(s, k, t.d, m');
    TourStep(t, s.index, s.strays, i, true, m');
    TakenOnce(s.parked, k);
    DeleteShrinks(s.index, m', t.d, i);
    RetriedMisplaces(s, k, t.d, m');
  }

  lemma TakenOnce(parked: seq<Item>, k: nat)
    requires k < |parked|
    ensures forall j :: Times(parked[..k] + parked[k + 1..], j) == Times(parked, j) - if parked[k] == j then 1 else 0
  {
    forall j ensures Times(parked[..k] + parked[k + 1..], j) == Times(parked, j) - if parked[k] == j then 1 else 0 {
      TimesAround(parked, k, j);
    }
  }

  lemma RetryFails(s: State, t: Tour, i: Item)
    requires i in s.parked && Working(s, t.d) && OnTour(t, s.index, s.strays) && IndexStep(s.index, s.index, t.d, i, false)
    ensures Tried(s, Further(t, [i]), i, false, s)
  {
    TourStep(t, s.index, s.strays, i, false, s.index);
  }

  /** Trying both lists of a subtransaction. */
  ghost predicate BothTried(s: State, t: Tour, rows: seq<Item>, indices: seq<Item>, s': State) {
    match s'
    case State(index, _, seen, _, strays, _) =>
      && Working(s', t.d) && OnTour(t, index, strays) && Shrinks(s.index, index) && seen == s.seen
      && SettledIn(index, rows, t.d) && SettledIn(index, indices, t.d) && OnlyMisplaces(s, t.d, s')
  }

  lemma BothDone(s: State, t: Tour, b: Backlog, rows: seq<Item>, mid: State, t': Tour, indices: seq<Item>, s': State)
    requires ListTried(s, t, b.rows, rows, mid) && OnlyMisplaces(s, t.d, mid) && t'.d == t.d
    requires ListTried(mid, t', b.indices, indices, s') && OnlyMisplaces(mid, t.d, s')
    ensures BothTried(s, t', rows, indices, s')
  {
    StillSettledIn(mid.index, s'.index, rows, t.d);
    OnlyMisplacesOn(s, mid, s', t.d);
  }

  lemma FurtherBoth(t: Tour, b: Backlog)
    ensures Further(Further(t, b.rows), b.indices) == Further(t, Both(b))
  {
    assert (t.done + b.rows) + b.indices == t.done + (b.rows + b.indices);
  }

  /** Trying a whole list; `kept` failed. */
  ghost predicate ListTried(s: State, t: Tour, items: seq<Item>, kept: seq<Item>, s': State) {
    match s'
    case State(index, parked, seen, _, strays, _) =>
      && Working(s', t.d) && OnTour(t, index, strays) && Shrinks(s.index, index) && seen == s.seen
      && Counted(s.parked, items, kept, parked) && SettledIn(index, kept, t.d) && Among(kept, items)
  }

  /** Of what was parked, the items tried are parked no longer, but for those kept. */
  ghost predicate Counted(parked0: seq<Item>, items: seq<Item>, kept: seq<Item>, parked: seq<Item>) {
    forall i :: Times(parked, i) == Times(parked0, i) - Times(items, i) + Times(kept, i)
  }

  predicate Among(kept: seq<Item>, items: seq<Item>) {
    forall i :: i in kept ==> i in items
  }

  lemma ListStarts(s: State, t: Tour)
    requires Working(s, t.d) && OnTour(t, s.index, s.strays)
    ensures ListTried(s, t, [], [], s)
  {
  }

  lemma StillParked(s: State, t: Tour, items: seq<Item>, n: nat, kept: seq<Item>, mid: State)
    requires n < |items| && ListTried(s, t, items[..n], kept, mid)
    requires forall i :: Times(items, i) <= Times(s.parked, i)
    ensures items[n] in mid.parked
  {
    TimesPrefix(items, n);
    TimesIn(mid.parked, items[n]);
  }

  lemma ListNext(s: State, t: Tour, before: seq<Item>, kept: seq<Item>, mid: State, t': Tour, i: Item, ok: bool, s': State)
    requires ListTried(s, t, before, kept, mid) && Tried(mid, t', i, ok, s') && t'.d == t.d
    ensures ListTried(s, t', before + [i], if ok then kept else kept + [i], s')
  {
    ListNextTimes(s.parked, before, kept, mid.parked, i, ok, s'.parked);
    StillSettledIn(mid.index, s'.index, kept, t.d);
    KeptNext(s'.index, before, kept, i, ok, t.d);
    ShrinksOn(s.index, mid.index, s'.index);
  }

  lemma ShrinksOn(m: IndexMap, m': IndexMap, m'': IndexMap)
    requires Shrinks(m, m') && Shrinks(m', m'')
    ensures Shrinks(m, m'')
  {
  }

  lemma KeptNext(m: IndexMap, before: seq<Item>, kept: seq<Item>, i: Item, ok: bool, d: int)
    requires SettledIn(m, kept, d) && (!ok && i.Index? ==> CountAt(m, Spot(d, i.entry)) == 0)
    requires Among(kept, before)
    ensures SettledIn(m, if ok then kept else kept + [i], d) && Among(if ok then kept else kept + [i], before + [i])
  {
    assert forall x :: x in before ==> x in before + [i];
  }

  lemma ListNextTimes(parked: seq<Item>, before: seq<Item>, kept: seq<Item>, parked1: seq<Item>, i: Item, ok: bool, parked2: seq<Item>)
    requires Counted(parked, before, kept, parked1)
    requires forall j :: Times(parked2, j) == Times(parked1, j) - if ok && i == j then 1 else 0
    ensures Counted(parked, before + [i], if ok then kept else kept + [i], parked2)
  {
    forall j ensures Times(parked2, j) == Times(parked, j) - Times(before + [i], j) + Times(if ok then kept else kept + [i], j) {
      TimesSnoc(before, i, j);
      TimesSnoc(kept, i, j);
    }
  }

  lemma StillSettledIn(m: IndexMap, m': IndexMap, items: seq<Item>, d: int)
    requires Shrinks(m, m') && SettledIn(m, items, d)
    ensures SettledIn(m', items, d)
  {
  }

  lemma {:induction false} OrderIsParked(bs: Backlogs, parked: seq<Item>, keys: set<int>)
    requires Shelved(Stock(bs, parked)) && keys <= bs.Keys
    ensures forall i :: i in InOrder(bs, keys) ==> i in parked
  {
    if keys != {} {
      var sub := Least(keys);
      OrderIsParked(bs, parked, keys - {sub});
      forall i | i in Both(bs[sub]) ensures i in parked {
        TimesIn(bs[sub].rows, i);
        TimesIn(bs[sub].indices, i);
        TimesIn(parked, i);
        assert Times(parked, i) == TimesOn(bs, i);
      }
    }
  }

  /** The message's own items and then the walk, taken together. */
  lemma WholeMessage(s: State, m: ApplyMsg, mid: State, order: seq<Item>, s': State)
    requires WellFormed(m) && mid.seen == s.seen + (m.rows + m.indices) && mid.strays == s.strays
    requires ParksOnly(s.parked, mid.parked, m.domain) && forall i :: i in order ==> i in mid.parked
    requires mid.misplaced == s.misplaced && OnlyMisplaces(mid, m.domain, s')
    requires Walked(mid, m.domain, order, s') && Working(s', m.domain) && SettledIn(s'.index, s'.parked, m.domain)
    ensures Received(s, m, s')
  {
    var more := StraysOf(mid.index, m.domain, order);
    forall n | |s.strays| <= n < |s'.strays| ensures s'.strays[n].into == m.domain && s'.strays[n].item in s.parked {
      assert s'.strays[n] == more[n - |s.strays|];
      StraysAmong(mid.index, m.domain, order, n - |s.strays|);
    }
    forall i | Times(s'.misplaced, i) > Times(s.misplaced, i) ensures i.domain != m.domain && i in s.parked {
      TimesIn(mid.parked, i);
    }
    forall i | i in s'.parked && i.Index? ensures CountAt(s'.index, Home(i)) == 0 {
      assert i.domain == m.domain ==> Home(i) == Spot(m.domain, i.entry);
    }
  }

  lemma TraceSnoc(ss: seq<State>, ms: seq<ApplyMsg>, m: ApplyMsg, s': State)
    requires Trace(ss, ms) && Received(ss[|ms|], m, s')
    ensures Trace(ss + [s'], ms + [m])
  {
    var ss', ms' := ss + [s'], ms + [m];
    forall n | 0 <= n < |ms'| ensures Received(ss'[n], ms'[n], ss'[n + 1]) {
      assert n < |ms| ==> Received(ss[n], ms[n], ss[n + 1]);
    }
  }

  /** New parked items are of this domain. */
  ghost predicate ParksOnly(parked: seq<Item>, parked': seq<Item>, d: int) {
    forall i :: i in parked' && i.domain != d ==> i in parked
  }

  lemma {:induction false} StraysAmong(m: IndexMap, d: int, items: seq<Item>, n: nat)
    requires n < |StraysOf(m, d, items)|
    ensures StraysOf(m, d, items)[n].into == d && StraysOf(m, d, items)[n].item in items
    ensures StraysOf(m, d, items)[n].item.domain != d
    decreases |items|
  {
    if n < |StraysOf(m, d, items[..|items| - 1])| {
      StraysAmong(m, d, items[..|items| - 1], n);
    }
  }

  lemma NewMessage(acks: seq<Ack>, bs: Backlogs, bs': Backlogs, ms: seq<ApplyMsg>, m: ApplyMsg)
    requires AcksMatch(Books(acks, bs, ms)) && OnlyAdds(bs, bs', m)
    ensures AcksMatch(Books(if m.sub in bs' then acks else acks + [Ack(m.sub, m.applierid)], bs', ms + [m]))
  {
    var k' := Books(if m.sub in bs' then acks else acks + [Ack(m.sub, m.applierid)], bs', ms + [m]);
    forall sub ensures AckedRight(k', sub) {
      assert AckedRight(Books(acks, bs, ms), sub);
      assert (ms + [m])[..|ms|] == ms;
      AckedSnoc(acks, Ack(m.sub, m.applierid), sub);
    }
  }

  lemma AckedSnoc(acks: seq<Ack>, a: Ack, sub: int)
    ensures AckedTo(acks + [a], sub) == AckedTo(acks, sub) + if a.sub == sub then [a.applierid] else []
  {
    assert (acks + [a])[..|acks|] == acks;
  }

  lemma AckOrKeep(acks: seq<Ack>, bs: Backlogs, ms: seq<ApplyMsg>, sub: int, rows: seq<Item>, indices: seq<Item>)
    requires AcksMatch(Books(acks, bs, ms)) && sub in bs
    ensures var bs' := Replaced(bs, sub, rows, indices);
      AcksMatch(Books(if sub in bs' then acks else acks + [Ack(sub, bs[sub].applierid)], bs', ms))
  {
    var bs' := Replaced(bs, sub, rows, indices);
    var k' := Books(if sub in bs' then acks else acks + [Ack(sub, bs[sub].applierid)], bs', ms);
    forall x ensures AckedRight(k', x) {
      assert AckedRight(Books(acks, bs, ms), x);
      AckedSnoc(acks, Ack(sub, bs[sub].applierid), x);
    }
  }

  lemma StillSettled(m: IndexMap, m': IndexMap, bs: Backlogs, bs': Backlogs, d: int, sub: int, todo: set<int>)
    requires Shrinks(m, m') && bs - {sub} == bs' - {sub} && SettledShelf(m', bs', d, sub)
    requires forall x :: x !in todo ==> SettledShelf(m, bs, d, x)
    ensures forall x :: x !in todo - {sub} ==> SettledShelf(m', bs', d, x)
  {
    forall x | x != sub ensures x in bs <==> x in bs' ensures x in bs ==> bs[x] == bs'[x] {
      assert x in bs - {sub} <==> x in bs' - {sub};
      assert x in bs - {sub} ==> (bs - {sub})[x] == (bs' - {sub})[x];
    }
  }

  lemma AllSettled(index: IndexMap, bs: Backlogs, parked: seq<Item>, d: int)
    requires Shelved(Stock(bs, parked)) && forall sub :: SettledShelf(index, bs, d, sub)
    ensures SettledIn(index, parked, d)
  {
    forall i | i in parked && i.Index? ensures CountAt(index, Spot(d, i.entry)) == 0 {
      TimesIn(parked, i);
      assert Times(parked, i) == TimesOn(bs, i);
      TimesIn(bs[i.sub].rows, i);
      TimesIn(bs[i.sub].indices, i);
      assert SettledShelf(index, bs, d, i.sub);
    }
  }

  ghost predicate SettledShelf(index: IndexMap, bs: Backlogs, d: int, sub: int) {
    sub in bs ==> SettledIn(index, bs[sub].rows, d) && SettledIn(index, bs[sub].indices, d)
  }

  lemma ListsFit(bs: Backlogs, parked: seq<Item>, sub: int)
    requires Shelved(Stock(bs, parked)) && sub in bs
    ensures forall i :: Times(bs[sub].rows, i) <= Times(parked, i)
  {
    forall i ensures Times(bs[sub].rows, i) <= Times(parked, i) {
      TimesIn(bs[sub].rows, i);
    }
  }

  lemma RestFits(bs: Backlogs, parked0: seq<Item>, sub: int, parked: seq<Item>, rows: seq<Item>)
    requires Shelved(Stock(bs, parked0)) && sub in bs
    requires forall i :: Times(parked, i) == Times(parked0, i) - Times(bs[sub].rows, i) + Times(rows, i)
    ensures forall i :: Times(bs[sub].indices, i) <= Times(parked, i)
  {
    forall i ensures Times(bs[sub].indices, i) <= Times(parked, i) {
      TimesIn(bs[sub].rows, i);
      TimesIn(bs[sub].indices, i);
      assert Times(parked0, i) == TimesOn(bs, i);
    }
  }

  function Replaced(bs: Backlogs, sub: int, rows: seq<Item>, indices: seq<Item>): Backlogs
    requires sub in bs
  {
    if rows == [] && indices == [] then bs - {sub} else bs[sub := Backlog(bs[sub].applierid, rows, indices)]
  }

  lemma Reshelved(bs: Backlogs, parked0: seq<Item>, sub: int, parked: seq<Item>, rows: seq<Item>, indices: seq<Item>)
    requires Shelved(Stock(bs, parked0)) && sub in bs
    requires forall i :: Times(parked, i) == Times(parked0, i) - Times(bs[sub].rows, i) + Times(rows, i)
                                           - Times(bs[sub].indices, i) + Times(indices, i)
    requires forall i :: i in rows ==> i in bs[sub].rows
    requires forall i :: i in indices ==> i in bs[sub].indices
    ensures Shelved(Stock(Replaced(bs, sub, rows, indices), parked))
  {
    var bs' := Replaced(bs, sub, rows, indices);
    forall i ensures Times(parked, i) == TimesOn(bs', i) {
      assert Times(parked0, i) == TimesOn(bs, i);
      TimesIn(bs[sub].rows, i);
      TimesIn(bs[sub].indices, i);
      TimesIn(rows, i);
      TimesIn(indices, i);
    }
  }

  /** Retrying only takes entries away. */
  ghost predicate Shrinks(m: IndexMap, m': IndexMap) {
    forall e :: CountAt(m', e) <= CountAt(m, e)
  }

  lemma TimesPrefix(items: seq<Item>, n: nat)
    requires n < |items|
    ensures Times(items[..n], items[n]) < Times(items, items[n])
    ensures forall j :: Times(items[..n + 1], j) == Times(items[..n], j) + if items[n] == j then 1 else 0
  {
    assert items == items[..n + 1] + items[n + 1..];
    TimesAppend(items[..n + 1], items[n + 1..], items[n]);
    assert items[..n + 1] == items[..n] + [items[n]];
    forall j ensures Times(items[..n + 1], j) == Times(items[..n], j) + if items[n] == j then 1 else 0 {
      TimesSnoc(items[..n], items[n], j);
    }
  }

  /** Other subtransactions' backlogs are untouched, and a new one is the message's. */
  ghost predicate OnlyAdds(bs: Backlogs, bs': Backlogs, m: ApplyMsg) {
    && (forall sub :: sub in bs ==> sub in bs' && bs'[sub].applierid == bs[sub].applierid)
    && (forall sub :: sub in bs' && sub !in bs ==> sub == m.sub && bs'[sub].applierid == m.applierid)
  }

  // ----- acknowledgements -----

  /** How often an item the engine has received has been dealt with. */
  ghost function HandledBy(engine: Engine, i: Item): nat
    reads engine
  {
    Handled(engine.Values(), i)
  }

  /** Nothing of the subtransaction was applied in a domain that is not its own. */
  ghost predicate AtHome(engine: Engine, sub: int)
    reads engine
  {
    forall i: Item :: i.sub == sub ==> TimesStrayed(engine.strays, i) == 0 && Times(engine.misplaced, i) == 0
  }

  /**
   * An engine sends no more acknowledgements for a subtransaction than it has
   * received messages, each to an applier that has sent one. When it has sent as
   * many, everything received of the subtransaction has been dealt with; that it was
   * applied where it belongs holds exactly of what was not applied elsewhere.
   */
  lemma AckedMeansApplied(engine: Engine, sub: int, i: Item)
    requires engine.Valid() && i.sub == sub
    ensures var from, to := AppliersOf(engine.delivered, sub), AckedTo(engine.acks, sub);
      && |to| <= |from| && (forall k :: 0 <= k < |to| ==> to[k] in from)
      && (|to| == |from| ==>
            && Times(AllItems(engine.delivered), i) == HandledBy(engine, i)
            && (Times(AllItems(engine.delivered), i) == Times(engine.applied, i)
                <==> TimesStrayed(engine.strays, i) == 0 && Times(engine.misplaced, i) == 0))
  {
    assert AckedRight(Books(engine.acks, engine.backgrounded, engine.delivered), sub);
    assert Times(engine.parked, i) == TimesOn(engine.backgrounded, i);
    assert Times(engine.seen, i) == HandledBy(engine, i) + Times(engine.parked, i);
  }

  /** A subtransaction received and not acknowledged has something that has not been applied anywhere. */
  lemma UnackedMeansParked(engine: Engine, sub: int) returns (i: Item)
    requires engine.Valid() && AckedTo(engine.acks, sub) == [] && AppliersOf(engine.delivered, sub) != []
    ensures i.sub == sub && Times(engine.applied, i) <= HandledBy(engine, i) < Times(AllItems(engine.delivered), i)
  {
    assert AckedRight(Books(engine.acks, engine.backgrounded, engine.delivered), sub);
    var b := engine.backgrounded[sub];
    i := if b.rows != [] then b.rows[0] else b.indices[0];
    TimesIn(b.rows, i);
    TimesIn(b.indices, i);
    assert Times(engine.parked, i) == TimesOn(engine.backgrounded, i);
    assert Times(engine.seen, i) == HandledBy(engine, i) + Times(engine.parked, i);
  }

  /** Everything that an engine received of a subtransaction has been dealt with, wherever. */
  ghost predicate AllHandled(engine: Engine, sub: int)
    reads engine
  {
    forall i: Item :: i.sub == sub ==> Times(AllItems(engine.delivered), i) == HandledBy(engine, i)
  }

  /** Everything that an engine received of a subtransaction is applied in its own domain. */
  ghost predicate AllApplied(engine: Engine, sub: int)
    reads engine
  {
    forall i: Item :: i.sub == sub ==> Times(AllItems(engine.delivered), i) == Times(engine.applied, i)
  }

  /** The applier has sent the engine one message of the subtransaction, and no other applier has. */
  ghost predicate Contacted(engine: Engine, sub: int, applierid: int)
    reads engine
  {
    engine.Valid() && AppliersOf(engine.delivered, sub) == [applierid]
  }

  /** While messages of other domains stay away from what is parked, nothing is applied where it does not belong. */
  lemma UndisturbedAtHome(engine: Engine, sub: int)
    requires engine.Valid() && Undisturbed(engine.history, engine.delivered)
    ensures AtHome(engine, sub)
  {
    UndisturbedUpTo(engine.history, engine.delivered, |engine.delivered|);
  }

  lemma AppliedIffAtHome(engine: Engine, sub: int)
    requires AllHandled(engine, sub)
    ensures AllApplied(engine, sub) <==> AtHome(engine, sub)
  {
    forall i: Item | i.sub == sub
      ensures Times(AllItems(engine.delivered), i) == Times(engine.applied, i)
              <==> TimesStrayed(engine.strays, i) == 0 && Times(engine.misplaced, i) == 0
    {
      assert Times(AllItems(engine.delivered), i) == HandledBy(engine, i);
    }
  }

  lemma AckedIffHandled(engine: Engine, sub: int, applierid: int)
    requires Contacted(engine, sub, applierid)
    ensures AckedTo(engine.acks, sub) != [] <==> AllHandled(engine, sub)
  {
    if AckedTo(engine.acks, sub) != [] {
      forall i: Item | i.sub == sub ensures Times(AllItems(engine.delivered), i) == HandledBy(engine, i) {
        AckedMeansApplied(engine, sub, i);
      }
    } else {
      var i := UnackedMeansParked(engine, sub);
    }
  }

  /** Everything is applied where it belongs exactly when it is acknowledged and nothing of it was applied elsewhere. */
  lemma AckedIffApplied(engine: Engine, sub: int, applierid: int)
    requires Contacted(engine, sub, applierid)
    ensures AckedTo(engine.acks, sub) != [] && AtHome(engine, sub) <==> AllApplied(engine, sub)
  {
    AckedIffHandled(engine, sub, applierid);
    if AllHandled(engine, sub) {
      AppliedIffAtHome(engine, sub);
    } else {
      var i := UnackedMeansParked(engine, sub);
    }
  }

  /**
   * Two engines that have received the same messages in different orders agree on an
   * entry exactly when strays have changed their counts of it alike. They agree on
   * everything when, on both, only messages of its domain came while something was
   * parked; in particular when all messages are of one domain.
   */
  lemma ReplicasConverge(left: Engine, right: Engine, p: Spot)
    requires left.Valid() && right.Valid() && multiset(left.delivered) == multiset(right.delivered)
    ensures SameAt(left.Values(), right.Values(), p)
            <==> OutOf(left.strays, p) - Into(left.strays, p) == OutOf(right.strays, p) - Into(right.strays, p)
    ensures Undisturbed(left.history, left.delivered) && Undisturbed(right.history, right.delivered) ==>
              SameAt(left.Values(), right.Values(), p)
  {
    OrderDoesNotMatter(left.Values(), right.Values(), left.delivered, right.delivered, p);
    if Undisturbed(left.history, left.delivered) && Undisturbed(right.history, right.delivered) {
      UndisturbedUpTo(left.history, left.delivered, |left.delivered|);
      UndisturbedUpTo(right.history, right.delivered, |right.delivered|);
    }
  }

  lemma OneDomainConverges(left: Engine, right: Engine, d: int, p: Spot)
    requires left.Valid() && right.Valid() && multiset(left.delivered) == multiset(right.delivered)
    requires forall m :: m in left.delivered ==> m.domain == d
    ensures SameAt(left.Values(), right.Values(), p)
  {
    forall m | m in right.delivered ensures m.domain == d {
      assert m in multiset(right.delivered);
      assert m in left.delivered;
    }
    OneDomainUndisturbed(left.history, left.delivered, d);
    OneDomainUndisturbed(right.history, right.delivered, d);
    ReplicasConverge(left, right, p);
  }
}
