/**
 * Searches over an index of integers (Index.cc, Index.h): range scans between
 * iterators of an ordered map must select what a plain filter over all entries
 * selects. A hash index answers only the searches that need no order.
 */
module IndexScan {

  datatype Kind = UniqueInt | NonuniqueInt | UnorderedInt
  datatype Position = Position(rowid: int, engineid: int)
  datatype Entry = Entry(key: int, pos: Position)
  datatype Comparator = LT | LTE | GT | GTE

  /** What a search asks of a key. */
  datatype Test = Less(k: int) | AtMost(k: int) | Greater(k: int) | AtLeast(k: int) | Is(k: int)
                | Within(lower: int, upper: int) | NoneOf(ks: seq<int>) | Any

  predicate Passes(t: Test, key: int) {
    match t
    case Less(k) => key < k
    case AtMost(k) => key <= k
    case Greater(k) => key > k
    case AtLeast(k) => key >= k
    case Is(k) => key == k
    case Within(lower, upper) => lower <= key <= upper
    case NoneOf(ks) => key !in ks
    case Any => true
  }

  function TestOf(op: Comparator, input: int): Test {
    match op
    case LT => Less(input)
    case LTE => AtMost(input)
    case GT => Greater(input)
    case GTE => AtLeast(input)
  }

  /** The positions of the entries that pass, in the index's order. */
  function Matching(es: seq<Entry>, t: Test): seq<Position> {
    if es == [] then []
    else
      var e := es[|es| - 1];
      Matching(es[..|es| - 1], t) + if Passes(t, e.key) then [e.pos] else []
  }

  /** What IN asks: the entries equal to the first value, then those equal to the second, and so on. */
  function MatchingEach(es: seq<Entry>, ks: seq<int>): seq<Position> {
    if ks == [] then [] else MatchingEach(es, ks[..|ks| - 1]) + Matching(es, Is(ks[|ks| - 1]))
  }

  lemma {:induction false} MatchingAppend(a: seq<Entry>, b: seq<Entry>, t: Test)
    ensures Matching(a + b, t) == Matching(a, t) + Matching(b, t)
    decreases |b|
  {
    if b == [] {
      assert a + b == a;
    } else {
      assert (a + b)[..|a + b| - 1] == a + b[..|b| - 1];
      MatchingAppend(a, b[..|b| - 1], t);
    }
  }

  lemma {:induction false} NoneMatch(es: seq<Entry>, t: Test)
    requires forall e :: e in es ==> !Passes(t, e.key)
    ensures Matching(es, t) == []
    decreases |es|
  {
    if es != [] {
      NoneMatch(es[..|es| - 1], t);
    }
  }

  lemma MatchingSplit(es: seq<Entry>, lo: nat, hi: nat, t: Test)
    requires lo <= hi <= |es|
    ensures Matching(es, t) == Matching(es[..lo], t) + Matching(es[lo..hi], t) + Matching(es[hi..], t)
  {
    assert es == es[..lo] + es[lo..hi] + es[hi..];
    MatchingAppend(es[..lo], es[lo..hi], t);
    MatchingAppend(es[..lo] + es[lo..hi], es[hi..], t);
  }

  /** Only a slice can contain matches. */
  lemma MatchingSlice(es: seq<Entry>, lo: nat, hi: nat, t: Test)
    requires lo <= hi <= |es|
    requires forall i :: 0 <= i < |es| && !(lo <= i < hi) ==> !Passes(t, es[i].key)
    ensures Matching(es, t) == Matching(es[lo..hi], t)
  {
    MatchingSplit(es, lo, hi, t);
    NoneMatch(es[..lo], t);
    NoneMatch(es[hi..], t);
  }

  lemma MatchingNext(es: seq<Entry>, lo: nat, i: nat, t: Test)
    requires lo <= i < |es|
    ensures Matching(es[lo..i + 1], t) == Matching(es[lo..i], t) + if Passes(t, es[i].key) then [es[i].pos] else []
  {
    assert es[lo..i + 1][..i - lo] == es[lo..i];
  }

  function KeyAt(es: seq<Entry>, i: int): int {
    if 0 <= i < |es| then es[i].key else 0
  }

  class Index {
    const kind: Kind
    /** In the iteration order of the container. */
    var entries: seq<Entry>

    ghost predicate Valid()
      reads this
    {
      match kind
      case UniqueInt => forall i, j :: 0 <= i < j < |entries| ==> entries[i].key < entries[j].key
      case NonuniqueInt => forall i, j :: 0 <= i < j < |entries| ==> entries[i].key <= entries[j].key
      case UnorderedInt => forall i, j :: 0 <= i < j < |entries| ==> entries[i].key != entries[j].key
    }

    predicate Sorted()
      reads this
    {
      forall i, j :: 0 <= i < j < |entries| ==> entries[i].key <= entries[j].key
    }

    constructor (kind: Kind)
      ensures Valid() && this.kind == kind && entries == []
    {
      this.kind := kind;
      entries := [];
    }

    // The two bounds an ordered map offers.

    method LowerBound(k: int) returns (it: nat)
      requires Sorted()
      ensures it <= |entries|
      ensures forall i :: 0 <= i < it ==> entries[i].key < k
      ensures forall i :: it <= i < |entries| ==> entries[i].key >= k
    {
      it := 0;
      while it < |entries| && entries[it].key < k
        invariant it <= |entries|
        invariant forall i :: 0 <= i < it ==> entries[i].key < k
      {
        it := it + 1;
      }
    }

    method UpperBound(k: int) returns (it: nat)
      requires Sorted()
      ensures it <= |entries|
      ensures forall i :: 0 <= i < it ==> entries[i].key <= k
      ensures forall i :: it <= i < |entries| ==> entries[i].key > k
    {
      it := 0;
      while it < |entries| && entries[it].key <= k
        invariant it <= |entries|
        invariant forall i :: 0 <= i < it ==> entries[i].key <= k
      {
        it := it + 1;
      }
    }

    /** count and at of a map with unique keys. */
    method Find(k: int) returns (found: bool, pos: Position)
      requires Valid() && !kind.NonuniqueInt?
      ensures Matching(entries, Is(k)) == if found then [pos] else []
    {
      var i := 0;
      pos := Position(0, 0);
      while i < |entries|
        invariant i <= |entries|
        invariant forall j :: 0 <= j < i ==> entries[j].key != k
      {
        if entries[i].key == k {
          MatchingSlice(entries, i, i + 1, Is(k));
          MatchingNext(entries, i, i, Is(k));
          assert entries[i..i] == [];
          return true, entries[i].pos;
        }
        i := i + 1;
      }
      NoneMatch(entries, Is(k));
      found := false;
    }

    /** <, <=, > and >=. A hash index returns nothing. */
    method Comparison(input: int, op: Comparator, returnEntries: seq<Position>) returns (r: seq<Position>)
      requires Valid()
      ensures r == returnEntries + if kind.UnorderedInt? then [] else Matching(entries, TestOf(op, input))
    {
      r := returnEntries;
      if kind.UnorderedInt? {
        return;
      }
      var itBegin, itEnd := Range(input, op);
      MatchingSlice(entries, itBegin, itEnd, TestOf(op, input));
      r := PushCompared(itBegin, itEnd, input, op, returnEntries);
    }

    /** Both iterators take in entries with the very key, which < and > skip. */
    method PushCompared(itBegin: nat, itEnd: nat, input: int, op: Comparator, returnEntries: seq<Position>)
      returns (r: seq<Position>)
      requires itBegin <= itEnd <= |entries|
      requires forall i :: itBegin <= i < itEnd ==>
                 Passes(TestOf(op, input), entries[i].key) || entries[i].key == input
      ensures r == returnEntries + Matching(entries[itBegin..itEnd], TestOf(op, input))
    {
      r := returnEntries;
      var it := itBegin;
      while it != itEnd
        invariant itBegin <= it <= itEnd
        invariant r == returnEntries + Matching(entries[itBegin..it], TestOf(op, input))
        decreases itEnd - it
      {
        MatchingNext(entries, itBegin, it, TestOf(op, input));
        if !((op.GT? || op.LT?) && entries[it].key == input) {
          r := r + [entries[it].pos];
        }
        it := it + 1;
      }
    }

    /** From the first or to the last entry that can satisfy the comparison, equal keys included. */
    method Range(input: int, op: Comparator) returns (itBegin: nat, itEnd: nat)
      requires Sorted()
      ensures itBegin <= itEnd <= |entries|
      ensures forall i :: 0 <= i < |entries| ==>
                (itBegin <= i < itEnd <==> Passes(TestOf(op, input), entries[i].key) || entries[i].key == input)
    {
      itBegin, itEnd := 0, |entries|;
      if op.LT? || op.LTE? {
        itEnd := UpperBound(input);
      } else {
        itBegin := LowerBound(input);
      }
    }

    method Between(lower: int, upper: int, returnEntries: seq<Position>) returns (r: seq<Position>)
      requires Valid()
      ensures r == returnEntries + if kind.UnorderedInt? then [] else Matching(entries, Within(lower, upper))
    {
      match kind
      case UniqueInt => r := BetweenUnique(lower, upper, returnEntries);
      case NonuniqueInt => r := BetweenNonunique(lower, upper, returnEntries);
      case UnorderedInt => r := returnEntries;
    }

    method BetweenUnique(lower: int, upper: int, returnEntries: seq<Position>) returns (r: seq<Position>)
      requires Valid() && kind.UniqueInt?
      ensures r == returnEntries + Matching(entries, Within(lower, upper))
    {
      ghost var t := Within(lower, upper);
      if lower == upper {
        var found, pos := Find(lower);
        SameTest(entries, t, Is(lower));
        return if found then returnEntries + [pos] else returnEntries;
      }
      if lower > upper {
        NoneMatch(entries, t);
        return returnEntries;
      }
      var itBegin, itEnd := HalfOpen(lower, upper);
      r := PushAll(itBegin, itEnd, returnEntries, t);
      UpToUpper(entries, itBegin, itEnd, lower, upper);
      var found, pos := Find(upper);
      if found {
        r := r + [pos];
      }
    }

    /** lower_bound of both ends. */
    method HalfOpen(lower: int, upper: int) returns (itBegin: nat, itEnd: nat)
      requires Sorted() && lower <= upper
      ensures itBegin <= itEnd <= |entries|
      ensures forall i :: 0 <= i < itBegin ==> entries[i].key < lower
      ensures forall i :: itBegin <= i < itEnd ==> lower <= entries[i].key < upper
      ensures forall i :: itEnd <= i < |entries| ==> entries[i].key >= upper
    {
      itBegin := LowerBound(lower);
      itEnd := LowerBound(upper);
      assert itEnd < itBegin ==> KeyAt(entries, itEnd) < lower;
    }

    /** lower_bound of one end and upper_bound of the other; equal_range when they are the same. */
    method Closed(lower: int, upper: int) returns (itBegin: nat, itEnd: nat)
      requires Sorted() && lower <= upper
      ensures itBegin <= itEnd <= |entries|
      ensures forall i :: 0 <= i < |entries| ==> (itBegin <= i < itEnd <==> lower <= entries[i].key <= upper)
    {
      itBegin := LowerBound(lower);
      itEnd := UpperBound(upper);
      assert itEnd < itBegin ==> KeyAt(entries, itEnd) < lower;
    }

    method BetweenNonunique(lower: int, upper: int, returnEntries: seq<Position>) returns (r: seq<Position>)
      requires Valid() && kind.NonuniqueInt?
      ensures r == returnEntries + Matching(entries, Within(lower, upper))
    {
      ghost var t := Within(lower, upper);
      if lower > upper {
        NoneMatch(entries, t);
        return returnEntries;
      }
      var itBegin, itEnd := Closed(lower, upper);
      MatchingSlice(entries, itBegin, itEnd, t);
      r := PushUpTo(itBegin, itEnd, returnEntries, lower, upper);
    }

    method PushUpTo(itBegin: nat, itEnd: nat, returnEntries: seq<Position>, ghost lower: int, upper: int)
      returns (r: seq<Position>)
      requires itBegin <= itEnd <= |entries|
      requires forall i :: itBegin <= i < itEnd ==> entries[i].key >= lower
      ensures r == returnEntries + Matching(entries[itBegin..itEnd], Within(lower, upper))
    {
      r := returnEntries;
      var it := itBegin;
      while it != itEnd
        invariant itBegin <= it <= itEnd
        invariant r == returnEntries + Matching(entries[itBegin..it], Within(lower, upper))
        decreases itEnd - it
      {
        MatchingNext(entries, itBegin, it, Within(lower, upper));
        if entries[it].key <= upper {
          r := r + [entries[it].pos];
        }
        it := it + 1;
      }
    }

    /** Every entry of a range, all of which pass the test. */
    method PushAll(itBegin: nat, itEnd: nat, returnEntries: seq<Position>, ghost t: Test) returns (r: seq<Position>)
      requires itBegin <= itEnd <= |entries|
      requires forall i :: itBegin <= i < itEnd ==> Passes(t, entries[i].key)
      ensures r == returnEntries + Matching(entries[itBegin..itEnd], t)
    {
      r := returnEntries;
      var it := itBegin;
      while it != itEnd
        invariant itBegin <= it <= itEnd
        invariant r == returnEntries + Matching(entries[itBegin..it], t)
        decreases itEnd - it
      {
        MatchingNext(entries, itBegin, it, t);
        r := r + [entries[it].pos];
        it := it + 1;
      }
    }

    /** One comparison below the range and one above it, whatever the order of the bounds. */
    method NotBetween(lower: int, upper: int, returnEntries: seq<Position>) returns (r: seq<Position>)
      requires Valid()
      ensures r == returnEntries + if kind.UnorderedInt? then []
                                   else Matching(entries, Less(lower)) + Matching(entries, Greater(upper))
    {
      r := Comparison(lower, LT, returnEntries);
      r := Comparison(upper, GT, r);
    }

    method GetEqual(input: int, returnEntries: seq<Position>) returns (r: seq<Position>)
      requires Valid()
      ensures r == returnEntries + Matching(entries, Is(input))
    {
      if kind.NonuniqueInt? {
        var itBegin, itEnd := Closed(input, input);
        MatchingSlice(entries, itBegin, itEnd, Is(input));
        r := PushAll(itBegin, itEnd, returnEntries, Is(input));
      } else {
        var found, pos := Find(input);
        r := if found then returnEntries + [pos] else returnEntries;
      }
    }

    method GetIn(input: seq<int>, returnEntries: seq<Position>) returns (r: seq<Position>)
      requires Valid()
      ensures r == returnEntries + MatchingEach(entries, input)
    {
      r := returnEntries;
      var n := 0;
      while n < |input|
        invariant n <= |input|
        invariant r == returnEntries + MatchingEach(entries, input[..n])
      {
        r := GetEqual(input[n], r);
        assert input[..n + 1][..n] == input[..n];
        n := n + 1;
      }
      assert input[..n] == input;
    }

    method GetNotIn(input: seq<int>, returnEntries: seq<Position>) returns (r: seq<Position>)
      ensures r == returnEntries + Matching(entries, NoneOf(input))
    {
      r := returnEntries;
      var it := 0;
      while it < |entries|
        invariant it <= |entries|
        invariant r == returnEntries + Matching(entries[..it], NoneOf(input))
      {
        var isfound := false;
        var n := 0;
        while n < |input|
          invariant n <= |input|
          invariant !isfound && entries[it].key !in input[..n]
        {
          if input[n] == entries[it].key {
            isfound := true;
            break;
          }
          n := n + 1;
        }
        assert isfound <==> entries[it].key in input;
        if !isfound {
          r := r + [entries[it].pos];
        }
        assert entries[..it + 1][..it] == entries[..it];
        it := it + 1;
      }
      assert entries[..it] == entries;
    }

    method GetNotNulls(returnEntries: seq<Position>) returns (r: seq<Position>)
      ensures r == returnEntries + Matching(entries, Any)
    {
      r := returnEntries;
      var it := 0;
      while it < |entries|
        invariant it <= |entries|
        invariant r == returnEntries + Matching(entries[..it], Any)
      {
        r := r + [entries[it].pos];
        assert entries[..it + 1][..it] == entries[..it];
        it := it + 1;
      }
      assert entries[..it] == entries;
    }
  }

  lemma {:induction false} SameTest(es: seq<Entry>, t: Test, u: Test)
    requires forall e :: e in es ==> (Passes(t, e.key) <==> Passes(u, e.key))
    ensures Matching(es, t) == Matching(es, u)
    decreases |es|
  {
    if es != [] {
      SameTest(es[..|es| - 1], t, u);
    }
  }

  /** A closed range is the half-open one and then the entry at its upper end. */
  lemma UpToUpper(es: seq<Entry>, lo: nat, hi: nat, lower: int, upper: int)
    requires lo <= hi <= |es| && lower <= upper
    requires forall i :: 0 <= i < lo ==> es[i].key < lower
    requires forall i :: 0 <= i < hi ==> es[i].key < upper
    requires forall i :: hi <= i < |es| ==> es[i].key >= upper
    ensures Matching(es, Within(lower, upper)) == Matching(es[lo..hi], Within(lower, upper)) + Matching(es, Is(upper))
  {
    var t := Within(lower, upper);
    MatchingSplit(es, lo, hi, t);
    NoneMatch(es[..lo], t);
    SameAtUpper(es, hi, lower, upper);
    assert [] + Matching(es[lo..hi], t) == Matching(es[lo..hi], t);
  }

  lemma SameAtUpper(es: seq<Entry>, hi: nat, lower: int, upper: int)
    requires hi <= |es| && lower <= upper
    requires forall i :: 0 <= i < hi ==> es[i].key < upper
    requires forall i :: hi <= i < |es| ==> es[i].key >= upper
    ensures Matching(es[hi..], Within(lower, upper)) == Matching(es, Is(upper))
  {
    MatchingSplit(es, hi, hi, Is(upper));
    assert es[hi..hi] == [];
    NoneMatch(es[..hi], Is(upper));
    SameTest(es[hi..], Within(lower, upper), Is(upper));
  }

  // ----- what is found -----

  /** No two entries are for the same place. */
  predicate Placed(es: seq<Entry>) {
    forall i, j :: 0 <= i < j < |es| ==> es[i].pos != es[j].pos
  }

  lemma {:induction false} FoundIff(es: seq<Entry>, t: Test, i: nat)
    requires Placed(es) && i < |es|
    ensures es[i].pos in Matching(es, t) <==> Passes(t, es[i].key)
    decreases |es|
  {
    var n := |es| - 1;
    if i < n {
      FoundIff(es[..n], t, i);
    } else {
      OnlyPositions(es[..n], t);
    }
  }

  lemma {:induction false} OnlyPositions(es: seq<Entry>, t: Test)
    ensures forall p :: p in Matching(es, t) ==> exists j :: 0 <= j < |es| && es[j].pos == p
    decreases |es|
  {
    if es != [] {
      var n := |es| - 1;
      OnlyPositions(es[..n], t);
      forall p | p in Matching(es, t) ensures exists j :: 0 <= j < |es| && es[j].pos == p {
        if p in Matching(es[..n], t) {
          var j :| 0 <= j < n && es[..n][j].pos == p;
          assert es[j].pos == p;
        } else {
          assert es[n].pos == p;
        }
      }
    }
  }

  /** Which entries each search returns, by their keys alone. */
  lemma SearchesFind(es: seq<Entry>, i: nat, x: int, y: int, ks: seq<int>)
    requires Placed(es) && i < |es|
    ensures var k, p := es[i].key, es[i].pos;
      && (p in Matching(es, TestOf(LT, x)) <==> k < x)
      && (p in Matching(es, TestOf(LTE, x)) <==> k <= x)
      && (p in Matching(es, TestOf(GT, x)) <==> k > x)
      && (p in Matching(es, TestOf(GTE, x)) <==> k >= x)
      && (p in Matching(es, Is(x)) <==> k == x)
      && (p in Matching(es, Within(x, y)) <==> x <= k <= y)
      && (p in Matching(es, NoneOf(ks)) <==> k !in ks)
      && p in Matching(es, Any)
  {
    FoundIff(es, TestOf(LT, x), i);
    FoundIff(es, TestOf(LTE, x), i);
    FoundIff(es, TestOf(GT, x), i);
    FoundIff(es, TestOf(GTE, x), i);
    FoundIff(es, Is(x), i);
    FoundIff(es, Within(x, y), i);
    FoundIff(es, NoneOf(ks), i);
    FoundIff(es, Any, i);
  }

  /** IN returns the entries whose key is listed. */
  lemma {:induction false} InFinds(es: seq<Entry>, i: nat, ks: seq<int>)
    requires Placed(es) && i < |es|
    ensures es[i].pos in MatchingEach(es, ks) <==> es[i].key in ks
    decreases |ks|
  {
    if ks != [] {
      var init, k := ks[..|ks| - 1], ks[|ks| - 1];
      assert ks == init + [k];
      InFinds(es, i, init);
      FoundIff(es, Is(k), i);
    }
  }

  /** Where the keys reach `k`. */
  lemma {:induction false} SplitPoint(es: seq<Entry>, k: int) returns (m: nat)
    requires forall i, j :: 0 <= i < j < |es| ==> es[i].key <= es[j].key
    ensures m <= |es|
    ensures forall i :: 0 <= i < m ==> es[i].key < k
    ensures forall i :: m <= i < |es| ==> es[i].key >= k
    decreases |es|
  {
    if es == [] {
      m := 0;
    } else if es[|es| - 1].key < k {
      m := |es|;
    } else {
      m := SplitPoint(es[..|es| - 1], k);
    }
  }

  lemma OnlyIn(a: seq<Entry>, b: seq<Entry>, t: Test)
    ensures (forall e :: e in a ==> !Passes(t, e.key)) ==> Matching(a + b, t) == Matching(b, t)
    ensures (forall e :: e in b ==> !Passes(t, e.key)) ==> Matching(a + b, t) == Matching(a, t)
  {
    MatchingAppend(a, b, t);
    if forall e :: e in a ==> !Passes(t, e.key) { NoneMatch(a, t); }
    if forall e :: e in b ==> !Passes(t, e.key) { NoneMatch(b, t); }
  }

  /** What passes `whole` is, in `a`, what passes `low`, and in `b` what passes `high`. */
  lemma TwoParts(a: seq<Entry>, b: seq<Entry>, whole: Test, low: Test, high: Test)
    requires forall e :: e in a ==> (Passes(whole, e.key) <==> Passes(low, e.key)) && !Passes(high, e.key)
    requires forall e :: e in b ==> (Passes(whole, e.key) <==> Passes(high, e.key)) && !Passes(low, e.key)
    ensures Matching(a + b, whole) == Matching(a + b, low) + Matching(a + b, high)
  {
    MatchingAppend(a, b, whole);
    SameTest(a, whole, low);
    SameTest(b, whole, high);
    OnlyIn(a, b, low);
    OnlyIn(a, b, high);
  }

  /** In an ordered index the entries below a key, those at it and those above it make up the index, in this order. */
  lemma OrderedSplit(es: seq<Entry>, k: int)
    requires forall i, j :: 0 <= i < j < |es| ==> es[i].key <= es[j].key
    ensures Matching(es, Any) == Matching(es, Less(k)) + Matching(es, AtLeast(k))
    ensures Matching(es, Any) == Matching(es, AtMost(k)) + Matching(es, Greater(k))
    ensures Matching(es, AtMost(k)) == Matching(es, Less(k)) + Matching(es, Is(k))
  {
    var a, b := SplitAt(es, k);
    TwoParts(a, b, Any, Less(k), AtLeast(k));
    TwoParts(a, b, AtMost(k), Less(k), Is(k));
    a, b := SplitAt(es, k + 1);
    TwoParts(a, b, Any, AtMost(k), Greater(k));
  }

  lemma SplitAt(es: seq<Entry>, k: int) returns (a: seq<Entry>, b: seq<Entry>)
    requires forall i, j :: 0 <= i < j < |es| ==> es[i].key <= es[j].key
    ensures es == a + b
    ensures forall e :: e in a ==> e.key < k
    ensures forall e :: e in b ==> e.key >= k
  {
    var m := SplitPoint(es, k);
    a, b := es[..m], es[m..];
  }

  // ----- the searches against each other -----

  lemma {:induction false} AnyLength(es: seq<Entry>)
    ensures |Matching(es, Any)| == |es|
  {
    if es != [] {
      AnyLength(es[..|es| - 1]);
    }
  }

  function BetweenAndNot(es: seq<Entry>, lower: int, upper: int): seq<Position> {
    Matching(es, Within(lower, upper)) + (Matching(es, Less(lower)) + Matching(es, Greater(upper)))
  }

  lemma BetweenSnoc(es: seq<Entry>, e: Entry, lower: int, upper: int)
    ensures multiset(BetweenAndNot(es + [e], lower, upper)) ==
              multiset(BetweenAndNot(es, lower, upper)) + multiset{e.pos}
              + if upper < e.key < lower then multiset{e.pos} else multiset{}
    ensures |BetweenAndNot(es + [e], lower, upper)| ==
              |BetweenAndNot(es, lower, upper)| + if upper < e.key < lower then 2 else 1
  {
    assert (es + [e])[..|es|] == es;
    var w, l, g := Matching(es, Within(lower, upper)), Matching(es, Less(lower)), Matching(es, Greater(upper));
    assert multiset(w + (l + g)) == multiset(w) + (multiset(l) + multiset(g));
  }

  predicate NoneBetween(es: seq<Entry>, lower: int, upper: int) {
    forall e :: e in es ==> !(upper < e.key < lower)
  }

  lemma {:induction false} BetweenWhole(es: seq<Entry>, lower: int, upper: int)
    ensures |BetweenAndNot(es, lower, upper)| >= |es|
    ensures !NoneBetween(es, lower, upper) ==> |BetweenAndNot(es, lower, upper)| > |es|
    ensures NoneBetween(es, lower, upper) ==>
              multiset(BetweenAndNot(es, lower, upper)) == multiset(Matching(es, Any))
    decreases |es|
  {
    if es != [] {
      var e, es' := es[|es| - 1], es[..|es| - 1];
      assert es == es' + [e];
      BetweenWhole(es', lower, upper);
      BetweenSnoc(es', e, lower, upper);
      NoneBetweenSnoc(es', e, lower, upper);
      assert multiset(Matching(es, Any)) == multiset(Matching(es', Any)) + multiset{e.pos};
    }
  }

  lemma NoneBetweenSnoc(es: seq<Entry>, e: Entry, lower: int, upper: int)
    ensures NoneBetween(es + [e], lower, upper) <==> NoneBetween(es, lower, upper) && !(upper < e.key < lower)
  {
    assert e in es + [e];
    assert forall x :: x in es ==> x in es + [e];
  }

  /** BETWEEN and NOT BETWEEN together return every entry once, exactly when no key lies strictly between swapped bounds. */
  lemma BetweenPartition(es: seq<Entry>, lower: int, upper: int)
    ensures multiset(BetweenAndNot(es, lower, upper)) == multiset(Matching(es, Any))
              <==> lower <= upper || forall e :: e in es ==> !(upper < e.key < lower)
  {
    BetweenWhole(es, lower, upper);
    AnyLength(es);
    assert |multiset(BetweenAndNot(es, lower, upper))| == |BetweenAndNot(es, lower, upper)|;
    assert |multiset(Matching(es, Any))| == |Matching(es, Any)|;
  }

  function Listed(ks: seq<int>, k: int): nat {
    if ks == [] then 0 else Listed(ks[..|ks| - 1], k) + if ks[|ks| - 1] == k then 1 else 0
  }

  lemma {:induction false} ListedIn(ks: seq<int>, k: int)
    ensures Listed(ks, k) > 0 <==> k in ks
    decreases |ks|
  {
    if ks != [] {
      assert ks == ks[..|ks| - 1] + [ks[|ks| - 1]];
      ListedIn(ks[..|ks| - 1], k);
    }
  }

  /** One more entry is returned by IN as often as its key is listed. */
  lemma {:induction false} EachSnoc(es: seq<Entry>, e: Entry, ks: seq<int>)
    ensures multiset(MatchingEach(es + [e], ks)) == multiset(MatchingEach(es, ks))[e.pos := multiset(MatchingEach(es, ks))[e.pos] + Listed(ks, e.key)]
    ensures |MatchingEach(es + [e], ks)| == |MatchingEach(es, ks)| + Listed(ks, e.key)
    decreases |ks|
  {
    if ks != [] {
      EachSnoc(es, e, ks[..|ks| - 1]);
      assert (es + [e])[..|es|] == es;
    }
  }

  predicate ListedOnce(es: seq<Entry>, ks: seq<int>) {
    forall e :: e in es ==> Listed(ks, e.key) <= 1
  }

  lemma EachStep(es: seq<Entry>, e: Entry, ks: seq<int>)
    ensures var both, both' := MatchingEach(es, ks) + Matching(es, NoneOf(ks)), MatchingEach(es + [e], ks) + Matching(es + [e], NoneOf(ks));
      && |both'| == |both| + (if Listed(ks, e.key) == 0 then 1 else Listed(ks, e.key))
      && (Listed(ks, e.key) <= 1 ==> multiset(both') == multiset(both) + multiset{e.pos})
  {
    EachSnoc(es, e, ks);
    ListedIn(ks, e.key);
    assert (es + [e])[..|es|] == es;
    var a, b, b' := MatchingEach(es, ks), Matching(es, NoneOf(ks)), Matching(es + [e], NoneOf(ks));
    assert multiset(a + b) == multiset(a) + multiset(b);
    assert multiset(MatchingEach(es + [e], ks) + b') == multiset(MatchingEach(es + [e], ks)) + multiset(b');
  }

  lemma {:induction false} EachWhole(es: seq<Entry>, ks: seq<int>)
    ensures |MatchingEach(es, ks) + Matching(es, NoneOf(ks))| >= |es|
    ensures !ListedOnce(es, ks) ==> |MatchingEach(es, ks) + Matching(es, NoneOf(ks))| > |es|
    ensures ListedOnce(es, ks) ==>
              multiset(MatchingEach(es, ks) + Matching(es, NoneOf(ks))) == multiset(Matching(es, Any))
    decreases |es|
  {
    if es == [] {
      EachOfNothing(ks);
    } else {
      var e, es' := es[|es| - 1], es[..|es| - 1];
      assert es == es' + [e];
      EachWhole(es', ks);
      EachStep(es', e, ks);
      assert Matching(es, Any) == Matching(es', Any) + [e.pos];
    }
  }

  lemma {:induction false} EachOfNothing(ks: seq<int>)
    ensures MatchingEach([], ks) == []
    decreases |ks|
  {
    if ks != [] {
      EachOfNothing(ks[..|ks| - 1]);
    }
  }

  /** IN and NOT IN together return every entry once, exactly when no key in the index is listed twice. */
  lemma InPartition(es: seq<Entry>, ks: seq<int>)
    ensures multiset(MatchingEach(es, ks) + Matching(es, NoneOf(ks))) == multiset(Matching(es, Any))
              <==> forall e :: e in es ==> Listed(ks, e.key) <= 1
  {
    EachWhole(es, ks);
    AnyLength(es);
    var both := MatchingEach(es, ks) + Matching(es, NoneOf(ks));
    assert |multiset(both)| == |both| && |multiset(Matching(es, Any))| == |Matching(es, Any)|;
  }
}
