/**
 * LIKE over an index of strings: the pattern becomes a regular expression, and
 * an ordered index is scanned only between the keys that share the expression's
 * literal beginning.
 */
module PrefixScan {
  import opened Bytes

  type Str = seq<Byte>

  datatype Entry = Entry(key: Str, pos: int)

  const SPACE: Byte := 32
  const NEWLINE: Byte := 10
  const UNDERSCORE: Byte := 95
  const PERCENT: Byte := 37
  const DOT: Byte := 46
  const STAR: Byte := 42
  const CARET: Byte := 94

  // ----- byte-wise lexicographic order -----

  predicate Less(a: Str, b: Str) {
    b != [] && (a == [] || a[0] < b[0] || (a[0] == b[0] && Less(a[1..], b[1..])))
  }

  lemma {:induction false} LessTotal(a: Str, b: Str)
    ensures Less(a, b) || Less(b, a) || a == b
    ensures !(Less(a, b) && Less(b, a)) && !Less(a, a)
  {
    if a != [] && b != [] && a[0] == b[0] {
      LessTotal(a[1..], b[1..]);
      assert a == [a[0]] + a[1..] && b == [b[0]] + b[1..];
    }
    if a != [] {
      LessIrreflexive(a);
    }
  }

  lemma {:induction false} LessIrreflexive(a: Str)
    ensures !Less(a, a)
  {
    if a != [] {
      LessIrreflexive(a[1..]);
    }
  }

  lemma {:induction false} LessTransitive(a: Str, b: Str, c: Str)
    requires Less(a, b) && Less(b, c)
    ensures Less(a, c)
  {
    if a != [] && a[0] == b[0] == c[0] {
      LessTransitive(a[1..], b[1..], c[1..]);
    }
  }

  /** What getIterators makes the exclusive end: the last byte goes up by one, wrapping round. */
  function Next(b: Str): Str
    requires b != []
  {
    var last: int := b[|b| - 1];
    b[..|b| - 1] + [(last + 1) % 256]
  }

  /** Short of the last byte value, the strings from `b` up to its successor are those that begin with `b`. */
  lemma {:induction false} PrefixInterval(b: Str, k: Str)
    requires b != [] && b[|b| - 1] < 255
    ensures !Less(k, b) && Less(k, Next(b)) <==> b <= k
  {
    if |b| == 1 {
      if k != [] && k[0] == b[0] {
        assert !Less(k[1..], []);
      }
    } else {
      assert Next(b)[0] == b[0] && Next(b)[1..] == Next(b[1..]);
      if k != [] && k[0] == b[0] {
        PrefixInterval(b[1..], k[1..]);
        assert b <= k <==> b[1..] <= k[1..] by {
          assert b == [b[0]] + b[1..] && k == [k[0]] + k[1..];
        }
      }
    }
  }

  /** At the last byte value the end comes before the beginning. */
  lemma {:induction false} EndBeforeBegin(b: Str)
    requires b != [] && b[|b| - 1] == 255
    ensures Less(Next(b), b)
  {
    if |b| > 1 {
      assert Next(b)[0] == b[0] && Next(b)[1..] == Next(b[1..]);
      EndBeforeBegin(b[1..]);
    }
  }

  // ----- the expressions LIKE produces -----

  datatype Tok = Lit(b: Byte) | One | Many

  /** The bytes that end the literal beginning: [ \ ^ $ . | ? * + ( ) */
  predicate Meta(b: Byte) {
    b in {91, 92, 94, 36, 46, 124, 63, 42, 43, 40, 41}
  }

  function LikeByte(b: Byte): seq<Byte> {
    if b == UNDERSCORE then [DOT] else if b == PERCENT then [DOT, STAR] else [b]
  }

  function LikeText(p: Str): Str {
    if p == [] then [] else LikeByte(p[0]) + LikeText(p[1..])
  }

  /** What a LIKE pattern means. */
  function LikeToks(p: Str): seq<Tok> {
    if p == [] then []
    else [if p[0] == UNDERSCORE then One else if p[0] == PERCENT then Many else Lit(p[0])] + LikeToks(p[1..])
  }

  /** What an expression of literals, `.` and `.*` means. */
  function Toks(text: Str): seq<Tok> {
    if text == [] then []
    else if text[0] == DOT && |text| > 1 && text[1] == STAR then [Many] + Toks(text[2..])
    else [if text[0] == DOT then One else Lit(text[0])] + Toks(text[1..])
  }

  /** A byte that an expression reads as nothing but itself; an opening brace may start a repetition. */
  predicate Literal(b: Byte) {
    !Meta(b) && b != 123
  }

  /** Nothing but literals, `.` and `.*`. */
  predicate Simple(text: Str) {
    text == [] ||
    if text[0] == DOT then Simple(if |text| > 1 && text[1] == STAR then text[2..] else text[1..])
    else Literal(text[0]) && Simple(text[1..])
  }

  /** A full match; `newlines` says whether the wildcards take a newline. */
  predicate Match(ts: seq<Tok>, k: Str, newlines: bool)
    decreases |ts| + |k|
  {
    if ts == [] then k == []
    else
      match ts[0]
      case Lit(b) => k != [] && k[0] == b && Match(ts[1..], k[1..], newlines)
      case One => k != [] && (newlines || k[0] != NEWLINE) && Match(ts[1..], k[1..], newlines)
      case Many => Match(ts[1..], k, newlines)
                   || (k != [] && (newlines || k[0] != NEWLINE) && Match(ts, k[1..], newlines))
  }

  // ----- a match, piece by piece -----

  function Joined(pieces: seq<Str>): Str {
    if pieces == [] then [] else pieces[0] + Joined(pieces[1..])
  }

  /** The piece of the key that one token stands for. */
  predicate Takes(t: Tok, piece: Str, newlines: bool) {
    match t
    case Lit(b) => piece == [b]
    case One => |piece| == 1 && (newlines || piece[0] != NEWLINE)
    case Many => newlines || NEWLINE !in piece
  }

  ghost predicate Splits(ts: seq<Tok>, pieces: seq<Str>, k: Str, newlines: bool) {
    |pieces| == |ts| && Joined(pieces) == k && forall i :: 0 <= i < |ts| ==> Takes(ts[i], pieces[i], newlines)
  }

  lemma {:induction false} MatchSplits(ts: seq<Tok>, k: Str, newlines: bool) returns (pieces: seq<Str>)
    requires Match(ts, k, newlines)
    ensures Splits(ts, pieces, k, newlines)
    decreases |ts| + |k|
  {
    if ts == [] {
      pieces := [];
    } else if ts[0].Many? && !Match(ts[1..], k, newlines) {
      var more := MatchSplits(ts, k[1..], newlines);
      pieces := [[k[0]] + more[0]] + more[1..];
      assert k == [k[0]] + k[1..] && pieces[1..] == more[1..];
      assert ([k[0]] + more[0]) + Joined(more[1..]) == [k[0]] + (more[0] + Joined(more[1..]));
    } else {
      var n := if ts[0].Many? then 0 else 1;
      var more := MatchSplits(ts[1..], k[n..], newlines);
      pieces := [k[..n]] + more;
      assert k == k[..n] + k[n..] && pieces[1..] == more;
    }
  }

  lemma {:induction false} SplitsMatch(ts: seq<Tok>, pieces: seq<Str>, k: Str, newlines: bool)
    requires Splits(ts, pieces, k, newlines)
    ensures Match(ts, k, newlines)
    decreases |ts| + |k|
  {
    if ts != [] {
      var piece, more := pieces[0], pieces[1..];
      if ts[0].Many? && piece != [] {
        var shorter := [piece[1..]] + more;
        assert shorter[1..] == more && k[1..] == piece[1..] + Joined(more);
        SplitsMatch(ts, shorter, k[1..], newlines);
      } else {
        assert k[|piece|..] == Joined(more);
        SplitsMatch(ts[1..], more, Joined(more), newlines);
      }
    }
  }

  /** A key matches exactly when it can be cut into pieces, one for each token. */
  lemma MatchIff(ts: seq<Tok>, k: Str, newlines: bool)
    ensures Match(ts, k, newlines) <==> exists pieces :: Splits(ts, pieces, k, newlines)
  {
    if Match(ts, k, newlines) {
      var pieces := MatchSplits(ts, k, newlines);
    }
    if pieces :| Splits(ts, pieces, k, newlines) {
      SplitsMatch(ts, pieces, k, newlines);
    }
  }

  /** A percent sign stands for any piece, an underscore for any one byte, every other byte for itself. */
  ghost predicate LikeSplits(p: Str, pieces: seq<Str>, k: Str) {
    && |pieces| == |p| && Joined(pieces) == k
    && forall i :: 0 <= i < |p| ==>
         p[i] == 37 || (if p[i] == 95 then |pieces[i]| == 1 else pieces[i] == [p[i]])
  }

  lemma {:induction false} LikeToksAt(p: Str)
    ensures |LikeToks(p)| == |p|
    ensures forall i :: 0 <= i < |p| ==> LikeToks(p)[i] == if p[i] == UNDERSCORE then One else if p[i] == PERCENT then Many else Lit(p[i])
  {
    if p != [] {
      LikeToksAt(p[1..]);
      forall i | 0 < i < |p| ensures LikeToks(p)[i] == LikeToks(p[1..])[i - 1] && p[i] == p[1..][i - 1] {}
    }
  }

  /** What LIKE means of a key. */
  lemma LikeMeans(p: Str, k: Str)
    ensures Match(LikeToks(p), k, true) <==> exists pieces :: LikeSplits(p, pieces, k)
  {
    LikeToksAt(p);
    MatchIff(LikeToks(p), k, true);
    if pieces :| Splits(LikeToks(p), pieces, k, true) {
      forall i | 0 <= i < |p| ensures p[i] == 37 || (if p[i] == 95 then |pieces[i]| == 1 else pieces[i] == [p[i]]) {
        assert Takes(LikeToks(p)[i], pieces[i], true);
      }
      assert LikeSplits(p, pieces, k);
    }
    if pieces :| LikeSplits(p, pieces, k) {
      assert Splits(LikeToks(p), pieces, k, true);
    }
  }

  predicate Plain(p: Str) {
    forall b :: b in p ==> Literal(b)
  }

  /** The expression made from a pattern without special bytes means what the pattern means. */
  lemma {:induction false} LikeTextMeans(p: Str)
    requires Plain(p)
    ensures Toks(LikeText(p)) == LikeToks(p)
  {
    if p != [] {
      assert p[0] in p;
      LikeTextMeans(p[1..]);
      var rest := LikeText(p[1..]);
      if p[0] == UNDERSCORE {
        NoStarFirst(p[1..]);
        assert ([DOT] + rest)[1..] == rest;
      } else if p[0] == PERCENT {
        assert ([DOT, STAR] + rest)[2..] == rest;
      } else {
        assert ([p[0]] + rest)[1..] == rest;
      }
    }
  }

  lemma NoStarFirst(p: Str)
    requires Plain(p)
    ensures LikeText(p) != [] ==> LikeText(p)[0] != STAR
  {
    assert p != [] ==> p[0] in p && !Meta(p[0]);
  }

  /** Without newlines in the key the two kinds of wildcard agree. */
  lemma {:induction false} NewlinesAside(ts: seq<Tok>, k: Str)
    requires NEWLINE !in k
    ensures Match(ts, k, true) == Match(ts, k, false)
    decreases |ts| + |k|
  {
    if ts != [] {
      if k != [] {
        NewlinesAside(ts[1..], k[1..]);
        NewlinesAside(ts, k[1..]);
      }
      NewlinesAside(ts[1..], k);
    }
  }

  // ----- the literal beginning -----

  function Beginning(text: Str): (b: Str)
    ensures |b| <= |text|
  {
    if text == [] || Meta(text[0]) then [] else [text[0]] + Beginning(text[1..])
  }

  /** Every full match starts with the literal beginning, if what follows it is a wildcard or nothing. */
  lemma {:induction false} MatchHasBeginning(text: Str, k: Str, newlines: bool)
    requires var n := |Beginning(text)|; n == |text| || text[n] == DOT
    requires Match(Toks(text), k, newlines)
    ensures Beginning(text) <= k
  {
    if text != [] && !Meta(text[0]) {
      assert Toks(text) == [Lit(text[0])] + Toks(text[1..]);
      assert Toks(text)[1..] == Toks(text[1..]);
      BeginningLength(text);
      MatchHasBeginning(text[1..], k[1..], newlines);
      assert k == [k[0]] + k[1..];
    }
  }

  lemma {:induction false} BeginningLength(text: Str)
    ensures Beginning(text) <= text
    ensures |Beginning(text)| < |text| ==> Meta(text[|Beginning(text)|])
    ensures text != [] && !Meta(text[0]) ==> Beginning(text)[1..] == Beginning(text[1..])
  {
    if text != [] && !Meta(text[0]) {
      BeginningLength(text[1..]);
      assert text == [text[0]] + text[1..];
    }
  }

  /** It is as long as can be without one of the bytes [ \\ ^ $ . | ? * + ( and ). */
  lemma BeginningIs(text: Str)
    ensures Beginning(text) <= text
    ensures forall i :: 0 <= i < |Beginning(text)| ==> text[i] !in {91, 92, 94, 36, 46, 124, 63, 42, 43, 40, 41}
    ensures |Beginning(text)| < |text| ==> text[|Beginning(text)|] in {91, 92, 94, 36, 46, 124, 63, 42, 43, 40, 41}
  {
    BeginningLength(text);
    NoMetaInside(text);
  }

  lemma {:induction false} NoMetaInside(text: Str)
    ensures forall i :: 0 <= i < |Beginning(text)| ==> !Meta(Beginning(text)[i])
  {
    if text != [] && !Meta(text[0]) {
      NoMetaInside(text[1..]);
    }
  }

  // ----- the index -----

  function Passing(es: seq<Entry>, ts: seq<Tok>): seq<int> {
    if es == [] then []
    else
      var e := es[|es| - 1];
      Passing(es[..|es| - 1], ts) + if Match(ts, e.key, false) then [e.pos] else []
  }

  /** The first entry that is not below `k`. */
  function Lower(es: seq<Entry>, k: Str): (i: nat)
    ensures i <= |es|
  {
    if es == [] || !Less(es[0].key, k) then 0 else 1 + Lower(es[1..], k)
  }

  ghost predicate Sorted(es: seq<Entry>) {
    forall i, j :: 0 <= i < j < |es| ==> !Less(es[j].key, es[i].key)
  }

  lemma {:induction false} LowerSplits(es: seq<Entry>, k: Str)
    requires Sorted(es)
    ensures forall i :: 0 <= i < Lower(es, k) ==> Less(es[i].key, k)
    ensures forall i :: Lower(es, k) <= i < |es| ==> !Less(es[i].key, k)
  {
    if es == [] {
    } else if Less(es[0].key, k) {
      LowerSplits(es[1..], k);
      forall i | 0 <= i < |es| ensures i < Lower(es, k) <==> Less(es[i].key, k) {
        assert i > 0 ==> es[i] == es[1..][i - 1];
      }
    } else {
      forall i | 0 <= i < |es| ensures !Less(es[i].key, k) {
        if Less(es[i].key, k) {
          LessTotal(es[0].key, k);
          if es[0].key != k {
            LessTransitive(es[i].key, k, es[0].key);
          }
        }
      }
    }
  }

  lemma {:induction false} PassingAppend(a: seq<Entry>, b: seq<Entry>, ts: seq<Tok>)
    ensures Passing(a + b, ts) == Passing(a, ts) + Passing(b, ts)
    decreases |b|
  {
    if b == [] {
      assert a + b == a;
    } else {
      assert (a + b)[..|a + b| - 1] == a + b[..|b| - 1];
      PassingAppend(a, b[..|b| - 1], ts);
    }
  }

  lemma {:induction false} NonePass(es: seq<Entry>, ts: seq<Tok>)
    requires forall e :: e in es ==> !Match(ts, e.key, false)
    ensures Passing(es, ts) == []
    decreases |es|
  {
    if es != [] {
      NonePass(es[..|es| - 1], ts);
    }
  }

  lemma PassingNext(es: seq<Entry>, lo: nat, i: nat, ts: seq<Tok>)
    requires lo <= i < |es|
    ensures Passing(es[lo..i + 1], ts) == Passing(es[lo..i], ts) + if Match(ts, es[i].key, false) then [es[i].pos] else []
  {
    assert es[lo..i + 1][..i - lo] == es[lo..i];
  }

  lemma PassingSlice(es: seq<Entry>, lo: nat, hi: nat, ts: seq<Tok>)
    requires lo <= hi <= |es|
    requires forall i :: 0 <= i < |es| && !(lo <= i < hi) ==> !Match(ts, es[i].key, false)
    ensures Passing(es, ts) == Passing(es[lo..hi], ts)
  {
    assert es == es[..lo] + es[lo..hi] + es[hi..];
    PassingAppend(es[..lo], es[lo..hi], ts);
    PassingAppend(es[..lo] + es[lo..hi], es[hi..], ts);
    NonePass(es[..lo], ts);
    NonePass(es[hi..], ts);
  }

  /** The interval that getIterators picks, as indices. */
  function Begin(es: seq<Entry>, text: Str): nat {
    if Beginning(text) == [] then 0 else Lower(es, Beginning(text))
  }

  function End(es: seq<Entry>, text: Str): nat {
    if Beginning(text) == [] then |es| else Lower(es, Next(Beginning(text)))
  }

  /** The interval holds every key that has the literal beginning, unless that ends in the last byte value and some key has it. */
  lemma NarrowingLosesNothingIff(es: seq<Entry>, text: Str)
    requires Sorted(es) && Beginning(text) != []
    ensures var b := Beginning(text);
      (forall i :: 0 <= i < |es| && b <= es[i].key ==> Begin(es, text) <= i < End(es, text))
      <==> b[|b| - 1] < 255 || forall i :: 0 <= i < |es| ==> !(b <= es[i].key)
  {
    var b := Beginning(text);
    LowerSplits(es, b);
    LowerSplits(es, Next(b));
    if b[|b| - 1] < 255 {
      forall i | 0 <= i < |es| && b <= es[i].key ensures Begin(es, text) <= i < End(es, text) {
        PrefixInterval(b, es[i].key);
      }
    } else {
      EndBeforeBegin(b);
      var lo, hi := Begin(es, text), End(es, text);
      if lo < hi {
        LessTransitive(es[lo].key, Next(b), b);
      }
    }
  }

  /** The iterators are in order unless the last byte value ends the beginning and a key lies in between. */
  lemma IteratorsInOrderIff(es: seq<Entry>, text: Str)
    requires Sorted(es) && Beginning(text) != []
    ensures var b := Beginning(text);
      Begin(es, text) <= End(es, text)
      <==> b[|b| - 1] < 255 || forall i :: 0 <= i < |es| ==> Less(es[i].key, Next(b)) || !Less(es[i].key, b)
  {
    var b := Beginning(text);
    LowerSplits(es, b);
    LowerSplits(es, Next(b));
    var lo, hi := Begin(es, text), End(es, text);
    if b[|b| - 1] < 255 {
      if hi < lo {
        LessNext(b);
        LessTransitive(es[hi].key, b, Next(b));
      }
    } else if hi < lo {
      assert Less(es[hi].key, b) && !Less(es[hi].key, Next(b));
    }
  }

  lemma {:induction false} LessNext(b: Str)
    requires b != [] && b[|b| - 1] < 255
    ensures Less(b, Next(b))
  {
    if |b| > 1 {
      assert Next(b)[0] == b[0] && Next(b)[1..] == Next(b[1..]);
      LessNext(b[1..]);
    }
  }

  class StringIndex {
    /** Whether the container is an ordered map; otherwise it is a hash map. */
    const ordered: bool
    var entries: seq<Entry>

    ghost predicate Valid()
      reads this
    {
      ordered ==> Sorted(entries)
    }

    constructor (ordered: bool)
      ensures Valid() && this.ordered == ordered && entries == []
    {
      this.ordered := ordered;
      entries := [];
    }

    /** find; of several equal keys the first. */
    method Find(k: Str) returns (it: nat)
      ensures it <= |entries| && (it < |entries| ==> entries[it].key == k)
      ensures forall i :: 0 <= i < it ==> entries[i].key != k
    {
      it := 0;
      while it < |entries| && entries[it].key != k
        invariant it <= |entries|
        invariant forall i :: 0 <= i < it ==> entries[i].key != k
      {
        it := it + 1;
      }
    }

    method UpperBound(k: Str) returns (it: nat)
      requires Valid() && ordered
      ensures it <= |entries|
      ensures forall i :: 0 <= i < it ==> !Less(k, entries[i].key)
      ensures it < |entries| ==> Less(k, entries[it].key)
    {
      it := 0;
      while it < |entries| && !Less(k, entries[it].key)
        invariant it <= |entries|
        invariant forall i :: 0 <= i < it ==> !Less(k, entries[i].key)
      {
        it := it + 1;
      }
    }

    /**
     * An expression that is empty, or only a caret, leaves the iterators unset.
     * A caret in front is dropped.
     */
    method GetIterators(regexStr: Str) returns (itBegin: nat, itEnd: nat)
      requires Valid() && ordered && Anchorless(regexStr) != []
      ensures itBegin == Begin(entries, Anchorless(regexStr)) && itEnd == End(entries, Anchorless(regexStr))
    {
      var tmpStr := regexStr;
      if tmpStr[0] == CARET {
        tmpStr := tmpStr[1..];
      }
      var n := 0;
      while n < |tmpStr| && !Meta(tmpStr[n])
        invariant n <= |tmpStr|
        invariant Beginning(tmpStr) == tmpStr[..n] + Beginning(tmpStr[n..])
      {
        BeginningNext(tmpStr, n);
        n := n + 1;
      }
      if n == 0 {
        return 0, |entries|;
      }
      var beginStr := tmpStr[..n];
      assert Beginning(tmpStr[n..]) == [] && Beginning(tmpStr) == beginStr;
      var endStr := Next(beginStr);
      itBegin := Find(beginStr);
      if itBegin == |entries| {
        itBegin := UpperBound(beginStr);
      }
      FoundIsLower(entries, beginStr, itBegin);
      itEnd := Lower(entries, endStr);
    }

    /** What regex returns, from iterators that are in order; only literals, `.` and `.*` have a meaning here. */
    method Regex(regexStr: Str, returnEntries: seq<int>) returns (r: seq<int>)
      requires Valid() && Anchorless(regexStr) != [] && Simple(Anchorless(regexStr))
      requires ordered ==> Begin(entries, Anchorless(regexStr)) <= End(entries, Anchorless(regexStr))
      ensures r == returnEntries + Passing(
                if ordered then entries[Begin(entries, Anchorless(regexStr))..End(entries, Anchorless(regexStr))]
                else entries, Toks(Anchorless(regexStr)))
    {
      var re := Toks(Anchorless(regexStr));
      if ordered {
        var itBegin, itEnd := GetIterators(regexStr);
        r := Scan(itBegin, itEnd, re, returnEntries);
      } else {
        r := Scan(0, |entries|, re, returnEntries);
        assert entries[0..|entries|] == entries;
      }
    }

    method Scan(itBegin: nat, itEnd: nat, re: seq<Tok>, returnEntries: seq<int>) returns (r: seq<int>)
      requires itBegin <= itEnd <= |entries|
      ensures r == returnEntries + Passing(entries[itBegin..itEnd], re)
    {
      r := returnEntries;
      var it := itBegin;
      while it != itEnd
        invariant itBegin <= it <= itEnd
        invariant r == returnEntries + Passing(entries[itBegin..it], re)
        decreases itEnd - it
      {
        PassingNext(entries, itBegin, it, re);
        if Match(re, entries[it].key, false) {
          r := r + [entries[it].pos];
        }
        it := it + 1;
      }
    }

    /** LIKE: trailing spaces go, the wildcards are rewritten, and the expression is searched for. */
    method Like(likeStr: Str, returnEntries: seq<int>) returns (r: seq<int>)
      requires Valid() && Trimmed(likeStr) != [] && Plain(likeStr)
      requires forall e :: e in entries ==> NEWLINE !in e.key
      requires ordered ==> Narrowable(Beginning(LikeText(Trimmed(likeStr))))
      ensures r == returnEntries + Liked(entries, LikeToks(Trimmed(likeStr)))
    {
      var pattern := Trim(likeStr);
      TrimmedIsPlain(likeStr);
      var text := Like2Regex(pattern);
      TextStart(pattern);
      LikeTextIsSimple(pattern);
      if ordered {
        LikeInOrder(entries, pattern);
        LikeScan(entries, pattern);
      } else {
        PassingIsLiked(entries, pattern);
      }
      r := Regex(text, returnEntries);
    }
  }

  /** The last byte can be counted up, so the interval's end comes after its beginning. */
  predicate Narrowable(b: Str) {
    b == [] || b[|b| - 1] < 255
  }

  /** The entries a LIKE pattern means, of all there are. */
  function Liked(es: seq<Entry>, ts: seq<Tok>): seq<int> {
    if es == [] then []
    else
      var e := es[|es| - 1];
      Liked(es[..|es| - 1], ts) + if Match(ts, e.key, true) then [e.pos] else []
  }

  lemma {:induction false} TrimmedIsPlain(s: Str)
    requires Plain(s)
    ensures Plain(Trimmed(s))
  {
    if s != [] && s[|s| - 1] == SPACE {
      TrimmedIsPlain(s[..|s| - 1]);
    }
  }

  lemma {:induction false} LikeTextIsSimple(p: Str)
    requires Plain(p)
    ensures Simple(LikeText(p))
  {
    if p != [] {
      assert p[0] in p;
      LikeTextIsSimple(p[1..]);
      NoStarFirst(p[1..]);
      assert LikeText(p) == LikeByte(p[0]) + LikeText(p[1..]);
      if p[0] == PERCENT {
        assert LikeText(p)[2..] == LikeText(p[1..]);
      } else {
        assert LikeText(p)[1..] == LikeText(p[1..]);
      }
    }
  }

  lemma TextStart(p: Str)
    requires Plain(p) && p != []
    ensures Anchorless(LikeText(p)) == LikeText(p) != []
  {
    assert p[0] in p && !Meta(p[0]);
  }

  lemma LikeInOrder(es: seq<Entry>, p: Str)
    requires Sorted(es) && Narrowable(Beginning(LikeText(p)))
    ensures Begin(es, LikeText(p)) <= End(es, LikeText(p))
  {
    if Beginning(LikeText(p)) != [] {
      IteratorsInOrderIff(es, LikeText(p));
    }
  }

  lemma {:induction false} AfterBeginning(p: Str)
    requires Plain(p)
    ensures var n := |Beginning(LikeText(p))|; n == |LikeText(p)| || LikeText(p)[n] == DOT
  {
    if p != [] {
      assert p[0] in p;
      var rest := LikeText(p[1..]);
      if p[0] != UNDERSCORE && p[0] != PERCENT {
        AfterBeginning(p[1..]);
        assert ([p[0]] + rest)[1..] == rest;
      }
    }
  }

  lemma {:induction false} PassingIsLiked(es: seq<Entry>, p: Str)
    requires Plain(p) && forall e :: e in es ==> NEWLINE !in e.key
    ensures Passing(es, Toks(LikeText(p))) == Liked(es, LikeToks(p))
    decreases |es|
  {
    if es != [] {
      var e := es[|es| - 1];
      PassingIsLiked(es[..|es| - 1], p);
      LikeTextMeans(p);
      assert e in es;
      NewlinesAside(LikeToks(p), e.key);
    }
  }

  /** Scanning the interval finds what the pattern means among all entries. */
  lemma LikeScan(es: seq<Entry>, p: Str)
    requires Sorted(es) && Plain(p) && Narrowable(Beginning(LikeText(p)))
    requires forall e :: e in es ==> NEWLINE !in e.key
    requires Begin(es, LikeText(p)) <= End(es, LikeText(p))
    ensures Passing(es[Begin(es, LikeText(p))..End(es, LikeText(p))], Toks(LikeText(p))) == Liked(es, LikeToks(p))
  {
    var text := LikeText(p);
    var lo, hi := Begin(es, text), End(es, text);
    forall i | 0 <= i < |es| && !(lo <= i < hi) ensures !Match(Toks(text), es[i].key, false) {
      if Match(Toks(text), es[i].key, false) {
        AfterBeginning(p);
        MatchHasBeginning(text, es[i].key, false);
        NarrowingLosesNothingIff(es, text);
      }
    }
    PassingSlice(es, lo, hi, Toks(text));
    PassingIsLiked(es, p);
  }

  lemma {:induction false} LikeTextAppend(a: Str, b: Str)
    ensures LikeText(a + b) == LikeText(a) + LikeText(b)
  {
    if a == [] {
      assert a + b == b;
    } else {
      assert (a + b)[1..] == a[1..] + b;
      LikeTextAppend(a[1..], b);
    }
  }

  lemma {:induction false} LikeTextDone(p: Str)
    requires UNDERSCORE !in p && PERCENT !in p
    ensures LikeText(p) == p
  {
    if p != [] {
      LikeTextDone(p[1..]);
    }
  }

  function Wildcards(p: Str, w: Byte): nat {
    if p == [] then 0 else (if p[0] == w then 1 else 0) + Wildcards(p[1..], w)
  }

  lemma {:induction false} WildcardsAppend(a: Str, b: Str, w: Byte)
    ensures Wildcards(a + b, w) == Wildcards(a, w) + Wildcards(b, w)
  {
    if a == [] {
      assert a + b == b;
    } else {
      assert (a + b)[1..] == a[1..] + b;
      WildcardsAppend(a[1..], b, w);
    }
  }

  method FindByte(s: Str, w: Byte) returns (pos: nat)
    ensures if w in s then pos < |s| && s[pos] == w else pos == |s|
  {
    pos := 0;
    while pos < |s| && s[pos] != w
      invariant pos <= |s| && w !in s[..pos]
    {
      pos := pos + 1;
    }
    assert s == s[..pos] + s[pos..];
  }

  /** One wildcard is rewritten to a text that stands for the same. */
  lemma Rewrite(p: Str, pos: nat, sub: Str, w: Byte)
    requires pos < |p| && p[pos] == w && LikeText(sub) == LikeByte(w) && Wildcards(sub, w) == 0
    ensures LikeText(p[..pos] + sub + p[pos + 1..]) == LikeText(p)
    ensures Wildcards(p[..pos] + sub + p[pos + 1..], w) < Wildcards(p, w)
  {
    assert p == p[..pos] + [w] + p[pos + 1..];
    assert [w][1..] == [];
    LikeTextAppend(p[..pos], [w]);
    LikeTextAppend(p[..pos] + [w], p[pos + 1..]);
    LikeTextAppend(p[..pos], sub);
    LikeTextAppend(p[..pos] + sub, p[pos + 1..]);
    WildcardsAppend(p[..pos], [w], w);
    WildcardsAppend(p[..pos] + [w], p[pos + 1..], w);
    WildcardsAppend(p[..pos], sub, w);
    WildcardsAppend(p[..pos] + sub, p[pos + 1..], w);
  }

  lemma DotStarText()
    ensures LikeText([DOT, STAR]) == LikeByte(PERCENT) && Wildcards([DOT, STAR], PERCENT) == 0
  {
    assert [DOT, STAR][1..] == [STAR] && [STAR][1..] == [];
    assert LikeText([STAR]) == [STAR] && Wildcards([STAR], PERCENT) == 0;
  }

  /** like2Regex: a wildcard is searched for again and again until none is left; first the underscores, then the percents. */
  method Like2Regex(likeStr: Str) returns (r: Str)
    ensures r == LikeText(likeStr)
  {
    assert [DOT][1..] == [];
    r := RewriteAll(likeStr, UNDERSCORE, [DOT]);
    DotStarText();
    r := RewriteAll(r, PERCENT, [DOT, STAR]);
    LikeTextDone(r);
  }

  method RewriteAll(s: Str, w: Byte, sub: Str) returns (r: Str)
    requires LikeText(sub) == LikeByte(w) && Wildcards(sub, w) == 0 && UNDERSCORE !in sub
    ensures LikeText(r) == LikeText(s) && w !in r
    ensures UNDERSCORE !in s ==> UNDERSCORE !in r
  {
    r := s;
    var pos: nat := FindByte(r, w);
    while pos != |r|
      invariant LikeText(r) == LikeText(s)
      invariant if w in r then pos < |r| && r[pos] == w else pos == |r|
      invariant UNDERSCORE !in s ==> UNDERSCORE !in r
      decreases Wildcards(r, w)
    {
      Rewrite(r, pos, sub, w);
      r := r[..pos] + sub + r[pos + 1..];
      pos := FindByte(r, w);
    }
  }

  function Anchorless(text: Str): Str {
    if text != [] && text[0] == CARET then text[1..] else text
  }

  lemma BeginningNext(text: Str, n: nat)
    requires n < |text| && !Meta(text[n])
    ensures text[..n] + Beginning(text[n..]) == text[..n + 1] + Beginning(text[n + 1..])
  {
    assert text[n..][1..] == text[n + 1..];
    assert text[..n + 1] == text[..n] + [text[n]];
  }

  lemma FoundIsLower(es: seq<Entry>, k: Str, it: nat)
    requires Sorted(es) && it <= |es|
    requires (it < |es| && es[it].key == k && forall i :: 0 <= i < it ==> es[i].key != k)
          || ((forall i :: 0 <= i < |es| ==> es[i].key != k) && (forall i :: 0 <= i < it ==> !Less(k, es[i].key))
              && (it < |es| ==> Less(k, es[it].key)))
    ensures it == Lower(es, k)
  {
    LowerSplits(es, k);
    forall i | 0 <= i < it ensures Less(es[i].key, k) {
      LessTotal(es[i].key, k);
    }
    if it < |es| {
      LessTotal(es[it].key, k);
    }
    assert Lower(es, k) < it ==> Less(KeyAt(es, Lower(es, k)), k);
    assert it < Lower(es, k) ==> Less(KeyAt(es, it), k);
  }

  function KeyAt(es: seq<Entry>, i: nat): Str {
    if i < |es| then es[i].key else []
  }

  /** trimspace: what is cut off is spaces, and no space is left at the end. */
  method Trim(input: Str) returns (r: Str)
    ensures r <= input && (forall i :: |r| <= i < |input| ==> input[i] == SPACE)
    ensures r == [] || r[|r| - 1] != SPACE
    ensures r == Trimmed(input)
  {
    r := input;
    while r != [] && r[|r| - 1] == SPACE
      invariant r <= input && (forall i :: |r| <= i < |input| ==> input[i] == SPACE)
      invariant Trimmed(r) == Trimmed(input)
    {
      r := r[..|r| - 1];
    }
  }

  function Trimmed(s: Str): Str {
    if s != [] && s[|s| - 1] == SPACE then Trimmed(s[..|s| - 1]) else s
  }
}
