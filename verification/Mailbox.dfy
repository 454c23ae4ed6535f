/** The lock-free multi-producer, single-consumer mailbox (Mbox.cc), one atomic load, add or CAS per step. */
module Mailbox {
  import opened Options
  import opened Sequences

  type Id = nat   // a message object; identities are never reused
  type Tid = nat  // a producer thread

  /** A 128-bit tagged pointer. */
  datatype Ref = Ref(ptr: Option<Id>, count: nat)

  const WRAP: nat := 0x1_0000_0000_0000_0000

  /** Where a producer stands in sendMsg, with its local `mytail` and `mynext`. */
  datatype Pc =
    | Idle
    | LoadTail(msg: Id)
    | LoadNext(msg: Id, tail: Ref)
    | Recheck(msg: Id, tail: Ref, next: Ref)
    | CountLink(msg: Id, tail: Ref, next: Ref)
    | CasLink(msg: Id, tail: Ref, next: Ref, count: nat)
    | CountHelp(msg: Id, tail: Ref, next: Ref)
    | CasHelp(msg: Id, tail: Ref, next: Ref, count: nat)
    | CountSwing(msg: Id, tail: Ref)
    | CasSwing(msg: Id, tail: Ref, count: nat)

  /** `next` is the nextmsg word of every message ever sent; `loaded` is what the consumer has read and not used yet. */
  datatype Box = Box(
    next: map<Id, Ref>, tail: Ref, counter: nat, current: Id, loaded: Option<Ref>, threads: map<Tid, Pc>)

  datatype Action = Start(t: Tid, msg: Id) | Act(t: Tid) | Poll | Take

  function PcOf(b: Box, t: Tid): Pc {
    if t in b.threads then b.threads[t] else Idle
  }

  predicate HasTail(pc: Pc) {
    !pc.Idle? && !pc.LoadTail?
  }

  /** The loaded pointers a producer dereferences exist. */
  predicate Enabled(b: Box, a: Action) {
    match a
    case Start(t, m) => PcOf(b, t).Idle? && m !in b.next
    case Act(t) =>
      var pc := PcOf(b, t);
      !pc.Idle? && (HasTail(pc) ==> pc.tail.ptr.Some? && pc.tail.ptr.value in b.next)
    case Poll => b.loaded.None? && b.current in b.next
    case Take => b.loaded.Some?
  }

  function Goto(b: Box, t: Tid, pc: Pc): Box {
    b.(threads := b.threads[t := pc])
  }

  function ThreadStep(b: Box, t: Tid): Box
    requires Enabled(b, Act(t))
  {
    var c := (b.counter + 1) % WRAP;
    match PcOf(b, t)
    case LoadTail(m) => Goto(b, t, LoadNext(m, b.tail))
    case LoadNext(m, tl) => Goto(b, t, Recheck(m, tl, b.next[tl.ptr.value]))
    case Recheck(m, tl, nx) =>
      Goto(b, t, if b.tail != tl then LoadTail(m) else if nx.ptr.None? then CountLink(m, tl, nx) else CountHelp(m, tl, nx))
    case CountLink(m, tl, nx) => Goto(b.(counter := c), t, CasLink(m, tl, nx, c))
    case CasLink(m, tl, nx, c) =>
      if b.next[tl.ptr.value] == nx
      then Goto(b.(next := b.next[tl.ptr.value := Ref(Some(m), c)]), t, CountSwing(m, tl))
      else Goto(b, t, LoadTail(m))
    case CountHelp(m, tl, nx) => Goto(b.(counter := c), t, CasHelp(m, tl, nx, c))
    case CasHelp(m, tl, nx, c) => Goto(if b.tail == tl then b.(tail := Ref(nx.ptr, c)) else b, t, LoadTail(m))
    case CountSwing(m, tl) => Goto(b.(counter := c), t, CasSwing(m, tl, c))
    case CasSwing(m, tl, c) => Goto(if b.tail == tl then b.(tail := Ref(Some(m), c)) else b, t, Idle)
  }

  function Step(b: Box, a: Action): Box
    requires Enabled(b, a)
  {
    match a
    case Start(t, m) => Goto(b.(next := b.next[m := Ref(None, 5555)]), t, LoadTail(m))
    case Act(t) => ThreadStep(b, t)
    case Poll => b.(loaded := Some(b.next[b.current]))
    case Take =>
      if b.loaded.value.ptr.None? then b.(loaded := None)
      else b.(loaded := None, current := b.loaded.value.ptr.value)
  }

  function Init(dummy: Id): Box {
    Box(map[dummy := Ref(None, 5000)], Ref(Some(dummy), 10000), 8888, dummy, None, map[])
  }

  // ---------------------------------------------------------------- history

  /** Where and when a producer read the tail. */
  datatype Mark = Mark(at: nat, progress: nat)

  /** The messages in the order their next-pointer CAS succeeded (after the dummy), the position of `tail` in it, the
      messages returned by receive, every producer's last tail read, and the producer of every unlinked message. */
  datatype Hist = Hist(chain: seq<Id>, tailAt: nat, received: seq<Id>, marks: map<Tid, Mark>, owner: map<Id, Tid>)

  predicate Links(b: Box, a: Action)
    requires Enabled(b, a)
  {
    a.Act? && PcOf(b, a.t).CasLink? && b.next[PcOf(b, a.t).tail.ptr.value] == PcOf(b, a.t).next
  }

  function Progress(h: Hist): nat { |h.chain| + h.tailAt }

  function Record(b: Box, h: Hist, a: Action): Hist
    requires Enabled(b, a)
  {
    match a
    case Start(t, m) => h.(owner := h.owner[m := t])
    case Act(t) =>
      if PcOf(b, t).LoadTail? then h.(marks := h.marks[t := Mark(h.tailAt, Progress(h))])
      else if Links(b, a) then h.(chain := h.chain + [PcOf(b, t).msg])
      else if Step(b, a).tail != b.tail then h.(tailAt := h.tailAt + 1)
      else h
    case Poll => h
    case Take => if b.loaded.value.ptr.None? then h else h.(received := h.received + [b.loaded.value.ptr.value])
  }

  function InitHist(dummy: Id): Hist {
    Hist([dummy], 0, [], map[], map[])
  }

  // ---------------------------------------------------------------- the invariant

  ghost predicate Distinct(s: seq<Id>) {
    forall i, j | 0 <= i < j < |s| :: s[i] != s[j]
  }

  ghost predicate Follows(b: Box, h: Hist, i: int) {
    0 <= i && i + 1 < |h.chain| && h.chain[i] in b.next && b.next[h.chain[i]].ptr == Some(h.chain[i + 1])
  }

  /** The linked messages form one chain, `tail` points to its last or second-to-last node, and the consumer stands
      right behind what it has returned. */
  ghost predicate ChainOk(b: Box, h: Hist) {
    && Distinct(h.chain)
    && h.tailAt < |h.chain| <= h.tailAt + 2
    && b.tail.ptr == Some(h.chain[h.tailAt])
    && (forall i | 0 <= i < |h.chain| :: h.chain[i] in b.next)
    && (forall i | 0 <= i < |h.chain| - 1 :: Follows(b, h, i))
    && b.next[h.chain[|h.chain| - 1]].ptr.None?
  }

  ghost predicate ConsumerOk(b: Box, h: Hist) {
    var n := |h.received|;
    && n < |h.chain| && h.received == h.chain[1..n + 1] && b.current == h.chain[n]
    && (b.loaded.Some? && b.loaded.value.ptr.Some? ==>
          n + 1 < |h.chain| && b.loaded.value.ptr.value == h.chain[n + 1])
  }

  ghost predicate Unlinked(b: Box, h: Hist, t: Tid, m: Id) {
    m in b.next && b.next[m].ptr.None? && m !in h.chain && m in h.owner && h.owner[m] == t
  }

  /** `tl` was the tail when this producer read it; if it no longer is, something has advanced since. */
  ghost predicate TailRead(b: Box, h: Hist, t: Tid, tl: Ref) {
    && t in h.marks && h.marks[t].at <= h.tailAt < |h.chain| && h.marks[t].progress <= Progress(h)
    && tl.ptr == Some(h.chain[h.marks[t].at])
    && (b.tail == tl || (h.tailAt > h.marks[t].at && Progress(h) > h.marks[t].progress))
  }

  ghost predicate NextRead(b: Box, h: Hist, t: Tid, tl: Ref, nx: Ref)
    requires TailRead(b, h, t, tl)
  {
    var i := h.marks[t].at;
    match nx.ptr
    case Some(x) => i + 1 < |h.chain| && x == h.chain[i + 1]
    case None => h.chain[i] in b.next && (b.next[h.chain[i]] == nx || Progress(h) > h.marks[t].progress)
  }

  ghost predicate Linked(b: Box, h: Hist, t: Tid, m: Id, tl: Ref) {
    && t in h.marks && h.marks[t].at + 1 < |h.chain| && h.marks[t].at <= h.tailAt
    && (b.tail == tl || h.tailAt > h.marks[t].at)
    && tl.ptr == Some(h.chain[h.marks[t].at]) && m == h.chain[h.marks[t].at + 1]
  }

  ghost predicate ThreadOk(b: Box, h: Hist, t: Tid) {
    match PcOf(b, t)
    case Idle => true
    case LoadTail(m) => Unlinked(b, h, t, m)
    case LoadNext(m, tl) => Unlinked(b, h, t, m) && TailRead(b, h, t, tl)
    case Recheck(m, tl, nx) => Unlinked(b, h, t, m) && TailRead(b, h, t, tl) && NextRead(b, h, t, tl, nx)
    case CountLink(m, tl, nx) => Unlinked(b, h, t, m) && TailRead(b, h, t, tl) && NextRead(b, h, t, tl, nx) && nx.ptr.None?
    case CasLink(m, tl, nx, _) => Unlinked(b, h, t, m) && TailRead(b, h, t, tl) && NextRead(b, h, t, tl, nx) && nx.ptr.None?
    case CountHelp(m, tl, nx) => Unlinked(b, h, t, m) && TailRead(b, h, t, tl) && NextRead(b, h, t, tl, nx) && nx.ptr.Some?
    case CasHelp(m, tl, nx, _) => Unlinked(b, h, t, m) && TailRead(b, h, t, tl) && NextRead(b, h, t, tl, nx) && nx.ptr.Some?
    case CountSwing(m, tl) => Linked(b, h, t, m, tl)
    case CasSwing(m, tl, _) => Linked(b, h, t, m, tl)
  }

  /** The message a producer is still trying to link. */
  function Holding(pc: Pc): Option<Id> {
    if pc.Idle? || pc.CountSwing? || pc.CasSwing? then None else Some(pc.msg)
  }

  /** Every message ever sent is either linked or in the hands of the producer sending it. */
  ghost predicate NoneLost(b: Box, h: Hist) {
    forall m <- b.next :: m in h.chain || (m in h.owner && Holding(PcOf(b, h.owner[m])) == Some(m))
  }

  ghost predicate Inv(b: Box, h: Hist) {
    ChainOk(b, h) && ConsumerOk(b, h) && NoneLost(b, h) && forall t :: ThreadOk(b, h, t)
  }

  // ---------------------------------------------------------------- every step keeps it

  /** What other producers may observe of a step: the chain only grows, the tail only advances. */
  ghost predicate Evolves(b: Box, h: Hist, b': Box, h': Hist, t: Tid) {
    && h.chain <= h'.chain && h.tailAt <= h'.tailAt < |h'.chain|
    && (t in h.marks ==> t in h'.marks && h'.marks[t] == h.marks[t])
    && (b'.tail == b.tail || h'.tailAt > h.tailAt)
    && (forall m | m in b.next && b.next[m].ptr.None? && m !in h.chain && m in h.owner && h.owner[m] == t ::
          m in b'.next && b'.next[m].ptr.None? && m !in h'.chain && m in h'.owner && h'.owner[m] == t)
    && (forall i | 0 <= i < |h.chain| && h.chain[i] in b.next ::
          h.chain[i] in b'.next && (b'.next[h.chain[i]] == b.next[h.chain[i]] || Progress(h') > Progress(h)))
  }

  lemma OthersKept(b: Box, h: Hist, b': Box, h': Hist, t: Tid)
    requires ThreadOk(b, h, t) && Evolves(b, h, b', h', t) && PcOf(b', t) == PcOf(b, t)
    ensures ThreadOk(b', h', t)
  {
  }

  /** A chain node whose next pointer is null is the last one. */
  lemma NullIsLast(b: Box, h: Hist, i: nat)
    requires ChainOk(b, h) && i < |h.chain| && b.next[h.chain[i]].ptr.None?
    ensures i == |h.chain| - 1
  {
    assert i < |h.chain| - 1 ==> Follows(b, h, i);
  }

  /** If `tail` still is what the producer read, it still points to the same place of the chain. */
  lemma SameTailSamePlace(b: Box, h: Hist, t: Tid, tl: Ref)
    requires ChainOk(b, h) && t in h.marks && h.marks[t].at <= h.tailAt && tl.ptr == Some(h.chain[h.marks[t].at])
    requires b.tail == tl
    ensures h.marks[t].at == h.tailAt
  {
  }

  /** `b2` is `b` after linking `m` behind the last node, and nothing else that others see. */
  ghost predicate LinkedBehind(b: Box, h: Hist, b2: Box, h2: Hist, m: Id, c: nat) {
    && ChainOk(b, h) && h.tailAt == |h.chain| - 1
    && m in b.next && b.next[m].ptr.None? && m !in h.chain
    && b2.next == b.next[h.chain[|h.chain| - 1] := Ref(Some(m), c)] && b2.tail == b.tail
    && b2.current == b.current && b2.loaded == b.loaded
    && h2 == h.(chain := h.chain + [m])
  }

  lemma ChainAfterLink(b: Box, h: Hist, b2: Box, h2: Hist, m: Id, c: nat)
    requires LinkedBehind(b, h, b2, h2, m, c)
    ensures ChainOk(b2, h2)
  {
    var last := |h.chain| - 1;
    forall i | 0 <= i < |h2.chain| - 1 ensures Follows(b2, h2, i) {
      if i < last { assert Follows(b, h, i); }
    }
  }

  lemma EvolvesByLink(b: Box, h: Hist, b2: Box, h2: Hist, m: Id, c: nat, t: Tid)
    requires LinkedBehind(b, h, b2, h2, m, c) && !(m in h.owner && h.owner[m] == t)
    ensures Evolves(b, h, b2, h2, t)
  {
  }

  lemma LinkStep(b: Box, h: Hist, t: Tid)
    requires Inv(b, h) && Enabled(b, Act(t)) && Links(b, Act(t))
    ensures var b', h' := Step(b, Act(t)), Record(b, h, Act(t));
      Inv(b', h') && h'.chain == h.chain + [PcOf(b, t).msg] && h'.received == h.received
  {
    var b', h' := Step(b, Act(t)), Record(b, h, Act(t));
    var pc := PcOf(b, t);
    var m := pc.msg;
    assert ThreadOk(b, h, t);
    NullIsLast(b, h, h.marks[t].at);
    assert LinkedBehind(b, h, b', h', m, pc.count);
    ChainAfterLink(b, h, b', h', m, pc.count);
    LinkStepRest(b, h, b', h', m, pc.count, t);
  }

  lemma LinkStepRest(b: Box, h: Hist, b': Box, h': Hist, m: Id, c: nat, t: Tid)
    requires Inv(b, h) && LinkedBehind(b, h, b', h', m, c) && m in h.owner && h.owner[m] == t
    requires Holding(PcOf(b, t)) == Some(m) && PcOf(b', t).CountSwing? && PcOf(b', t).msg == m
    requires t in h.marks && h.marks[t].at == |h.chain| - 1 && PcOf(b', t).tail.ptr == Some(h.chain[h.marks[t].at])
    requires b.tail == PcOf(b', t).tail
    requires forall u | u != t :: PcOf(b', u) == PcOf(b, u)
    ensures ConsumerOk(b', h') && NoneLost(b', h') && forall u :: ThreadOk(b', h', u)
  {
    forall u ensures ThreadOk(b', h', u) {
      assert ThreadOk(b, h, u);
      if u != t {
        EvolvesByLink(b, h, b', h', m, c, u);
        OthersKept(b, h, b', h', u);
      }
    }
    forall x | x in b'.next ensures x in h'.chain || (x in h'.owner && Holding(PcOf(b', h'.owner[x])) == Some(x)) {
      assert x in b.next;
      if x != m && x !in h.chain { assert h.owner[x] != t; }
    }
  }

  /** With the links as they were and the tail advanced or still in place, everyone else is as before. */
  lemma SameLinksRest(b: Box, h: Hist, b': Box, h': Hist, t: Tid)
    requires Inv(b, h) && ThreadOk(b', h', t) && Holding(PcOf(b', t)) == Holding(PcOf(b, t))
    requires b'.next == b.next && b'.current == b.current && b'.loaded == b.loaded
    requires h'.chain == h.chain && h'.received == h.received && h'.owner == h.owner
    requires h.tailAt <= h'.tailAt < |h.chain| && b'.tail.ptr == Some(h.chain[h'.tailAt])
    requires b'.tail == b.tail || h'.tailAt > h.tailAt
    requires forall u | u != t :: PcOf(b', u) == PcOf(b, u) && (u in h.marks ==> u in h'.marks && h'.marks[u] == h.marks[u])
    ensures Inv(b', h')
  {
    forall i | 0 <= i < |h'.chain| - 1 ensures Follows(b', h', i) { assert Follows(b, h, i); }
    forall u ensures ThreadOk(b', h', u) {
      assert ThreadOk(b, h, u);
      if u != t { OthersKept(b, h, b', h', u); }
    }
    forall x | x in b'.next ensures x in h'.chain || (x in h'.owner && Holding(PcOf(b', h'.owner[x])) == Some(x)) {}
  }

  lemma SwingFacts(b: Box, h: Hist, t: Tid)
    requires ChainOk(b, h) && ThreadOk(b, h, t)
    requires Enabled(b, Act(t)) && !Links(b, Act(t)) && Step(b, Act(t)).tail != b.tail
    ensures var b', h' := Step(b, Act(t)), Record(b, h, Act(t));
      && h' == h.(tailAt := h.tailAt + 1) && h.tailAt + 2 == |h.chain|
      && b'.tail.ptr == Some(h.chain[h.tailAt + 1])
      && b'.next == b.next && b'.current == b.current && b'.loaded == b.loaded
      && ThreadOk(b', h', t) && Holding(PcOf(b', t)) == Holding(PcOf(b, t))
  {
    SameTailSamePlace(b, h, t, PcOf(b, t).tail);
  }

  /** The tail moves to the last node: by its producer, or by another one that helps. */
  lemma SwingStep(b: Box, h: Hist, t: Tid)
    requires Inv(b, h) && Enabled(b, Act(t)) && !Links(b, Act(t)) && Step(b, Act(t)).tail != b.tail
    ensures Inv(Step(b, Act(t)), Record(b, h, Act(t)))
    ensures Record(b, h, Act(t)) == h.(tailAt := |h.chain| - 1) && h.tailAt == |h.chain| - 2
  {
    assert ThreadOk(b, h, t);
    SwingFacts(b, h, t);
    OnlyMyPc(b, t);
    SameLinksRest(b, h, Step(b, Act(t)), Record(b, h, Act(t)), t);
  }

  lemma OnlyMyPc(b: Box, t: Tid)
    requires Enabled(b, Act(t))
    ensures forall u | u != t :: PcOf(Step(b, Act(t)), u) == PcOf(b, u)
    ensures Step(b, Act(t)).current == b.current && Step(b, Act(t)).loaded == b.loaded
    ensures !Links(b, Act(t)) ==> Step(b, Act(t)).next == b.next
  {
  }

  lemma PrivateThread(b: Box, h: Hist, t: Tid)
    requires ChainOk(b, h) && ThreadOk(b, h, t) && Enabled(b, Act(t)) && !Links(b, Act(t)) && Step(b, Act(t)).tail == b.tail
    ensures ThreadOk(Step(b, Act(t)), Record(b, h, Act(t)), t)
    ensures Holding(PcOf(Step(b, Act(t)), t)) == Holding(PcOf(b, t))
  {
    if PcOf(b, t).LoadNext? {
      var i := h.marks[t].at;
      if i + 1 < |h.chain| { assert Follows(b, h, i); }
    }
  }

  /** All other steps of a producer are private to it. */
  lemma PrivateStep(b: Box, h: Hist, t: Tid)
    requires Inv(b, h) && Enabled(b, Act(t)) && !Links(b, Act(t)) && Step(b, Act(t)).tail == b.tail
    ensures Inv(Step(b, Act(t)), Record(b, h, Act(t)))
  {
    assert ThreadOk(b, h, t);
    PrivateThread(b, h, t);
    OnlyMyPc(b, t);
    SameLinksRest(b, h, Step(b, Act(t)), Record(b, h, Act(t)), t);
  }

  lemma StartThread(b: Box, h: Hist, t: Tid, m: Id, u: Tid)
    requires Inv(b, h) && Enabled(b, Start(t, m))
    ensures ThreadOk(Step(b, Start(t, m)), Record(b, h, Start(t, m)), u)
  {
    assert ThreadOk(b, h, u);
    if u != t { OthersKept(b, h, Step(b, Start(t, m)), Record(b, h, Start(t, m)), u); }
  }

  lemma StartStep(b: Box, h: Hist, t: Tid, m: Id)
    requires Inv(b, h) && Enabled(b, Start(t, m))
    ensures Inv(Step(b, Start(t, m)), Record(b, h, Start(t, m)))
  {
    var b', h' := Step(b, Start(t, m)), Record(b, h, Start(t, m));
    forall i | 0 <= i < |h'.chain| - 1 ensures Follows(b', h', i) { assert Follows(b, h, i); }
    forall u ensures ThreadOk(b', h', u) {
      StartThread(b, h, t, m, u);
    }
    forall x | x in b'.next ensures x in h'.chain || (x in h'.owner && Holding(PcOf(b', h'.owner[x])) == Some(x)) {
      if x != m && x !in h.chain { assert Holding(PcOf(b, h.owner[x])) == Some(x); }
    }
  }

  lemma ConsumerRest(b: Box, h: Hist, b': Box, h': Hist)
    requires Inv(b, h) && ConsumerOk(b', h')
    requires b'.next == b.next && b'.tail == b.tail && b'.threads == b.threads && h'.(received := h.received) == h
    ensures Inv(b', h')
  {
    forall i | 0 <= i < |h'.chain| - 1 ensures Follows(b', h', i) { assert Follows(b, h, i); }
    forall u ensures ThreadOk(b', h', u) {
      assert ThreadOk(b, h, u);
      OthersKept(b, h, b', h', u);
    }
    forall x | x in b'.next ensures x in h'.chain || (x in h'.owner && Holding(PcOf(b', h'.owner[x])) == Some(x)) {}
  }

  lemma ConsumerMoves(b: Box, h: Hist, a: Action)
    requires ChainOk(b, h) && ConsumerOk(b, h) && Enabled(b, a) && (a.Poll? || a.Take?)
    ensures ConsumerOk(Step(b, a), Record(b, h, a))
  {
    var n := |h.received|;
    if a.Poll? && n + 1 < |h.chain| { assert Follows(b, h, n); }
    if a.Take? && b.loaded.value.ptr.Some? {
      assert h.chain[1..n + 2] == h.chain[1..n + 1] + [h.chain[n + 1]];
    }
  }

  /** The consumer returns the next message of the chain, or finds that there is none. */
  lemma ConsumerStep(b: Box, h: Hist, a: Action)
    requires Inv(b, h) && Enabled(b, a) && (a.Poll? || a.Take?)
    ensures Inv(Step(b, a), Record(b, h, a))
  {
    ConsumerMoves(b, h, a);
    ConsumerRest(b, h, Step(b, a), Record(b, h, a));
  }

  lemma StepInv(b: Box, h: Hist, a: Action)
    requires Inv(b, h) && Enabled(b, a)
    ensures Inv(Step(b, a), Record(b, h, a))
  {
    match a
    case Start(t, m) => StartStep(b, h, t, m);
    case Act(t) =>
      if Links(b, a) { LinkStep(b, h, t); }
      else if Step(b, a).tail != b.tail { SwingStep(b, h, t); }
      else { PrivateStep(b, h, t); }
    case _ => ConsumerStep(b, h, a);
  }

  lemma InitInv(dummy: Id)
    ensures Inv(Init(dummy), InitHist(dummy))
  {
  }

  // ---------------------------------------------------------------- runs: a queue, and never stuck

  ghost predicate AllEnabled(b: Box, run: seq<Action>)
    decreases |run|
  {
    run == [] || (Enabled(b, run[0]) && AllEnabled(Step(b, run[0]), run[1..]))
  }

  ghost function Run(b: Box, h: Hist, run: seq<Action>): (Box, Hist)
    requires AllEnabled(b, run)
    decreases |run|
  {
    if run == [] then (b, h) else Run(Step(b, run[0]), Record(b, h, run[0]), run[1..])
  }

  function LinkedNow(b: Box, a: Action): seq<Id>
    requires Enabled(b, a)
  {
    if Links(b, a) then [PcOf(b, a.t).msg] else []
  }

  /** The messages of the successful linking CAS steps of a run, in order. */
  ghost function LinkOrder(b: Box, run: seq<Action>): seq<Id>
    requires AllEnabled(b, run)
    decreases |run|
  {
    if run == [] then []
    else LinkedNow(b, run[0]) + LinkOrder(Step(b, run[0]), run[1..])
  }

  lemma ChainAfter(b: Box, h: Hist, a: Action)
    requires Enabled(b, a)
    ensures Record(b, h, a).chain == h.chain + LinkedNow(b, a)
  {
  }

  /** No pointer that is about to be dereferenced is null: a producer in the middle of a send can always step, and the
      consumer can always load or use what it has loaded. */
  lemma NeverStuck(b: Box, h: Hist, t: Tid)
    requires Inv(b, h)
    ensures !PcOf(b, t).Idle? ==> Enabled(b, Act(t))
    ensures if b.loaded.None? then Enabled(b, Poll) else Enabled(b, Take)
  {
    assert ThreadOk(b, h, t);
  }

  lemma {:induction false} RunInv(b: Box, h: Hist, run: seq<Action>)
    requires Inv(b, h) && AllEnabled(b, run)
    ensures Inv(Run(b, h, run).0, Run(b, h, run).1)
    decreases |run|
  {
    if run != [] {
      StepInv(b, h, run[0]);
      RunInv(Step(b, run[0]), Record(b, h, run[0]), run[1..]);
    }
  }

  lemma {:induction false} RunChain(b: Box, h: Hist, run: seq<Action>)
    requires AllEnabled(b, run)
    ensures Run(b, h, run).1.chain == h.chain + LinkOrder(b, run)
    decreases |run|
  {
    if run != [] {
      var h1 := Record(b, h, run[0]);
      RunChain(Step(b, run[0]), h1, run[1..]);
      ChainAfter(b, h, run[0]);
      Assoc(h.chain, LinkedNow(b, run[0]), LinkOrder(Step(b, run[0]), run[1..]));
    }
  }

  /** So whatever the producers and the consumer have done, every one of them can go on. */
  lemma RunNeverStuck(dummy: Id, run: seq<Action>, t: Tid)
    requires AllEnabled(Init(dummy), run)
    ensures var b := Run(Init(dummy), InitHist(dummy), run).0;
      && (!PcOf(b, t).Idle? ==> Enabled(b, Act(t)))
      && if b.loaded.None? then Enabled(b, Poll) else Enabled(b, Take)
  {
    InitInv(dummy);
    RunInv(Init(dummy), InitHist(dummy), run);
    var (b, h) := Run(Init(dummy), InitHist(dummy), run);
    NeverStuck(b, h, t);
  }

  lemma BehindDummy(chain: seq<Id>, dummy: Id, order: seq<Id>)
    requires chain == [dummy] + order && Distinct(chain)
    ensures Distinct(order) && order == chain[1..]
    ensures forall m :: m in chain ==> m == dummy || m in order
  {
    forall i, j | 0 <= i < j < |order| ensures order[i] != order[j] {
      assert order[i] == chain[i + 1] && order[j] == chain[j + 1];
    }
  }

  /** Linearizability: whatever the interleaving, receive has returned a prefix of the messages in the order in which
      they were linked; no message is linked twice, and none is lost on the way. */
  lemma Fifo(dummy: Id, run: seq<Action>)
    requires AllEnabled(Init(dummy), run)
    ensures var (b, h) := Run(Init(dummy), InitHist(dummy), run);
      && h.received <= LinkOrder(Init(dummy), run)
      && Distinct(LinkOrder(Init(dummy), run))
      && (forall m <- b.next :: m == dummy || m in LinkOrder(Init(dummy), run) ||
            (m in h.owner && Holding(PcOf(b, h.owner[m])) == Some(m)))
  {
    InitInv(dummy);
    RunInv(Init(dummy), InitHist(dummy), run);
    RunChain(Init(dummy), InitHist(dummy), run);
    var (b, h) := Run(Init(dummy), InitHist(dummy), run);
    BehindDummy(h.chain, dummy, LinkOrder(Init(dummy), run));
  }

  ghost predicate NearTheEnd(tail: Option<Id>, chain: seq<Id>) {
    && chain != []
    && (tail == Some(chain[|chain| - 1]) || (|chain| >= 2 && tail == Some(chain[|chain| - 2])))
  }

  lemma ChainTail(b: Box, h: Hist)
    requires Inv(b, h)
    ensures NearTheEnd(b.tail.ptr, h.chain)
  {
  }

  /** After any run the tail is the last or the last but one of all messages linked, wherever the consumer is by then. */
  lemma TailNearTheEnd(dummy: Id, run: seq<Action>)
    requires AllEnabled(Init(dummy), run)
    ensures NearTheEnd(Run(Init(dummy), InitHist(dummy), run).0.tail.ptr, [dummy] + LinkOrder(Init(dummy), run))
  {
    InitInv(dummy);
    RunInv(Init(dummy), InitHist(dummy), run);
    RunChain(Init(dummy), InitHist(dummy), run);
    var (b, h) := Run(Init(dummy), InitHist(dummy), run);
    ChainTail(b, h);
  }

  function Waiting(h: Hist): seq<Id>
    requires |h.received| < |h.chain|
  {
    h.chain[|h.received| + 1..]
  }

  /** A linking CAS enqueues its message. */
  lemma LinkEnqueues(b: Box, h: Hist, a: Action)
    requires ConsumerOk(b, h) && Enabled(b, a) && !a.Take?
    ensures var h' := Record(b, h, a);
      |h'.received| < |h'.chain| && h'.received == h.received && Waiting(h') == Waiting(h) + LinkedNow(b, a)
  {
    ChainAfter(b, h, a);
  }

  /** A successful receive dequeues the front. */
  lemma TakeDequeues(b: Box, h: Hist, a: Action)
    requires ConsumerOk(b, h) && Enabled(b, a) && a.Take?
    ensures var h' := Record(b, h, a);
      |h'.received| < |h'.chain| &&
      match b.loaded.value.ptr
      case None => Waiting(h') == Waiting(h) && h'.received == h.received
      case Some(m) => Waiting(h) == [m] + Waiting(h') && h'.received == h.received + [m] && Step(b, a).current == m
  {
  }

  /** A poll loads null exactly while nothing waits, and otherwise the front; it changes nothing else. */
  lemma PollLoads(b: Box, h: Hist)
    requires Inv(b, h) && Enabled(b, Poll)
    ensures Step(b, Poll).loaded.Some? && Step(b, Poll).(loaded := None) == b && Record(b, h, Poll) == h
    ensures Step(b, Poll).loaded.value.ptr == if Waiting(h) == [] then None else Some(Waiting(h)[0])
  {
    if |h.received| + 1 < |h.chain| { assert Follows(b, h, |h.received|); }
  }

  /** receive: the front of what waits is returned, or nothing when nothing waits. */
  lemma ReceiveTakesFront(b: Box, h: Hist)
    requires Inv(b, h) && Enabled(b, Poll)
    ensures var b1 := Step(b, Poll);
      && Enabled(b1, Take)
      && var b', h' := Step(b1, Take), Record(b1, Record(b, h, Poll), Take);
         && Inv(b', h') && Enabled(b', Poll) && h'.chain == h.chain
         && if Waiting(h) == [] then b' == b && h' == h
            else && b'.current == Waiting(h)[0] && h'.received == h.received + [Waiting(h)[0]]
                 && Waiting(h') == Waiting(h)[1..]
  {
    PollLoads(b, h);
    StepInv(b, h, Poll);
    StepInv(Step(b, Poll), Record(b, h, Poll), Take);
    NeverStuck(Step(Step(b, Poll), Take), Record(Step(b, Poll), h, Take), 0);
    TakeDequeues(Step(b, Poll), h, Take);
  }

  /** So many receives in a row. */
  function Receives(n: nat): seq<Action> {
    if n == 0 then [] else [Poll, Take] + Receives(n - 1)
  }

  ghost predicate AllComeOut(b: Box, h: Hist)
    requires |h.received| < |h.chain|
  {
    var run := Receives(|Waiting(h)|);
    AllEnabled(b, run) && Run(b, h, run).1 == h.(received := h.received + Waiting(h))
  }

  /** `b2` is `b` after one successful receive. */
  ghost predicate OneReceived(b: Box, h: Hist, b2: Box, h2: Hist) {
    && Enabled(b, Poll) && Enabled(Step(b, Poll), Take) && b2 == Step(Step(b, Poll), Take)
    && |h.received| + 1 < |h.chain| && h2 == h.(received := h.received + [h.chain[|h.received| + 1]])
    && h2 == Record(Step(b, Poll), h, Take)
  }

  lemma OneMore(b: Box, h: Hist, b2: Box, h2: Hist)
    requires OneReceived(b, h, b2, h2) && AllComeOut(b2, h2)
    ensures AllComeOut(b, h)
  {
    var rest := Receives(|Waiting(h2)|);
    var one := [Take] + rest;
    var run := [Poll, Take] + rest;
    assert run[0] == Poll && run[1..] == one && one[1..] == rest;
    assert AllEnabled(Step(b, Poll), one) && Run(Step(b, Poll), h, one) == Run(b2, h2, rest);
    assert |Waiting(h)| == |Waiting(h2)| + 1 && run == Receives(|Waiting(h)|);
    assert h2.received + Waiting(h2) == h.received + Waiting(h);
  }

  lemma ReceiveOne(b: Box, h: Hist)
    requires Inv(b, h) && Enabled(b, Poll) && Waiting(h) != []
    ensures var b2, h2 := Step(Step(b, Poll), Take), Record(Step(b, Poll), h, Take);
      OneReceived(b, h, b2, h2) && Inv(b2, h2) && Enabled(b2, Poll)
  {
    PollLoads(b, h);
    ReceiveTakesFront(b, h);
  }

  /** As many receives as there are messages waiting return them all, in order. */
  lemma {:induction false} AllReceived(b: Box, h: Hist)
    requires Inv(b, h) && Enabled(b, Poll)
    ensures |h.received| < |h.chain| && AllComeOut(b, h)
    decreases |h.chain| - |h.received|
  {
    if Waiting(h) == [] {
      assert h.received + [] == h.received;
    } else {
      ReceiveOne(b, h);
      var b2, h2 := Step(Step(b, Poll), Take), Record(Step(b, Poll), h, Take);
      AllReceived(b2, h2);
      OneMore(b, h, b2, h2);
    }
  }

  /** Lock freedom: a producer that goes back to the loop head without having linked its message has, since its last
      read of the tail, seen a link or a tail advance, its own included. */
  lemma RetryMeansProgress(b: Box, h: Hist, t: Tid)
    requires Inv(b, h) && Enabled(b, Act(t)) && !PcOf(b, t).LoadTail?
    requires PcOf(Step(b, Act(t)), t).LoadTail?
    ensures t in h.marks && Progress(Record(b, h, Act(t))) > h.marks[t].progress
  {
    assert ThreadOk(b, h, t);
    var pc := PcOf(b, t);
    if pc.CasHelp? && b.tail == pc.tail {
      SameTailSamePlace(b, h, t, pc.tail);
      SwingOnlyForward(b, h, t);
    }
  }

  lemma SwingOnlyForward(b: Box, h: Hist, t: Tid)
    requires Inv(b, h) && Enabled(b, Act(t)) && PcOf(b, t).CasHelp? && b.tail == PcOf(b, t).tail
    ensures Step(b, Act(t)).tail != b.tail
  {
    assert ThreadOk(b, h, t);
    SameTailSamePlace(b, h, t, PcOf(b, t).tail);
  }

  // ---------------------------------------------------------------- a producer left alone

  /** Steps from the loop head on: twice round when the tail has fallen behind, because it has to be helped first. */
  function FromHead(b: Box): nat {
    if b.tail.ptr.Some? && b.tail.ptr.value in b.next && b.next[b.tail.ptr.value].ptr.Some? then 12 else 7
  }

  function FromCas(b: Box, tl: Ref, nx: Ref): nat {
    if tl.ptr.Some? && tl.ptr.value in b.next && b.next[tl.ptr.value] == nx then 3 else 1 + FromHead(b)
  }

  function FromHelp(b: Box, tl: Ref): nat {
    1 + if b.tail == tl then 7 else FromHead(b)
  }

  /** How many steps a producer has to go if nobody else moves. */
  function StepsLeft(b: Box, t: Tid): (n: nat)
    ensures n <= 15
  {
    match PcOf(b, t)
    case Idle => 0
    case LoadTail(_) => FromHead(b)
    case LoadNext(_, tl) => if b.tail == tl then FromHead(b) - 1 else 2 + FromHead(b)
    case Recheck(_, tl, nx) =>
      1 + if b.tail != tl then FromHead(b) else if nx.ptr.None? then 1 + FromCas(b, tl, nx) else 1 + FromHelp(b, tl)
    case CountLink(_, tl, nx) => 1 + FromCas(b, tl, nx)
    case CasLink(_, tl, nx, _) => FromCas(b, tl, nx)
    case CountHelp(_, tl, _) => 1 + FromHelp(b, tl)
    case CasHelp(_, tl, _, _) => FromHelp(b, tl)
    case CountSwing(_, _) => 2
    case CasSwing(_, _, _) => 1
  }

  /** Each step of its own brings it one nearer. */
  lemma OneNearer(b: Box, h: Hist, t: Tid)
    requires Inv(b, h) && Enabled(b, Act(t))
    ensures StepsLeft(Step(b, Act(t)), t) + 1 == StepsLeft(b, t)
  {
    if PcOf(b, t).CasHelp? && b.tail == PcOf(b, t).tail {
      HelpedTail(b, h, t);
    } else if PcOf(b, t).LoadTail? || PcOf(b, t).LoadNext? || PcOf(b, t).Recheck? {
      NearerReading(b, t);
    } else {
      NearerWriting(b, t);
    }
  }

  lemma NearerReading(b: Box, t: Tid)
    requires Enabled(b, Act(t)) && (PcOf(b, t).LoadTail? || PcOf(b, t).LoadNext? || PcOf(b, t).Recheck?)
    ensures StepsLeft(Step(b, Act(t)), t) + 1 == StepsLeft(b, t)
  {
  }

  lemma NearerWriting(b: Box, t: Tid)
    requires Enabled(b, Act(t)) && !PcOf(b, t).LoadTail? && !PcOf(b, t).LoadNext? && !PcOf(b, t).Recheck?
    requires !(PcOf(b, t).CasHelp? && b.tail == PcOf(b, t).tail)
    ensures StepsLeft(Step(b, Act(t)), t) + 1 == StepsLeft(b, t)
  {
  }

  /** Once helped, the tail is the last node. */
  lemma HelpedTail(b: Box, h: Hist, t: Tid)
    requires Inv(b, h) && Enabled(b, Act(t)) && PcOf(b, t).CasHelp? && b.tail == PcOf(b, t).tail
    ensures FromHead(Step(b, Act(t))) == 7
  {
    assert ThreadOk(b, h, t);
    SwingOnlyForward(b, h, t);
    SwingFacts(b, h, t);
  }

  lemma HeldUntilLinked(b: Box, h: Hist, t: Tid)
    requires Inv(b, h) && Enabled(b, Act(t))
    ensures Holding(PcOf(Step(b, Act(t)), t)) == if Links(b, Act(t)) then None else Holding(PcOf(b, t))
    ensures Links(b, Act(t)) ==> Holding(PcOf(b, t)) == Some(PcOf(b, t).msg)
  {
  }

  function Alone(t: Tid, n: nat): seq<Action> {
    if n == 0 then [] else [Act(t)] + Alone(t, n - 1)
  }

  /** When a send returns, the tail is at its message or further: swung by its producer, or by another one that helped. */
  lemma SendSwings(b: Box, h: Hist, t: Tid)
    requires Inv(b, h) && Enabled(b, Act(t)) && PcOf(b, t).CasSwing?
    ensures var b', h' := Step(b, Act(t)), Record(b, h, Act(t));
      && t in h.marks && h'.chain == h.chain && h.marks[t].at + 1 <= h'.tailAt < |h.chain|
      && h.chain[h.marks[t].at + 1] == PcOf(b, t).msg && b'.tail.ptr == Some(h.chain[h'.tailAt])
  {
    assert ThreadOk(b, h, t);
    StepInv(b, h, Act(t));
    if b.tail == PcOf(b, t).tail {
      SameTailSamePlace(b, h, t, PcOf(b, t).tail);
    }
  }

  /** Left alone for as many steps as it has to go, the producer has finished and linked what it held. */
  ghost predicate Finishes(b: Box, h: Hist, t: Tid) {
    var run := Alone(t, StepsLeft(b, t));
    && AllEnabled(b, run)
    && var (b', h') := Run(b, h, run);
       && PcOf(b', t) == Idle && b'.loaded == b.loaded && h'.received == h.received
       && h'.chain == h.chain + match Holding(PcOf(b, t)) case None => [] case Some(m) => [m]
  }

  lemma OneStepMore(b: Box, h: Hist, t: Tid)
    requires Enabled(b, Act(t)) && StepsLeft(Step(b, Act(t)), t) + 1 == StepsLeft(b, t)
    requires Holding(PcOf(Step(b, Act(t)), t)) == if Links(b, Act(t)) then None else Holding(PcOf(b, t))
    requires Links(b, Act(t)) ==> Holding(PcOf(b, t)) == Some(PcOf(b, t).msg)
    requires Finishes(Step(b, Act(t)), Record(b, h, Act(t)), t)
    ensures Finishes(b, h, t)
  {
    var a := Act(t);
    var run := Alone(t, StepsLeft(b, t));
    assert run[0] == a && run[1..] == Alone(t, StepsLeft(Step(b, a), t));
    ChainAfter(b, h, a);
    assert h.chain + [] == h.chain;
  }

  /** Wherever it stands, a producer left alone finishes within 15 steps, having linked the message it still held. */
  lemma {:induction false} FinishesAlone(b: Box, h: Hist, t: Tid)
    requires Inv(b, h)
    ensures Finishes(b, h, t) && StepsLeft(b, t) <= 15
    decreases StepsLeft(b, t)
  {
    if PcOf(b, t).Idle? {
      assert h.chain + [] == h.chain;
    } else {
      NeverStuck(b, h, t);
      StepInv(b, h, Act(t));
      OneNearer(b, h, t);
      HeldUntilLinked(b, h, t);
      FinishesAlone(Step(b, Act(t)), Record(b, h, Act(t)), t);
      OneStepMore(b, h, t);
    }
  }

  /** A message sent by a producer left alone waits behind all others after at most 13 steps, and all that waits can be received. */
  lemma SentIsReceived(b: Box, h: Hist, t: Tid, m: Id)
    requires Inv(b, h) && Enabled(b, Start(t, m)) && b.loaded.None?
    ensures var b1, h1 := Step(b, Start(t, m)), Record(b, h, Start(t, m));
      var run := Alone(t, StepsLeft(b1, t));
      && |run| <= 12 && AllEnabled(b1, run)
      && var (b2, h2) := Run(b1, h1, run);
         && h2.received == h.received && |h.received| < |h.chain| && h2.chain == h.chain + [m]
         && AllComeOut(b2, h2)
  {
    var b1, h1 := Step(b, Start(t, m)), Record(b, h, Start(t, m));
    StepInv(b, h, Start(t, m));
    FinishesAlone(b1, h1, t);
    var run := Alone(t, StepsLeft(b1, t));
    AloneLength(t, StepsLeft(b1, t));
    RunInv(b1, h1, run);
    var (b2, h2) := Run(b1, h1, run);
    NeverStuck(b2, h2, t);
    AllReceived(b2, h2);
  }

  lemma {:induction false} AloneLength(t: Tid, n: nat)
    ensures |Alone(t, n)| == n
  {
    if n > 0 {
      AloneLength(t, n - 1);
    }
  }

  // ---------------------------------------------------------------- the tags

  /** The step takes a tag from the counter. */
  function Draws(b: Box, a: Action): nat {
    if a.Act? && (PcOf(b, a.t).CountLink? || PcOf(b, a.t).CountHelp? || PcOf(b, a.t).CountSwing?) then 1 else 0
  }

  ghost function Drawn(b: Box, run: seq<Action>): nat
    requires AllEnabled(b, run)
    decreases |run|
  {
    if run == [] then 0 else Draws(b, run[0]) + Drawn(Step(b, run[0]), run[1..])
  }

  lemma CountOn(c: nat, x: nat, y: nat)
    ensures ((c + x) % WRAP + y) % WRAP == (c + (x + y)) % WRAP
  {
    assert (c + x) == (c + x) / WRAP * WRAP + (c + x) % WRAP;
  }

  lemma {:induction false} TagsCount(b: Box, h: Hist, run: seq<Action>)
    requires AllEnabled(b, run) && b.counter < WRAP
    ensures Run(b, h, run).0.counter == (b.counter + Drawn(b, run)) % WRAP
    decreases |run|
  {
    if run != [] {
      var b1, h1 := Step(b, run[0]), Record(b, h, run[0]);
      assert b1.counter == (b.counter + Draws(b, run[0])) % WRAP;
      TagsCount(b1, h1, run[1..]);
      CountOn(b.counter, Draws(b, run[0]), Drawn(b1, run[1..]));
    }
  }

  /** Every pointer that a producer writes carries the tag it has drawn for it. */
  lemma TagsWritten(b: Box, t: Tid)
    requires Enabled(b, Act(t))
    ensures var b' := Step(b, Act(t));
      && (Draws(b, Act(t)) == 1 ==> !PcOf(b', t).Idle? && PcOf(b', t).msg == PcOf(b, t).msg && match PcOf(b', t)
            case CasLink(_, _, _, c) => c == b'.counter
            case CasHelp(_, _, _, c) => c == b'.counter
            case CasSwing(_, _, c) => c == b'.counter
            case _ => false)
      && (b'.tail != b.tail ==> (PcOf(b, t).CasHelp? || PcOf(b, t).CasSwing?) && b'.tail.count == PcOf(b, t).count)
      && forall m | m in b.next && m in b'.next && b'.next[m] != b.next[m] ::
           PcOf(b, t).CasLink? && b'.next[m] == Ref(Some(PcOf(b, t).msg), PcOf(b, t).count)
  {
  }

  /** No tag comes again within 2^64 draws. */
  lemma TagsDiffer(b: Box, h: Hist, run: seq<Action>)
    requires AllEnabled(b, run) && b.counter < WRAP && 0 < Drawn(b, run) < 0x1_0000_0000_0000_0000
    ensures Run(b, h, run).0.counter != b.counter
  {
    TagsCount(b, h, run);
  }
}
