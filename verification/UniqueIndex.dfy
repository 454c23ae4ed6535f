/** Staging of unique keys (SubTransaction::uniqueIndex, Index::commitRollback, drainIndexLockQueue), for integer keys. */
module UniqueIndex {

  type Key = int
  type SubId = int

  /** `sub == 0` marks a committed entry, any other value the subtransaction that has staged it. */
  datatype Entry = Entry(rowid: int, engineid: int, sub: SubId)
  datatype Waiter = Waiter(sub: SubId, rowid: int, engineid: int, cmdid: int, entry: int)
  datatype Answer = IndexLock | IndexPending | Violation

  datatype Keys = Keys(entries: map<Key, Entry>, queue: map<Key, seq<Waiter>>)

  function Queue(s: Keys, k: Key): seq<Waiter> {
    if k in s.queue then s.queue[k] else []
  }

  predicate Staged(s: Keys, k: Key) { k in s.entries && s.entries[k].sub != 0 }

  predicate InUse(s: Keys, k: Key) { k in s.entries && s.entries[k].sub == 0 }

  datatype Event =
    | Stage(w: Waiter, key: Key)
    | Commit(sub: SubId, key: Key)
    | Rollback(sub: SubId, key: Key)
    | Delete(key: Key)
    | Replace(key: Key, rowid: int, engineid: int)

  function Reply(s: Keys, w: Waiter, k: Key): Answer {
    if k !in s.entries then IndexLock else if s.entries[k].sub != 0 then IndexPending else Violation
  }

  function Drained(s: Keys, k: Key): Keys {
    if k in s.queue then s.(queue := s.queue[k := []]) else s
  }

  /** The waiters whose subtransaction still exists, in order. */
  function Living(ws: seq<Waiter>, live: set<SubId>): seq<Waiter> {
    if ws == [] then [] else (if ws[0].sub in live then [ws[0]] else []) + Living(ws[1..], live)
  }

  function Step(s: Keys, e: Event): Keys {
    match e
    case Stage(w, k) =>
      if k !in s.entries then s.(entries := s.entries[k := Entry(w.rowid, w.engineid, w.sub)])
      else if s.entries[k].sub != 0 then s.(queue := s.queue[k := Queue(s, k) + [w]])
      else s
    case Commit(sub, k) =>
      Drained(if k in s.entries && s.entries[k].sub == sub then s.(entries := s.entries[k := s.entries[k].(sub := 0)]) else s, k)
    case Rollback(sub, k) =>
      if k in s.entries && s.entries[k].sub == sub then s.(entries := s.entries - {k}) else s
    case Delete(k) => s.(entries := s.entries - {k})
    case Replace(k, rowid, engineid) => s.(entries := s.entries[k := Entry(rowid, engineid, 0)])
  }

  /** Subtransaction ids are positive. */
  predicate Proper(e: Event) {
    match e
    case Stage(w, _) => w.sub != 0
    case Commit(sub, _) => sub != 0
    case Rollback(sub, _) => sub != 0
    case _ => true
  }

  // ---------------------------------------------------------------- the index, in place

  class KeyIndex {
    var entries: map<Key, Entry>
    var lockQueue: map<Key, seq<Waiter>>

    ghost function State(): Keys
      reads this
    {
      Keys(entries, lockQueue)
    }

    method StageKey(w: Waiter, k: Key) returns (answer: Answer)
      modifies this
      ensures answer == Reply(old(State()), w, k) && State() == Step(old(State()), Stage(w, k))
    {
      if k !in entries {
        entries := entries[k := Entry(w.rowid, w.engineid, w.sub)];
        return IndexLock;
      }
      if entries[k].sub != 0 {
        var waiting := if k in lockQueue then lockQueue[k] else [];
        lockQueue := lockQueue[k := waiting + [w]];
        return IndexPending;
      }
      return Violation;
    }

    method DrainQueue(k: Key, live: set<SubId>) returns (told: seq<Waiter>)
      modifies this`lockQueue
      ensures State() == Drained(old(State()), k)
      ensures told == Living(Queue(old(State()), k), live)
    {
      told := [];
      if k !in lockQueue {
        return;
      }
      var waiting := lockQueue[k];
      ghost var all := waiting;
      while waiting != []
        invariant told + Living(waiting, live) == Living(all, live)
        decreases |waiting|
      {
        if waiting[0].sub in live {
          told := told + [waiting[0]];
        }
        waiting := waiting[1..];
      }
      lockQueue := lockQueue[k := []];
    }

    /** commitRollback for COMMITCMD, followed by the drain of the release loop. */
    method CommitKey(sub: SubId, k: Key, live: set<SubId>) returns (told: seq<Waiter>)
      modifies this
      ensures State() == Step(old(State()), Commit(sub, k))
      ensures told == Living(Queue(old(State()), k), live)
    {
      if k in entries && entries[k].sub == sub {
        entries := entries[k := entries[k].(sub := 0)];
      }
      told := DrainQueue(k, live);
    }

    /** commitRollback for ROLLBACKCMD; waiters stay queued, since processing the queue is a no-op in this version. */
    method RollbackKey(sub: SubId, k: Key)
      modifies this`entries
      ensures State() == Step(old(State()), Rollback(sub, k))
    {
      if k in entries && entries[k].sub == sub {
        entries := entries - {k};
      }
    }

    method DeleteUniqueEntry(k: Key)
      modifies this`entries
      ensures State() == Step(old(State()), Delete(k))
    {
      entries := entries - {k};
    }

    method ReplaceUnique(k: Key, rowid: int, engineid: int)
      modifies this`entries
      ensures State() == Step(old(State()), Replace(k, rowid, engineid))
    {
      entries := entries[k := Entry(rowid, engineid, 0)];
    }
  }

  /** What each answer to a staging request means for the key. */
  lemma RepliesMean(s: Keys, w: Waiter, k: Key)
    requires w.sub != 0
    ensures var t := Step(s, Stage(w, k));
      match Reply(s, w, k)
      case IndexLock => k !in s.entries && Staged(t, k) && t == s.(entries := s.entries[k := Entry(w.rowid, w.engineid, w.sub)])
      case IndexPending => Staged(s, k) && t.entries == s.entries && Queue(t, k) == Queue(s, k) + [w]
      case Violation => InUse(s, k) && t == s
  {
  }

  /** Each waiter is told if its subtransaction still exists and otherwise not, and their order stays. */
  lemma {:induction false} LivingSplits(a: seq<Waiter>, b: seq<Waiter>, live: set<SubId>)
    ensures Living(a + b, live) == Living(a, live) + Living(b, live)
    ensures |a| == 1 ==> Living(a, live) == if a[0].sub in live then a else []
  {
    if a == [] {
      assert a + b == b;
    } else {
      var one := if a[0].sub in live then [a[0]] else [];
      assert (a + b)[0] == a[0] && (a + b)[1..] == a[1..] + b;
      LivingSplits(a[1..], b, live);
      assert one + (Living(a[1..], live) + Living(b, live)) == (one + Living(a[1..], live)) + Living(b, live);
    }
  }

  // ---------------------------------------------------------------- runs

  function Run(s: Keys, run: seq<Event>): Keys {
    if run == [] then s else Step(Run(s, run[..|run| - 1]), run[|run| - 1])
  }

  predicate AllProper(run: seq<Event>) {
    forall n | 0 <= n < |run| :: Proper(run[n])
  }

  /** A commit or rollback changes the entry exactly when it comes from the subtransaction that staged it. */
  lemma OnlyTheHolder(s: Keys, sub: SubId, k: Key)
    requires sub != 0
    ensures Step(s, Commit(sub, k)).entries != s.entries <==> k in s.entries && s.entries[k].sub == sub
    ensures Step(s, Rollback(sub, k)).entries != s.entries <==> k in s.entries && s.entries[k].sub == sub
    ensures k in s.entries && s.entries[k].sub == sub ==>
              InUse(Step(s, Commit(sub, k)), k) && k !in Step(s, Rollback(sub, k)).entries
  {
    if k in s.entries && s.entries[k].sub == sub {
      assert Step(s, Commit(sub, k)).entries[k] != s.entries[k];
    }
  }

  /** This commit makes the key permanent. */
  predicate Commits(s: Keys, e: Event, k: Key) {
    e.Commit? && e.key == k && Staged(s, k) && s.entries[k].sub == e.sub
  }

  lemma {:induction false} InUseUntilDeleted(s: Keys, run: seq<Event>, k: Key, i: nat, j: nat)
    requires i <= j <= |run| && AllProper(run)
    requires InUse(Run(s, run[..i]), k)
    requires forall n | i <= n < j :: run[n] != Delete(k)
    ensures InUse(Run(s, run[..j]), k)
  {
    if i < j {
      InUseUntilDeleted(s, run, k, i, j - 1);
      assert run[..j][..j - 1] == run[..j - 1] && run[..j][j - 1] == run[j - 1];
      assert Proper(run[j - 1]);
    }
  }

  /** Uniqueness over whole runs: between two commits of the same key there is always a delete of it. */
  lemma CommitsAreSeparated(s: Keys, run: seq<Event>, k: Key, i: nat, j: nat)
    requires i < j < |run| && AllProper(run)
    requires Commits(Run(s, run[..i]), run[i], k) && Commits(Run(s, run[..j]), run[j], k)
    ensures exists n :: i < n < j && run[n] == Delete(k)
  {
    assert run[..i + 1][..i] == run[..i] && run[..i + 1][i] == run[i];
    if forall n | i < n < j :: run[n] != Delete(k) {
      InUseUntilDeleted(s, run, k, i + 1, j);
      assert false;
    }
  }

  /** No waiter is left behind at a committed key. */
  ghost predicate NoStaleWaiter(s: Keys) {
    forall k <- s.queue :: s.queue[k] != [] ==> !InUse(s, k)
  }

  /** Every other step keeps that, and a replace keeps it exactly when nobody waits for its key. */
  lemma StaleOnlyByReplace(s: Keys, e: Event)
    requires NoStaleWaiter(s) && Proper(e)
    ensures NoStaleWaiter(Step(s, e)) <==> !(e.Replace? && Queue(s, e.key) != [])
  {
    var t := Step(s, e);
    if e.Replace? && Queue(s, e.key) != [] {
      assert t.queue[e.key] != [] && InUse(t, e.key);
    }
  }

  /** A replace gives an existing row's key a new place, so the key should be in use. */
  ghost predicate ReplacesInUse(s: Keys, run: seq<Event>) {
    forall n | 0 <= n < |run| && run[n].Replace? :: InUse(Run(s, run[..n]), run[n].key)
  }

  lemma ReplacesInit(s: Keys, run: seq<Event>)
    requires run != [] && ReplacesInUse(s, run)
    ensures ReplacesInUse(s, run[..|run| - 1])
  {
    var init := run[..|run| - 1];
    forall n | 0 <= n < |init| && init[n].Replace? ensures InUse(Run(s, init[..n]), init[n].key) {
      assert init[..n] == run[..n] && init[n] == run[n];
    }
  }

  /** As long as every replace names a key in use, no run ever leaves a waiter at a committed key. */
  lemma {:induction false} RunNoStaleWaiter(s: Keys, run: seq<Event>)
    requires NoStaleWaiter(s) && AllProper(run) && ReplacesInUse(s, run)
    ensures NoStaleWaiter(Run(s, run))
  {
    if run != [] {
      ReplacesInit(s, run);
      RunNoStaleWaiter(s, run[..|run| - 1]);
      StaleOnlyByReplace(Run(s, run[..|run| - 1]), run[|run| - 1]);
    }
  }

  /** The `i`-th event was answered PENDING for the key. */
  predicate MadeToWait(s: Keys, run: seq<Event>, k: Key, i: nat)
    requires i < |run|
  {
    run[i].Stage? && run[i].key == k && Reply(Run(s, run[..i]), run[i].w, k).IndexPending?
  }

  predicate CommitsKey(e: Event, k: Key) {
    e.Commit? && e.key == k
  }

  predicate Uncommitted(run: seq<Event>, k: Key, i: nat) {
    forall n | i <= n < |run| :: !CommitsKey(run[n], k)
  }

  predicate StillWaits(s: Keys, run: seq<Event>, k: Key, i: nat) {
    i < |run| && MadeToWait(s, run, k, i) && Uncommitted(run, k, i + 1)
  }

  /** Someone was made to wait for the key, and no commit message for it has come since. */
  ghost predicate Awaited(s: Keys, run: seq<Event>, k: Key) {
    exists i: nat :: StillWaits(s, run, k, i)
  }

  lemma StillWaitsSnoc(s: Keys, run: seq<Event>, k: Key, i: nat)
    requires i + 1 < |run|
    ensures StillWaits(s, run, k, i) <==> StillWaits(s, run[..|run| - 1], k, i) && !CommitsKey(run[|run| - 1], k)
  {
    var init := run[..|run| - 1];
    assert run[..i] == init[..i] && run[i] == init[i];
    assert Uncommitted(run, k, i + 1) <==> Uncommitted(init, k, i + 1) && !CommitsKey(run[|run| - 1], k) by {
      assert forall n | i + 1 <= n < |init| :: run[n] == init[n];
    }
  }

  lemma AwaitedSnoc(s: Keys, run: seq<Event>, k: Key)
    requires run != []
    ensures Awaited(s, run, k) <==>
              MadeToWait(s, run, k, |run| - 1) || (Awaited(s, run[..|run| - 1], k) && !CommitsKey(run[|run| - 1], k))
  {
    var init := run[..|run| - 1];
    if i: nat :| StillWaits(s, run, k, i) {
      if i + 1 < |run| { StillWaitsSnoc(s, run, k, i); }
    }
    if i: nat :| StillWaits(s, init, k, i) {
      StillWaitsSnoc(s, run, k, i);
    }
    assert MadeToWait(s, run, k, |run| - 1) ==> StillWaits(s, run, k, |run| - 1);
  }

  /** Who waits, told from the answers alone. */
  lemma {:induction false} QueueIff(s: Keys, run: seq<Event>, k: Key)
    requires Queue(s, k) == []
    ensures Queue(Run(s, run), k) != [] <==> Awaited(s, run, k)
  {
    if run != [] {
      QueueIff(s, run[..|run| - 1], k);
      AwaitedSnoc(s, run, k);
    }
  }

  /** Exactly when a replace after a run strands waiters: someone was told to wait for the key, which no commit message has reached since. */
  lemma ReplaceStrandsIff(s: Keys, run: seq<Event>, k: Key, rowid: int, engineid: int)
    requires Queue(s, k) == []
    ensures var t := Step(Run(s, run), Replace(k, rowid, engineid));
      InUse(t, k) && (Queue(t, k) != [] <==> Awaited(s, run, k))
  {
    QueueIff(s, run, k);
  }

  const W1 := Waiter(1, 10, 0, 0, 0)
  const W2 := Waiter(2, 20, 0, 0, 0)
  const EMPTY := Keys(map[], map[])

  lemma TwoStaged()
    ensures Run(EMPTY, [Stage(W1, 5), Stage(W2, 5)]) == Keys(map[5 := Entry(10, 0, 1)], map[5 := [W2]])
  {
    var r0: seq<Event> := [];
    var r1, r2 := r0 + [Stage(W1, 5)], r0 + [Stage(W1, 5), Stage(W2, 5)];
    assert r1[..0] == r0 && r2[..1] == r1;
    assert Run(EMPTY, r1) == Keys(map[5 := Entry(10, 0, 1)], map[]);
    assert Queue(Run(EMPTY, r1), 5) + [W2] == [W2];
  }

  /**
   * It can happen: a row's commit overtakes its key's, which go to different
   * engines. The row is then replaced while its key is still staged. The late
   * commit of the key finds another entry and leaves it, but drains the waiters.
   */
  lemma ReplaceStrandsWaiter()
    ensures var t := Run(EMPTY, [Stage(W1, 5), Stage(W2, 5), Replace(5, 30, 0)]);
      && t == Keys(map[5 := Entry(30, 0, 0)], map[5 := [W2]]) && !NoStaleWaiter(t)
      && Step(t, Commit(1, 5)) == Keys(map[5 := Entry(30, 0, 0)], map[5 := []])
  {
    TwoStaged();
    var r3 := [Stage(W1, 5), Stage(W2, 5), Replace(5, 30, 0)];
    assert r3[..2] == [Stage(W1, 5), Stage(W2, 5)];
    var t := Run(EMPTY, r3);
    assert t.queue[5] == [W2] && InUse(t, 5);
  }

  // ---------------------------------------------------------------- who believes to hold a key

  /** A key was granted to `sub` for this row; it holds until `sub` commits or rolls it back. */
  datatype Grant = Grant(key: Key, entry: Entry)

  function GrantsAfter(s: Keys, g: set<Grant>, e: Event): set<Grant> {
    match e
    case Stage(w, k) => if Reply(s, w, k).IndexLock? then g + {Grant(k, Entry(w.rowid, w.engineid, w.sub))} else g
    case Commit(sub, k) => set x <- g | !(x.key == k && x.entry.sub == sub)
    case Rollback(sub, k) => set x <- g | !(x.key == k && x.entry.sub == sub)
    case _ => g
  }

  /** The open grants are exactly the staged entries, so no two subtransactions hold the same key. */
  ghost predicate GrantsAgree(s: Keys, g: set<Grant>) {
    forall x: Grant :: x in g <==> Staged(s, x.key) && s.entries[x.key] == x.entry
  }

  /** The event takes a staged key from its stager. */
  predicate Overrides(s: Keys, e: Event) {
    (e.Delete? || e.Replace?) && Staged(s, e.key)
  }

  /** Deleting or replacing a staged key under its holder is the one way to lose the agreement. */
  lemma GrantsAgreeIff(s: Keys, g: set<Grant>, e: Event)
    requires GrantsAgree(s, g) && Proper(e)
    ensures GrantsAgree(Step(s, e), GrantsAfter(s, g, e)) <==> !Overrides(s, e)
  {
    var t, h := Step(s, e), GrantsAfter(s, g, e);
    if Overrides(s, e) {
      var x := Grant(e.key, s.entries[e.key]);
      assert x in h && !Staged(t, x.key);
    } else {
      forall x: Grant ensures x in h <==> Staged(t, x.key) && t.entries[x.key] == x.entry {
        assert x in g <==> Staged(s, x.key) && s.entries[x.key] == x.entry;
      }
    }
  }

  function GrantsAfterRun(s: Keys, g: set<Grant>, run: seq<Event>): set<Grant> {
    if run == [] then g
    else GrantsAfter(Run(s, run[..|run| - 1]), GrantsAfterRun(s, g, run[..|run| - 1]), run[|run| - 1])
  }

  ghost predicate NoneOverridden(s: Keys, run: seq<Event>) {
    forall n | 0 <= n < |run| :: !Overrides(Run(s, run[..n]), run[n])
  }

  /**
   * While no delete or replace hits a staged key, the grants given over a whole
   * run and still open are exactly the staged entries: never two for one key.
   */
  lemma {:induction false} RunGrantsAgree(s: Keys, g: set<Grant>, run: seq<Event>)
    requires GrantsAgree(s, g) && AllProper(run) && NoneOverridden(s, run)
    ensures GrantsAgree(Run(s, run), GrantsAfterRun(s, g, run))
    ensures forall x, y :: x in GrantsAfterRun(s, g, run) && y in GrantsAfterRun(s, g, run) && x.key == y.key ==> x == y
  {
    if run != [] {
      var init := run[..|run| - 1];
      forall n | 0 <= n < |init| ensures !Overrides(Run(s, init[..n]), init[n]) {
        assert init[..n] == run[..n] && init[n] == run[n];
      }
      RunGrantsAgree(s, g, init);
      GrantsAgreeIff(Run(s, init), GrantsAfterRun(s, g, init), run[|run| - 1]);
    }
    var t, h := Run(s, run), GrantsAfterRun(s, g, run);
    forall x, y | x in h && y in h && x.key == y.key ensures x == y {
      assert Staged(t, x.key) && t.entries[x.key] == x.entry && t.entries[y.key] == y.entry;
    }
  }

  /**
   * The agreement can be lost: a row's commit overtakes its key's, the row is
   * deleted, and the delete takes the entry that its stager still holds. The
   * next stager is granted the same key.
   */
  lemma DeleteTakesStagedKey()
    ensures var run := [Stage(W1, 5), Delete(5), Stage(W2, 5)];
      && Run(EMPTY, run) == Keys(map[5 := Entry(20, 0, 2)], map[])
      && GrantsAfterRun(EMPTY, {}, run) == {Grant(5, Entry(10, 0, 1)), Grant(5, Entry(20, 0, 2))}
  {
    var r0: seq<Event> := [];
    var r1, r2, r3 := r0 + [Stage(W1, 5)], [Stage(W1, 5), Delete(5)], [Stage(W1, 5), Delete(5), Stage(W2, 5)];
    assert r1[..0] == r0 && r2[..1] == r1 && r3[..2] == r2;
    assert Run(EMPTY, r1) == Keys(map[5 := Entry(10, 0, 1)], map[]);
    assert GrantsAfterRun(EMPTY, {}, r1) == {Grant(5, Entry(10, 0, 1))};
    assert Run(EMPTY, r2) == Keys(map[], map[]);
    assert GrantsAfterRun(EMPTY, {}, r2) == {Grant(5, Entry(10, 0, 1))};
  }

  /** A holder's commit installs the very row it was granted. */
  lemma GrantIsCommitted(s: Keys, g: set<Grant>, x: Grant)
    requires GrantsAgree(s, g) && x in g
    ensures var t := Step(s, Commit(x.entry.sub, x.key));
      t.entries == s.entries[x.key := x.entry.(sub := 0)] && Queue(t, x.key) == []
    ensures forall y <- g :: y.key == x.key ==> y == x
  {
    assert Staged(s, x.key);
    forall y | y in g && y.key == x.key ensures y == x {
      assert Staged(s, y.key) && s.entries[y.key] == y.entry;
    }
  }
}
