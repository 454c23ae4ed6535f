/** Every two-phase run of a partition is equivalent to running the committed subtransactions one at a time,
    in the order of their first commit messages. */
module Serializability {
  import opened Options
  import opened RowStore
  import opened Sequences

  // ---------------------------------------------------------------- the reference: one subtransaction at a time

  /** What a subtransaction has been granted, has been told to be gone, or has staged. */
  datatype Op = Read(rid: RowId, text: Text) | Gone(rid: RowId) | Ins(rid: RowId, text: Text) | Upd(rid: RowId, text: Text) | Del(rid: RowId)

  /** A sequential execution: `view` is what selects return, `result` what will be there after the commit. */
  datatype Serial = Serial(view: map<RowId, Text>, result: map<RowId, Text>)

  function Apply(s: Serial, op: Op): Serial {
    match op
    case Read(_, _) => s
    case Gone(_) => s
    case Ins(r, t) => Serial(s.view[r := t], s.result[r := t])
    case Upd(r, t) => if r in s.result then s.(result := s.result[r := t]) else s
    case Del(r) => s.(result := s.result - {r})
  }

  function Replay(db: map<RowId, Text>, log: seq<Op>): Serial {
    if log == [] then Serial(db, db) else Apply(Replay(db, log[..|log| - 1]), log[|log| - 1])
  }

  /** Sequentially, every recorded read returns the recorded text or finds the row gone, and writes hit rows that exist (inserts: that do not). */
  ghost predicate Valid(db: map<RowId, Text>, log: seq<Op>) {
    log == [] ||
    var init, last := log[..|log| - 1], log[|log| - 1];
    var s := Replay(db, init);
    Valid(db, init) &&
    match last
    case Read(r, t) => r in s.view && s.view[r] == t
    case Gone(r) => r !in s.view
    case Ins(r, t) => r !in s.view && r !in s.result
    case Upd(r, _) => r in s.view
    case Del(r) => r in s.view
  }

  function SerialRun(db: map<RowId, Text>, history: seq<seq<Op>>): map<RowId, Text> {
    if history == [] then db
    else Replay(SerialRun(db, history[..|history| - 1]), history[|history| - 1]).result
  }

  ghost predicate SerialValid(db: map<RowId, Text>, history: seq<seq<Op>>) {
    history == [] ||
    (SerialValid(db, history[..|history| - 1]) &&
     Valid(SerialRun(db, history[..|history| - 1]), history[|history| - 1]))
  }

  // ---------------------------------------------------------------- concurrent runs

  datatype Event =
    | Select(q: Request, rids: seq<RowId>)
    | Insert(sub: SubId, text: Text)
    | Update(sub: SubId, rid: RowId, text: Text)
    | Delete(sub: SubId, rid: RowId)
    | ReplaceDelete(sub: SubId, rid: RowId, f: Forwarder)
    | Release(sub: SubId, cmd: Cmd, rids: seq<RowId>)

  /** The store, the operations of every open subtransaction, the subtransactions that have begun to release and
      still hold something, the committed ones in commit order, and the ledger of PENDINGLOCK answers and of queue
      entries drained. */
  datatype Sys = Sys(
    store: Store,
    logs: map<SubId, seq<Op>>,
    closing: map<SubId, Cmd>,
    history: seq<seq<Op>>,
    asked: seq<(RowId, Waiter)>,
    drained: seq<(RowId, Waiter)>)

  function LogIn(logs: map<SubId, seq<Op>>, sub: SubId): seq<Op> {
    if sub in logs then logs[sub] else []
  }

  function Log(y: Sys, sub: SubId): seq<Op> {
    LogIn(y.logs, sub)
  }

  /** NOTFOUNDLOCK is an answer too, for row ids up to `next`, which are all handed out; of later ones it says nothing lasting. */
  function ReadOf(a: ReturnRow, next: RowId): seq<Op> {
    if IsGrant(a) then [Read(a.rowid, a.row)] else if a.answer.NotFound? && a.rowid <= next then [Gone(a.rowid)] else []
  }

  function Reads(a: seq<ReturnRow>, next: RowId): seq<Op> {
    if a == [] then [] else ReadOf(a[0], next) + Reads(a[1..], next)
  }

  function Pendings(q: Request, a: seq<ReturnRow>): seq<(RowId, Waiter)> {
    if a == [] then []
    else (if a[0].answer.Pending? then [(a[0].rowid, AsWaiter(q))] else []) + Pendings(q, a[1..])
  }

  function Record(y: Sys, store: Store, sub: SubId, ops: seq<Op>): Sys {
    y.(store := store, logs := y.logs[sub := Log(y, sub) + ops])
  }

  function Actor(e: Event): SubId {
    match e
    case Select(q, _) => q.sub
    case Insert(s, _) => s
    case Update(s, _, _) => s
    case Delete(s, _) => s
    case ReplaceDelete(s, _, _) => s
    case Release(s, _, _) => s
  }

  /** What the engine can execute at all: subtransaction ids are positive, named rows exist. */
  ghost predicate Runnable(y: Sys, e: Event) {
    Actor(e) != 0 && (e.Release? ==> Releasable(y.store, e.sub, e.cmd, e.rids))
  }

  /**
   * Two phases: once a subtransaction has sent a commit or rollback message it only sends more of the same kind.
   * Each may name any of its rows: a commit sends a second message for the rows it has replaced, a rollback one
   * message for each row.
   */
  predicate TwoPhase(y: Sys, e: Event) {
    if e.Release? then !e.cmd.Unlock? && (e.sub in y.closing ==> e.cmd == y.closing[e.sub]) else Actor(e) !in y.closing
  }

  ghost predicate Allowed(y: Sys, e: Event) {
    Runnable(y, e) && TwoPhase(y, e)
  }

  /** After a release message `sub` is closing for as long as it holds anything. */
  ghost function Closing(closing: map<SubId, Cmd>, t: Store, sub: SubId, cmd: Cmd): map<SubId, Cmd> {
    if exists r :: Holds(t, sub, r) then closing[sub := cmd] else closing - {sub}
  }

  ghost function Step(y: Sys, e: Event): Sys
    requires Runnable(y, e)
  {
    match e
    case Select(q, rids) =>
      var (t, a) := SelectMany(y.store, q, rids);
      Record(y, t, q.sub, Reads(a, y.store.next)).(asked := y.asked + Pendings(q, a))
    case Insert(sub, text) => Record(y, InsertRow(y.store, sub, text), sub, [Ins(y.store.next + 1, text)])
    case Update(sub, r, text) =>
      Record(y, UpdateRow(y.store, sub, r, text), sub, if WriteHeld(y.store, sub, r) then [Upd(r, text)] else [])
    case Delete(sub, r) =>
      Record(y, DeleteRow(y.store, sub, r), sub, if WriteHeld(y.store, sub, r) then [Del(r)] else [])
    case ReplaceDelete(sub, r, f) =>
      Record(y, ReplaceDeleteRow(y.store, sub, r, f), sub, if WriteHeld(y.store, sub, r) then [Del(r)] else [])
    case Release(sub, cmd, rids) =>
      var (t, d) := ReleaseMany(y.store, sub, cmd, rids);
      Sys(t, y.logs - {sub}, Closing(y.closing, t, sub, cmd),
          if cmd.Commit? && sub !in y.closing then y.history + [Log(y, sub)] else y.history,
          y.asked, y.drained + d)
  }

  ghost predicate AllRunnable(y: Sys, run: seq<Event>)
    decreases |run|
  {
    run == [] || (Runnable(y, run[0]) && AllRunnable(Step(y, run[0]), run[1..]))
  }

  ghost predicate AllTwoPhase(y: Sys, run: seq<Event>)
    requires AllRunnable(y, run)
    decreases |run|
  {
    run == [] || (TwoPhase(y, run[0]) && AllTwoPhase(Step(y, run[0]), run[1..]))
  }

  ghost function Run(y: Sys, run: seq<Event>): Sys
    requires AllRunnable(y, run)
    decreases |run|
  {
    if run == [] then y else Run(Step(y, run[0]), run[1..])
  }

  // ---------------------------------------------------------------- facts about replaying a log

  function Touched(log: seq<Op>): set<RowId> {
    set op | op in log && !op.Gone? :: op.rid
  }

  function Missing(log: seq<Op>): set<RowId> {
    set op | op in log && op.Gone? :: op.rid
  }

  predicate AgreeAt(m: map<RowId, Text>, n: map<RowId, Text>, r: RowId) {
    (r in m <==> r in n) && (r in m ==> m[r] == n[r])
  }

  lemma SameMap(m: map<RowId, Text>, n: map<RowId, Text>)
    requires forall r :: AgreeAt(m, n, r)
    ensures m == n
  {
    forall r ensures (r in m <==> r in n) && (r in m ==> m[r] == n[r]) {
      assert AgreeAt(m, n, r);
    }
  }

  lemma TouchedPush(log: seq<Op>, op: Op)
    ensures Touched(log + [op]) == Touched(log) + if op.Gone? then {} else {op.rid}
    ensures Missing(log + [op]) == Missing(log) + if op.Gone? then {op.rid} else {}
  {
    assert forall o :: o in log + [op] <==> o in log || o == op;
  }

  lemma TouchedInit(log: seq<Op>)
    requires log != []
    ensures var op := log[|log| - 1];
      && Touched(log) == Touched(log[..|log| - 1]) + (if op.Gone? then {} else {op.rid})
      && Missing(log) == Missing(log[..|log| - 1]) + if op.Gone? then {op.rid} else {}
  {
    assert log == log[..|log| - 1] + [log[|log| - 1]];
    TouchedPush(log[..|log| - 1], log[|log| - 1]);
  }

  /** A log leaves every row it does not touch as it was. */
  lemma {:induction false} ReplayUntouched(db: map<RowId, Text>, log: seq<Op>, r: RowId)
    requires r !in Touched(log)
    ensures AgreeAt(Replay(db, log).view, db, r) && AgreeAt(Replay(db, log).result, db, r)
  {
    if log != [] {
      TouchedInit(log);
      ReplayUntouched(db, log[..|log| - 1], r);
    }
  }

  /** Replaying a log depends only on the rows it touches or misses. */
  lemma {:induction false} ReplayFrame(db: map<RowId, Text>, db': map<RowId, Text>, log: seq<Op>)
    requires forall r <- Touched(log) + Missing(log) :: AgreeAt(db, db', r)
    ensures Valid(db, log) <==> Valid(db', log)
    ensures forall r <- Touched(log) ::
              AgreeAt(Replay(db, log).view, Replay(db', log).view, r) && AgreeAt(Replay(db, log).result, Replay(db', log).result, r)
  {
    if log != [] {
      var init, last := log[..|log| - 1], log[|log| - 1];
      TouchedInit(log);
      ReplayFrame(db, db', init);
      assert last.rid in Touched(log) + Missing(log);
      assert AgreeAt(db, db', last.rid);
      if last.rid !in Touched(init) {
        ReplayUntouched(db, init, last.rid);
        ReplayUntouched(db', init, last.rid);
      }
    }
  }

  // ---------------------------------------------------------------- the invariant

  /** Row `r` of the store is what replaying the holder's log on the committed rows predicts. */
  ghost predicate Match(s: Store, p: Serial, r: RowId) {
    && r in s.rows
    && r in p.view && p.view[r] == s.rows[r].row
    && (r in p.result <==> Outcome(s, r).Some?)
    && (r in p.result ==> p.result[r] == Outcome(s, r).value)
  }

  /** The row id has been handed out and the row is gone; it never comes back. */
  predicate Absent(s: Store, r: RowId) {
    r !in s.rows && r <= s.next
  }

  ghost predicate NoneRevived(s: Store, t: Store) {
    s.next <= t.next && forall r :: Absent(s, r) ==> Absent(t, r)
  }

  ghost predicate LogOk(s: Store, sub: SubId, log: seq<Op>) {
    && Valid(Committed(s), log)
    && (forall r <- Missing(log) :: Absent(s, r))
    && forall r <- Touched(log) :: Holds(s, sub, r) && Match(s, Replay(Committed(s), log), r)
  }

  /** Every write lock is in its holder's log, unless the holder is closing. */
  ghost predicate WritersLogged(s: Store, logs: map<SubId, seq<Op>>, closing: map<SubId, Cmd>) {
    forall r <- s.rows :: s.rows[r].flags.lock.WriteLock? && s.rows[r].writer !in closing ==>
      s.rows[r].writer in logs && r in Touched(logs[s.rows[r].writer])
  }

  ghost predicate LogsOk(s: Store, logs: map<SubId, seq<Op>>, closing: map<SubId, Cmd>) {
    && LocksOk(s)
    && (forall x <- logs :: LogOk(s, x, logs[x]))
    && WritersLogged(s, logs, closing)
    && logs.Keys !! closing.Keys
  }

  /** A log whose rows have not changed is still right, whatever else has happened. */
  lemma LogOkFrame(s: Store, t: Store, sub: SubId, log: seq<Op>)
    requires LogOk(s, sub, log) && NoneRevived(s, t)
    requires forall r <- Touched(log) ::
               && Holds(t, sub, r) && t.rows[r].row == s.rows[r].row && Outcome(s, r) == Outcome(t, r)
               && t.rows[r].flags.insert == s.rows[r].flags.insert
    ensures LogOk(t, sub, log)
  {
    forall r | r in Touched(log) + Missing(log) ensures AgreeAt(Committed(s), Committed(t), r) {
      if r in Missing(log) { assert Absent(s, r) && Absent(t, r); } else { assert Holds(s, sub, r); }
    }
    ReplayFrame(Committed(s), Committed(t), log);
    forall r | r in Touched(log) ensures Match(t, Replay(Committed(t), log), r) {
      assert Match(s, Replay(Committed(s), log), r);
    }
  }

  lemma PushRead(s: Store, sub: SubId, log: seq<Op>, r: RowId)
    requires LogOk(s, sub, log) && Holds(s, sub, r)
    requires r in Touched(log) || (r in Committed(s) && Outcome(s, r) == Some(s.rows[r].row))
    ensures LogOk(s, sub, log + [Read(r, s.rows[r].row)])
  {
    var db, op := Committed(s), Read(r, s.rows[r].row);
    var more := log + [op];
    assert more[..|more| - 1] == log && more[|more| - 1] == op;
    TouchedPush(log, op);
    if r !in Touched(log) {
      ReplayUntouched(db, log, r);
    } else {
      assert Match(s, Replay(db, log), r);
    }
  }

  /** What is gone stays gone in every replay. */
  lemma PushGone(s: Store, sub: SubId, log: seq<Op>, r: RowId)
    requires LogOk(s, sub, log) && Absent(s, r)
    ensures LogOk(s, sub, log + [Gone(r)])
  {
    var more := log + [Gone(r)];
    assert more[..|more| - 1] == log && more[|more| - 1] == Gone(r);
    TouchedPush(log, Gone(r));
    assert r !in Touched(log) by {
      assert !Holds(s, sub, r);
    }
    ReplayUntouched(Committed(s), log, r);
    forall i | i in Touched(more) ensures Holds(s, sub, i) && Match(s, Replay(Committed(s), more), i) {
      assert Holds(s, sub, i) && Match(s, Replay(Committed(s), log), i);
    }
  }

  lemma SelectKeepsLog(s: Store, t: Store, q: Request, r: RowId, a: seq<ReturnRow>, x: SubId, log: seq<Op>)
    requires LogOk(s, x, log) && SelectEffect(s, t, q, r, a)
    ensures LogOk(t, x, log)
  {
    forall i | i in Touched(log)
      ensures Holds(t, x, i) && t.rows[i].row == s.rows[i].row && Outcome(s, i) == Outcome(t, i)
              && t.rows[i].flags.insert == s.rows[i].flags.insert
    {
      assert Holds(s, x, i);
      assert i != r ==> SameRowState(s, t, i);
    }
    forall i | Absent(s, i) ensures Absent(t, i) {
      assert SameRowState(s, t, i);
    }
    LogOkFrame(s, t, x, log);
  }

  lemma SelectCommitted(s: Store, t: Store, q: Request, r: RowId, a: seq<ReturnRow>)
    requires SelectEffect(s, t, q, r, a)
    ensures Committed(t) == Committed(s)
  {
    forall i ensures AgreeAt(Committed(t), Committed(s), i) {
      assert i != r ==> SameRowState(s, t, i);
    }
    SameMap(Committed(t), Committed(s));
  }

  lemma SelectKeepsLogs(s: Store, t: Store, logs: map<SubId, seq<Op>>, closing: map<SubId, Cmd>, q: Request, r: RowId, a: seq<ReturnRow>)
    requires LogsOk(s, logs, closing) && SelectEffect(s, t, q, r, a) && q.sub !in closing
    ensures forall x <- logs :: LogOk(t, x, logs[x])
    ensures LogOk(t, q.sub, LogIn(logs, q.sub))
  {
    forall x | x in logs ensures LogOk(t, x, logs[x]) {
      SelectKeepsLog(s, t, q, r, a, x, logs[x]);
    }
  }

  /** What is granted anew is committed text that nobody is about to change. */
  lemma GrantReads(s: Store, t: Store, q: Request, r: RowId, a: seq<ReturnRow>)
    requires SelectEffect(s, t, q, r, a) && a != [] && IsGrant(a[0])
    ensures WriteHeld(s, q.sub, r) || (r in Committed(t) && Outcome(t, r) == Some(t.rows[r].row))
  {
    SelectCommitted(s, t, q, r, a);
    assert RowOk(s, r) && RowOk(t, r);
    if s.rows[r].flags.lock.WriteLock? {
      assert WriteHeld(s, s.rows[r].writer, r);
    }
  }

  lemma GrantStep(s: Store, t: Store, logs: map<SubId, seq<Op>>, closing: map<SubId, Cmd>, q: Request, r: RowId, a: seq<ReturnRow>)
    requires LogsOk(s, logs, closing) && SelectEffect(s, t, q, r, a) && q.sub !in closing && a != [] && IsGrant(a[0])
    ensures LogsOk(t, logs[q.sub := LogIn(logs, q.sub) + [Read(r, a[0].row)]], closing)
  {
    var log, op := LogIn(logs, q.sub), Read(r, a[0].row);
    SelectKeepsLogs(s, t, logs, closing, q, r, a);
    assert LogOk(t, q.sub, log + [op]) by {
      GrantReads(s, t, q, r, a);
      PushRead(t, q.sub, log, r);
    }
    TouchedPush(log, op);
    if WriteHeld(t, q.sub, r) {
      WritersKept(s, t, logs, closing, q.sub, log + [op], r);
    } else {
      assert RowOk(t, r);
      ReadersKept(s, t, logs, closing, q.sub, log + [op], r);
    }
  }

  lemma GoneStep(s: Store, t: Store, logs: map<SubId, seq<Op>>, closing: map<SubId, Cmd>, q: Request, r: RowId, a: seq<ReturnRow>)
    requires LogsOk(s, logs, closing) && SelectEffect(s, t, q, r, a) && q.sub !in closing
    requires a != [] && a[0].answer.NotFound? && r <= s.next
    ensures LogsOk(t, logs[q.sub := LogIn(logs, q.sub) + [Gone(r)]], closing)
  {
    var log := LogIn(logs, q.sub);
    SelectKeepsLogs(s, t, logs, closing, q, r, a);
    assert SameRowState(s, t, r);
    PushGone(t, q.sub, log, r);
    TouchedPush(log, Gone(r));
    ReadersKept(s, t, logs, closing, q.sub, log + [Gone(r)], r);
  }

  lemma NoGrantStep(s: Store, t: Store, logs: map<SubId, seq<Op>>, closing: map<SubId, Cmd>, q: Request, r: RowId, a: seq<ReturnRow>)
    requires LogsOk(s, logs, closing) && SelectEffect(s, t, q, r, a) && q.sub !in closing && !(a != [] && IsGrant(a[0]))
    ensures LogsOk(t, logs[q.sub := LogIn(logs, q.sub)], closing)
  {
    SelectKeepsLogs(s, t, logs, closing, q, r, a);
    ReadersKept(s, t, logs, closing, q.sub, LogIn(logs, q.sub), r);
  }

  lemma SelectOneStep(s: Store, t: Store, logs: map<SubId, seq<Op>>, closing: map<SubId, Cmd>, q: Request, r: RowId, a: seq<ReturnRow>)
    requires LogsOk(s, logs, closing) && SelectEffect(s, t, q, r, a) && q.sub !in closing
    ensures LogsOk(t, logs[q.sub := LogIn(logs, q.sub) + Reads(a, s.next)], closing)
  {
    assert a != [] ==> a[1..] == [] && Reads(a, s.next) == ReadOf(a[0], s.next);
    if a != [] && IsGrant(a[0]) {
      GrantStep(s, t, logs, closing, q, r, a);
    } else if a != [] && a[0].answer.NotFound? && r <= s.next {
      GoneStep(s, t, logs, closing, q, r, a);
    } else {
      assert Reads(a, s.next) == [] && LogIn(logs, q.sub) + [] == LogIn(logs, q.sub);
      NoGrantStep(s, t, logs, closing, q, r, a);
    }
  }

  /** Every write lock is still in its holder's log when only row `r` was locked, by `sub`. */
  lemma WritersKept(s: Store, t: Store, logs: map<SubId, seq<Op>>, closing: map<SubId, Cmd>, sub: SubId, more: seq<Op>, r: RowId)
    requires LogsOk(s, logs, closing) && Touched(LogIn(logs, sub)) + {r} <= Touched(more)
    requires WriteHeld(t, sub, r)
    requires forall i | i in t.rows && i != r :: SameRowState(s, t, i)
    ensures WritersLogged(t, logs[sub := more], closing)
  {
    forall i | i in t.rows && t.rows[i].flags.lock.WriteLock? && t.rows[i].writer !in closing
      ensures t.rows[i].writer in logs[sub := more] && i in Touched(logs[sub := more][t.rows[i].writer])
    {
      assert i != r ==> SameRowState(s, t, i);
    }
  }

  /** The same when the lock taken, if any, is a read lock. */
  lemma ReadersKept(s: Store, t: Store, logs: map<SubId, seq<Op>>, closing: map<SubId, Cmd>, sub: SubId, more: seq<Op>, r: RowId)
    requires LogsOk(s, logs, closing) && Touched(LogIn(logs, sub)) <= Touched(more)
    requires SameRowState(s, t, r) || (r in t.rows && !t.rows[r].flags.lock.WriteLock?)
    requires forall i | i != r :: SameRowState(s, t, i)
    ensures WritersLogged(t, logs[sub := more], closing)
  {
    forall i | i in t.rows && t.rows[i].flags.lock.WriteLock? && t.rows[i].writer !in closing
      ensures t.rows[i].writer in logs[sub := more] && i in Touched(logs[sub := more][t.rows[i].writer])
    {
      assert i != r ==> SameRowState(s, t, i);
    }
  }

  /** Two grants in a row record what one select of both records. */
  lemma LogTwice(logs: map<SubId, seq<Op>>, sub: SubId, one: seq<Op>, two: seq<Op>)
    ensures var logs1 := logs[sub := LogIn(logs, sub) + one];
      logs1[sub := LogIn(logs1, sub) + two] == logs[sub := LogIn(logs, sub) + (one + two)]
  {
    assert (LogIn(logs, sub) + one) + two == LogIn(logs, sub) + (one + two);
  }

  lemma {:induction false} SelectStep(s: Store, logs: map<SubId, seq<Op>>, closing: map<SubId, Cmd>, q: Request, rids: seq<RowId>)
    requires LogsOk(s, logs, closing) && q.sub != 0 && q.sub !in closing
    ensures var (t, a) := SelectMany(s, q, rids);
      LogsOk(t, logs[q.sub := LogIn(logs, q.sub) + Reads(a, s.next)], closing) && Committed(t) == Committed(s)
    decreases |rids|, 1
  {
    if rids == [] {
      assert LogIn(logs, q.sub) + [] == LogIn(logs, q.sub);
      assert LogOk(s, q.sub, LogIn(logs, q.sub));
    } else {
      var (s1, a1) := SelectOne(s, q, rids[0]);
      SelectOneSound(s, q, rids[0]);
      SelectStepFrom(s, s1, logs, closing, q, rids, a1);
    }
  }

  lemma {:induction false} SelectStepFrom(
      s: Store, s1: Store, logs: map<SubId, seq<Op>>, closing: map<SubId, Cmd>, q: Request, rids: seq<RowId>, a1: seq<ReturnRow>)
    requires LogsOk(s, logs, closing) && q.sub != 0 && q.sub !in closing && rids != []
    requires SelectEffect(s, s1, q, rids[0], a1)
    ensures var (t, a2) := SelectMany(s1, q, rids[1..]);
      LogsOk(t, logs[q.sub := LogIn(logs, q.sub) + Reads(a1 + a2, s.next)], closing) && Committed(t) == Committed(s)
    decreases |rids|, 0
  {
    var a2 := SelectMany(s1, q, rids[1..]).1;
    SelectOneStep(s, s1, logs, closing, q, rids[0], a1);
    SelectCommitted(s, s1, q, rids[0], a1);
    SelectStep(s1, logs[q.sub := LogIn(logs, q.sub) + Reads(a1, s.next)], closing, q, rids[1..]);
    ReadsAppend(a1, a2, s.next);
    LogTwice(logs, q.sub, Reads(a1, s.next), Reads(a2, s.next));
  }

  lemma ReadsFirst(one: ReturnRow, rest: seq<ReturnRow>, next: RowId)
    ensures Reads([one] + rest, next) == ReadOf(one, next) + Reads(rest, next)
  {
    assert ([one] + rest)[1..] == rest;
  }

  lemma {:induction false} ReadsAppend(a: seq<ReturnRow>, b: seq<ReturnRow>, next: RowId)
    ensures Reads(a + b, next) == Reads(a, next) + Reads(b, next)
  {
    if a == [] {
      assert a + b == b;
    } else {
      var one, rest := a[0], a[1..];
      assert a == [one] + rest && a + b == [one] + (rest + b);
      ReadsFirst(one, rest, next);
      ReadsFirst(one, rest + b, next);
      ReadsAppend(rest, b, next);
      Assoc(ReadOf(one, next), Reads(rest, next), Reads(b, next));
    }
  }

  /** `t` is `s` with an update or delete staged on a row that `sub` holds. */
  ghost predicate StagedOp(s: Store, t: Store, sub: SubId, op: Op) {
    && LocksOk(s) && LocksOk(t) && (op.Upd? || op.Del?) && t.next == s.next
    && WriteHeld(s, sub, op.rid) && WriteHeld(t, sub, op.rid)
    && t.rows[op.rid].row == s.rows[op.rid].row && t.rows[op.rid].flags.insert == s.rows[op.rid].flags.insert
    && Outcome(t, op.rid) == (if op.Del? || Outcome(s, op.rid).None? then None else Some(op.text))
    && forall i | i != op.rid :: SameRowState(s, t, i)
  }

  lemma StageRevivesNone(s: Store, t: Store, sub: SubId, op: Op)
    requires StagedOp(s, t, sub, op)
    ensures NoneRevived(s, t)
  {
    forall i | Absent(s, i) ensures Absent(t, i) {
      assert SameRowState(s, t, i);
    }
  }

  lemma StageKeepsOthers(s: Store, t: Store, sub: SubId, op: Op, x: SubId, log: seq<Op>)
    requires StagedOp(s, t, sub, op) && LogOk(s, x, log) && x != sub
    ensures LogOk(t, x, log)
  {
    forall i | i in Touched(log) ensures SameRowState(s, t, i) && Holds(t, x, i) {
      assert Holds(s, x, i) && RowOk(s, op.rid);
    }
    StageRevivesNone(s, t, sub, op);
    LogOkFrame(s, t, x, log);
  }

  lemma PushStaged(s: Store, t: Store, sub: SubId, log: seq<Op>, op: Op)
    requires StagedOp(s, t, sub, op) && LogOk(s, sub, log) && op.rid in Touched(log) && Committed(t) == Committed(s)
    ensures LogOk(t, sub, log + [op])
  {
    var db, more := Committed(s), log + [op];
    assert more[..|more| - 1] == log && more[|more| - 1] == op;
    TouchedPush(log, op);
    assert Match(s, Replay(db, log), op.rid);
    StageRevivesNone(s, t, sub, op);
    assert forall i <- Missing(more) :: Absent(s, i) && Absent(t, i);
    forall i | i in Touched(more) ensures Holds(t, sub, i) && Match(t, Replay(db, more), i) {
      assert Holds(s, sub, i) && Match(s, Replay(db, log), i);
      assert i != op.rid ==> SameRowState(s, t, i);
    }
  }

  lemma StageStep(s: Store, t: Store, logs: map<SubId, seq<Op>>, closing: map<SubId, Cmd>, sub: SubId, op: Op)
    requires LogsOk(s, logs, closing) && sub !in closing && StagedOp(s, t, sub, op) && Committed(t) == Committed(s)
    ensures LogsOk(t, logs[sub := LogIn(logs, sub) + [op]], closing)
  {
    var more := LogIn(logs, sub) + [op];
    forall x | x in logs && x != sub ensures LogOk(t, x, logs[x]) {
      StageKeepsOthers(s, t, sub, op, x, logs[x]);
    }
    PushStaged(s, t, sub, LogIn(logs, sub), op);
    TouchedPush(LogIn(logs, sub), op);
    WritersKept(s, t, logs, closing, sub, more, op.rid);
  }

  /** A store that only gained rows agrees with the logs of the old one. */
  lemma GrowKeepsLog(s: Store, t: Store, x: SubId, log: seq<Op>)
    requires LogOk(s, x, log) && NoneRevived(s, t) && forall i | i in s.rows :: SameRowState(s, t, i)
    ensures LogOk(t, x, log)
  {
    forall i | i in Touched(log) ensures SameRowState(s, t, i) {
      assert Holds(s, x, i);
    }
    LogOkFrame(s, t, x, log);
  }

  lemma PushInsert(t: Store, sub: SubId, log: seq<Op>, r: RowId)
    requires LocksOk(t) && LogOk(t, sub, log) && WriteHeld(t, sub, r)
    requires r !in Touched(log) && r !in Committed(t) && Outcome(t, r) == Some(t.rows[r].row)
    ensures LogOk(t, sub, log + [Ins(r, t.rows[r].row)])
  {
    var op := Ins(r, t.rows[r].row);
    var more := log + [op];
    assert more[..|more| - 1] == log && more[|more| - 1] == op;
    TouchedPush(log, op);
    ReplayUntouched(Committed(t), log, r);
    forall i | i in Touched(more) ensures Holds(t, sub, i) && Match(t, Replay(Committed(t), more), i) {
      if i != r { assert Holds(t, sub, i) && Match(t, Replay(Committed(t), log), i); }
    }
  }

  lemma InsertStep(s: Store, logs: map<SubId, seq<Op>>, closing: map<SubId, Cmd>, sub: SubId, text: Text)
    requires LogsOk(s, logs, closing) && sub != 0 && sub !in closing
    ensures LogsOk(InsertRow(s, sub, text), logs[sub := LogIn(logs, sub) + [Ins(s.next + 1, text)]], closing)
  {
    var r, log, t := s.next + 1, LogIn(logs, sub), InsertRow(s, sub, text);
    InsertSound(s, sub, text);
    forall x | x in logs ensures LogOk(t, x, logs[x]) {
      GrowKeepsLog(s, t, x, logs[x]);
    }
    assert r !in Touched(log) by {
      assert !Holds(s, sub, r);
      assert sub in logs ==> LogOk(s, sub, log);
    }
    assert LogOk(t, sub, log);
    PushInsert(t, sub, log, r);
    TouchedPush(log, Ins(r, text));
    WritersKept(s, t, logs, closing, sub, log + [Ins(r, text)], r);
  }

  // ---------------------------------------------------------------- the final commit or rollback

  /** Held rows that are named end up as the commit or rollback says, all others are untouched. */
  ghost predicate AllReleased(s: Store, t: Store, sub: SubId, cmd: Cmd, rids: seq<RowId>) {
    && LocksOk(s) && LocksOk(t) && t.next == s.next
    && forall r :: if Holds(s, sub, r) && r in rids then Released(s, t, sub, cmd, r) else SameRowState(s, t, r)
  }

  lemma ReleaseRest(s: Store, s1: Store, t: Store, sub: SubId, cmd: Cmd, rids: seq<RowId>, r: RowId)
    requires rids != [] && forall x | x != rids[0] :: SameRowState(s, s1, x)
    requires if Holds(s, sub, rids[0]) then Released(s, s1, sub, cmd, rids[0]) else SameRowState(s, s1, rids[0])
    requires if Holds(s1, sub, r) && r in rids[1..] then Released(s1, t, sub, cmd, r) else SameRowState(s1, t, r)
    ensures if Holds(s, sub, r) && r in rids then Released(s, t, sub, cmd, r) else SameRowState(s, t, r)
  {
    if r != rids[0] { assert SameRowState(s, s1, r); }
  }

  /** A whole release: held rows that are named end up as their commit or rollback says, all others are untouched. */
  lemma {:induction false} ReleaseManySound(s: Store, sub: SubId, cmd: Cmd, rids: seq<RowId>)
    requires LocksOk(s) && sub != 0 && !cmd.Unlock? && Releasable(s, sub, cmd, rids)
    ensures AllReleased(s, ReleaseMany(s, sub, cmd, rids).0, sub, cmd, rids)
    decreases |rids|
  {
    if rids != [] {
      var s1 := ReleaseAndDrain(s, sub, cmd, rids[0]).0;
      var t := ReleaseMany(s1, sub, cmd, rids[1..]).0;
      ReleaseFrame(s, sub, cmd, rids[0]);
      ReleaseKeeps(s, sub, cmd, rids[0]);
      if Holds(s, sub, rids[0]) { ReleaseHeld(s, sub, cmd, rids[0]); } else { ReleaseUnheld(s, sub, cmd, rids[0]); }
      ReleaseManySound(s1, sub, cmd, rids[1..]);
      forall r ensures if Holds(s, sub, r) && r in rids then Released(s, t, sub, cmd, r) else SameRowState(s, t, r) {
        ReleaseRest(s, s1, t, sub, cmd, rids, r);
      }
    }
  }

  /** Releasing changes no row text, committed or staged, of a row someone else still holds. */
  lemma ReleaseKeepsLog(s: Store, t: Store, sub: SubId, cmd: Cmd, rids: seq<RowId>, x: SubId, log: seq<Op>)
    requires LogOk(s, x, log) && x != sub
    requires AllReleased(s, t, sub, cmd, rids)
    ensures LogOk(t, x, log)
  {
    forall r | r in Touched(log)
      ensures && Holds(t, x, r) && t.rows[r].row == s.rows[r].row && Outcome(s, r) == Outcome(t, r)
              && t.rows[r].flags.insert == s.rows[r].flags.insert
    {
      assert Holds(s, x, r) && RowOk(s, r);
      if Holds(s, sub, r) && r in rids { assert Released(s, t, sub, cmd, r); } else { assert SameRowState(s, t, r); }
    }
    forall i | Absent(s, i) ensures Absent(t, i) {
      assert SameRowState(s, t, i);
    }
    LogOkFrame(s, t, x, log);
  }

  // ---------------------------------------------------------------- the table once every begun commit is through

  predicate Committing(s: Store, closing: map<SubId, Cmd>, r: RowId) {
    && r in s.rows && s.rows[r].flags.lock.WriteLock?
    && s.rows[r].writer in closing && closing[s.rows[r].writer].Commit?
  }

  /** The text of a row when all commits that have begun will be finished. */
  function Promised(s: Store, closing: map<SubId, Cmd>, r: RowId): Option<Text> {
    if Committing(s, closing, r) then Outcome(s, r)
    else if r in Committed(s) then Some(Committed(s)[r])
    else None
  }

  function Settled(s: Store, closing: map<SubId, Cmd>): map<RowId, Text> {
    map r | r in s.rows && Promised(s, closing, r).Some? :: Promised(s, closing, r).value
  }

  lemma SettledAt(s: Store, closing: map<SubId, Cmd>, r: RowId)
    ensures r in Settled(s, closing) <==> Promised(s, closing, r).Some?
    ensures r in Settled(s, closing) ==> Settled(s, closing)[r] == Promised(s, closing, r).value
  {
  }

  /** Between commits the table is exactly the committed rows. */
  lemma SettledIsCommitted(s: Store, closing: map<SubId, Cmd>)
    requires forall r :: !Committing(s, closing, r)
    ensures Settled(s, closing) == Committed(s)
  {
    forall r ensures AgreeAt(Settled(s, closing), Committed(s), r) {
      assert !Committing(s, closing, r);
      SettledAt(s, closing, r);
    }
    SameMap(Settled(s, closing), Committed(s));
  }

  lemma SamePromises(s: Store, c: map<SubId, Cmd>, t: Store, d: map<SubId, Cmd>)
    requires forall r :: Promised(s, c, r) == Promised(t, d, r)
    ensures Settled(s, c) == Settled(t, d)
  {
    forall r ensures AgreeAt(Settled(s, c), Settled(t, d), r) {
      SettledAt(s, c, r);
      SettledAt(t, d, r);
      assert Promised(s, c, r) == Promised(t, d, r);
    }
    SameMap(Settled(s, c), Settled(t, d));
  }

  /** An open subtransaction has locked what it touched, and what it found gone stays gone: for it both tables are the same. */
  lemma OpenAgrees(s: Store, closing: map<SubId, Cmd>, sub: SubId, log: seq<Op>)
    requires LocksOk(s) && LogOk(s, sub, log) && sub !in closing
    ensures forall r <- Touched(log) + Missing(log) :: AgreeAt(Committed(s), Settled(s, closing), r)
  {
    forall r | r in Touched(log) + Missing(log) ensures AgreeAt(Committed(s), Settled(s, closing), r) {
      if r in Missing(log) { assert Absent(s, r); } else { assert Holds(s, sub, r) && RowOk(s, r); }
      SettledAt(s, closing, r);
    }
  }

  /** What a release message makes of a row, once all begun commits are through. */
  function Target(s: Store, closing: map<SubId, Cmd>, sub: SubId, cmd: Cmd, r: RowId): Option<Text> {
    if cmd.Commit? && WriteHeld(s, sub, r) then Outcome(s, r) else Promised(s, closing, r)
  }

  /** `closing` and `closing'` differ at most in `sub`, which is closing with `cmd` if it still holds anything. */
  ghost predicate ClosedBy(t: Store, closing: map<SubId, Cmd>, closing': map<SubId, Cmd>, sub: SubId, cmd: Cmd) {
    && (forall x | x != sub :: (x in closing <==> x in closing') && (x in closing ==> closing[x] == closing'[x]))
    && (forall r | Holds(t, sub, r) :: sub in closing' && closing'[sub] == cmd)
  }

  lemma ReleasePromises(s: Store, t: Store, sub: SubId, cmd: Cmd, rids: seq<RowId>,
                        closing: map<SubId, Cmd>, closing': map<SubId, Cmd>, r: RowId)
    requires AllReleased(s, t, sub, cmd, rids) && !cmd.Unlock? && ClosedBy(t, closing, closing', sub, cmd)
    requires sub in closing ==> closing[sub] == cmd
    ensures Promised(t, closing', r) == Target(s, closing, sub, cmd, r)
  {
    if r in s.rows { assert RowOk(s, r); }
    if Holds(s, sub, r) && r in rids {
      assert Released(s, t, sub, cmd, r);
    } else {
      assert SameRowState(s, t, r);
      assert WriteHeld(s, sub, r) ==> Holds(t, sub, r);
    }
  }

  /** The first commit message of a subtransaction promises exactly the sequential result of its log. */
  lemma CommitPromise(s: Store, sub: SubId, log: seq<Op>, closing: map<SubId, Cmd>, r: RowId)
    requires LocksOk(s) && LogOk(s, sub, log) && sub !in closing && sub != 0
    requires WriteHeld(s, sub, r) ==> r in Touched(log)
    ensures var p := Replay(Settled(s, closing), log).result;
      if Target(s, closing, sub, Commit, r).Some? then r in p && p[r] == Target(s, closing, sub, Commit, r).value else r !in p
  {
    var settled := Settled(s, closing);
    SettledAt(s, closing, r);
    if r in Touched(log) {
      OpenAgrees(s, closing, sub, log);
      ReplayFrame(Committed(s), settled, log);
      assert Holds(s, sub, r) && Match(s, Replay(Committed(s), log), r) && RowOk(s, r);
      assert AgreeAt(Replay(Committed(s), log).result, Replay(settled, log).result, r);
    } else {
      ReplayUntouched(settled, log, r);
    }
  }

  lemma CommitResult(s: Store, t: Store, sub: SubId, log: seq<Op>, rids: seq<RowId>,
                     closing: map<SubId, Cmd>, closing': map<SubId, Cmd>)
    requires LogOk(s, sub, log) && sub !in closing && sub != 0
    requires forall r | WriteHeld(s, sub, r) :: r in Touched(log)
    requires AllReleased(s, t, sub, Commit, rids) && ClosedBy(t, closing, closing', sub, Commit)
    ensures Settled(t, closing') == Replay(Settled(s, closing), log).result
  {
    var p := Replay(Settled(s, closing), log).result;
    forall r ensures AgreeAt(Settled(t, closing'), p, r) {
      ReleasePromises(s, t, sub, Commit, rids, closing, closing', r);
      CommitPromise(s, sub, log, closing, r);
      SettledAt(t, closing', r);
    }
    SameMap(Settled(t, closing'), p);
  }

  /** A rollback, and every further commit message, changes nothing about the table to come. */
  lemma LaterRelease(s: Store, t: Store, sub: SubId, cmd: Cmd, rids: seq<RowId>,
                     closing: map<SubId, Cmd>, closing': map<SubId, Cmd>)
    requires AllReleased(s, t, sub, cmd, rids) && !cmd.Unlock? && ClosedBy(t, closing, closing', sub, cmd)
    requires if sub in closing then closing[sub] == cmd else cmd.Rollback?
    ensures Settled(t, closing') == Settled(s, closing)
  {
    forall r ensures Promised(t, closing', r) == Promised(s, closing, r) {
      ReleasePromises(s, t, sub, cmd, rids, closing, closing', r);
    }
    SamePromises(t, closing', s, closing);
  }

  lemma ReleaseLogs(s: Store, t: Store, logs: map<SubId, seq<Op>>, sub: SubId, cmd: Cmd, rids: seq<RowId>,
                    closing: map<SubId, Cmd>, closing': map<SubId, Cmd>)
    requires LogsOk(s, logs, closing) && AllReleased(s, t, sub, cmd, rids) && ClosedBy(t, closing, closing', sub, cmd)
    ensures LogsOk(t, logs - {sub}, closing')
  {
    forall x | x in logs && x != sub ensures LogOk(t, x, logs[x]) {
      ReleaseKeepsLog(s, t, sub, cmd, rids, x, logs[x]);
    }
    forall r | r in t.rows && t.rows[r].flags.lock.WriteLock? && t.rows[r].writer !in closing'
      ensures var w := t.rows[r].writer; w != sub && w in logs && r in Touched(logs[w])
    {
      assert t.rows[r].writer == sub ==> Holds(t, sub, r);
      assert SameRowState(s, t, r);
    }
  }

  lemma ReleaseStep(y: Sys, e: Event)
    requires LogsOk(y.store, y.logs, y.closing) && e.Release? && Allowed(y, e)
    ensures var y' := Step(y, e);
      && LogsOk(y'.store, y'.logs, y'.closing)
      && Settled(y'.store, y'.closing) ==
         if e.cmd.Commit? && e.sub !in y.closing then Replay(Settled(y.store, y.closing), Log(y, e.sub)).result
         else Settled(y.store, y.closing)
  {
    var s, sub, cmd := y.store, e.sub, e.cmd;
    var t := ReleaseMany(s, sub, cmd, e.rids).0;
    var closing' := Closing(y.closing, t, sub, cmd);
    ReleaseManySound(s, sub, cmd, e.rids);
    assert ClosedBy(t, y.closing, closing', sub, cmd);
    ReleaseLogs(s, t, y.logs, sub, cmd, e.rids, y.closing, closing');
    if cmd.Commit? && sub !in y.closing {
      assert LogOk(s, sub, Log(y, sub));
      CommitResult(s, t, sub, Log(y, sub), e.rids, y.closing, closing');
    } else {
      LaterRelease(s, t, sub, cmd, e.rids, y.closing, closing');
    }
  }

  // ---------------------------------------------------------------- main results

  /** The open logs are right, and the committed ones, run one at a time, give the table that will be there when the
      commits that have begun are through. */
  ghost predicate Serializable(db: map<RowId, Text>, y: Sys) {
    && LogsOk(y.store, y.logs, y.closing)
    && SerialValid(db, y.history)
    && SerialRun(db, y.history) == Settled(y.store, y.closing)
  }

  /** Rows that are being committed stay as they are, and no text becomes visible or disappears. */
  ghost predicate Unsettling(s: Store, t: Store, closing: map<SubId, Cmd>) {
    && Committed(t) == Committed(s)
    && forall r :: (Committing(s, closing, r) <==> Committing(t, closing, r))
                   && (Committing(s, closing, r) ==> Outcome(s, r) == Outcome(t, r))
  }

  lemma KeepsSettled(s: Store, t: Store, closing: map<SubId, Cmd>)
    requires Unsettling(s, t, closing)
    ensures Settled(t, closing) == Settled(s, closing)
  {
    forall r ensures Promised(s, closing, r) == Promised(t, closing, r) {
      assert Committing(s, closing, r) <==> Committing(t, closing, r);
    }
    SamePromises(t, closing, s, closing);
  }

  lemma {:induction false} SelectSettled(s: Store, q: Request, rids: seq<RowId>, closing: map<SubId, Cmd>)
    requires LocksOk(s) && q.sub != 0 && q.sub !in closing
    ensures Settled(SelectMany(s, q, rids).0, closing) == Settled(s, closing)
    decreases |rids|
  {
    if rids != [] {
      var (s1, a1) := SelectOne(s, q, rids[0]);
      SelectOneSound(s, q, rids[0]);
      SelectCommitted(s, s1, q, rids[0], a1);
      forall r ensures Committing(s, closing, r) <==> Committing(s1, closing, r)
               ensures Committing(s, closing, r) ==> Outcome(s, r) == Outcome(s1, r)
      {
        SelectCommitting(s, s1, q, rids[0], a1, closing, r);
      }
      KeepsSettled(s, s1, closing);
      SelectSettled(s1, q, rids[1..], closing);
    }
  }

  lemma SelectCommitting(s: Store, t: Store, q: Request, x: RowId, a: seq<ReturnRow>, closing: map<SubId, Cmd>, r: RowId)
    requires SelectEffect(s, t, q, x, a) && q.sub !in closing
    ensures Committing(s, closing, r) <==> Committing(t, closing, r)
    ensures Committing(s, closing, r) ==> Outcome(s, r) == Outcome(t, r)
  {
    if r != x || a == [] || !IsGrant(a[0]) {
      assert SameRowState(s, t, r);
    } else {
      assert Acquired(s, t, q, r);
      assert Committing(s, closing, r) ==> WriteHeld(s, s.rows[r].writer, r);
      assert Committing(t, closing, r) ==> WriteHeld(t, t.rows[r].writer, r);
    }
  }

  lemma StagedSettled(s: Store, t: Store, sub: SubId, op: Op, closing: map<SubId, Cmd>)
    requires StagedOrSame(s, t, sub, op) && sub !in closing
    ensures Settled(t, closing) == Settled(s, closing)
  {
    forall r ensures Committing(s, closing, r) <==> Committing(t, closing, r)
             ensures Committing(s, closing, r) ==> Outcome(s, r) == Outcome(t, r)
    {
      assert WriteHeld(s, sub, op.rid) && r != op.rid ==> SameRowState(s, t, r);
    }
    KeepsSettled(s, t, closing);
  }

  lemma InsertSettled(s: Store, sub: SubId, text: Text, closing: map<SubId, Cmd>)
    requires LocksOk(s) && sub != 0 && sub !in closing
    ensures Settled(InsertRow(s, sub, text), closing) == Settled(s, closing)
  {
    InsertSound(s, sub, text);
    KeepsSettled(s, InsertRow(s, sub, text), closing);
  }

  ghost predicate StillOpen(y: Sys, z: Sys) {
    match z
    case Sys(t, logs, closing, history, _, _) =>
      LogsOk(t, logs, closing) && history == y.history && Settled(t, closing) == Settled(y.store, y.closing)
  }

  /** Until its first release message, nothing a subtransaction does changes the committed table. */
  lemma OpenStep(y: Sys, e: Event)
    requires LogsOk(y.store, y.logs, y.closing) && Allowed(y, e) && !e.Release?
    ensures StillOpen(y, Step(y, e))
  {
    match e
    case Select(q, rids) => SelectingStep(y, q, rids);
    case Insert(sub, text) => InsertingStep(y, sub, text);
    case _ => StagingStep(y, e);
  }

  lemma SelectingStep(y: Sys, q: Request, rids: seq<RowId>)
    requires LogsOk(y.store, y.logs, y.closing) && Allowed(y, Select(q, rids))
    ensures StillOpen(y, Step(y, Select(q, rids)))
  {
    SelectStep(y.store, y.logs, y.closing, q, rids);
    SelectSettled(y.store, q, rids, y.closing);
  }

  lemma InsertingStep(y: Sys, sub: SubId, text: Text)
    requires LogsOk(y.store, y.logs, y.closing) && Allowed(y, Insert(sub, text))
    ensures StillOpen(y, Step(y, Insert(sub, text)))
  {
    var t, ops := InsertRow(y.store, sub, text), [Ins(y.store.next + 1, text)];
    InsertStep(y.store, y.logs, y.closing, sub, text);
    InsertSettled(y.store, sub, text, y.closing);
    assert Step(y, Insert(sub, text)) == Record(y, t, sub, ops);
    RecordOpens(y, t, sub, ops);
  }

  lemma RecordOpens(y: Sys, t: Store, sub: SubId, ops: seq<Op>)
    requires LogsOk(t, y.logs[sub := Log(y, sub) + ops], y.closing)
    requires Settled(t, y.closing) == Settled(y.store, y.closing)
    ensures StillOpen(y, Record(y, t, sub, ops))
  {
  }

  lemma StagingStep(y: Sys, e: Event)
    requires LogsOk(y.store, y.logs, y.closing) && Allowed(y, e) && (e.Update? || e.Delete? || e.ReplaceDelete?)
    ensures StillOpen(y, Step(y, e))
  {
    var s := y.store;
    match e
    case Update(sub, r, text) =>
      UpdateStaged(s, sub, r, text);
      StageOrSkip(s, UpdateRow(s, sub, r, text), y.logs, y.closing, sub, Upd(r, text));
    case Delete(sub, r) =>
      DeleteStaged(s, sub, r);
      StageOrSkip(s, DeleteRow(s, sub, r), y.logs, y.closing, sub, Del(r));
    case ReplaceDelete(sub, r, f) =>
      ReplaceStaged(s, sub, r, f);
      StageOrSkip(s, ReplaceDeleteRow(s, sub, r, f), y.logs, y.closing, sub, Del(r));
  }

  ghost predicate StagedOrSame(s: Store, t: Store, sub: SubId, op: Op) {
    Committed(t) == Committed(s) && if WriteHeld(s, sub, op.rid) then StagedOp(s, t, sub, op) else t == s
  }

  lemma UpdateStaged(s: Store, sub: SubId, r: RowId, text: Text)
    requires LocksOk(s) && sub != 0
    ensures StagedOrSame(s, UpdateRow(s, sub, r, text), sub, Upd(r, text))
  {
    UpdateSound(s, sub, r, text);
  }

  lemma DeleteStaged(s: Store, sub: SubId, r: RowId)
    requires LocksOk(s) && sub != 0
    ensures StagedOrSame(s, DeleteRow(s, sub, r), sub, Del(r))
  {
    DeleteSound(s, sub, r);
  }

  lemma ReplaceStaged(s: Store, sub: SubId, r: RowId, f: Forwarder)
    requires LocksOk(s) && sub != 0
    ensures StagedOrSame(s, ReplaceDeleteRow(s, sub, r, f), sub, Del(r))
  {
    ReplaceDeleteSound(s, sub, r, f);
  }

  lemma StageOrSkip(s: Store, t: Store, logs: map<SubId, seq<Op>>, closing: map<SubId, Cmd>, sub: SubId, op: Op)
    requires LogsOk(s, logs, closing) && sub !in closing && StagedOrSame(s, t, sub, op)
    ensures LogsOk(t, logs[sub := LogIn(logs, sub) + if WriteHeld(s, sub, op.rid) then [op] else []], closing)
    ensures Settled(t, closing) == Settled(s, closing)
  {
    StagedSettled(s, t, sub, op, closing);
    if WriteHeld(s, sub, op.rid) {
      StageStep(s, t, logs, closing, sub, op);
    } else {
      assert LogIn(logs, sub) + [] == LogIn(logs, sub);
      assert LogOk(s, sub, LogIn(logs, sub));
    }
  }

  lemma StepSerializable(db: map<RowId, Text>, y: Sys, e: Event)
    requires Serializable(db, y) && Allowed(y, e)
    ensures Serializable(db, Step(y, e))
  {
    if e.Release? {
      ReleaseStep(y, e);
      if e.cmd.Commit? && e.sub !in y.closing {
        PushHistory(db, y, e.sub);
      }
    } else {
      OpenStep(y, e);
    }
  }

  /** The log of the next to commit is valid on the table its predecessors leave. */
  lemma PushHistory(db: map<RowId, Text>, y: Sys, sub: SubId)
    requires Serializable(db, y) && sub !in y.closing
    ensures SerialValid(db, y.history + [Log(y, sub)])
    ensures SerialRun(db, y.history + [Log(y, sub)]) == Replay(Settled(y.store, y.closing), Log(y, sub)).result
  {
    var log := Log(y, sub);
    var h := y.history + [log];
    assert h[..|h| - 1] == y.history && h[|h| - 1] == log;
    assert Valid(Settled(y.store, y.closing), log) by {
      assert LogOk(y.store, sub, log);
      OpenAgrees(y.store, y.closing, sub, log);
      ReplayFrame(Committed(y.store), Settled(y.store, y.closing), log);
    }
  }

  /**
   * Serializability: after any two-phase run from a state without locks, the committed subtransactions, run one at a
   * time in the order of their first commit messages, have read exactly what they were granted. They leave the table
   * that will be there when the commits under way are through; that is the committed table whenever none is.
   */
  lemma {:induction false} RunSerializable(db: map<RowId, Text>, y: Sys, run: seq<Event>)
    requires Serializable(db, y) && AllRunnable(y, run) && AllTwoPhase(y, run)
    ensures Serializable(db, Run(y, run))
    ensures var z := Run(y, run);
      (forall r :: !Committing(z.store, z.closing, r)) ==> SerialRun(db, z.history) == Committed(z.store)
    decreases |run|
  {
    if run != [] {
      StepSerializable(db, y, run[0]);
      RunSerializable(db, Step(y, run[0]), run[1..]);
    }
    var z := Run(y, run);
    if forall r :: !Committing(z.store, z.closing, r) {
      SettledIsCommitted(z.store, z.closing);
    }
  }

  lemma QuietStart(s: Store)
    requires LocksOk(s) && forall r <- s.rows :: s.rows[r].flags.lock.NoLock?
    ensures Serializable(Committed(s), Sys(s, map[], map[], [], [], []))
  {
    SettledIsCommitted(s, map[]);
  }

  /** A subtransaction is closing from its first release message on and until it holds nothing; then it may begin anew. */
  lemma ClosingIff(y: Sys, e: Event, x: SubId)
    requires Runnable(y, e)
    ensures x in Step(y, e).closing <==>
              if e.Release? && x == e.sub then exists r :: Holds(Step(y, e).store, x, r) else x in y.closing
  {
  }
}
