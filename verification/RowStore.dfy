/** One partition of one table: rows, staged rows, row locks and wait queues (Table.cc, SubTransaction.cc). */
module RowStore {
  import opened Options
  import opened Sequences

  type RowId = int
  type SubId = int
  type Text = string

  datatype LockKind = NoLock | ReadLock | WriteLock
  datatype Flags = Flags(lock: LockKind, insert: bool, delete: bool, replaceDelete: bool)
  const CLEARED := Flags(NoLock, false, false, false)

  /** A row and its lock state; `readers == {}` stands for the null holder pointer, `writer == 0` for no writer. */
  datatype RowData = RowData(flags: Flags, writer: SubId, readers: set<SubId>, previous: SubId, row: Text)

  /** An entry of the shadow table: the very object stored in `rows` (after an insert), or a separate copy. */
  datatype Staged = SameRow | Copy(row: Text)

  datatype Waiter = Waiter(sub: SubId, lock: LockKind, cmdid: int, entry: int)
  datatype Forwarder = Forwarder(rowid: RowId, engineid: int)
  datatype Answer = NotFound | Unlocked | ReadGranted | WriteGranted | Pending
  datatype ReturnRow = ReturnRow(rowid: RowId, answer: Answer, row: Text)
  datatype Cmd = Commit | Rollback | Unlock

  /** Who asks for a lock, and where the answer has to go. */
  datatype Request = Request(sub: SubId, lock: LockKind, cmdid: int, entry: int)

  datatype Store = Store(
    rows: map<RowId, RowData>,
    shadow: map<RowId, Staged>,
    queue: map<RowId, seq<Waiter>>,
    forward: map<RowId, Forwarder>,
    next: RowId)

  function Queue(s: Store, r: RowId): seq<Waiter> {
    if r in s.queue then s.queue[r] else []
  }

  // ---------------------------------------------------------------- operations on the store, as values

  function Enqueue(s: Store, q: Request, r: RowId): Store
    requires r in s.rows
  {
    if s.rows[r].flags.insert then s
    else s.(queue := s.queue[r := Queue(s, r) + [Waiter(q.sub, q.lock, q.cmdid, q.entry)]])
  }

  /** The answer for a row the requester has to wait for: none at all if the row is someone's uncommitted insert. */
  function Wait(s: Store, q: Request, r: RowId): (Store, seq<ReturnRow>)
    requires r in s.rows
  {
    if s.rows[r].flags.insert then (s, []) else (Enqueue(s, q, r), [ReturnRow(r, Pending, "")])
  }

  function SelectOne(s: Store, q: Request, r: RowId): (Store, seq<ReturnRow>) {
    if r !in s.rows then (s, [ReturnRow(r, NotFound, "")])
    else
      var d := s.rows[r];
      match q.lock
      case NoLock =>
        if (d.flags.lock.ReadLock? && q.sub in d.readers) || (d.flags.lock.WriteLock? && d.writer == q.sub) then (s, [])
        else (s, [ReturnRow(r, Unlocked, d.row)])
      case ReadLock =>
        (match d.flags.lock
         case NoLock =>
           (s.(rows := s.rows[r := d.(flags := d.flags.(lock := ReadLock), readers := {q.sub})]),
            [ReturnRow(r, ReadGranted, d.row)])
         case ReadLock =>
           if q.sub in d.readers then (s, [])
           else (s.(rows := s.rows[r := d.(readers := d.readers + {q.sub})]), [ReturnRow(r, ReadGranted, d.row)])
         case WriteLock => if d.writer == q.sub then (s, []) else Wait(s, q, r))
      case WriteLock =>
        match d.flags.lock
        case NoLock =>
          (s.(rows := s.rows[r := d.(flags := d.flags.(lock := WriteLock), writer := q.sub)]),
           [ReturnRow(r, WriteGranted, d.row)])
        case ReadLock => Wait(s, q, r)
        case WriteLock =>
          if d.writer == q.sub then (s, [ReturnRow(r, WriteGranted, d.row)]) else Wait(s, q, r)
  }

  function SelectMany(s: Store, q: Request, rids: seq<RowId>): (Store, seq<ReturnRow>)
    decreases |rids|
  {
    if rids == [] then (s, [])
    else
      var (s1, a1) := SelectOne(s, q, rids[0]);
      var (s2, a2) := SelectMany(s1, q, rids[1..]);
      (s2, a1 + a2)
  }

  function InsertRow(s: Store, sub: SubId, text: Text): Store {
    var r := s.next + 1;
    s.(rows := s.rows[r := RowData(Flags(WriteLock, true, false, false), sub, {}, 0, text)],
       shadow := s.shadow[r := SameRow],
       next := r)
  }

  predicate WriteHeld(s: Store, sub: SubId, r: RowId) {
    r in s.rows && s.rows[r].flags.lock.WriteLock? && s.rows[r].writer == sub
  }

  function UpdateRow(s: Store, sub: SubId, r: RowId, text: Text): Store {
    if WriteHeld(s, sub, r) then s.(shadow := s.shadow[r := Copy(text)]) else s
  }

  function DeleteRow(s: Store, sub: SubId, r: RowId): Store {
    if WriteHeld(s, sub, r) then s.(rows := s.rows[r := s.rows[r].(flags := s.rows[r].flags.(delete := true))]) else s
  }

  function ReplaceDeleteRow(s: Store, sub: SubId, r: RowId, f: Forwarder): Store {
    if WriteHeld(s, sub, r) then
      var s1 := DeleteRow(s, sub, r);
      s1.(rows := s1.rows[r := s1.rows[r].(flags := s1.rows[r].flags.(replaceDelete := true))],
          forward := s1.forward[r := f])
    else s
  }

  function DropReader(d: RowData, sub: SubId): RowData {
    if d.readers == {sub} then d.(readers := {}, flags := d.flags.(lock := NoLock)) else d.(readers := d.readers - {sub})
  }

  function CommitOne(s: Store, sub: SubId, r: RowId): Store
    requires r in s.rows
  {
    var d := s.rows[r];
    if d.flags.lock.ReadLock? then
      if sub !in d.readers then s else s.(rows := s.rows[r := DropReader(d, sub)])
    else if !WriteHeld(s, sub, r) then s
    else if d.flags.delete then
      s.(rows := s.rows - {r}, shadow := s.shadow - {r},
         forward := if d.flags.replaceDelete then s.forward - {r} else s.forward)
    else if r in s.shadow then
      var text := if s.shadow[r].SameRow? then d.row else s.shadow[r].row;
      s.(rows := s.rows[r := RowData(CLEARED, 0, {}, d.writer, text)], shadow := s.shadow - {r})
    else s.(rows := s.rows[r := d.(flags := CLEARED, writer := 0, readers := {})])
  }

  function RollbackOne(s: Store, sub: SubId, r: RowId): Store {
    if r !in s.rows then s
    else
      var d := s.rows[r];
      if d.writer != sub && d.flags.lock.WriteLock? then s
      else if d.flags.insert then s.(rows := s.rows - {r}, shadow := s.shadow - {r})
      else
        var readers := if d.flags.lock.ReadLock? then d.readers - {sub} else d.readers;
        var flags := if readers == {} then CLEARED else CLEARED.(lock := ReadLock);
        s.(rows := s.rows[r := d.(flags := flags, writer := 0, readers := readers)],
           shadow := s.shadow - {r},
           forward := if d.flags.delete && d.flags.replaceDelete then s.forward - {r} else s.forward)
  }

  function UnlockOne(s: Store, sub: SubId, r: RowId): Store
    requires r in s.rows
  {
    var d := s.rows[r];
    if !d.flags.lock.ReadLock? || sub !in d.readers then s
    else s.(rows := s.rows[r := DropReader(d, sub)])
  }

  /** Commit and unlock dereference the row, so it has to exist; rollback checks. */
  predicate Nameable(s: Store, cmd: Cmd, r: RowId) {
    cmd.Rollback? || r in s.rows
  }

  function ReleaseOne(s: Store, sub: SubId, cmd: Cmd, r: RowId): Store
    requires Nameable(s, cmd, r)
  {
    match cmd
    case Commit => CommitOne(s, sub, r)
    case Rollback => RollbackOne(s, sub, r)
    case Unlock => UnlockOne(s, sub, r)
  }

  /** One pass of the release loop: a row that is gone afterwards has its queue drained. */
  function ReleaseAndDrain(s: Store, sub: SubId, cmd: Cmd, r: RowId): (Store, seq<(RowId, Waiter)>)
    requires Nameable(s, cmd, r)
  {
    var s1 := ReleaseOne(s, sub, cmd, r);
    if r in s1.rows then (s1, [])
    else (s1.(queue := s1.queue[r := []]), Tagged(r, Queue(s1, r)))
  }

  function Tagged(r: RowId, ws: seq<Waiter>): (t: seq<(RowId, Waiter)>)
    ensures |t| == |ws|
  {
    if ws == [] then [] else [(r, ws[0])] + Tagged(r, ws[1..])
  }

  ghost predicate Releasable(s: Store, sub: SubId, cmd: Cmd, rids: seq<RowId>)
    decreases |rids|
  {
    rids == [] ||
    (Nameable(s, cmd, rids[0]) && Releasable(ReleaseAndDrain(s, sub, cmd, rids[0]).0, sub, cmd, rids[1..]))
  }

  ghost function ReleaseMany(s: Store, sub: SubId, cmd: Cmd, rids: seq<RowId>): (Store, seq<(RowId, Waiter)>)
    requires Releasable(s, sub, cmd, rids)
    decreases |rids|
  {
    if rids == [] then (s, [])
    else
      var (s1, d1) := ReleaseAndDrain(s, sub, cmd, rids[0]);
      var (s2, d2) := ReleaseMany(s1, sub, cmd, rids[1..]);
      (s2, d1 + d2)
  }

  // ---------------------------------------------------------------- the lock invariant

  ghost predicate RowOk(s: Store, r: RowId)
    requires r in s.rows
  {
    var d := s.rows[r];
    r <= s.next &&
    match d.flags.lock
    case NoLock => d.flags == CLEARED && d.writer == 0 && d.readers == {} && r !in s.shadow
    case ReadLock => d.flags == CLEARED.(lock := ReadLock) && d.writer == 0 && d.readers != {} && r !in s.shadow
    case WriteLock =>
      && d.writer != 0 && d.readers == {}
      && (d.flags.insert ==> r in s.shadow)
      && (r in s.shadow && s.shadow[r].SameRow? ==> d.flags.insert)
      && (d.flags.replaceDelete ==> d.flags.delete && r in s.forward)
  }

  /** Row locks agree with their holders, staged rows are write-locked rows, and only visible rows have waiters. */
  ghost predicate LocksOk(s: Store) {
    && (forall r <- s.rows :: RowOk(s, r))
    && s.shadow.Keys <= s.rows.Keys
    && (forall r <- s.queue | s.queue[r] != [] :: r in s.rows && !s.rows[r].flags.insert)
  }

  predicate Holds(s: Store, sub: SubId, r: RowId) {
    r in s.rows && (sub in s.rows[r].readers || WriteHeld(s, sub, r))
  }

  /** The rows a reader may see: everything that is not somebody's uncommitted insert. */
  function Committed(s: Store): map<RowId, Text> {
    map r | r in s.rows && !s.rows[r].flags.insert :: s.rows[r].row
  }

  /** What a commit by the write-lock holder will make of a row; for other rows, its present text. */
  function Outcome(s: Store, r: RowId): Option<Text>
    requires r in s.rows
  {
    if s.rows[r].flags.delete then None
    else if r in s.shadow && s.shadow[r].Copy? then Some(s.shadow[r].row)
    else Some(s.rows[r].row)
  }

  predicate SameRowState(s: Store, t: Store, r: RowId) {
    && (r in s.rows <==> r in t.rows) && (r in s.rows ==> s.rows[r] == t.rows[r])
    && (r in s.shadow <==> r in t.shadow) && (r in s.shadow ==> s.shadow[r] == t.shadow[r])
  }

  /** What one request may change on a row: take a free lock, or join readers; never a text or a staged row. */
  ghost predicate Acquired(s: Store, t: Store, q: Request, r: RowId) {
    && r in s.rows && r in t.rows
    && (r in s.shadow <==> r in t.shadow) && (r in s.shadow ==> s.shadow[r] == t.shadow[r])
    && Holds(t, q.sub, r)
    && (forall x :: Holds(s, x, r) ==> Holds(t, x, r))
    && (forall x :: WriteHeld(s, x, r) ==> WriteHeld(t, x, r))
    && (forall x :: WriteHeld(t, x, r) ==> WriteHeld(s, x, r) || x == q.sub)
    && t.rows[r].row == s.rows[r].row
    && t.rows[r].flags.(lock := NoLock) == s.rows[r].flags.(lock := NoLock)
  }

  predicate IsGrant(a: ReturnRow) {
    a.answer.ReadGranted? || a.answer.WriteGranted?
  }

  function AsWaiter(q: Request): Waiter {
    Waiter(q.sub, q.lock, q.cmdid, q.entry)
  }

  /** What a READLOCK or WRITELOCK request on row `r` does: it touches no other row, it queues itself exactly when it
      answers PENDINGLOCK, and a granted row carries committed text or the requester's own insert. */
  ghost predicate SelectEffect(s: Store, t: Store, q: Request, r: RowId, a: seq<ReturnRow>) {
    && LocksOk(s) && LocksOk(t) && |a| <= 1
    && t.shadow == s.shadow && t.next == s.next
    && (forall x | x != r :: SameRowState(s, t, x) && Queue(s, x) == Queue(t, x))
    && Queue(t, r) == Queue(s, r) + (if a != [] && a[0].answer.Pending? then [AsWaiter(q)] else [])
    && (a != [] ==> a[0].rowid == r && (a[0].answer.NotFound? ==> r !in s.rows))
    && if a != [] && IsGrant(a[0]) then
         && Acquired(s, t, q, r) && a[0].row == s.rows[r].row
         && (r in Committed(s) || WriteHeld(s, q.sub, r))
       else SameRowState(s, t, r)
  }

  lemma SelectOneElsewhere(s: Store, q: Request, r: RowId)
    ensures forall x | x != r :: SameRowState(s, SelectOne(s, q, r).0, x) && Queue(s, x) == Queue(SelectOne(s, q, r).0, x)
  {
  }

  lemma SelectOneQueue(s: Store, q: Request, r: RowId)
    ensures var (t, a) := SelectOne(s, q, r);
      Queue(t, r) == Queue(s, r) + (if a != [] && a[0].answer.Pending? then [AsWaiter(q)] else [])
  {
  }

  lemma SelectOneFrame(s: Store, q: Request, r: RowId)
    ensures var (t, a) := SelectOne(s, q, r);
      && |a| <= 1 && t.next == s.next && t.forward == s.forward && t.shadow == s.shadow
      && (a != [] ==> a[0].rowid == r)
      && (forall x | x != r :: SameRowState(s, t, x) && Queue(s, x) == Queue(t, x))
      && Queue(t, r) == Queue(s, r) + (if a != [] && a[0].answer.Pending? then [AsWaiter(q)] else [])
  {
    SelectOneElsewhere(s, q, r);
    SelectOneQueue(s, q, r);
  }

  lemma SelectOneMissing(s: Store, q: Request, r: RowId)
    ensures var a := SelectOne(s, q, r).1; a == [ReturnRow(r, NotFound, "")] <==> r !in s.rows
    ensures forall x <- SelectOne(s, q, r).1 :: x.answer.NotFound? ==> r !in s.rows
  {
  }

  lemma SelectOneGrant(s: Store, q: Request, r: RowId)
    requires LocksOk(s) && q.sub != 0
    ensures var (t, a) := SelectOne(s, q, r);
      if a != [] && IsGrant(a[0]) then
        && Acquired(s, t, q, r) && a[0].row == s.rows[r].row
        && (r in Committed(s) || WriteHeld(s, q.sub, r))
      else SameRowState(s, t, r)
  {
    if r in s.rows { assert RowOk(s, r); }
  }

  lemma SelectOneRowOk(s: Store, q: Request, r: RowId)
    requires r in s.rows && RowOk(s, r) && q.sub != 0
    ensures r in SelectOne(s, q, r).0.rows && RowOk(SelectOne(s, q, r).0, r)
    ensures SelectOne(s, q, r).1 != [] && SelectOne(s, q, r).1[0].answer.Pending? ==> !s.rows[r].flags.insert
    ensures SelectOne(s, q, r).0.rows[r].flags.insert == s.rows[r].flags.insert
  {
  }

  lemma KeepsLocks(s: Store, t: Store, r: RowId)
    requires LocksOk(s) && t.shadow.Keys <= t.rows.Keys
    requires forall x | x != r :: SameRowState(s, t, x) && Queue(s, x) == Queue(t, x)
    requires t.next == s.next && forall x | x != r && x in s.forward :: x in t.forward
    requires r in t.rows ==> RowOk(t, r)
    requires Queue(t, r) != [] ==> r in t.rows && !t.rows[r].flags.insert
    ensures LocksOk(t)
  {
    forall x | x in t.rows ensures RowOk(t, x) {
      if x != r { assert SameRowState(s, t, x) && RowOk(s, x); }
    }
    forall x | x in t.queue && t.queue[x] != [] ensures x in t.rows && !t.rows[x].flags.insert {
      if x != r { assert Queue(s, x) == Queue(t, x) && SameRowState(s, t, x); }
    }
  }

  lemma SelectOneSound(s: Store, q: Request, r: RowId)
    requires LocksOk(s) && q.sub != 0
    ensures var (t, a) := SelectOne(s, q, r); SelectEffect(s, t, q, r, a)
  {
    SelectOneFrame(s, q, r);
    SelectOneMissing(s, q, r);
    SelectOneGrant(s, q, r);
    if r in s.rows { SelectOneRowOk(s, q, r); }
    KeepsLocks(s, SelectOne(s, q, r).0, r);
  }

  /** When a READLOCK is granted, kept waiting, or left without an answer, and what a grant does to the row. */
  lemma ReadLockAnswers(s: Store, q: Request, r: RowId)
    requires LocksOk(s) && q.sub != 0 && q.lock.ReadLock? && r in s.rows
    ensures var (t, a) := SelectOne(s, q, r);
      var d := s.rows[r];
      && (a == [ReturnRow(r, ReadGranted, d.row)] <==> !d.flags.lock.WriteLock? && q.sub !in d.readers)
      && (a == [ReturnRow(r, Pending, "")] <==> d.flags.lock.WriteLock? && d.writer != q.sub && !d.flags.insert)
      && (a == [] <==> q.sub in d.readers || (d.flags.lock.WriteLock? && (d.writer == q.sub || d.flags.insert)))
      && r in t.rows && t.rows[r].row == d.row && t.rows[r].writer == d.writer && t.rows[r].previous == d.previous
      && t.rows[r].readers == d.readers + (if a != [] && a[0].answer.ReadGranted? then {q.sub} else {})
      && t.rows[r].flags == d.flags.(lock := if a != [] && a[0].answer.ReadGranted? then ReadLock else d.flags.lock)
  {
    assert RowOk(s, r);
  }

  lemma WriteLockAnswers(s: Store, q: Request, r: RowId)
    requires LocksOk(s) && q.sub != 0 && q.lock.WriteLock? && r in s.rows
    ensures var (t, a) := SelectOne(s, q, r);
      var d := s.rows[r];
      && (a == [ReturnRow(r, WriteGranted, d.row)] <==> d.flags.lock.NoLock? || (d.flags.lock.WriteLock? && d.writer == q.sub))
      && (a == [ReturnRow(r, Pending, "")] <==>
            d.flags.lock.ReadLock? || (d.flags.lock.WriteLock? && d.writer != q.sub && !d.flags.insert))
      && (a == [] <==> d.flags.lock.WriteLock? && d.writer != q.sub && d.flags.insert)
      && r in t.rows && t.rows[r].row == d.row && t.rows[r].readers == d.readers && t.rows[r].previous == d.previous
      && t.rows[r].writer == (if a != [] && a[0].answer.WriteGranted? then q.sub else d.writer)
      && t.rows[r].flags == d.flags.(lock := if a != [] && a[0].answer.WriteGranted? then WriteLock else d.flags.lock)
  {
    assert RowOk(s, r);
  }

  /** Without a lock every row is returned that the requester does not hold, and nothing changes; a row that is not there is reported. */
  lemma NoLockAnswers(s: Store, q: Request, r: RowId)
    requires LocksOk(s) && q.sub != 0
    ensures r !in s.rows ==> SelectOne(s, q, r) == (s, [ReturnRow(r, NotFound, "")])
    ensures r in s.rows && q.lock.NoLock? ==>
              var d := s.rows[r];
              var held := q.sub in d.readers || (d.flags.lock.WriteLock? && d.writer == q.sub);
              SelectOne(s, q, r) == (s, if held then [] else [ReturnRow(r, Unlocked, d.row)])
  {
    if r in s.rows { assert RowOk(s, r); }
  }

  /** The rows named are served one after another, each finding what the ones before it have left. */
  lemma {:induction false} SelectInTurn(s: Store, q: Request, rids: seq<RowId>, more: seq<RowId>)
    ensures var (t, a) := SelectMany(s, q, rids);
      SelectMany(s, q, rids + more) == (SelectMany(t, q, more).0, a + SelectMany(t, q, more).1)
    ensures forall r :: SelectMany(s, q, [r]) == SelectOne(s, q, r)
    decreases |rids|
  {
    forall r ensures SelectMany(s, q, [r]) == SelectOne(s, q, r) {
      assert [r][1..] == [] && SelectOne(s, q, r).1 + [] == SelectOne(s, q, r).1;
    }
    if rids == [] {
      assert rids + more == more && [] + SelectMany(s, q, more).1 == SelectMany(s, q, more).1;
    } else {
      var (s1, a1) := SelectOne(s, q, rids[0]);
      SelectInTurn(s1, q, rids[1..], more);
      assert (rids + more)[0] == rids[0] && (rids + more)[1..] == rids[1..] + more;
      Assoc(a1, SelectMany(s1, q, rids[1..]).1, SelectMany(SelectMany(s1, q, rids[1..]).0, q, more).1);
    }
  }

  lemma UpdateSound(s: Store, sub: SubId, r: RowId, text: Text)
    requires LocksOk(s) && sub != 0
    ensures var t := UpdateRow(s, sub, r, text);
      LocksOk(t) && Committed(t) == Committed(s) && t.rows == s.rows && t.queue == s.queue
    ensures var t := UpdateRow(s, sub, r, text);
      if WriteHeld(s, sub, r)
      then && Outcome(t, r) == (if s.rows[r].flags.delete then None else Some(text))
           && r in t.shadow && t.shadow[r] == Copy(text)
      else t == s
  {
    if WriteHeld(s, sub, r) { assert RowOk(s, r); }
    KeepsLocks(s, UpdateRow(s, sub, r, text), r);
  }

  lemma DeleteSound(s: Store, sub: SubId, r: RowId)
    requires LocksOk(s) && sub != 0
    ensures LocksOk(DeleteRow(s, sub, r)) && Committed(DeleteRow(s, sub, r)) == Committed(s)
    ensures if WriteHeld(s, sub, r) then Outcome(DeleteRow(s, sub, r), r) == None else DeleteRow(s, sub, r) == s
  {
    if WriteHeld(s, sub, r) { assert RowOk(s, r); }
    KeepsLocks(s, DeleteRow(s, sub, r), r);
  }

  lemma ReplaceDeleteSound(s: Store, sub: SubId, r: RowId, f: Forwarder)
    requires LocksOk(s) && sub != 0
    ensures LocksOk(ReplaceDeleteRow(s, sub, r, f)) && Committed(ReplaceDeleteRow(s, sub, r, f)) == Committed(s)
    ensures var t := ReplaceDeleteRow(s, sub, r, f);
      if WriteHeld(s, sub, r) then Outcome(t, r) == None && t.rows[r].flags.replaceDelete && r in t.forward && t.forward[r] == f
      else t == s
  {
    if WriteHeld(s, sub, r) { assert RowOk(s, r); }
    KeepsLocks(s, ReplaceDeleteRow(s, sub, r, f), r);
  }

  lemma InsertSound(s: Store, sub: SubId, text: Text)
    requires LocksOk(s) && sub != 0
    ensures var t := InsertRow(s, sub, text);
      && LocksOk(t) && Committed(t) == Committed(s) && s.next + 1 !in s.rows && t.next == s.next + 1
      && WriteHeld(t, sub, t.next) && t.rows[t.next].flags.insert && Outcome(t, t.next) == Some(text)
      && forall x | x != t.next :: SameRowState(s, t, x)
  {
    var t := InsertRow(s, sub, text);
    assert s.next + 1 !in s.rows && Queue(s, s.next + 1) == [];
    forall x | x in t.rows ensures RowOk(t, x) {
      if x != s.next + 1 { assert RowOk(s, x); }
    }
  }

  /** What releasing did to a row the subtransaction held: a commit installs the outcome of its own staging or
      removes the row, a rollback restores the committed row, a read lock just goes away. */
  ghost predicate Released(s: Store, t: Store, sub: SubId, cmd: Cmd, r: RowId)
    requires Holds(s, sub, r)
  {
    && !Holds(t, sub, r)
    && r !in t.shadow
    && if WriteHeld(s, sub, r) then
         var after := if cmd.Commit? then Outcome(s, r) else if s.rows[r].flags.insert then None else Some(s.rows[r].row);
         if after.None? then r !in t.rows
         else r in t.rows && t.rows[r].row == after.value && t.rows[r].flags == CLEARED
       else
         && r in t.rows
         && t.rows[r].row == s.rows[r].row
         && t.rows[r].readers == s.rows[r].readers - {sub}
         && t.rows[r].flags == CLEARED.(lock := if t.rows[r].readers == {} then NoLock else ReadLock)
  }

  /** Only row `r` differs, and no queue does. */
  ghost predicate OnlyRow(s: Store, t: Store, r: RowId) {
    && t.next == s.next && t.queue == s.queue
    && (forall x | x != r :: SameRowState(s, t, x) && (x in s.forward ==> x in t.forward))
  }

  lemma CommitFrame(s: Store, sub: SubId, r: RowId)
    requires r in s.rows
    ensures OnlyRow(s, CommitOne(s, sub, r), r)
  {
    forall x | x != r ensures SameRowState(s, CommitOne(s, sub, r), x) {}
  }

  lemma RollbackFrame(s: Store, sub: SubId, r: RowId)
    ensures OnlyRow(s, RollbackOne(s, sub, r), r)
  {
    forall x | x != r ensures SameRowState(s, RollbackOne(s, sub, r), x) {}
  }

  lemma UnlockFrame(s: Store, sub: SubId, r: RowId)
    requires r in s.rows
    ensures OnlyRow(s, UnlockOne(s, sub, r), r)
  {
  }

  /** Releasing `r` changes nothing else, and what it takes from the queue of `r` it has drained. */
  lemma ReleaseFrame(s: Store, sub: SubId, cmd: Cmd, r: RowId)
    requires Nameable(s, cmd, r)
    ensures var (t, drained) := ReleaseAndDrain(s, sub, cmd, r);
      && t.next == s.next
      && (forall x | x != r :: SameRowState(s, t, x) && (x in s.forward ==> x in t.forward))
      && (forall x | x != r :: Queue(s, x) == Queue(t, x))
      && Tagged(r, Queue(s, r)) == drained + Tagged(r, Queue(t, r))
  {
    match cmd {
      case Commit => CommitFrame(s, sub, r);
      case Rollback => RollbackFrame(s, sub, r);
      case Unlock => UnlockFrame(s, sub, r);
    }
    var s1 := ReleaseOne(s, sub, cmd, r);
    var t := ReleaseAndDrain(s, sub, cmd, r).0;
    assert OnlyRow(s, s1, r);
    forall x | x != r ensures SameRowState(s, t, x) && (x in s.forward ==> x in t.forward) {
      assert SameRowState(s, s1, x);
    }
  }

  /** Releasing a row one does not hold changes nothing about it ("bogus request"). */
  lemma ReleaseUnheld(s: Store, sub: SubId, cmd: Cmd, r: RowId)
    requires LocksOk(s) && sub != 0 && Nameable(s, cmd, r) && !Holds(s, sub, r)
    ensures SameRowState(s, ReleaseAndDrain(s, sub, cmd, r).0, r)
  {
    if r in s.rows { assert RowOk(s, r); }
  }

  lemma ReleaseHeld(s: Store, sub: SubId, cmd: Cmd, r: RowId)
    requires LocksOk(s) && sub != 0 && Holds(s, sub, r) && (cmd.Unlock? ==> !WriteHeld(s, sub, r))
    ensures Released(s, ReleaseAndDrain(s, sub, cmd, r).0, sub, cmd, r)
    ensures r in ReleaseAndDrain(s, sub, cmd, r).0.rows ==> RowOk(ReleaseAndDrain(s, sub, cmd, r).0, r)
    ensures s.rows[r].flags.replaceDelete ==>
              (r in ReleaseAndDrain(s, sub, cmd, r).0.forward <==> cmd.Rollback? && s.rows[r].flags.insert)
    ensures r in ReleaseAndDrain(s, sub, cmd, r).0.rows ==>
              ReleaseAndDrain(s, sub, cmd, r).0.rows[r].previous == if cmd.Commit? && r in s.shadow then sub else s.rows[r].previous
  {
    assert RowOk(s, r);
  }

  /** A row that is still there keeps its queue and drains nobody; one that is gone has drained all of it, in order. */
  lemma ReleaseDrains(s: Store, sub: SubId, cmd: Cmd, r: RowId)
    requires Nameable(s, cmd, r)
    ensures var (t, drained) := ReleaseAndDrain(s, sub, cmd, r);
      if r in t.rows then drained == [] && Queue(t, r) == Queue(s, r)
      else && Queue(t, r) == [] && |drained| == |Queue(s, r)|
           && forall i :: 0 <= i < |drained| ==> drained[i] == (r, Queue(s, r)[i])
  {
    match cmd {
      case Commit => CommitFrame(s, sub, r);
      case Rollback => RollbackFrame(s, sub, r);
      case Unlock => UnlockFrame(s, sub, r);
    }
    assert OnlyRow(s, ReleaseOne(s, sub, cmd, r), r);
    TaggedAt(r, Queue(s, r));
  }

  lemma {:induction false} TaggedAt(r: RowId, ws: seq<Waiter>)
    ensures forall i :: 0 <= i < |ws| ==> Tagged(r, ws)[i] == (r, ws[i])
  {
    if ws != [] {
      TaggedAt(r, ws[1..]);
      forall i | 0 <= i < |ws| ensures Tagged(r, ws)[i] == (r, ws[i]) {
        assert i > 0 ==> Tagged(r, ws)[i] == Tagged(r, ws[1..])[i - 1];
      }
    }
  }

  /** Every commit, rollback and unlock keeps the lock invariant. */
  lemma ReleaseKeeps(s: Store, sub: SubId, cmd: Cmd, r: RowId)
    requires LocksOk(s) && sub != 0 && Nameable(s, cmd, r)
    ensures LocksOk(ReleaseAndDrain(s, sub, cmd, r).0)
  {
    var t := ReleaseAndDrain(s, sub, cmd, r).0;
    ReleaseFrame(s, sub, cmd, r);
    if Holds(s, sub, r) && (cmd.Unlock? ==> !WriteHeld(s, sub, r)) {
      ReleaseHeld(s, sub, cmd, r);
    } else if !Holds(s, sub, r) {
      ReleaseUnheld(s, sub, cmd, r);
    }
    KeepsLocks(s, t, r);
  }

  // ---------------------------------------------------------------- forwarders

  /** A forwarder is kept exactly for the rows marked as replaced. */
  ghost predicate ForwardersAgree(s: Store) {
    forall r :: r in s.forward <==> r in s.rows && s.rows[r].flags.replaceDelete
  }

  /** A rollback of a row that this subtransaction has both inserted and replaced. */
  predicate Strands(s: Store, sub: SubId, cmd: Cmd, r: RowId) {
    cmd.Rollback? && WriteHeld(s, sub, r) && s.rows[r].flags.insert && s.rows[r].flags.replaceDelete
  }

  /** Rolling back a replaced row takes its forwarder away, unless the row was an insert. */
  lemma RolledBackForwarder(s: Store, sub: SubId, r: RowId)
    requires LocksOk(s) && WriteHeld(s, sub, r) && s.rows[r].flags.replaceDelete
    ensures r in ReleaseAndDrain(s, sub, Rollback, r).0.forward <==> s.rows[r].flags.insert
  {
    ReleaseHeld(s, sub, Rollback, r);
  }

  lemma ForwardersElsewhere(s: Store, sub: SubId, cmd: Cmd, r: RowId, x: RowId)
    requires Nameable(s, cmd, r) && x != r
    ensures x in ReleaseAndDrain(s, sub, cmd, r).0.forward <==> x in s.forward
  {
  }

  lemma ForwarderHere(s: Store, sub: SubId, cmd: Cmd, r: RowId)
    requires Nameable(s, cmd, r) && (r in s.rows ==> RowOk(s, r)) && sub != 0
    requires r in s.forward <==> r in s.rows && s.rows[r].flags.replaceDelete
    ensures var t := ReleaseAndDrain(s, sub, cmd, r).0;
      (r in t.forward <==> r in t.rows && t.rows[r].flags.replaceDelete) <==> !Strands(s, sub, cmd, r)
  {
  }

  /** Any release keeps the forwarders right, but for such a rollback. */
  lemma ForwardersAgreeIff(s: Store, sub: SubId, cmd: Cmd, r: RowId)
    requires LocksOk(s) && ForwardersAgree(s) && sub != 0 && Nameable(s, cmd, r)
    ensures ForwardersAgree(ReleaseAndDrain(s, sub, cmd, r).0) <==> !Strands(s, sub, cmd, r)
  {
    var t := ReleaseAndDrain(s, sub, cmd, r).0;
    ReleaseFrame(s, sub, cmd, r);
    ForwarderHere(s, sub, cmd, r);
    forall x | x != r ensures x in t.forward <==> x in t.rows && t.rows[x].flags.replaceDelete {
      ForwardersElsewhere(s, sub, cmd, r, x);
      assert SameRowState(s, t, x);
    }
  }

  /** The shortest such run: insert, replace, roll back. */
  lemma ForwarderLeftBehind(text: Text, f: Forwarder)
    ensures var s := Store(map[], map[], map[], map[], 0);
      var t := ReleaseAndDrain(ReplaceDeleteRow(InsertRow(s, 7, text), 7, 1, f), 7, Rollback, 1).0;
      LocksOk(s) && ForwardersAgree(s) && 1 !in t.rows && t.forward == map[1 := f]
  {
  }

  // ---------------------------------------------------------------- reading one's own update

  /** The text that the write-lock holder has staged for the row differs from what is there, or it has deleted the row. */
  predicate StagedOtherwise(s: Store, r: RowId)
    requires r in s.rows
  {
    s.rows[r].flags.delete || (r in s.shadow && s.shadow[r].Copy? && s.shadow[r].row != s.rows[r].row)
  }

  /**
   * A select by the write-lock holder: READLOCK returns nothing, NOLOCK nothing,
   * and WRITELOCK the row's text, which is what its own commit would leave exactly
   * when it has not staged anything else.
   */
  lemma HolderReads(s: Store, q: Request, r: RowId)
    requires LocksOk(s) && WriteHeld(s, q.sub, r)
    ensures SelectOne(s, q, r) == (s, if q.lock.WriteLock? then [ReturnRow(r, WriteGranted, s.rows[r].row)] else [])
    ensures Some(s.rows[r].row) == Outcome(s, r) <==> !StagedOtherwise(s, r)
  {
  }

  /** For instance after locking row 1, which reads "old", and staging "new" for it. */
  lemma OldTextComesBack()
    ensures var s := Store(map[1 := RowData(CLEARED, 0, {}, 0, "old")], map[], map[], map[], 1);
      var q := Request(7, WriteLock, 0, 0);
      var t := UpdateRow(SelectOne(s, q, 1).0, 7, 1, "new");
      LocksOk(s) && SelectOne(t, q, 1).1 == [ReturnRow(1, WriteGranted, "old")] && Outcome(t, 1) == Some("new")
  {
  }
}
