/** The in-place lock manager of a table (Table.cc), proved against the functions of RowStore. */
module LockManager {
  import opened Options
  import opened RowStore
  import opened Sequences

  class Table {
    var rows: map<RowId, RowData>
    var shadow: map<RowId, Staged>
    var lockQueue: map<RowId, seq<Waiter>>
    var forwarderMap: map<RowId, Forwarder>
    var nextrowid: RowId

    ghost function State(): Store
      reads this
    {
      Store(rows, shadow, lockQueue, forwarderMap, nextrowid)
    }

    /** The source leaves `nextrowid` uninitialized: ids are counted from whatever it holds. */
    constructor (garbage: RowId)
      ensures State() == Store(map[], map[], map[], map[], garbage)
    {
      rows, shadow, lockQueue, forwarderMap, nextrowid := map[], map[], map[], map[], garbage;
    }

    /** False if the row is an uncommitted insert; then nobody may learn of it. */
    method AssignToLockQueue(rid: RowId, q: Request) returns (queued: bool)
      requires rid in rows
      modifies this`lockQueue
      ensures queued == !rows[rid].flags.insert
      ensures State() == Enqueue(old(State()), q, rid)
    {
      if rows[rid].flags.insert {
        return false;
      }
      var waiting := if rid in lockQueue then lockQueue[rid] else [];
      lockQueue := lockQueue[rid := waiting + [Waiter(q.sub, q.lock, q.cmdid, q.entry)]];
      return true;
    }

    method SelectRow(rid: RowId, q: Request) returns (found: seq<ReturnRow>)
      modifies this
      ensures (State(), found) == SelectOne(old(State()), q, rid)
    {
      if rid !in rows {
        return [ReturnRow(rid, NotFound, "")];
      }
      var d := rows[rid];
      var own := (d.flags.lock.ReadLock? && q.sub in d.readers) || (d.flags.lock.WriteLock? && d.writer == q.sub);
      var mustWait := false;
      found := [];
      match q.lock {
        case NoLock =>
          if !own { found := [ReturnRow(rid, Unlocked, d.row)]; }
        case ReadLock =>
          if d.flags.lock.WriteLock? {
            mustWait := !own;
          } else if !own {
            var holders := if d.flags.lock.NoLock? then {q.sub} else d.readers + {q.sub};
            rows := rows[rid := d.(flags := d.flags.(lock := ReadLock), readers := holders)];
            found := [ReturnRow(rid, ReadGranted, d.row)];
          }
        case WriteLock =>
          if d.flags.lock.NoLock? {
            rows := rows[rid := d.(flags := d.flags.(lock := WriteLock), writer := q.sub)];
            found := [ReturnRow(rid, WriteGranted, d.row)];
          } else if d.flags.lock.WriteLock? && own {
            found := [ReturnRow(rid, WriteGranted, d.row)];
          } else {
            mustWait := true;
          }
      }
      if mustWait {
        var queued := AssignToLockQueue(rid, q);
        if queued { found := [ReturnRow(rid, Pending, "")]; }
      }
    }

    method SelectRows(rids: seq<RowId>, q: Request) returns (found: seq<ReturnRow>)
      modifies this
      ensures (State(), found) == SelectMany(old(State()), q, rids)
    {
      found := [];
      var n := 0;
      assert rids[0..] == rids && found + SelectMany(State(), q, rids).1 == SelectMany(State(), q, rids).1;
      while n < |rids|
        invariant n <= |rids|
        invariant SelectMany(old(State()), q, rids) ==
                  (SelectMany(State(), q, rids[n..]).0, found + SelectMany(State(), q, rids[n..]).1)
      {
        ghost var before, sofar := State(), found;
        SelectNext(before, q, rids, n);
        var one := SelectRow(rids[n], q);
        found := found + one;
        n := n + 1;
        Assoc(sofar, one, SelectMany(State(), q, rids[n..]).1);
      }
      assert rids[n..] == [] && found + [] == found;
    }

    method NewRow(sub: SubId, text: Text) returns (rid: RowId)
      modifies this
      ensures rid == old(nextrowid) + 1 && State() == InsertRow(old(State()), sub, text)
    {
      nextrowid := nextrowid + 1;
      rid := nextrowid;
      rows := rows[rid := RowData(Flags(WriteLock, true, false, false), sub, {}, 0, text)];
      shadow := shadow[rid := SameRow];
    }

    method UpdateStaged(rid: RowId, sub: SubId, text: Text) returns (ok: bool)
      modifies this`shadow
      ensures ok == WriteHeld(old(State()), sub, rid) && State() == UpdateRow(old(State()), sub, rid, text)
    {
      if rid !in rows || !rows[rid].flags.lock.WriteLock? || rows[rid].writer != sub {
        return false;
      }
      shadow := shadow[rid := Copy(text)];
      return true;
    }

    method MarkDeleted(rid: RowId, sub: SubId) returns (ok: bool)
      modifies this`rows
      ensures ok == WriteHeld(old(State()), sub, rid) && State() == DeleteRow(old(State()), sub, rid)
    {
      if rid !in rows || !rows[rid].flags.lock.WriteLock? || rows[rid].writer != sub {
        return false;
      }
      rows := rows[rid := rows[rid].(flags := rows[rid].flags.(delete := true))];
      return true;
    }

    method MarkReplaced(rid: RowId, sub: SubId, f: Forwarder) returns (ok: bool)
      modifies this`rows, this`forwarderMap
      ensures ok == WriteHeld(old(State()), sub, rid) && State() == ReplaceDeleteRow(old(State()), sub, rid, f)
    {
      ok := MarkDeleted(rid, sub);
      if ok {
        rows := rows[rid := rows[rid].(flags := rows[rid].flags.(replaceDelete := true))];
        forwarderMap := forwarderMap[rid := f];
      }
    }

    method DropReadLock(rid: RowId, sub: SubId)
      requires rid in rows
      modifies this`rows
      ensures State() == UnlockOne(old(State()), sub, rid)
    {
      var d := rows[rid];
      if !d.flags.lock.ReadLock? || sub !in d.readers {
        return; // bogus request
      }
      var left := d.readers - {sub};
      if left == {} {
        rows := rows[rid := d.(flags := d.flags.(lock := NoLock), readers := {})];
        assert d.readers == {sub};
      } else {
        rows := rows[rid := d.(readers := left)];
      }
    }

    method CommitRow(rid: RowId, sub: SubId)
      requires rid in rows
      modifies this
      ensures State() == CommitOne(old(State()), sub, rid)
    {
      var d := rows[rid];
      if d.flags.lock.ReadLock? {
        DropReadLock(rid, sub);
        return;
      }
      if !d.flags.lock.WriteLock? || d.writer != sub {
        return; // bogus request
      }
      if d.flags.delete {
        if d.flags.replaceDelete {
          forwarderMap := forwarderMap - {rid};
        }
        rows := rows - {rid};
        shadow := shadow - {rid};
        return;
      }
      if rid in shadow {
        var text := match shadow[rid] case SameRow => d.row case Copy(t) => t;
        rows := rows[rid := RowData(CLEARED, 0, {}, d.writer, text)];
        shadow := shadow - {rid};
      } else {
        rows := rows[rid := d.(flags := CLEARED, writer := 0, readers := {})];
      }
    }

    method RollbackRow(rid: RowId, sub: SubId)
      modifies this
      ensures State() == RollbackOne(old(State()), sub, rid)
    {
      if rid !in rows {
        return;
      }
      var d := rows[rid];
      if d.writer != sub && d.flags.lock.WriteLock? {
        return; // bogus request
      }
      if d.flags.insert {
        rows := rows - {rid};
        shadow := shadow - {rid};
        return;
      }
      if d.flags.delete && d.flags.replaceDelete {
        forwarderMap := forwarderMap - {rid};
      }
      var holders := d.readers;
      if d.flags.lock.ReadLock? {
        holders := holders - {sub};
      }
      var flags := CLEARED;
      if holders != {} {
        flags := flags.(lock := ReadLock);
      }
      rows := rows[rid := d.(flags := flags, writer := 0, readers := holders)];
      shadow := shadow - {rid};
    }

    method CommitRollbackUnlock(rid: RowId, sub: SubId, cmd: Cmd)
      requires Nameable(State(), cmd, rid)
      modifies this
      ensures State() == ReleaseOne(old(State()), sub, cmd, rid)
    {
      match cmd {
        case Commit => CommitRow(rid, sub);
        case Rollback => RollbackRow(rid, sub);
        case Unlock => DropReadLock(rid, sub);
      }
    }

    /** Pops the whole queue; every waiter that still has a subtransaction is told PENDINGTONOLOCK. */
    method DrainRowLockQueue(rid: RowId, live: set<SubId>) returns (told: seq<(RowId, Waiter)>)
      modifies this`lockQueue
      ensures State() == old(State()).(queue := old(lockQueue)[rid := []])
      ensures told == Living(Tagged(rid, Queue(old(State()), rid)), live)
    {
      var waiting := if rid in lockQueue then lockQueue[rid] else [];
      told := PopAll(rid, waiting, live);
      lockQueue := lockQueue[rid := []];
    }

    static method PopAll(rid: RowId, queue: seq<Waiter>, live: set<SubId>) returns (told: seq<(RowId, Waiter)>)
      ensures told == Living(Tagged(rid, queue), live)
    {
      var waiting := queue;
      told := [];
      while waiting != []
        invariant told + Living(Tagged(rid, waiting), live) == Living(Tagged(rid, queue), live)
        decreases |waiting|
      {
        LivingNext(rid, waiting, live);
        if waiting[0].sub in live {
          Assoc(told, [(rid, waiting[0])], Living(Tagged(rid, waiting[1..]), live));
          told := told + [(rid, waiting[0])];
        }
        waiting := waiting[1..];
      }
    }

    /** One pass of the release loop; processing the queue of a surviving row is a no-op in this version. */
    method ReleaseRow(rid: RowId, sub: SubId, cmd: Cmd, live: set<SubId>) returns (told: seq<(RowId, Waiter)>)
      requires Nameable(State(), cmd, rid)
      modifies this
      ensures State() == ReleaseAndDrain(old(State()), sub, cmd, rid).0
      ensures told == Living(ReleaseAndDrain(old(State()), sub, cmd, rid).1, live)
    {
      told := [];
      CommitRollbackUnlock(rid, sub, cmd);
      if rid !in rows {
        told := DrainRowLockQueue(rid, live);
      }
    }

    /** The release loop of a commit, rollback or unlock message; those drained that still live are told, in order. */
    method Release(rids: seq<RowId>, sub: SubId, cmd: Cmd, live: set<SubId>) returns (told: seq<(RowId, Waiter)>)
      requires Releasable(State(), sub, cmd, rids)
      modifies this
      ensures State() == ReleaseMany(old(State()), sub, cmd, rids).0
      ensures told == Living(ReleaseMany(old(State()), sub, cmd, rids).1, live)
    {
      told := [];
      var n := 0;
      ghost var (t, all) := ReleaseMany(State(), sub, cmd, rids);
      ghost var drained: seq<(RowId, Waiter)> := [];
      assert rids[0..] == rids && drained + all == all;
      while n < |rids|
        invariant n <= |rids|
        invariant Releasable(State(), sub, cmd, rids[n..])
        invariant (t, all) == (ReleaseMany(State(), sub, cmd, rids[n..]).0, drained + ReleaseMany(State(), sub, cmd, rids[n..]).1)
        invariant told == Living(drained, live)
      {
        ghost var before, sofar := State(), drained;
        ReleaseNext(before, sub, cmd, rids, n);
        ghost var popped := ReleaseAndDrain(before, sub, cmd, rids[n]).1;
        var more := ReleaseRow(rids[n], sub, cmd, live);
        LivingSplits(drained, popped, live);
        told := told + more;
        drained := drained + popped;
        n := n + 1;
        Assoc(sofar, popped, ReleaseMany(State(), sub, cmd, rids[n..]).1);
      }
      assert rids[n..] == [] && drained + [] == drained;
    }
  }

  /** Those whose subtransaction still exists. */
  function Living(ws: seq<(RowId, Waiter)>, live: set<SubId>): seq<(RowId, Waiter)> {
    if ws == [] then [] else (if ws[0].1.sub in live then [ws[0]] else []) + Living(ws[1..], live)
  }

  /** Each waiter is told if its subtransaction still exists and otherwise not, and their order stays. */
  lemma {:induction false} LivingSplits(a: seq<(RowId, Waiter)>, b: seq<(RowId, Waiter)>, live: set<SubId>)
    ensures Living(a + b, live) == Living(a, live) + Living(b, live)
    ensures |a| == 1 ==> Living(a, live) == if a[0].1.sub in live then a else []
  {
    if a == [] {
      assert a + b == b;
    } else {
      assert (a + b)[0] == a[0] && (a + b)[1..] == a[1..] + b;
      LivingSplits(a[1..], b, live);
      Assoc(if a[0].1.sub in live then [a[0]] else [], Living(a[1..], live), Living(b, live));
    }
  }

  lemma LivingNext(rid: RowId, ws: seq<Waiter>, live: set<SubId>)
    requires ws != []
    ensures Living(Tagged(rid, ws), live) ==
            (if ws[0].sub in live then [(rid, ws[0])] else []) + Living(Tagged(rid, ws[1..]), live)
  {
    assert Tagged(rid, ws)[1..] == Tagged(rid, ws[1..]);
  }

  lemma SelectNext(s: Store, q: Request, rids: seq<RowId>, n: nat)
    requires n < |rids|
    ensures var (s1, one) := SelectOne(s, q, rids[n]);
      SelectMany(s, q, rids[n..]) == (SelectMany(s1, q, rids[n + 1..]).0, one + SelectMany(s1, q, rids[n + 1..]).1)
  {
    assert rids[n..][1..] == rids[n + 1..];
  }

  lemma ReleaseNext(s: Store, sub: SubId, cmd: Cmd, rids: seq<RowId>, n: nat)
    requires n < |rids| && Releasable(s, sub, cmd, rids[n..])
    ensures Nameable(s, cmd, rids[n])
    ensures var (s1, one) := ReleaseAndDrain(s, sub, cmd, rids[n]);
      && Releasable(s1, sub, cmd, rids[n + 1..])
      && ReleaseMany(s, sub, cmd, rids[n..]) ==
         (ReleaseMany(s1, sub, cmd, rids[n + 1..]).0, one + ReleaseMany(s1, sub, cmd, rids[n + 1..]).1)
  {
    assert rids[n..][1..] == rids[n + 1..];
  }
}
