/** What holds in every reachable state, early unlocks included: lock invariant, waiters, clean reads. */
module LockRuns {
  import opened Options
  import opened RowStore
  import opened Sequences
  import opened Serializability

  function At(ws: seq<(RowId, Waiter)>, r: RowId): seq<Waiter> {
    if ws == [] then [] else One(ws[0], r) + At(ws[1..], r)
  }

  function One(w: (RowId, Waiter), r: RowId): seq<Waiter> {
    if w.0 == r then [w.1] else []
  }

  lemma {:induction false} AtAppend(a: seq<(RowId, Waiter)>, b: seq<(RowId, Waiter)>, r: RowId)
    ensures At(a + b, r) == At(a, r) + At(b, r)
  {
    if a == [] {
      assert a + b == b;
    } else {
      AtAppend(a[1..], b, r);
      assert (a + b)[0] == a[0] && (a + b)[1..] == a[1..] + b;
      Assoc(One(a[0], r), At(a[1..], r), At(b, r));
    }
  }

  lemma {:induction false} AtTagged(ws: seq<Waiter>, x: RowId, r: RowId)
    ensures At(Tagged(x, ws), r) == if x == r then ws else []
  {
    if ws != [] {
      AtTagged(ws[1..], x, r);
      assert Tagged(x, ws)[1..] == Tagged(x, ws[1..]);
    }
  }

  lemma PendingsOne(q: Request, a: seq<ReturnRow>, b: seq<ReturnRow>)
    requires |a| <= 1
    ensures Pendings(q, a + b) == Pendings(q, a) + Pendings(q, b)
    ensures Pendings(q, a) == if a != [] && a[0].answer.Pending? then [(a[0].rowid, AsWaiter(q))] else []
  {
    if a == [] {
      assert a + b == b;
    } else {
      assert (a + b)[1..] == b && a[1..] == [];
    }
  }

  lemma SelectOneLedger(s: Store, t: Store, q: Request, x: RowId, a: seq<ReturnRow>, r: RowId)
    requires SelectEffect(s, t, q, x, a)
    ensures Queue(t, r) == Queue(s, r) + At(Pendings(q, a), r)
  {
    PendingsOne(q, a, []);
    if a != [] && a[0].answer.Pending? {
      assert Pendings(q, a)[1..] == [];
    }
    assert r != x ==> Queue(s, r) == Queue(t, r);
  }

  /** A select queues exactly its PENDINGLOCK answers. */
  lemma {:induction false} SelectLedger(s: Store, q: Request, rids: seq<RowId>, r: RowId)
    requires LocksOk(s) && q.sub != 0
    ensures var (t, a) := SelectMany(s, q, rids);
      LocksOk(t) && Queue(t, r) == Queue(s, r) + At(Pendings(q, a), r)
    decreases |rids|
  {
    if rids != [] {
      var (s1, a1) := SelectOne(s, q, rids[0]);
      var (s2, a2) := SelectMany(s1, q, rids[1..]);
      var p1, p2 := Pendings(q, a1), Pendings(q, a2);
      SelectOneSound(s, q, rids[0]);
      SelectOneLedger(s, s1, q, rids[0], a1, r);
      SelectLedger(s1, q, rids[1..], r);
      PendingsOne(q, a1, a2);
      AtAppend(p1, p2, r);
      Assoc(Queue(s, r), At(p1, r), At(p2, r));
    }
  }

  lemma ReleaseOneLedger(s: Store, sub: SubId, cmd: Cmd, x: RowId, r: RowId)
    requires Nameable(s, cmd, x)
    ensures var (t, d) := ReleaseAndDrain(s, sub, cmd, x);
      Queue(s, r) == At(d, r) + Queue(t, r)
  {
    var (t, d) := ReleaseAndDrain(s, sub, cmd, x);
    ReleaseFrame(s, sub, cmd, x);
    AtAppend(d, Tagged(x, Queue(t, x)), r);
    AtTagged(Queue(s, x), x, r);
    AtTagged(Queue(t, x), x, r);
    assert r != x ==> At(d, r) == [] && Queue(s, r) == Queue(t, r);
  }

  lemma {:induction false} ReleaseLedger(s: Store, sub: SubId, cmd: Cmd, rids: seq<RowId>, r: RowId)
    requires LocksOk(s) && sub != 0 && Releasable(s, sub, cmd, rids)
    ensures var (t, d) := ReleaseMany(s, sub, cmd, rids);
      LocksOk(t) && Queue(s, r) == At(d, r) + Queue(t, r)
    decreases |rids|
  {
    if rids != [] {
      var (s1, d1) := ReleaseAndDrain(s, sub, cmd, rids[0]);
      var (s2, d2) := ReleaseMany(s1, sub, cmd, rids[1..]);
      ReleaseOneLedger(s, sub, cmd, rids[0], r);
      ReleaseKeeps(s, sub, cmd, rids[0]);
      ReleaseLedger(s1, sub, cmd, rids[1..], r);
      AtAppend(d1, d2, r);
      Assoc(At(d1, r), At(d2, r), Queue(s2, r));
    }
  }

  lemma {:induction false} GoneStaysGone(s: Store, sub: SubId, cmd: Cmd, rids: seq<RowId>, r: RowId)
    requires Releasable(s, sub, cmd, rids) && r !in s.rows
    ensures r !in ReleaseMany(s, sub, cmd, rids).0.rows
    decreases |rids|
  {
    if rids != [] {
      var s1 := ReleaseAndDrain(s, sub, cmd, rids[0]).0;
      ReleaseFrame(s, sub, cmd, rids[0]);
      assert r != rids[0] ==> SameRowState(s, s1, r);
      GoneStaysGone(s1, sub, cmd, rids[1..], r);
    }
  }

  /** Of a row's queue: drained whole when the row is named and then gone, and otherwise left alone. */
  predicate Drains(named: bool, gone: bool, before: seq<Waiter>, drained: seq<Waiter>, after: seq<Waiter>) {
    if named && gone then drained == before && after == [] else drained == [] && after == before
  }

  lemma TurnDrains(s: Store, sub: SubId, cmd: Cmd, x: RowId, r: RowId)
    requires Nameable(s, cmd, x)
    ensures var (t, d) := ReleaseAndDrain(s, sub, cmd, x);
      && Drains(r == x, r !in t.rows, Queue(s, r), At(d, r), Queue(t, r))
      && (r != x ==> (r in t.rows <==> r in s.rows))
  {
    var (t, d) := ReleaseAndDrain(s, sub, cmd, x);
    ReleaseOneLedger(s, sub, cmd, x, r);
    ReleaseDrains(s, sub, cmd, x);
    ReleaseFrame(s, sub, cmd, x);
    assert Queue(t, r) == [] ==> At(d, r) + Queue(t, r) == At(d, r);
    if r != x {
      assert SameRowState(s, t, r);
    } else if r in t.rows {
      assert At(d, r) == [];
    }
  }

  /** Gone rows stay gone, and a row that is not named neither goes nor comes. */
  lemma DrainsOn(named1: bool, gone1: bool, named2: bool, gone2: bool,
                 q: seq<Waiter>, d1: seq<Waiter>, q1: seq<Waiter>, d2: seq<Waiter>, q2: seq<Waiter>)
    requires Drains(named1, gone1, q, d1, q1) && Drains(named2, gone2, q1, d2, q2)
    requires (gone1 ==> gone2) && (!named2 ==> gone1 == gone2)
    ensures Drains(named1 || named2, gone2, q, d1 + d2, q2)
  {
    assert d1 + [] == d1 && [] + d2 == d2;
  }

  lemma {:induction false} StillThere(s: Store, sub: SubId, cmd: Cmd, rids: seq<RowId>, r: RowId)
    requires Releasable(s, sub, cmd, rids) && r !in rids
    ensures r in ReleaseMany(s, sub, cmd, rids).0.rows <==> r in s.rows
    decreases |rids|
  {
    if rids != [] {
      TurnDrains(s, sub, cmd, rids[0], r);
      StillThere(ReleaseAndDrain(s, sub, cmd, rids[0]).0, sub, cmd, rids[1..], r);
    }
  }

  /** Over a whole message, a row's waiters are drained, all of them, exactly when the row is named and gone afterwards. */
  lemma {:induction false} DrainedIffGone(s: Store, sub: SubId, cmd: Cmd, rids: seq<RowId>, r: RowId)
    requires Releasable(s, sub, cmd, rids)
    ensures var (t, d) := ReleaseMany(s, sub, cmd, rids);
      if r in rids && r !in t.rows then At(d, r) == Queue(s, r) && Queue(t, r) == []
      else At(d, r) == [] && Queue(t, r) == Queue(s, r)
    decreases |rids|
  {
    if rids != [] {
      var x, more := rids[0], rids[1..];
      var (s1, d1) := ReleaseAndDrain(s, sub, cmd, x);
      var (t, d2) := ReleaseMany(s1, sub, cmd, more);
      TurnDrains(s, sub, cmd, x, r);
      DrainedIffGone(s1, sub, cmd, more, r);
      AtAppend(d1, d2, r);
      if r !in s1.rows { GoneStaysGone(s1, sub, cmd, more, r); }
      if r !in more { StillThere(s1, sub, cmd, more, r); }
      DrainsOn(r == x, r !in s1.rows, r in more, r !in t.rows,
               Queue(s, r), At(d1, r), Queue(s1, r), At(d2, r), Queue(t, r));
    }
  }

  /** Row by row, the PENDINGLOCK answers given are, in order, the waiters drained followed by those still queued. */
  ghost predicate Accounted(y: Sys) {
    LocksOk(y.store) && forall r :: AccountedAt(y, r)
  }

  ghost predicate AccountedAt(y: Sys, r: RowId) {
    At(y.asked, r) == At(y.drained, r) + Queue(y.store, r)
  }

  lemma SelectAccounted(y: Sys, e: Event, r: RowId)
    requires LocksOk(y.store) && AccountedAt(y, r) && Runnable(y, e) && e.Select?
    ensures AccountedAt(Step(y, e), r) && LocksOk(Step(y, e).store)
  {
    var (t, a) := SelectMany(y.store, e.q, e.rids);
    var p := Pendings(e.q, a);
    SelectLedger(y.store, e.q, e.rids, r);
    AtAppend(y.asked, p, r);
    Assoc(At(y.drained, r), Queue(y.store, r), At(p, r));
  }

  lemma ReleaseAccounted(y: Sys, e: Event, r: RowId)
    requires LocksOk(y.store) && AccountedAt(y, r) && Runnable(y, e) && e.Release?
    ensures AccountedAt(Step(y, e), r) && LocksOk(Step(y, e).store)
  {
    var (t, d) := ReleaseMany(y.store, e.sub, e.cmd, e.rids);
    ReleaseLedger(y.store, e.sub, e.cmd, e.rids, r);
    AtAppend(y.drained, d, r);
    Assoc(At(y.drained, r), At(d, r), Queue(t, r));
    assert Step(y, e).store == t && Step(y, e).drained == y.drained + d && Step(y, e).asked == y.asked;
  }

  lemma StepAccounted(y: Sys, e: Event)
    requires Accounted(y) && Runnable(y, e)
    ensures Accounted(Step(y, e))
  {
    if e.Select? {
      SelectAccounted(y, e, 0);
      forall r ensures AccountedAt(Step(y, e), r) { SelectAccounted(y, e, r); }
    } else if e.Release? {
      ReleaseAccounted(y, e, 0);
      forall r ensures AccountedAt(Step(y, e), r) { ReleaseAccounted(y, e, r); }
    } else {
      match e {
        case Insert(sub, text) => InsertSound(y.store, sub, text);
        case Update(sub, r, text) => UpdateSound(y.store, sub, r, text);
        case Delete(sub, r) => DeleteSound(y.store, sub, r);
        case ReplaceDelete(sub, r, f) => ReplaceDeleteSound(y.store, sub, r, f);
      }
      forall r ensures AccountedAt(Step(y, e), r) {
        assert AccountedAt(y, r) && Queue(Step(y, e).store, r) == Queue(y.store, r);
      }
    }
  }

  /** In every reachable state, early unlocks included, locks agree with their holders and no waiter is lost. */
  lemma {:induction false} RunAccounted(y: Sys, run: seq<Event>)
    requires Accounted(y) && AllRunnable(y, run)
    ensures Accounted(Run(y, run))
    decreases |run|
  {
    if run != [] {
      StepAccounted(y, run[0]);
      RunAccounted(Step(y, run[0]), run[1..]);
    }
  }

  /** A granted answer: its text is the row's, and the row is committed or the requester's own insert. */
  ghost predicate CleanGrant(s: Store, q: Request, g: ReturnRow) {
    && g.rowid in s.rows && g.row == s.rows[g.rowid].row
    && (g.rowid in Committed(s) || WriteHeld(s, q.sub, g.rowid))
  }

  lemma CleanBefore(s: Store, s1: Store, q: Request, r: RowId, a: seq<ReturnRow>, g: ReturnRow)
    requires SelectEffect(s, s1, q, r, a) && CleanGrant(s1, q, g)
    ensures CleanGrant(s, q, g)
  {
    assert g.rowid != r ==> SameRowState(s, s1, g.rowid);
  }

  /** Nothing a READLOCK or WRITELOCK select grants was staged by another subtransaction. */
  lemma {:induction false} GrantsClean(s: Store, q: Request, rids: seq<RowId>, i: nat)
    requires LocksOk(s) && q.sub != 0 && i < |SelectMany(s, q, rids).1|
    ensures var g := SelectMany(s, q, rids).1[i]; IsGrant(g) ==> CleanGrant(s, q, g)
    decreases |rids|
  {
    if rids != [] {
      var (s1, a1) := SelectOne(s, q, rids[0]);
      SelectOneSound(s, q, rids[0]);
      if i >= |a1| {
        var g := SelectMany(s1, q, rids[1..]).1[i - |a1|];
        GrantsClean(s1, q, rids[1..], i - |a1|);
        if IsGrant(g) { CleanBefore(s, s1, q, rids[0], a1, g); }
      }
    }
  }

  /** What a select leaves behind: the rows named that can be locked are, and no other row is locked or unlocked. */
  ghost predicate Served(s: Store, t: Store, q: Request, rids: seq<RowId>, r: RowId) {
    && (r in t.rows <==> r in s.rows)
    && (r in s.rows ==>
          var d := s.rows[r];
          var due := r in rids && match q.lock
                     case NoLock => false
                     case ReadLock => !d.flags.lock.WriteLock?
                     case WriteLock => d.flags.lock.NoLock?;
          t.rows[r] == if !due then d else if q.lock.ReadLock?
                       then d.(flags := d.flags.(lock := ReadLock), readers := d.readers + {q.sub})
                       else d.(flags := d.flags.(lock := WriteLock), writer := q.sub))
  }

  lemma ServedOne(s: Store, q: Request, x: RowId, r: RowId)
    requires LocksOk(s) && q.sub != 0
    ensures Served(s, SelectOne(s, q, x).0, q, [x], r)
  {
    if r != x {
      SelectOneFrame(s, q, x);
      assert SameRowState(s, SelectOne(s, q, x).0, r);
    } else {
      NoLockAnswers(s, q, r);
      if r in s.rows {
        assert RowOk(s, r);
        match q.lock {
          case NoLock =>
          case ReadLock => ReadLockAnswers(s, q, r);
          case WriteLock => WriteLockAnswers(s, q, r);
        }
      }
    }
  }

  /** Every row named is locked if the lock is free for the requester: readers share, a writer is alone. */
  lemma {:induction false} SelectServes(s: Store, q: Request, rids: seq<RowId>, r: RowId)
    requires LocksOk(s) && q.sub != 0
    ensures Served(s, SelectMany(s, q, rids).0, q, rids, r)
    decreases |rids|
  {
    if rids != [] {
      var s1 := SelectOne(s, q, rids[0]).0;
      SelectOneSound(s, q, rids[0]);
      ServedOne(s, q, rids[0], r);
      SelectServes(s1, q, rids[1..], r);
    }
  }

  /** NOLOCK selects give no such promise: exactly the uncommitted inserts of others are returned as well. */
  lemma UnlockedReadsInserts(s: Store, q: Request, r: RowId)
    requires LocksOk(s) && q.lock.NoLock? && q.sub != 0
    ensures SelectOne(s, q, r).1 == [ReturnRow(r, Unlocked, if r in s.rows then s.rows[r].row else "")]
            <==> r in s.rows && !Holds(s, q.sub, r)
    ensures r in s.rows && s.rows[r].flags.insert && !WriteHeld(s, q.sub, r) ==>
              SelectOne(s, q, r).1 == [ReturnRow(r, Unlocked, s.rows[r].row)] && r !in Committed(s)
  {
    if r in s.rows { assert RowOk(s, r); }
  }

  // ---------------------------------------------------------------- what changes the table

  /** The text a reader finds at a row, if any. */
  function Visible(s: Store, r: RowId): Option<Text> {
    if r in s.rows && !s.rows[r].flags.insert then Some(s.rows[r].row) else None
  }

  /** What a release of the rows named makes of row `r`: only a commit by its write-lock holder changes it. */
  function Refined(s: Store, sub: SubId, cmd: Cmd, named: bool, r: RowId): Option<Text> {
    if cmd.Commit? && named && WriteHeld(s, sub, r) then Outcome(s, r) else Visible(s, r)
  }

  lemma ReleaseOneRefines(s: Store, sub: SubId, cmd: Cmd, x: RowId)
    requires LocksOk(s) && sub != 0 && Nameable(s, cmd, x)
    ensures var t := ReleaseAndDrain(s, sub, cmd, x).0;
      Visible(t, x) == Refined(s, sub, cmd, true, x) && (cmd.Commit? ==> !WriteHeld(t, sub, x))
  {
    if x in s.rows {
      assert RowOk(s, x);
    }
  }

  lemma ElsewhereSame(s: Store, t: Store, sub: SubId, r: RowId)
    requires SameRowState(s, t, r)
    ensures Visible(s, r) == Visible(t, r) && (WriteHeld(s, sub, r) <==> WriteHeld(t, sub, r))
    ensures r in s.rows ==> Outcome(s, r) == Outcome(t, r)
  {
  }

  lemma {:induction false} ReleaseRefines(s: Store, sub: SubId, cmd: Cmd, rids: seq<RowId>, r: RowId)
    requires LocksOk(s) && sub != 0 && Releasable(s, sub, cmd, rids)
    ensures Visible(ReleaseMany(s, sub, cmd, rids).0, r) == Refined(s, sub, cmd, r in rids, r)
    decreases |rids|
  {
    if rids != [] {
      var s1 := ReleaseAndDrain(s, sub, cmd, rids[0]).0;
      ReleaseFrame(s, sub, cmd, rids[0]);
      ReleaseKeeps(s, sub, cmd, rids[0]);
      ReleaseRefines(s1, sub, cmd, rids[1..], r);
      if r == rids[0] {
        ReleaseOneRefines(s, sub, cmd, r);
      } else {
        ElsewhereSame(s, s1, sub, r);
      }
    }
  }

  /**
   * The committed table is changed by nothing but a commit naming rows that its
   * sender has write-locked; that installs each such row's staged text or removes
   * the row. Selects, staging, rollbacks and unlocks leave it as it was.
   */
  lemma OnlyCommitsChangeTheTable(y: Sys, e: Event, r: RowId)
    requires LocksOk(y.store) && Runnable(y, e)
    ensures Visible(Step(y, e).store, r) ==
              if e.Release? then Refined(y.store, e.sub, e.cmd, r in e.rids, r) else Visible(y.store, r)
  {
    match e
    case Select(q, rids) => SelectShows(y.store, q, rids, r);
    case Insert(sub, text) => InsertSound(y.store, sub, text);
    case Release(sub, cmd, rids) => ReleaseRefines(y.store, sub, cmd, rids, r);
    case _ =>
  }

  lemma {:induction false} SelectShows(s: Store, q: Request, rids: seq<RowId>, r: RowId)
    requires LocksOk(s) && q.sub != 0
    ensures Visible(SelectMany(s, q, rids).0, r) == Visible(s, r)
    decreases |rids|
  {
    if rids != [] {
      var (s1, a1) := SelectOne(s, q, rids[0]);
      SelectOneSound(s, q, rids[0]);
      SelectShows(s1, q, rids[1..], r);
      if r != rids[0] {
        ElsewhereSame(s, s1, q.sub, r);
      } else if a1 == [] || !IsGrant(a1[0]) {
        assert SameRowState(s, s1, r);
      }
    }
  }

  // ---------------------------------------------------------------- forwarders over runs

  /** Some row the release names is, when its turn comes, an insert that the same subtransaction has replaced. */
  ghost predicate StrandsOne(s: Store, sub: SubId, cmd: Cmd, rids: seq<RowId>)
    requires Releasable(s, sub, cmd, rids)
    decreases |rids|
  {
    rids != [] &&
    (Strands(s, sub, cmd, rids[0]) || StrandsOne(ReleaseAndDrain(s, sub, cmd, rids[0]).0, sub, cmd, rids[1..]))
  }

  /** A forwarder without a row stays: no rollback looks at it again. */
  lemma {:induction false} StrayStays(s: Store, sub: SubId, rids: seq<RowId>, r: RowId)
    requires Releasable(s, sub, Rollback, rids) && r in s.forward && r !in s.rows
    ensures r in ReleaseMany(s, sub, Rollback, rids).0.forward && r !in ReleaseMany(s, sub, Rollback, rids).0.rows
    decreases |rids|
  {
    if rids != [] {
      var s1 := ReleaseAndDrain(s, sub, Rollback, rids[0]).0;
      ReleaseFrame(s, sub, Rollback, rids[0]);
      assert r != rids[0] ==> SameRowState(s, s1, r);
      StrayStays(s1, sub, rids[1..], r);
    }
  }

  lemma {:induction false} ReleaseForwarders(s: Store, sub: SubId, cmd: Cmd, rids: seq<RowId>)
    requires LocksOk(s) && ForwardersAgree(s) && sub != 0 && Releasable(s, sub, cmd, rids)
    ensures ForwardersAgree(ReleaseMany(s, sub, cmd, rids).0) <==> !StrandsOne(s, sub, cmd, rids)
    decreases |rids|
  {
    if rids != [] {
      var s1 := ReleaseAndDrain(s, sub, cmd, rids[0]).0;
      ForwardersAgreeIff(s, sub, cmd, rids[0]);
      ReleaseKeeps(s, sub, cmd, rids[0]);
      if Strands(s, sub, cmd, rids[0]) {
        RolledBackForwarder(s, sub, rids[0]);
        StrayStays(s1, sub, rids[1..], rids[0]);
      } else {
        ReleaseForwarders(s1, sub, cmd, rids[1..]);
      }
    }
  }

  lemma {:induction false} SelectForwarders(s: Store, q: Request, rids: seq<RowId>)
    requires LocksOk(s) && ForwardersAgree(s) && q.sub != 0
    ensures ForwardersAgree(SelectMany(s, q, rids).0)
    decreases |rids|
  {
    if rids != [] {
      var (s1, a1) := SelectOne(s, q, rids[0]);
      SelectOneFrame(s, q, rids[0]);
      SelectOneSound(s, q, rids[0]);
      forall r ensures r in s1.forward <==> r in s1.rows && s1.rows[r].flags.replaceDelete {
        if SameRowState(s, s1, r) {} else { assert Acquired(s, s1, q, r); }
      }
      SelectForwarders(s1, q, rids[1..]);
    }
  }

  /** The event is a rollback that leaves a forwarder behind. */
  ghost predicate LeavesForwarder(y: Sys, e: Event)
    requires Runnable(y, e)
  {
    e.Release? && StrandsOne(y.store, e.sub, e.cmd, e.rids)
  }

  lemma StepForwarders(y: Sys, e: Event)
    requires LocksOk(y.store) && ForwardersAgree(y.store) && Runnable(y, e)
    ensures ForwardersAgree(Step(y, e).store) <==> !LeavesForwarder(y, e)
  {
    match e
    case Select(q, rids) => SelectForwarders(y.store, q, rids);
    case Release(sub, cmd, rids) => ReleaseForwarders(y.store, sub, cmd, rids);
    case _ =>
  }

  ghost predicate NoForwarderLeft(y: Sys, run: seq<Event>)
    requires AllRunnable(y, run)
    decreases |run|
  {
    run == [] || (!LeavesForwarder(y, run[0]) && NoForwarderLeft(Step(y, run[0]), run[1..]))
  }

  /** Over every run without such a rollback, forwarders are kept for exactly the rows marked as replaced. */
  lemma {:induction false} RunForwarders(y: Sys, run: seq<Event>)
    requires Accounted(y) && ForwardersAgree(y.store) && AllRunnable(y, run) && NoForwarderLeft(y, run)
    ensures ForwardersAgree(Run(y, run).store)
    decreases |run|
  {
    if run != [] {
      StepForwarders(y, run[0]);
      StepAccounted(y, run[0]);
      RunForwarders(Step(y, run[0]), run[1..]);
    }
  }
}
