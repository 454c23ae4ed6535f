# InfiniSQL in Dafny

InfiniSQL is an in-memory, partitioned, transactional SQL server built from
actors that exchange messages. This project models its five small cores and
proves what they promise.

1. **Row locks and staged rows** (`RowStore`, `LockManager`, `Serializability`,
   `LockRuns`, `UniqueIndex`). `RowStore` states each operation of a partition on
   values, `LockManager` holds the in-place code and is proved equal to it.
   `Serializability` compares every two-phase run, with commits and rollbacks in
   any number of messages, with a reference that runs one subtransaction at a
   time; `LockRuns` holds what is true of every reachable state, early unlocks
   included.
2. **Mailbox and transport** (`Mailbox`, `Transport`, `Reassembly`). The mailbox
   is a state machine with one atomic load, add or compare-and-swap per step and
   any number of producers. Above it are outbound batching, framing per node, and
   reassembly of frames from reads of any length.
3. **Expressions** (`AstTree`, `ExpressionParser`, `Grammar`, `NameResolution`,
   `Conditions`, `Evaluation`). Nodes with parent and child pointers, rebuilt from the
   postfix stack that the grammar leaves, walked without recursion to resolve names, and
   collapsed in place by a walk that predicates suspend and resume.
4. **Replication** (`Convergence`, `Replica`, `Applier`). Index changes that arrive in
   any order, from several domains, are applied or parked; subtransactions are
   acknowledged and their appliers counted down. `Convergence` says on values what
   the order of messages does, `Replica` holds the engine, `Applier` the agent's side.
5. **Index searches and codecs** (`IndexScan`, `PrefixScan`, `RowCodec`,
   `MessageCodec`, with `Bytes`). Range scans against a plain filter, LIKE through
   an interval of the index, rows and messages packed into bytes and back.

`Options` and `Sequences` hold a datatype and two facts used everywhere.

Where the code does something other than its comments or its callers expect, the
model follows the code and says exactly when the expectation holds:

- `handledispatch` gives every Applier the count zero, before it knows the
  partitions; such an Applier is never retired (`Applier.DispatchedAppliersStay`).
- `Engine::apply` tries everything parked again in the schema of the message that has
  just come, whatever domain it was parked for. A delete parked for one domain can take
  the entry of another, and three messages are enough for two replicas to end up
  different with nothing parked (`Convergence.DomainsMixedUp`). A walk keeps every
  domain in sync exactly when no parked delete of another domain finds its entry in the
  message's domain (`Convergence.WalkInSyncIff`). Replicas agree exactly when strays
  have changed their counts alike, in particular when only messages of its domain come
  while something is parked (`Replica.ReplicasConverge`, `Replica.OneDomainConverges`);
  the same condition makes an acknowledgement mean that all was applied where it
  belongs (`Replica.AckedIffApplied`, `Replica.UndisturbedAtHome`).
- A connection that hangs up, unlike one that closes, leaves its tail to the next one
  with its descriptor (`Reassembly.StaleTail`, `Reassembly.StaleTailMisreads`).
- The row id counter of a table is never initialized; nothing here depends on where it
  starts (`LockManager.Table.constructor`).
- The grammar has a test for the truth value NULL, whose operator the parser does not
  list as unary. A search condition is rebuilt exactly when it has no such test
  (`Grammar.ConditionsParseIff`).
- An AND releases the lock of each left row it drops. When it lies below an OR the
  other side of the OR can still return that row (`Conditions.LocksKeptIff`).
- `replaceUnique` commits a key without draining its waiters. No waiter is ever
  left behind while each replace names a key in use (`UniqueIndex.RunNoStaleWaiter`).
  But a row and its key are committed by different engines: when the row's commit
  overtakes the key's, a replace finds the key still staged and strands who waits
  for it (`UniqueIndex.ReplaceStrandsWaiter`), exactly when someone was told to wait
  and no commit message for the key has come since (`UniqueIndex.ReplaceStrandsIff`).
- Deleting or replacing a key does not look at who has staged it. Unless that hits a
  staged key, no key is ever granted twice (`UniqueIndex.RunGrantsAgree`); when it does,
  it can be (`UniqueIndex.GrantsAgreeIff`, `UniqueIndex.DeleteTakesStagedKey`).
- A closed connection drops whole frames that were appended but not parsed: exactly
  when its parsing loop would still find one (`Reassembly.CloseLoses`), as after one
  frame in two reads (`Reassembly.ClosedTooEarly`).
- NOT BETWEEN with swapped bounds counts keys strictly between them twice
  (`IndexScan.BetweenPartition`); IN counts a value once per listing
  (`IndexScan.InPartition`).
- The test for byte 255 in `getIterators` compares a signed char and never holds, so
  the byte wraps to zero and the interval ends before it begins
  (`PrefixScan.NarrowingLosesNothingIff`, `PrefixScan.IteratorsInOrderIff`).
- In `addfield` FLOAT falls through to CHAR and reserves a byte too many; the rows
  still read back (`RowCodec.RowRoundTrip`).
- `unmakerow` refuses a null flag in the last byte, so a last CHARX of length zero
  can make a good row unreadable (`RowCodec.RowRoundTrip`).
- A WRITELOCK select by the subtransaction that has staged an update returns the
  committed text, not its own update. It returns what its commit would leave exactly
  when it has neither deleted the row nor staged another text (`RowStore.HolderReads`,
  `RowStore.OldTextComesBack`); the serial reference reads the same way.
- A rolled-back row keeps its forwarder exactly when the same subtransaction had
  inserted it and then replaced it (`RowStore.RolledBackForwarder`,
  `RowStore.ForwarderLeftBehind`); in runs without such a rollback forwarders exist for
  exactly the rows marked as replaced (`LockRuns.RunForwarders`).

Conventions: a heap-allocated record that only one table owns is a value in a map
of its table. Allocation never fails. Iteration over an unordered container
is an arbitrary choice of the next key.

## Model

| member | source | states |
|---|---|---|
| RowStore.SelectOneFrame | infinisqld/Table.cc:448-649 | one row of a select changes no other row and no staged row, answers at most once, and queues the requester exactly when it answers PENDINGLOCK |
| RowStore.SelectOneGrant | infinisqld/Table.cc:510-644 | a granted READLOCK or WRITELOCK adds the requester to the holders, keeps every other holder, and returns committed text or the requester's own insert; any other answer leaves the row as it was |
| RowStore.ReadLockAnswers | infinisqld/Table.cc:510-577 | a READLOCK is granted if and only if the row is not write-locked and the requester is no reader yet, and then adds exactly the requester to the readers; it is answered PENDINGLOCK if and only if another subtransaction has write-locked the row and the row is no insert of its own; exactly the remaining requests get no answer |
| RowStore.WriteLockAnswers | infinisqld/Table.cc:578-644 | a WRITELOCK is granted if and only if the row is free or already write-held by the requester, who then is its writer; it is answered PENDINGLOCK if and only if the row is read-locked, or write-locked by another and no insert; exactly requests for inserts of others get no answer |
| RowStore.NoLockAnswers | infinisqld/Table.cc:460-508 | without a lock exactly the rows that the requester does not hold are returned; a row that is not there is reported as such for every kind of lock; nothing changes |
| RowStore.SelectInTurn | infinisqld/Table.cc:448-649 | the rows named are served one after another, each on what the ones before it have left, and the answers follow in that order |
| RowStore.SelectOneSound | infinisqld/Table.cc:448-649 | frame, grant and lock invariant of one requested row together |
| RowStore.UpdateSound | infinisqld/Table.cc:401-426 | staging an update keeps the lock invariant and is invisible to readers; the staged text is what a commit would leave, unless the row is marked deleted; without the write lock nothing happens |
| RowStore.DeleteSound | infinisqld/Table.cc:1026-1045 | marking a row deleted keeps the lock invariant and is invisible to readers; a commit would leave nothing; without the write lock nothing happens |
| RowStore.ReplaceDeleteSound | infinisqld/Table.cc:428-446 | marking a row replaced elsewhere keeps the lock invariant and is invisible to readers; a commit would leave nothing, and the forwarder is the one given |
| RowStore.InsertSound | infinisqld/Table.cc:1011-1024 | a new row takes the next id, is write-locked by its inserter, staged with its text and invisible to readers; all other rows stay |
| RowStore.ReleaseFrame | infinisqld/SubTransaction.cc:161-205 | releasing one row changes no other row; what leaves its queue has been drained, in order |
| RowStore.ReleaseDrains | infinisqld/SubTransaction.cc:193-204 | a row that is still there after its release keeps its queue and drains nobody; a row that is gone has an empty queue and has drained exactly its old one, in order |
| RowStore.ReleaseUnheld | infinisqld/Table.cc:656-872 | a commit, rollback or unlock by a subtransaction that does not hold the row changes nothing about it |
| RowStore.ReleaseHeld | infinisqld/Table.cc:656-872 | a commit by the write-lock holder installs exactly its staged text, with the holder as the last to have changed it, or removes the row; a rollback discards what was staged, or the inserted row; a reader leaves and the last one clears the lock; the forwarder of a replaced row stays exactly when an insert is rolled back |
| RowStore.ReleaseKeeps | infinisqld/Table.cc:651-872 | every release keeps the lock invariant: no holders when unlocked, readers only when read-locked, one writer when write-locked, staged rows only under a write lock |
| RowStore.RolledBackForwarder | infinisqld/Table.cc:790-803 | rolling back a replaced row leaves its forwarder if and only if the same subtransaction had inserted the row |
| RowStore.ForwardersAgreeIff | infinisqld/Table.cc:656-872 | a release keeps forwarders for exactly the rows marked as replaced if and only if it is no rollback of a row both inserted and replaced |
| RowStore.ForwarderLeftBehind | infinisqld/Table.cc:790-796 | insert, replace, roll back: the row is gone and its forwarder is not |
| RowStore.HolderReads | infinisqld/Table.cc:614-618 | what a select by the write-lock holder returns, and that it is what its own commit would leave if and only if nothing else is staged |
| RowStore.OldTextComesBack | infinisqld/Table.cc:614-618 | lock, stage a new text, select again: the old text is returned |
| LockManager.Table.constructor | infinisqld/Table.cc:31-40 | an empty table; row ids are counted from whatever the uninitialized counter holds |
| LockManager.Table.AssignToLockQueue | infinisqld/Table.cc:1047-1064 | queues the requester unless the row is an uncommitted insert |
| LockManager.Table.SelectRow | infinisqld/Table.cc:448-649 | the in-place branches on lock kind and holders are the one-row select |
| LockManager.Table.SelectRows | infinisqld/Table.cc:448-649 | the loop is the select of all row ids in order, with all answers |
| LockManager.Table.NewRow | infinisqld/Table.cc:1006-1024 | takes the next row id and stages the inserted row itself |
| LockManager.Table.UpdateStaged | infinisqld/Table.cc:401-426 | stages a copy exactly for the write-lock holder |
| LockManager.Table.MarkDeleted | infinisqld/Table.cc:1026-1045 | sets the delete flag exactly for the write-lock holder |
| LockManager.Table.MarkReplaced | infinisqld/Table.cc:428-446 | sets delete and replace-delete flags and the forwarder exactly for the write-lock holder |
| LockManager.Table.CommitRow | infinisqld/Table.cc:656-772 | the commit branch, bogus requests included |
| LockManager.Table.RollbackRow | infinisqld/Table.cc:774-845 | the rollback branch, rows that are gone and bogus requests included |
| LockManager.Table.DropReadLock | infinisqld/Table.cc:847-872 | the unlock branch |
| LockManager.Table.DrainRowLockQueue | infinisqld/SubTransaction.cc:1898-1932 | the whole queue is popped; exactly the waiters with a living subtransaction are told |
| LockManager.LivingSplits | infinisqld/SubTransaction.cc:1898-1932 | of several waiters exactly those whose subtransaction still exists are told, each once and in order |
| LockManager.Table.Release | infinisqld/SubTransaction.cc:161-205 | the release loop over all rows named, draining the queue of every row that is gone; the waiters told are those drained that still live, in order |
| Serializability.SelectStep | infinisqld/Table.cc:448-649 | a select keeps every open subtransaction's log consistent with a serial execution and appends exactly the granted reads and the rows found gone |
| Serializability.InsertStep | infinisqld/Table.cc:1011-1024 | an insert keeps every open log consistent; its row id is new in every serial execution still possible |
| Serializability.StageStep | infinisqld/Table.cc:401-446 | an update or delete by the holder keeps every open log consistent |
| Serializability.GoneStep | infinisqld/Table.cc:510-525 | a NOTFOUNDLOCK answer for a row id already handed out is a read too: the row is gone in every serial execution still possible |
| Serializability.ReleaseManySound | infinisqld/SubTransaction.cc:161-205 | held rows that a message names end up as committed or rolled back; every other row, held ones not named included, is untouched |
| Serializability.ReleaseStep | infinisqld/SubTransaction.cc:161-205 | the first commit message of a subtransaction makes the table to come the serial result of its log; later ones and rollbacks leave it; all other logs stay consistent |
| Serializability.StepSerializable | infinisqld/SubTransaction.cc:161-205 | every allowed event keeps the equivalence with the serial execution in the order of first commit messages |
| Serializability.RunSerializable | infinisqld/Table.cc:448-845 | serializability over every two-phase run, with commits and rollbacks in any number of messages: replaying the committed subtransactions one at a time gives the same text for every granted row, finds gone every row that was answered gone, and leaves the table that will be there when commits under way are through, which is the committed table whenever none is |
| Serializability.SettledIsCommitted | infinisqld/Transaction.cc:1991-2021 | when no write lock belongs to a subtransaction in the middle of its commit, the table to come is the committed one |
| Serializability.LaterRelease | infinisqld/Transaction.cc:2063-2112 | each rollback message, and each commit message after the first, leaves the table to come as it is |
| Serializability.QuietStart | infinisqld/Table.cc:31-40 | any state without locks is a start of such a run |
| Serializability.ClosingIff | infinisqld/Transaction.cc:2063-2112 | a subtransaction counts as closing from its first release message on exactly as long as it holds something; then it may begin anew |
| LockRuns.SelectLedger | infinisqld/Table.cc:1047-1064 | a select queues exactly its PENDINGLOCK answers, in order |
| LockRuns.ReleaseLedger | infinisqld/SubTransaction.cc:193-204 | what a release loop drains is taken from the front of the queues |
| LockRuns.DrainedIffGone | infinisqld/SubTransaction.cc:161-205 | over a whole release message, all waiters of a row are drained if it is named and gone afterwards, and otherwise none of them is |
| LockRuns.SelectServes | infinisqld/Table.cc:448-649 | over a whole select, exactly the rows named that are free, or read-locked when reading, become locked, by the requester and in the kind asked for; every other row stays as it was |
| LockRuns.StepAccounted | infinisqld/SubTransaction.cc:1898-1932 | every step, early unlocks included, keeps the lock invariant and the waiter account |
| LockRuns.RunAccounted | infinisqld/SubTransaction.cc:1898-1932 | in every reachable state the PENDINGLOCK answers of a row are the waiters drained followed by those still queued, in order |
| LockRuns.GrantsClean | infinisqld/Table.cc:510-644 | nothing that a READLOCK or WRITELOCK select grants was staged by another subtransaction, over all rows of the request |
| LockRuns.ReleaseRefines | infinisqld/SubTransaction.cc:161-205 | a release changes the visible text of exactly the rows it names, commits and has write-locked, to the staged outcome |
| LockRuns.OnlyCommitsChangeTheTable | infinisqld/Table.cc:651-872 | over every event the committed table is changed by nothing but a commit by the write-lock holder of the row, which installs its staged text or removes it |
| LockRuns.UnlockedReadsInserts | infinisqld/Table.cc:460-508 | exactly when a NOLOCK select returns a row, and that it also returns other subtransactions' uncommitted inserts |
| LockRuns.ReleaseForwarders | infinisqld/SubTransaction.cc:161-205 | a whole release message keeps the forwarders right if and only if no row it names is, when its turn comes, rolled back after insert and replace |
| LockRuns.RunForwarders | infinisqld/Table.cc:774-845 | over every run without such a rollback, forwarders exist for exactly the rows marked as replaced |
| UniqueIndex.KeyIndex.StageKey | infinisqld/SubTransaction.cc:625-664 | grants, queues or refuses a unique key as the branch on the entry does |
| UniqueIndex.RepliesMean | infinisqld/SubTransaction.cc:625-664 | a grant means that the key was free and is now staged for the requester; PENDING that another had staged it and the requester is the last to wait; a violation that the key is in use and nothing changes |
| UniqueIndex.KeyIndex.DrainQueue | infinisqld/SubTransaction.cc:2171-2281 | empties the key's queue and tells exactly the waiters that still live, each once and in order |
| UniqueIndex.LivingSplits | infinisqld/SubTransaction.cc:2171-2281 | of several waiters exactly those whose subtransaction still exists are told, each once and in order |
| UniqueIndex.KeyIndex.CommitKey | infinisqld/Index.cc:3694-3780 | commits the entry of the holder, then drains and tells the living waiters in order |
| UniqueIndex.KeyIndex.RollbackKey | infinisqld/Index.cc:3694-3780 | removes the entry of the holder; waiters stay |
| UniqueIndex.KeyIndex.DeleteUniqueEntry | infinisqld/Index.cc:4810-4826 | removes the entry whoever staged it |
| UniqueIndex.KeyIndex.ReplaceUnique | infinisqld/Index.cc:4272-4301 | overwrites the entry as committed and drains nobody |
| UniqueIndex.OnlyTheHolder | infinisqld/Index.cc:3694-3780 | a commit or rollback changes an entry if and only if it comes from the subtransaction that staged it |
| UniqueIndex.InUseUntilDeleted | infinisqld/SubTransaction.cc:206-281 | a committed key stays committed until it is deleted |
| UniqueIndex.CommitsAreSeparated | infinisqld/SubTransaction.cc:206-281 | two commits of one key always have a delete of it between them |
| UniqueIndex.RunNoStaleWaiter | infinisqld/Transaction.cc:1917-1950 | over every run in which each replace names a key that is in use, no waiter is ever left at a committed key |
| UniqueIndex.QueueIff | infinisqld/SubTransaction.cc:625-664 | after any run, a key has waiters if and only if someone was answered PENDING for it and no commit message for it has come since |
| UniqueIndex.ReplaceStrandsIff | infinisqld/Index.cc:4272-4301 | a replace after any run strands waiters if and only if that is so for its key |
| UniqueIndex.ReplaceStrandsWaiter | infinisqld/Index.cc:4272-4301 | a run in which the row's commit overtakes its key's: the replace hits the staged key and strands the waiter; the late commit leaves the entry and drains the waiter |
| UniqueIndex.GrantsAgreeIff | infinisqld/SubTransaction.cc:625-664 | the open grants stay exactly the staged entries if and only if no staged key is deleted or replaced under its holder |
| UniqueIndex.RunGrantsAgree | infinisqld/SubTransaction.cc:625-664 | over every run in which no staged key is deleted or replaced, the grants given and still open are exactly the staged entries, never two for one key |
| UniqueIndex.DeleteTakesStagedKey | infinisqld/Index.cc:4810-4826 | a run in which the delete overtakes the key's commit, takes the staged entry, and the key is granted twice |
| UniqueIndex.GrantIsCommitted | infinisqld/Index.cc:3694-3780 | a holder's commit installs the very row it was granted, and no one else holds the key |
| Mailbox.StepInv | infinisqld/Mbox.cc:138-191 | every atomic step of every producer and of the consumer keeps the queue invariant |
| Mailbox.InitInv | infinisqld/Mbox.cc:31-58 | the initial dummy satisfies it |
| Mailbox.NeverStuck | infinisqld/Mbox.cc:167-190 | every pointer a producer or the consumer is about to dereference is there, so each can always step |
| Mailbox.RunInv | infinisqld/Mbox.cc:138-191 | every interleaving keeps it |
| Mailbox.RunChain | infinisqld/Mbox.cc:174-179 | the chain is the dummy followed by the messages in the order of their linking CAS |
| Mailbox.Fifo | infinisqld/Mbox.cc:66-104 | what receive has returned is a prefix of the messages in the order of their linking CAS; none is linked twice, and every message sent is linked or still with its producer |
| Mailbox.TailNearTheEnd | infinisqld/Mbox.cc:167-190 | after any run the tail is the last or the last but one node of the chain, wherever the consumer is |
| Mailbox.LinkEnqueues | infinisqld/Mbox.cc:174-179 | a linking CAS appends its message to the waiting ones, and no other producer step changes them |
| Mailbox.TakeDequeues | infinisqld/Mbox.cc:92-102 | a successful receive removes the front of the waiting messages and returns it |
| Mailbox.PollLoads | infinisqld/Mbox.cc:71-83 | what the consumer loads is null if and only if nothing waits, and otherwise the front; loading changes nothing |
| Mailbox.ReceiveTakesFront | infinisqld/Mbox.cc:66-104 | receive returns and removes the front of the waiting messages, or changes nothing when none waits |
| Mailbox.AllReceived | infinisqld/Mbox.cc:66-104 | as many receives as there are messages waiting return all of them, in order |
| Mailbox.FinishesAlone | infinisqld/Mbox.cc:167-190 | from any point of a send in any reachable state, a producer left alone finishes within 15 of its own steps, having linked the message it still held, once |
| Mailbox.SentIsReceived | infinisqld/Mbox.cc:160-190 | a message sent by a producer left alone waits behind all others after at most 12 steps, and as many receives as there are messages then return them all |
| Mailbox.SendSwings | infinisqld/Mbox.cc:190 | when a send returns the tail is at its message or further |
| Mailbox.TagsWritten | infinisqld/Mbox.cc:177-190 | every pointer a producer writes carries the tag drawn for it |
| Mailbox.TagsDiffer | infinisqld/Mbox.cc:177-190 | no tag comes again within 2^64 draws from the counter |
| Mailbox.RetryMeansProgress | infinisqld/Mbox.cc:167-187 | a producer that returns to the loop head unlinked has seen a link or a tail advance since its tail read, or made one |
| Mailbox.RunNeverStuck | infinisqld/Mbox.cc:138-191 | after any interleaving every producer in the middle of a send, and the consumer, can go on |
| Transport.Producer.SendMsg | infinisqld/Mbox.cc:138-155 | a remote message joins the waiting batch; the batch array is never indexed past its end, and is handed over whole, marked as this producer's, exactly when the message is its 5000th |
| Transport.Producer.SendObBatch | infinisqld/Mbox.cc:551-561 | what waits, if anything does, becomes the last batch in the mailbox, and nothing waits any more |
| Transport.SendWaitsOrFills | infinisqld/Mbox.cc:138-155 | among any number of producers a send completes a batch of 5000 and hands it over, or only adds to what waits |
| Transport.FlushHandsOver | infinisqld/Mbox.cc:551-561 | after a flush nothing of the producer waits, and what did is the last batch in the mailbox |
| Transport.ObGateway.Receive | infinisqld/ObGateway.cc:86-96 | every entry of a batch is queued for its node, in order |
| Transport.ObGateway.Push | infinisqld/ObGateway.cc:82-84 | one serialized message is queued for its node |
| Transport.ObGateway.Serialize | infinisqld/ObGateway.cc:107-140 | the bytes written into the buffer are the group's frame, and exactly the computed size of them |
| Transport.FrameExample | infinisqld/ObGateway.cc:107-140 | the bytes of a group with one message of one byte |
| Transport.ObGateway.SendAll | infinisqld/ObGateway.cc:104-186 | every pending list goes out as one more group of its node, and nothing else changes |
| Transport.PushFaithful | infinisqld/ObGateway.cc:86-96 | queueing keeps groups sent plus messages pending equal to the messages accepted, per node and in order |
| Transport.SendFaithful | infinisqld/ObGateway.cc:104-186 | sending keeps it too, and the wire stays a sequence of whole frames |
| Transport.Slot.Receive | infinisqld/Mbox.cc:66-104 | the gateway receives whole batches of all producers in the order they were handed over |
| Transport.TakesReceive | infinisqld/Mbox.cc:66-104 | as many receives as there are batches empty the mailbox, in order |
| Transport.Round | infinisqld/ObGateway.cc:63-186 | one round receives at most 5000 batches and sends everything pending; the gateway has accepted exactly what it has received, in order |
| Transport.StepJoined | infinisqld/Mbox.cc:138-155 | every send, hand-over and receive of any producer keeps, for each producer, what it accepted equal to its part of the mailbox's history followed by what waits |
| Transport.RunJoined | infinisqld/Mbox.cc:138-155 | the same after every run of any number of producers |
| Transport.AcceptedIsSomewhere | infinisqld/Mbox.cc:138-155 | after any run of any number of producers, what the gateway has sent to a node or keeps for it is a merge of what it received; each producer's part of the merge is, in order, what it accepted for the node less what is in the mailbox or waits |
| Transport.AllOnTheWire | infinisqld/ObGateway.cc:104-186 | with nothing waiting anywhere, the wire of a node is a merge of exactly what the producers accepted for it |
| Reassembly.BodyRoundTrip | infinisqld/IbGateway.cc:358-368 | the messages of a frame are cut out of it again |
| Reassembly.ParseStream | infinisqld/IbGateway.cc:226-240 | any whole frames followed by an unfinished one parse to their messages and that remainder |
| Reassembly.PrefixSplits | infinisqld/IbGateway.cc:226-240 | any prefix of a stream is whole frames followed by an unfinished one |
| Reassembly.ParseAppend | infinisqld/IbGateway.cc:268-298 | parsing may stop anywhere and go on later with what was left over |
| Reassembly.Connection.InbufHandler | infinisqld/IbGateway.cc:358-368 | the loop delivers exactly the messages of the group |
| Reassembly.Connection.Consume | infinisqld/IbGateway.cc:226-240 | the parsing loop stops at the first group that is not whole, having delivered all before it |
| Reassembly.Connection.OnData | infinisqld/IbGateway.cc:268-298 | bytes are appended to what is pending, or parsed at once when nothing is |
| Reassembly.Connection.OnWouldBlock | infinisqld/IbGateway.cc:219-252 | pending bytes are parsed and trimmed when a read would block |
| Reassembly.ReadAtOnce | infinisqld/IbGateway.cc:274-298 | with nothing pending, a read of whole groups and an unfinished one delivers the groups at once and holds only the rest |
| Reassembly.PendingForGood | infinisqld/IbGateway.cc:268-273 | once something is pending, every later read only appends, and nothing is delivered until a read would block |
| Reassembly.RunTracks | infinisqld/IbGateway.cc:200-303 | however the bytes are cut into reads, delivered messages and held bytes together are the parse of all bytes received, and no loop leaves its input |
| Reassembly.WouldBlockPoint | infinisqld/IbGateway.cc:219-252 | at every would-block point the delivered messages are exactly those of the frames received in full, in order, and the pending bytes exactly the unfinished tail |
| Reassembly.EndToEnd | infinisqld/IbGateway.cc:200-303 | with the sending gateway's invariant: a node has received a prefix of what was accepted for it, and all that was sent once all bytes are in |
| Reassembly.CloseLoses | infinisqld/IbGateway.cc:262-266 | closing a connection loses messages that have come in full if and only if its parsing loop would still find a whole group in what it holds |
| Reassembly.ClosedTooEarly | infinisqld/IbGateway.cc:268-273 | a group that comes in two reads is held whole and not delivered when the connection closes |
| Reassembly.RunCuts | infinisqld/IbGateway.cc:226-298 | what a connection holds always begins at the start of a group |
| Reassembly.StaleTail | infinisqld/IbGateway.cc:200-207 | a connection that inherits the tail of one that hung up reads as if that tail had come first |
| Reassembly.StaleTailMisreads | infinisqld/IbGateway.cc:200-207 | a message cut off before its last byte takes the first byte of the next connection for it |
| ExpressionParser.PushedIsPostfix | infinisqld/Larxer.cc:218-339 | the stack form used below is the postfix form, pushed item by item |
| ExpressionParser.Larxer.ConsumeExpression | infinisqld/Larxer.cc:218-339 | builds fresh nodes that are linked in both directions (unary nodes being their own left child) and stand for the expression the stack denotes; terminates; leaves the rest of the stack; without a whole expression it returns the unfinished root exactly when it stopped at an item that fits nowhere, and nothing when the stack ran out or nothing was begun |
| ExpressionParser.Larxer.Climb | infinisqld/Larxer.cc:261-270 | goes up exactly while the node has both children, and ends at the root or at a node that waits for one |
| ExpressionParser.Larxer.TakeItem | infinisqld/Larxer.cc:272-337 | one item of the loop, pushed back when it fits nowhere |
| ExpressionParser.ResumeTakes | infinisqld/Larxer.cc:259-338 | from any partial tree, a pushed expression is taken whole and nothing below it, marks between its items notwithstanding |
| ExpressionParser.ResumeSound | infinisqld/Larxer.cc:259-338 | whatever the loop completes accounts for every item it popped, in order |
| ExpressionParser.PushedIsRebuilt | infinisqld/Larxer.cc:218-339 | every finite tree of unary and binary operators is rebuilt from its postfix form on any stack |
| ExpressionParser.RebuiltWasPushed | infinisqld/Larxer.cc:218-339 | whatever is rebuilt was pushed as its postfix form |
| ExpressionParser.ParsesIff | infinisqld/Larxer.cc:218-339 | with at most one mark on top, parsing succeeds if and only if the stack holds some expression's postfix form on top |
| ExpressionParser.StuckWhere | infinisqld/Larxer.cc:272-337 | a failed parse has popped everything down to the first item that fits nowhere, or all there was |
| ExpressionParser.TwoMarksFail | infinisqld/Larxer.cc:229-257 | a second mark on top is refused and stays |
| Grammar.ConditionsParseIff | infinisqld/parser.yy:601-690 | what the grammar pushes for a search condition is rebuilt as the condition's own tree, with nothing below it touched, if and only if the condition compares no truth value with NULL; if it does, parsing it alone fails |
| Grammar.ExpressionsParse | infinisqld/parser.yy:563-580 | what the grammar pushes for any expression is rebuilt as its own tree |
| Grammar.TakesTooLittle | infinisqld/parser.yy:612-618 | each comparison of a truth value with NULL leaves the parser waiting for one operand more than was pushed |
| AstTree.Ast.ForOperator | infinisqld/Asts.cc:39-54 | a unary operator's left child is the node itself |
| NameResolution.Statement.ResolveFieldNames | infinisqld/Asts.cc:2283-2373 | terminates on every well-linked tree; true if and only if every identifier is a field; then every identifier leaf holds its field id; on false exactly the leaves left of the first unknown one are resolved; links and all other nodes are unchanged |
| NameResolution.Statement.Visit | infinisqld/Asts.cc:2283-2373 | one turn of the loop resolves or reports the leaf at hand, goes to the next place, nearer to the end, or ends the walk with every leaf resolved |
| NameResolution.Statement.Turn | infinisqld/Asts.cc:2313-2371 | the direction switch moves to the next place of the walk and ends only at the root reached from its right |
| NameResolution.Statement.Convert | infinisqld/Asts.cc:2290-2311 | one identifier becomes its field id, or is reported unknown |
| NameResolution.NextCounts | infinisqld/Asts.cc:2313-2371 | each turn passes a leaf exactly when it leaves it, and brings the end of the walk nearer |
| NameResolution.NextResolved | infinisqld/Asts.cc:2313-2371 | leaves passed so far are resolved and all others untouched, after each turn |
| NameResolution.OperandsOfPlug | infinisqld/Asts.cc:2283-2373 | the leaves of the whole are those left of the place, at it, and right of it |
| Evaluation.Statement.Evaluate | infinisqld/Asts.cc:122-181 | one node: a child still to evaluate is next, or the node is carried out and becomes a value, or its predicate goes into the background |
| Evaluation.Statement.Intersect | infinisqld/Asts.cc:491-512 | AND keeps the left rows found on the right and collects, engine by engine, each unstaged left row it drops, once |
| Evaluation.Statement.Conjunction | infinisqld/Asts.cc:491-533 | the rows kept are those on both sides, as the left has them; a message names a row if and only if it is left, not right and not staged |
| Evaluation.Statement.Rollbacks | infinisqld/Asts.cc:514-533 | one rollback message to each engine with exactly its dropped rows |
| Evaluation.Statement.Carry | infinisqld/Asts.cc:491-554 | AND and OR collapse the node in place to the left-biased intersection or union |
| Evaluation.Statement.CarryRows | infinisqld/Asts.cc:491-554 | what AND and OR make of two sides, row by row, the left text first, and which rows the messages name |
| Evaluation.Statement.SearchExpression | infinisqld/Asts.cc:4857-4906 | from any node the walk ends at the root's value or at one backgrounded predicate, with what was sent and asked so far and what is still to come adding up to the meaning of the condition |
| Evaluation.Statement.Run | infinisqld/Asts.cc:4857-4906 | whichever predicates complete at once or later, the root ends with the rows the condition means, the messages name exactly the rows its ANDs drop and never a staged one, and each predicate is asked as it means |
| Evaluation.AskedOnce | infinisqld/Asts.cc:598-652 | each predicate of the tree is asked exactly once, from left to right |
| Conditions.StepHere | infinisqld/Asts.cc:491-554 | carrying out a node, or asking a predicate, keeps rows, drops and questions of the condition |
| Conditions.MeaningByRow | infinisqld/Asts.cc:491-554 | a row is selected if and only if AND and OR of what the predicates say about it hold; its text is the one found furthest to the left; its lock is given up once for each AND that it satisfies on the left only, and never if it is staged |
| Conditions.CarriedRows | infinisqld/Asts.cc:491-554 | carrying out a node keeps and drops, row by row, what AND and OR call for |
| Conditions.UpPrepends | infinisqld/Asts.cc:4857-4906 | drops and questions of a part come first in those of the whole, when everything left of the part is done |
| Conditions.ReturnedRowsStayLocked | infinisqld/Asts.cc:491-543 | where no AND lies below an OR, no row returned has had its lock released by an AND |
| Conditions.LocksKeptIff | infinisqld/Asts.cc:491-554 | returned rows keep their locks for all answers of the predicates if and only if no AND lies below an OR |
| Replica.Engine.ApplyIndex | infinisqld/Engine.cc:435-451 | in the index of the given domain an add always succeeds; a delete removes one equal entry or reports that there is none and changes nothing |
| Replica.Engine.ApplyNew | infinisqld/Engine.cc:697-713 | each item of a message is applied or parked under its subtransaction |
| Replica.Engine.RetryList | infinisqld/Engine.cc:733-749 | the walk over a parked list, in the domain of the last message, keeps exactly the items that still fail there; what it takes from that domain on behalf of others is recorded as strayed |
| Replica.Engine.RetrySubtransaction | infinisqld/Engine.cc:728-758 | a parked subtransaction is acknowledged and forgotten exactly when nothing of it is left, whatever domain took it |
| Replica.Engine.Walk | infinisqld/Engine.cc:724-759 | everything parked is tried in the order of the subtransactions, in the domain of the last message; exactly the deletes of other domains that find their entry there at their turn stray; afterwards no parked delete could be applied in that domain |
| Replica.Engine.Apply | infinisqld/Engine.cc:692-760 | one message of one domain, after which indices, parked items, strays and acknowledgements agree with the messages received |
| Convergence.Converged | infinisqld/Engine.cc:692-760 | in each domain an entry is present max(0, adds - deletes) times and its delete parked max(0, deletes - adds) times once strays are counted where they went; without counting them, if and only if as many came in as went out |
| Convergence.OrderDoesNotMatter | infinisqld/Engine.cc:692-760 | states that have seen the same messages in different orders agree on an entry of a domain if and only if strays have changed its count alike |
| Convergence.WalkInSyncIff | infinisqld/Engine.cc:724-759 | a walk keeps every domain in sync if and only if no parked delete of another domain finds its entry in the message's domain at its turn |
| Convergence.StepInSyncIff | infinisqld/Engine.cc:692-760 | a message keeps every domain in sync if and only if nothing strays |
| Convergence.RunInSyncIff | infinisqld/Engine.cc:692-760 | over any run an engine has been in sync all along if and only if no delete has ever strayed |
| Convergence.StrayedFromElsewhere | infinisqld/Engine.cc:695-745 | what strays was parked before the message, for another domain |
| Convergence.UndisturbedInSync | infinisqld/Engine.cc:695-745 | an engine is in sync after every run in which, while something is parked, only messages of its domain come |
| Convergence.OneDomainUndisturbed | infinisqld/Engine.cc:695-745 | a run with messages of one domain is such a run |
| Convergence.DomainsMixedUp | infinisqld/Engine.cc:695-745 | three messages of two domains leave an entry in one domain or in the other, depending on their order, and nothing parked |
| Replica.ReplicasConverge | infinisqld/Engine.cc:692-760 | two engines that received the same messages in any two orders agree on an entry of a domain if and only if strays have changed its count alike; on everything if, on both, only messages of its domain came while something was parked |
| Replica.OneDomainConverges | infinisqld/Engine.cc:692-760 | two engines that received the same messages of one domain in any two orders hold the same index and park the same deletes |
| Replica.AckedMeansApplied | infinisqld/Engine.cc:715-722 | an engine sends no more acknowledgements for a subtransaction than it has received messages, only to appliers that sent one; when it has sent as many, everything received of it has been dealt with, and was applied where it belongs if and only if it was not applied in another domain |
| Replica.UnackedMeansParked | infinisqld/Engine.cc:751-758 | a subtransaction received and not acknowledged has something that is applied nowhere |
| Replica.AckedIffApplied | infinisqld/Engine.cc:692-760 | an engine that was contacted once for a subtransaction has applied all of it where it belongs if and only if it has acknowledged it and applied nothing of it in another domain |
| Replica.UndisturbedAtHome | infinisqld/Engine.cc:695-745 | while something is parked and only messages of its domain come, nothing is applied in another domain |
| Applier.Agent.AckedApply | infinisqld/Applier.cc:52-68 | an acknowledgement with status OK counts its applier down and retires it at zero; an unknown applier is ignored |
| Applier.RetiredIff | infinisqld/Applier.cc:63-67 | an applier is retired if and only if its initial count is positive and that many acknowledgements have come |
| Applier.SentByAcknowledgers | infinisqld/Engine.cc:715-758 | the acknowledgements sent to an applier are as many as the engines that have acknowledged: none sends two |
| Applier.RetiredWhenAllHaveApplied | infinisqld/Applier.cc:39-68 | an applier that expects one acknowledgement from each engine contacted is retired only after all of them are done with everything they received, and exactly then once no acknowledgement is under way; all of it is applied where it belongs if and only if nothing was applied in another domain |
| Applier.DispatchedAppliersStay | infinisqld/TransactionAgent.cc:1567-1571 | the appliers that handledispatch makes, with count zero, are never retired |
| IndexScan.Index.Comparison | infinisqld/Index.cc:1881-1962 | returns exactly the entries that satisfy <, <=, > or >=, in index order; a hash index returns none |
| IndexScan.Index.Between | infinisqld/Index.cc:2537-2602 | returns exactly the entries within the bounds, also for equal and swapped bounds; a hash index returns none |
| IndexScan.Index.NotBetween | infinisqld/Index.h:327-332 | returns the entries below the lower bound and then those above the upper bound |
| IndexScan.Index.GetEqual | infinisqld/Index.cc:1140-1186 | returns exactly the entries with the key, for all three kinds of index |
| IndexScan.Index.GetIn | infinisqld/Index.h:123-131 | returns the entries of each listed value in turn |
| IndexScan.Index.GetNotIn | infinisqld/Index.cc:3066-3150 | returns exactly the entries whose key is not listed |
| IndexScan.Index.GetNotNulls | infinisqld/Index.cc:819-850 | returns every entry |
| IndexScan.MatchingSlice | infinisqld/Index.cc:1881-1962 | a scan between two iterators is the filter of the whole if nothing outside them passes |
| IndexScan.SearchesFind | infinisqld/Index.cc:1881-1962 | which entries each search returns, by comparing their keys alone |
| IndexScan.InFinds | infinisqld/Index.h:123-131 | IN returns an entry if and only if its key is listed |
| IndexScan.OrderedSplit | infinisqld/Index.cc:1881-1962 | in an ordered index < and >=, <= and >, and < and = put together give the index, or its part, in order |
| IndexScan.BetweenPartition | infinisqld/Index.h:327-332 | BETWEEN and NOT BETWEEN together return every entry once if and only if the bounds are in order or no key lies strictly between them |
| IndexScan.InPartition | infinisqld/Index.h:123-131 | IN and NOT IN together return every entry once if and only if no key in the index is listed twice |
| PrefixScan.PrefixInterval | infinisqld/Index.h:1187-1206 | short of byte 255 the keys from a prefix up to its successor are exactly those that begin with it |
| PrefixScan.NarrowingLosesNothingIff | infinisqld/Index.h:1163-1207 | the interval holds every key with the literal beginning if and only if that does not end in byte 255 or no key has it |
| PrefixScan.IteratorsInOrderIff | infinisqld/Index.h:1163-1207 | exactly when the end of the interval does not come before its beginning |
| PrefixScan.StringIndex.GetIterators | infinisqld/Index.h:1163-1207 | computes that interval, with find and upper_bound for its beginning |
| PrefixScan.StringIndex.Regex | infinisqld/Index.cc:2930-2951 | for expressions of literals, dot and dot-star, returns the full matches between the iterators, in order |
| PrefixScan.Like2Regex | infinisqld/globals.cc:174-189 | the repeated search and replace rewrites each wildcard once |
| PrefixScan.Trim | infinisqld/globals.cc:269-281 | cuts off spaces at the end, and nothing else, until none is left there |
| PrefixScan.LikeTextMeans | infinisqld/globals.cc:174-189 | the expression made from a pattern without special bytes means what the pattern means |
| PrefixScan.MatchIff | infinisqld/Index.cc:2930-2951 | a key is matched if and only if it can be cut into pieces, one for each literal, dot and dot-star |
| PrefixScan.LikeMeans | infinisqld/globals.cc:174-189 | a key is like a pattern if and only if it can be cut into pieces, any for a percent sign, one byte for an underscore, and the byte itself otherwise |
| PrefixScan.LikeTextIsSimple | infinisqld/globals.cc:174-189 | the expression made from a pattern without special bytes has only literals, dot and dot-star |
| PrefixScan.MatchHasBeginning | infinisqld/Index.h:1173-1187 | every full match of a literal beginning followed by a dot or nothing begins with it |
| PrefixScan.BeginningIs | infinisqld/Index.h:1173-1187 | the literal beginning is the longest one without any of the eleven special bytes |
| PrefixScan.LikeScan | infinisqld/Index.cc:3050-3055 | scanning the interval finds what the pattern means among all keys |
| PrefixScan.StringIndex.Like | infinisqld/Index.cc:3050-3055 | LIKE returns exactly the entries whose key the trimmed pattern means, ordered or hashed |
| RowCodec.Table.AddField | infinisqld/Table.cc:52-99 | the cached row size is -1 exactly when a VARCHAR field exists, and otherwise the size of every row |
| RowCodec.Table.MakeRow | infinisqld/Table.cc:101-251 | fails exactly on a wrong number of values; packs all fields into a zero-filled buffer and never past it; fills up short strings in the caller's values |
| RowCodec.Table.MakeBuffer | infinisqld/Table.cc:113-169 | the buffer has the size all fields reserve, and the cached size is restored |
| RowCodec.PutField | infinisqld/Table.cc:171-246 | one field is written behind the others and nothing else in the buffer changes |
| RowCodec.Table.UnmakeRow | infinisqld/Table.cc:911-1004 | reads the fields one after another and fails at a null flag with nothing behind it |
| RowCodec.ReadPacked | infinisqld/Table.cc:935-999 | each value is read back as packed, strings filled up or cut |
| RowCodec.RoomLeft | infinisqld/Table.cc:113-169 | what was packed before a field leaves that field and every later one its room |
| RowCodec.RowRoundTrip | infinisqld/Table.cc:101-251 | a packed row unpacks to its values, with strings filled up or cut and nulls kept, except exactly when its last field is a CHARX of length zero and nothing before it left a byte to spare; then unpacking fails |
| RowCodec.ValueComesBack | infinisqld/Table.cc:911-1004 | each value of a row that can be read is the one stored: fixed-length strings cut or filled up with spaces, byte by byte, nulls as nulls, all else as it was |
| RowCodec.RoomIsExact | infinisqld/Table.cc:52-169 | what is reserved for a value is what it takes, but for a FLOAT in a row of fixed size, which gets a byte more |
| RowCodec.NullReservesToo | infinisqld/Table.cc:113-169 | a null reserves as much as any other value of its field |
| RowCodec.ShortStrings | infinisqld/Table.cc:970-999 | from a row that is too short a string is what there is of it, a fixed-length one filled up with zeros |
| RowCodec.PackedExample | infinisqld/Table.cc:171-246 | the bytes of a null, a number, a bool and strings |
| RowCodec.NonEmptyStringsRoundTrip | infinisqld/Table.cc:911-1004 | with CHARX lengths of at least one every row survives |
| MessageCodec.RoundTrip | infinisqld/Message.cc:808-944 | for every shape, what was written is read back and nothing behind it is touched |
| MessageCodec.EncExamples | infinisqld/Message.cc:808-905 | the bytes of a string, of parts and of a list |
| MessageCodec.SerializedMessage.Ser | infinisqld/Message.cc:808-905 | writes exactly the bytes of the value at the position, and advances it by as much |
| MessageCodec.SerializedMessage.Des | infinisqld/Message.cc:905-944 | reads exactly what decoding the bytes from the position yields, and advances behind it |
| MessageCodec.SerSize | infinisqld/Message.cc:1529-1538 | the computed size is the number of bytes written |
| MessageCodec.SpellingsAgree | infinisqld/Message.cc:441-487 | ser, sersize and des of each type, and package, size and unpack of each message, name the same parts in the same order |
| MessageCodec.SerMessage | infinisqld/Message.cc:453-463 | the buffer that size makes room for is filled exactly |
| MessageCodec.DesMessage | infinisqld/Message.cc:477-487 | unpacking what was packaged returns the message and consumes every byte |
| MessageCodec.MessagesRoundTrip | infinisqld/Message.cc:273-322 | each of the subtransaction, commit/rollback, user-schema and deadlock messages comes back as it was, with every byte read |
| MessageCodec.InsertAll | infinisqld/Message.cc:1204-1215 | reading a set inserts exactly the strings listed |
| MessageCodec.SetsRecovered | infinisqld/Message.cc:1183-1215 | any two messages made from the same sets, each in its own order of iteration, are received with the same sets |
| MessageCodec.SetsAreLists | infinisqld/Message.cc:1204-1215 | the sets of a deadlock message hold exactly the strings of its two lists |
| Bytes.LeRoundTrip | infinisqld/Message.cc:821-836 | a number copied byte by byte is read back |
| Bytes.SignedRoundTrip | infinisqld/Message.cc:821-836 | a 64-bit signed number is read back |
| Bytes.MemCpy | infinisqld/Message.cc:808-812 | copies the bytes to the position and changes no others |

## Left out

- Sockets, epoll, partial `send`, LZ4 and PCRE: foreign calls. Compression is the identity; regular expressions are modelled only for literals, `.` and `.*`.
- Malformed frames: a whole group that claims size zero would keep the reading loop from ending, and one whose messages do not fill it would be read past its end; `Sane` excludes both.
- Memory reclamation: messages and nodes are never reused, `delete` is not modelled, and `Mbox::receive` freeing a node the tail still names is not judged.
- `REVERTCMD` (infinisqld/Table.cc:874-904), which the source marks as doubtful, and `getrows`.
- Waking waiters: `processRowLockQueue` and `processIndexLockQueue` return at once in this version, so only draining is modelled, and no liveness of waiters is claimed.
- LockManager.Table.DrainRowLockQueue: says who is told, not the message: the source writes element 0 of a new message's empty `returnRows` (infinisqld/SubTransaction.cc:1910-1915), so telling a living waiter is undefined there.
- Rows released while their transaction goes on: the rollback messages of an AND, of `revert` and of a failed statement (infinisqld/Asts.cc:530, infinisqld/Transaction.cc:1452-1460) end the growing phase early, so the serializability result does not cover such runs; the results in `LockRuns` do.
- NOTFOUNDLOCK answers for row ids not yet handed out: such a row may appear later, so they are not read as lasting.
- NOLOCK selects in the isolation results: they return uncommitted inserts of others, which `LockRuns.UnlockedReadsInserts` states instead.
- Row locks of more than one table or partition at once: each partition is its own run.
- The other key types of every index, the string `commitRollback` fall-through, and floating point: the integer versions stand for them.
- Replica.Engine.ApplyItem: for row changes either outcome is possible, because the guards of replica UPDATE and DELETE (infinisqld/Engine.cc:275-313) do not implement the order they are meant to; unique-index apply (infinisqld/Engine.cc:331-403) is not modelled for the same reason, nor is the separate set of null entries.
- Replica.Engine.Walk: takes every domain to have the tables that parked items of others name; where the domain of the message has no such table, the source follows a null pointer (infinisqld/Engine.cc:255, 329).
- Iterators after `erase` in `Engine::apply` and in the outbound gateway's loop: the model visits each item once, as intended.
- Negative acknowledgements, which delete an Applier that the agent's map still names: no engine sends any. Acknowledgements lost between engine and agent are not modelled.
- The countdown of an Applier is an unbounded integer; wrapping round after 2^64 acknowledgements is not modelled.
- Subqueries, parameters, IN lists, EXISTS and UNIQUE in expressions, arithmetic and concatenation below a predicate, and the unimplemented NOT, IS TRUE, IS FALSE and IS UNKNOWN: the evaluation covers AND and OR over predicates whose operands are values. `Ast::cp` is not modelled.
- Which condition a text is: the generated parser's precedences. `Grammar` starts from a condition as the productions have read it; the list after IN and the statement in a subquery are read by other routines and are not part of what is pushed there.
- What a predicate finds: each predicate's rows are an arbitrary map fixed before the walk, and a rollback message names rows by their full ids.
- `getIterators` on an empty expression or a lone caret leaves its iterators unset or reads before a string; both are excluded, as are expressions with alternation or repetition, for which the literal beginning need not be one.
- PrefixScan.StringIndex.Regex: takes expressions of literals, `.` and `.*`, which is all LIKE makes, and iterators that are in order, because the loop would otherwise run past the end of the map; `PrefixScan.IteratorsInOrderIff` says exactly when they are.
- PrefixScan.StringIndex.Like: patterns with bytes that are special in an expression, and keys with newlines, are excluded: the rewriting does not escape the former, and `.` does not match the latter.
- MessageSocket, MessageDispatch and MessageApply: their sizes or the fields they read do not match what they write, so they have no round trip. The PODs inside messages are copied as raw bytes of their struct's size, without a meaning for each member.
- `des` into a message that is not fresh, which appends to its containers and keeps its empty strings.
- `Pg.cc`, `Operation.cc`, `Listener.cc`, the topology and schema managers and the manager scripts: session handling and configuration.
