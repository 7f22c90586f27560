# Verified models of the futriis cluster, access-control and storage cores

This project models the hand-written concurrent and stateful parts of the repository and proves what they
promise over every input, every run or every interleaving. `dafny verify dfyconfig.toml` checks all of it.

**The lock-free task queue** (`LockFreeQueue*.dfy`). A Michael-Scott queue as a machine whose steps are single
atomic accesses: `Queue` and `Local` are the shared memory and the program counter with local variables of one
running call, `Step` is one access, and any number of threads run in any order. `Trace` is bookkeeping that
`Step` is never given. The inductive invariant (`LockFreeQueueInvariant`) is carried through every access
(`LockFreeQueueSteps`, `LockFreeQueueLinearization`) to linearizability, counting and progress
(`LockFreeQueueTheorems`).

**The range shard map** (`RangeShards`, `RangeShardLaws`, `RangeShardManager`). What splitting, merging and
rebalancing make of the map, as functions with laws about ranges, owners, identifiers and totals; and the class
that holds the map and the cached sorted list, each of whose methods is proved to do what those functions say.

**The Raft log store** (`RaftLogStore`), **the saga executor** (`Saga`), **access control** (`AccessControl`,
`AccessControlLaws`, `AccessControlEffects`, `AccessControlManager`), **gossip membership** (`Gossip`), **Lamport clocks**
(`LamportClock`), **the HTTP token bucket** (`TokenBucket`), **log rotation** (`LogRotation`), **compressed-block
framing** (`Compression`) and **the history ring** (`BufferRing`) follow the same plan: the objects the source
updates in place are classes whose methods equate the new state with a function of the old one, and the promises
are proved about that function over whole runs. `ByteStrings`, `Sequences`, `Arithmetic` and `Wrappers` hold what they share.

The main results are these:

- the queue: `Linearizable`, `RealTimeOrder`, `DequeueResult`, `SizeAlways`, `RetriesBounded`, `AloneFinishes`;
- range shards: `SplitKeyInside`, `SplitKeepsPartition`, `RunKeeps`, `SplitPassMeaning`,
  `SplitPassByNumbers`, `MergePassMeaning`, `MergePassByNumbers`;
- the log store: `RunContiguous`, `BatchGrows`, `StoringTwice`, `ConflictRule`;
- sagas: `ExecuteSaga`, `AllOrNothing`, `OrderOfCalls`;
- access control: `RunKeepsInv`, `PermissionMeaning`, `AdminMeaning`, `LoginExactly`, `LockoutBound`, `LockoutExact`;
- gossip: `NodesAgree`, `BroadcastBound`; clocks: `ClockCondition`,
  `EventsAsCalled`, `RuleAlways`;
- the token bucket: `WindowBound`, `RejectedIsInvisible`; logs: `HistoryKept`, `AllRotatedWithinBounds`;
- compression: `RoundTripExactly`, `V1ComesBackExactly`; the history ring: `RunThrough`.

The other rows of the table are the methods proved against those specifications and the steps and examples that the
results rest on; some of them are immediate from the definitions.

Where a promise is false of the code as written, the code is kept, a lemma shows it failing at a concrete input, and
the exact condition under which the promise holds is proved in both directions:

- The split key falls strictly inside its range only for splittable keys: the byte average neither carries nor
  avoids eight-bit overflow (`SplitKeyOutside`). So a split pass over a partition keeps it one exactly when all
  shards it picks are splittable.
- The merge pass walks the list as it was when the pass began. Over a partition it keeps it one exactly when no
  shard qualified to merge with both of its neighbours; otherwise two merged shards overlap (`ChainExample`).
- Emptying the Raft log and storing at a higher index leaves a hole, because the first index stays low
  (`EmptyThenHigher`); and an emptied log reports first index zero exactly when its last index is zero
  (`EmptiedReportsFirst`).
- A batch gives the result of the Raft conflict rule exactly when its first conflict, if any, is not with an entry
  of a later term (`StaleConflictKept`); the code's comment cites Raft for deleting on conflict, but the code refuses
  entries with an earlier term.
- Gossip merging is independent of order exactly when the updates of the highest incarnation agree and their
  status is not empty unless all are (`SameIncarnationDiffers`).
- The step at which a saga fails always ends as `skipped`, and no step ends as `failed`, because the compensation loop
  starts at that step (`SkippedExample`).
- A rotation drops the oldest backup exactly when another takes its place, although its comment says that existing
  backups are not overwritten (`OldestBackupLost`).
- A file rotated out stays within the size bound, except for a file that was already over it when the logger opened
  it, which the first write rotates out (`OversizedAtStart`).
- Data left uncompressed that already looks like a block does not come back (`RoundTripCounterexample`), unless its
  header gives the size of the block itself and its decoder reproduces the block from its own payload. Codecs that do
  so for some block exist (`SelfBlockExists`, `SelfBlockSurvives`).
- A V1 block whose payload is no longer than its data gives the data back exactly when it was not made by brotli, whose
  type byte is the V2 marker (`V1BrotliCounterexample`). For longer payloads there is one more form that survives, and
  the condition names it. The comment on reading V1 blocks promises backward compatibility without this exception.

## Model

| member | source | states |
|---|---|---|
| LockFreeQueueTheorems.InvAlways | internal/cluster/worker_pool.go:67-151 | In every interleaving of any number of threads, the inductive invariant holds between any two atomic accesses: one chain from the head, private unlinked nodes, what each running call may rely on, the effects recorded so far, and the counter |
| LockFreeQueueTheorems.ChainAlways | internal/cluster/worker_pool.go:75-151 | The chain is well formed, the head is never past the tail, and the tail lags the last node by at most one |
| LockFreeQueueTheorems.NeverStuck | internal/cluster/worker_pool.go:75-151 | A running call can always make its next access, and it is to an existing node |
| LockFreeQueueTheorems.LagBranchNeverTaken | internal/cluster/worker_pool.go:133-143 | The branch of Dequeue for a head without successor that differs from the tail is never taken |
| LockFreeQueueTheorems.Linearizable | internal/cluster/worker_pool.go:74-151 | Every run is linearizable: each returned call was invoked by an action of the run as an enqueue of the very task it was called with, or as a dequeue, and was answered by an action with the result recorded; it has exactly one effect, strictly between the two and with that result; all other effects belong to calls still running, again with the task they were called with; and the effects in order are a correct history of a sequential FIFO queue that ends with the present contents |
| LockFreeQueueTheorems.EveryCallAccounted | internal/cluster/worker_pool.go:74-151 | Every call that an action of the run invoked has returned or is running |
| LockFreeQueueTheorems.RealTimeOrder | internal/cluster/worker_pool.go:74-151 | A call that returned before another began takes effect before it |
| LockFreeQueueTheorems.NothingLost | internal/cluster/worker_pool.go:74-151 | What was dequeued, followed by what is in the queue, is exactly what was enqueued, in that order |
| LockFreeQueueTheorems.DequeueResult | internal/cluster/worker_pool.go:109-151 | A nil return happens only if the queue was empty at some instant during the call; a returned task was the oldest at some instant during the call |
| LockFreeQueueTheorems.SizeAlways | internal/cluster/worker_pool.go:102-156 | The size counter is the queue length less the links not yet counted plus the removals not yet counted |
| LockFreeQueueTheorems.SizeExactWhenQuiet | internal/cluster/worker_pool.go:153-156 | With no call running, the size is exact |
| LockFreeQueueTheorems.RetryAlways | internal/cluster/worker_pool.go:78-150 | In every run, a call goes back to the top of its loop only if a link, tail swing or head swing took place since the iteration began |
| LockFreeQueueTheorems.RetriesBounded | internal/cluster/worker_pool.go:78-151 | A call has retried at most as often as pointers moved since it was invoked, and all pointer moves are at most three per enqueued task |
| LockFreeQueueTheorems.AloneFinishes | internal/cluster/worker_pool.go:75-151 | From any reachable state, a call that runs alone returns within 22 accesses |
| LockFreeQueueSteps.OwnStep | internal/cluster/worker_pool.go:78-150 | Each access keeps the chain well formed, only ever extends what other calls rely on, and leaves its own call in order |
| LockFreeQueueLinearization.RunKeepsLog | internal/cluster/worker_pool.go:78-150 | Each access keeps the recorded effects a correct queue history with one effect per call |
| LockFreeQueueLinearization.ReplayInsertNil | internal/cluster/worker_pool.go:123-136 | A dequeue that finds nothing can be placed at the instant it saw the queue empty without disturbing any other effect |
| RangeShardManager.FindSplitKey | internal/cluster/raft_coordinator.go:402-420 | The loop over the byte buffer computes the specified split key |
| RangeShardLaws.SplitKeyInside | internal/cluster/raft_coordinator.go:402-420 | The split key lies strictly inside the range if and only if the keys are splittable: equal or one apart up to a byte that is at least two apart, with no byte sum reaching 256 on the way |
| RangeShardLaws.SplitKeyOutside | internal/cluster/raft_coordinator.go:402-420 | Two concrete ranges whose split key falls on the start or below it |
| RangeShardLaws.SuffixIsFresh | internal/cluster/raft_coordinator.go:345-499 | With no live identifier a prefix of another, an identifier made by a split or merge never names a live shard |
| RangeShardLaws.SplitKeepsIds | internal/cluster/raft_coordinator.go:344-389 | A split keeps the identifiers prefix-free and replaces exactly one identifier by two new ones |
| RangeShardLaws.SplitKeepsPartition | internal/cluster/raft_coordinator.go:319-399 | A split keeps the ranges a partition if and only if the keys of the shard are splittable |
| RangeShardLaws.SplitOwners | internal/cluster/raft_coordinator.go:344-392 | Only keys of the split range change owner, to the half on their side of the split key; the covered keys stay the same |
| RangeShardLaws.MergeKeepsPartition | internal/cluster/raft_coordinator.go:477-535 | Merging two live neighbours keeps the ranges a partition |
| RangeShardLaws.MergeOwners | internal/cluster/raft_coordinator.go:498-528 | The merged shard owns exactly what the two owned; no other owner changes |
| RangeShardLaws.RebalanceKeepsGood | internal/cluster/raft_coordinator.go:630-641 | A rebalance sets two time stamps and changes neither identifiers, ranges nor anything else |
| RangeShardLaws.SplitDocuments | internal/cluster/raft_coordinator.go:355-373 | A split loses one document if the count was odd and none otherwise |
| RangeShardLaws.MergeDocuments | internal/cluster/raft_coordinator.go:509-510 | A merge keeps the number of documents |
| RangeShardLaws.SplitLightens | internal/cluster/raft_coordinator.go:311-374 | A split of a shard over a threshold lowers the potential of the map |
| RangeShardLaws.MergeLightens | internal/cluster/raft_coordinator.go:467-511 | A qualifying merge makes no shard over a threshold and lowers the potential |
| RangeShardLaws.HalvesDoNotMerge | internal/cluster/raft_coordinator.go:311-471 | A half of a split shard never qualifies for a merge, on either side |
| RangeShardLaws.StepKeeps | internal/cluster/raft_coordinator.go:303-648 | Each allowed split, merge or rebalance keeps the partition and the covered keys, lowers the potential unless it is a rebalance, and loses at most one document if it is a split |
| RangeShardLaws.RunKeeps | internal/cluster/raft_coordinator.go:303-648 | Every allowed run keeps a partition of the same keys with prefix-free identifiers, creates no document and loses at most one per split, and holds at most as many splits and merges as the potential it began with |
| RangeShardManager.RangeShardManager.GetAllShards | internal/cluster/raft_coordinator.go:580-587 | Each live shard once, in any order |
| RangeShardManager.RangeShardManager.UpdateSortedShards | internal/cluster/raft_coordinator.go:547-557 | The cached list becomes a sorted list of exactly the live shards |
| RangeShardManager.RangeShardManager.SplitShard | internal/cluster/raft_coordinator.go:319-399 | The map becomes the specified split, or stays with an error when there is no split key; the sorted list agrees with it |
| RangeShardManager.RangeShardManager.MergeShards | internal/cluster/raft_coordinator.go:477-535 | The map becomes the specified merge of any two shards, live or not; the sorted list agrees with it |
| RangeShardManager.RangeShardManager.Rebalance | internal/cluster/raft_coordinator.go:614-648 | The map becomes the specified rebalance; the sorted list agrees with it |
| RangeShardManager.RangeShardManager.CheckAndSplit | internal/cluster/raft_coordinator.go:303-316 | From any state, a split pass splits the shards of a snapshot one after the other; from a partition it replaces exactly the unflagged shards with both keys and more than 100 MiB or more than a million documents, each by two unflagged halves, and does nothing else |
| RangeShardManager.SplitPassMeaning | internal/cluster/raft_coordinator.go:303-399 | A split pass over a partition replaces exactly the picked shards by their halves and leaves all others, and keeps the ranges a partition, of the same keys, if and only if all picked shards were splittable |
| RangeShardManager.SplitPassByNumbers | internal/cluster/raft_coordinator.go:303-376 | What a split pass over a partition does, with the thresholds written out: which shards are replaced, what their halves are, and that all else stays |
| RangeShardManager.RangeShardManager.CheckAndMerge | internal/cluster/raft_coordinator.go:452-474 | From any state, a merge pass merges the qualifying neighbours of the list as it was, live or not; from a partition it merges exactly the unflagged touching neighbours with together less than 10 MiB and less than 100,000 documents, and does nothing else |
| RangeShardManager.MergePassMeaning | internal/cluster/raft_coordinator.go:452-535 | A merge pass over a partition keeps it one if and only if no shard qualified with both neighbours; all qualifying pairs are merged, shards that qualify with neither stay, and without chains keys and documents are kept |
| RangeShardManager.MergePassByNumbers | internal/cluster/raft_coordinator.go:455-525 | What a merge pass over a partition does, with the thresholds written out: which pairs become which shard, which shards are gone and which stay |
| RangeShardManager.ChainExample | internal/cluster/raft_coordinator.go:452-474 | Three small neighbours that a merge pass turns into overlapping shards |
| RangeShardManager.ChainOverlaps | internal/cluster/raft_coordinator.go:452-474 | A merge pass over a chain of qualifying shards ends with two overlapping shards |
| RangeShardManager.BadHalves | internal/cluster/raft_coordinator.go:344-376 | A shard that is not splittable leaves an empty half |
| RangeShardManager.RangeShardManager.GetShard | internal/cluster/raft_coordinator.go:560-568 | Finds a live shard that covers the key if there is one, and in a partition it is the only one |
| RaftLogStore.InmemStore.StoreLogs | internal/cluster/raft_coordinator.go:737-782 | Storing a batch applies the specified store entry by entry |
| RaftLogStore.InmemStore.DeleteRangeLocked | internal/cluster/raft_coordinator.go:785-798 | Deletes exactly the given indices and moves the last index down only if the end was deleted |
| RaftLogStore.InmemStore.DeleteRange | internal/cluster/raft_coordinator.go:802-817 | Deletes the range and adjusts both bounds as specified |
| RaftLogStore.FirstMeaning | internal/cluster/raft_coordinator.go:693-702 | In a contiguous log with entries the reported first index is that of the earliest entry; for an empty one it is zero if and only if the last index is zero |
| RaftLogStore.EmptiedReportsFirst | internal/cluster/raft_coordinator.go:693-814 | A log that held entries 3 and 4 and is emptied still reports first index 3 |
| RaftLogStore.ReadAfterStore | internal/cluster/raft_coordinator.go:711-782 | Reading an index of a stored batch finds the entry of the batch, or the one that was there before and had no earlier term |
| RaftLogStore.ReadOthersAfterStore | internal/cluster/raft_coordinator.go:711-782 | Reading any other index finds what it found before, or nothing if it lies behind an entry of the batch |
| RaftLogStore.ReadAfterDelete | internal/cluster/raft_coordinator.go:711-817 | After a deletion exactly the entries of the range are not found |
| RaftLogStore.StoreKeepsContiguous | internal/cluster/raft_coordinator.go:745-780 | Storing keeps the stored indices exactly first..last if and only if the index touches the stored range |
| RaftLogStore.DeleteKeepsContiguous | internal/cluster/raft_coordinator.go:785-817 | Deleting keeps the log contiguous if and only if the range is a prefix that reaches the first entry, a suffix, or empty |
| RaftLogStore.EmptyThenHigher | internal/cluster/raft_coordinator.go:774-814 | Emptying the log and then storing at index 10 leaves first index 1 and a hole |
| RaftLogStore.RunContiguous | internal/cluster/raft_coordinator.go:735-817 | A run of stores and deletions stays contiguous throughout if and only if each of its operations fits |
| RaftLogStore.StoreGrows | internal/cluster/raft_coordinator.go:749-779 | A store changes nothing or makes the sequence of terms strictly larger, lexicographically |
| RaftLogStore.BatchGrows | internal/cluster/raft_coordinator.go:737-782 | A batch changes nothing or makes the sequence of terms strictly larger |
| RaftLogStore.StoringTwice | internal/cluster/raft_coordinator.go:737-782 | Storing a batch with increasing indices a second time changes nothing, whatever the log held |
| RaftLogStore.ConflictRule | internal/cluster/raft_coordinator.go:733-782 | For a consecutive batch that touches the log, the result is that of section 5.3 of the Raft paper if and only if the first conflict, if any, is not with an entry of a later term |
| RaftLogStore.StaleConflictKept | internal/cluster/raft_coordinator.go:749-760 | A log with one entry of term 3 keeps it against a batch of term 2, where the rule would replace it |
| Saga.TryStep | internal/cluster/raft_coordinator.go:1223-1232 | A step is tried until it succeeds, at most three times |
| Saga.RunStep | internal/cluster/raft_coordinator.go:1215-1271 | One round of the loop leaves the step completed and recorded as executed, or failed |
| Saga.CompensateFrom | internal/cluster/raft_coordinator.go:1243-1262 | Exactly the executed steps are compensated, from the last down, with their final statuses; the failing step ends as skipped |
| Saga.ExecuteSaga | internal/cluster/raft_coordinator.go:1198-1282 | Running a pending saga is the specified forward run with backward compensation, with all final statuses; a saga that is not pending runs nothing |
| Saga.SagaTransaction.AddStep | internal/cluster/raft_coordinator.go:1178-1192 | Appends a pending step |
| Saga.AttemptsEffect | internal/cluster/raft_coordinator.go:1223-1232 | Trying a step that fails cleanly executes it once or leaves the world as it was |
| Saga.BackwardRestores | internal/cluster/raft_coordinator.go:1243-1262 | Undoing the executed steps leads back to the world the saga began in |
| Saga.AllOrNothing | internal/cluster/raft_coordinator.go:1194-1282 | If a failed step changes nothing and compensating undoes a step, a saga executes all its steps in order, or ends in the world it began in with every executed step compensated |
| Saga.OrderOfCalls | internal/cluster/raft_coordinator.go:1194-1282 | Steps are executed once each in order; on failure exactly those are compensated, once each and in reverse order; no step is tried more than three times, the failing one exactly that often, later ones never |
| Saga.StatusMeaning | internal/cluster/raft_coordinator.go:1215-1271 | The statuses a saga leaves, by the calls that were made: all completed, or each executed step compensated or not as its compensation answered, the failing one skipped, later ones pending |
| Saga.FailedEndsSkipped | internal/cluster/raft_coordinator.go:1234-1250 | After an aborted saga the failed step reads as skipped, and no step reads as failed |
| Saga.SkippedExample | internal/cluster/raft_coordinator.go:1234-1250 | A saga of one step that always fails ends with that step skipped |
| AccessControlLaws.StepKeepsInv | internal/acl/manger.go:508-1048 | Every operation keeps the invariant linking users, roles and sessions |
| AccessControlLaws.RunKeepsInv | internal/acl/manger.go:508-1166 | After any run each session is of an existing active user with exactly its present roles, no user has more than 16 sessions, and the admin user and role exist |
| AccessControlLaws.LoginKeepsInv | internal/acl/manger.go:545-619 | A login keeps the invariant, whatever its outcome |
| AccessControlLaws.DeleteRoleKeepsInv | internal/acl/manger.go:868-921 | Deleting a role keeps every remaining session equal to its user's roles |
| AccessControlLaws.FewerSessions | internal/acl/manger.go:652-686 | Removing sessions in any way and order keeps the session invariant |
| AccessControlLaws.OneMoreSession | internal/acl/manger.go:604-616 | A new session after room was made keeps the limit |
| AccessControlLaws.PermissionMeaning | internal/acl/manger.go:1061-1080 | After any run a permission check succeeds if and only if the session is live and its user is an active user who now holds a role that now has a matching permission |
| AccessControlLaws.Revoked | internal/acl/manger.go:735-832 | Disabling or deleting a user, or changing its password or roles, ends every session it had |
| AccessControlLaws.LoginTakesEffect | internal/acl/manger.go:599-618 | The session a login opens allows exactly what its user is entitled to, until it expires |
| AccessControlLaws.ExpiryIsInvisible | internal/acl/manger.go:675-686 | Removing expired sessions changes no later permission check |
| AccessControlLaws.RevokeUndoesGrant | internal/acl/manger.go:946-992 | Revoking a permission undoes granting it |
| AccessControlLaws.RemoveUndoesAdd | internal/acl/manger.go:1001-1048 | Taking a role away undoes giving it, except that the sessions of the user are gone |
| AccessControlEffects.LoginExactly | internal/acl/manger.go:545-597 | Which logins succeed, and which error each other one returns, by the stored fields alone |
| AccessControlEffects.LoginStores | internal/acl/manger.go:573-616 | What a successful login stores: counters reset, an old password migrated if a hash could be made, a session with the user's roles for 24 hours |
| AccessControlEffects.FailedLoginCounts | internal/acl/manger.go:491-597 | When a failed login counts, and when the count locks the account |
| AccessControlEffects.LoginKeepsYoungest | internal/acl/manger.go:604-649 | A login takes away exactly the oldest sessions that are too many for 16, and none of other users |
| AccessControlEffects.CreatedCanLogIn | internal/acl/manger.go:424-538 | Which users can be created, and that they can log in with the right password only and hold the roles given |
| AccessControlEffects.DisabledCannotLogIn | internal/acl/manger.go:735-771 | A disabled user cannot log in; an enabled one can if nothing else is in the way |
| AccessControlEffects.DeletedCannotLogIn | internal/acl/manger.go:774-788 | A deleted user cannot log in |
| AccessControlEffects.ChangedPasswordCounts | internal/acl/manger.go:792-816 | After a change of password only the new hash counts, and a lock stays |
| AccessControlEffects.OtherUsersUntouched | internal/acl/manger.go:508-1048 | An operation on one user leaves the others, their sessions and all roles alone |
| AccessControlEffects.SessionsLeft | internal/acl/manger.go:652-1161 | Which sessions a cleanup, a lookup and a logout leave |
| AccessControlEffects.ErrorsExactly | internal/acl/manger.go:735-1030 | Which operations on users and roles fail, and how |
| AccessControlEffects.NewRoleAllowsNothing | internal/acl/manger.go:850-873 | A new role is there and allows nothing; that of the administrator cannot be deleted |
| AccessControlEffects.GrantedIsAllowed | internal/acl/manger.go:946-992 | What a role allows after a grant and after a revocation |
| AccessControlEffects.RolesHeld | internal/acl/manger.go:868-1048 | Who holds which roles, and which sessions are left, after roles are given, taken and deleted |
| AccessControlEffects.ValidPermissionMeaning | internal/acl/manger.go:110-461 | The permissions that can be granted are exactly `*:*` and those of a database, a collection and an operation, none empty and of the allowed characters |
| AccessControlLaws.MatchMeaning | internal/acl/manger.go:1094-1199 | A valid permission other than `*:*` parses into three parts and matches if and only if each part is `*` or the name asked for |
| AccessControlLaws.AdminMeaning | internal/acl/manger.go:1061-1119 | After any run an administrative operation is allowed only to a user who holds a role with `*:*` or with a permission on that database and collection that names administration or all operations |
| AccessControlLaws.LockoutBound | internal/acl/manger.go:491-597 | In any window of T seconds of any run without a successful login or re-creation of the user, at most 5 * (1 + T div 900) wrong passwords are compared |
| AccessControlLaws.ComparedUnlocked | internal/acl/manger.go:569-597 | No wrong password is compared while the account is locked |
| AccessControlLaws.LockoutExact | internal/acl/manger.go:491-597 | Up to five wrong passwords in a row are all compared, and the fifth locks the account for exactly 15 minutes, during which even the right password is refused |
| AccessControlManager.Split | internal/acl/manger.go:1182-1199 | The scan finds the first separator |
| AccessControlManager.MatchPermission | internal/acl/manger.go:1094-1140 | The branches, with their special case for admin, decide the specified match |
| AccessControlManager.DedupeRoles | internal/acl/manger.go:464-481 | The loop computes the specified deduplication |
| AccessControlEffects.DedupedMeaning | internal/acl/manger.go:464-481 | Deduplication keeps exactly the non-empty names, each once, in the order of their first occurrence |
| AccessControlManager.ACLManager.constructor | internal/acl/manger.go:255-311 | A new manager holds the admin user and role and satisfies the invariant |
| AccessControlManager.ACLManager.EnforceSessionLimitLocked | internal/acl/manger.go:624-649 | Exactly the oldest sessions of the user go, down to one below the limit |
| AccessControlManager.ACLManager.DropUserSessionsLocked | internal/acl/manger.go:820-832 | Exactly the sessions of the user go |
| AccessControlManager.ACLManager.CreateUser | internal/acl/manger.go:508-538 | The specified step, with its errors in order |
| AccessControlManager.ACLManager.Authenticate | internal/acl/manger.go:545-619 | The specified login step; it succeeds if and only if the user exists, is active and not locked at the time, and the password is right for what is stored |
| AccessControlManager.ACLManager.Logout | internal/acl/manger.go:652-654 | Exactly that session goes |
| AccessControlManager.ACLManager.GetSession | internal/acl/manger.go:675-686 | The session if it is live; an expired one is removed |
| AccessControlManager.ACLManager.CleanupSessions | internal/acl/manger.go:1153-1161 | Exactly the expired sessions go |
| AccessControlManager.ACLManager.DisableUser | internal/acl/manger.go:735-754 | The specified step: the user is disabled and its sessions end; admin is refused |
| AccessControlManager.ACLManager.EnableUser | internal/acl/manger.go:757-771 | The specified step |
| AccessControlManager.ACLManager.DeleteUser | internal/acl/manger.go:774-788 | The specified step: the user and its sessions go; admin is refused |
| AccessControlManager.ACLManager.ChangePassword | internal/acl/manger.go:792-816 | The specified step: the hash changes and the sessions end |
| AccessControlManager.ACLManager.CreateRole | internal/acl/manger.go:850-863 | The specified step |
| AccessControlManager.ACLManager.DeleteRole | internal/acl/manger.go:868-921 | The role goes, from every user as well, and every session that carried it ends; admin is refused |
| AccessControlManager.ACLManager.GrantPermission | internal/acl/manger.go:946-970 | The specified step: a valid permission is added once |
| AccessControlManager.ACLManager.RevokePermission | internal/acl/manger.go:973-992 | The specified step |
| AccessControlManager.ACLManager.AddUserRole | internal/acl/manger.go:1001-1024 | The specified step: the role is added and the sessions end |
| AccessControlManager.ACLManager.RemoveUserRole | internal/acl/manger.go:1027-1048 | The specified step: the role is removed and the sessions end |
| AccessControlManager.ACLManager.CheckPermission | internal/acl/manger.go:1061-1080 | The nested loops decide exactly whether the session's roles allow the operation |
| Gossip.GossipNode.UpdateNodeFromMessage | internal/cluster/gossip.go:460-517 | The entry of the sender is created or refreshed as specified; all others stay |
| Gossip.ReceiveMeaning | internal/cluster/gossip.go:460-517 | News of a higher incarnation makes a known peer alive and unsuspected and replaces its address; other news only clears the suspicion; a new peer is stored as it presents itself; no other entry changes |
| Gossip.GossipNode.GetActiveNodes | internal/cluster/gossip.go:671-681 | Exactly the live peers other than the node itself, each once |
| Gossip.GossipNode.HandleMessage | internal/cluster/gossip.go:435-457 | A membership message is stored and, with more than one hop left and not from the node itself, passed on with one hop less to all but the sender of as many live peers as the fanout; to none twice if peers are stored under their own identifiers |
| Gossip.GossipNode.ForwardMessage | internal/cluster/gossip.go:588-607 | Of fanout live peers chosen at random all but the sender get one copy; none do at a time to live of zero |
| Gossip.GossipNode.Broadcast | internal/cluster/gossip.go:247-285 | Fanout different live peers, or all if they are fewer, get a copy of the node's own state with the full time to live; with no live peer every seed does |
| Gossip.GossipNode.BroadcastToSeeds | internal/cluster/gossip.go:288-304 | One copy to each seed address that parses |
| Gossip.GossipNode.AddSeed | internal/cluster/gossip.go:737-747 | A seed address is added once |
| Gossip.SelectRandomNodes | internal/cluster/gossip.go:694-714 | A selection without repetition of the right size, whatever the random numbers |
| Gossip.MergeKeepsHighest | internal/cluster/gossip.go:483-505 | The stored incarnation never decreases and ends at the highest one heard |
| Gossip.EntryIsMerge | internal/cluster/gossip.go:460-517 | Whatever messages arrive about whichever peers, the entry of a peer is the merge of the updates about that peer alone |
| Gossip.NodesAgree | internal/cluster/gossip.go:460-517 | Two nodes that heard the same set of updates about a third, in any orders, with repeats and among other messages, store the same about it if and only if the updates of the highest incarnation agree and their status is not empty unless all are |
| Gossip.OrderIndependence | internal/cluster/gossip.go:483-508 | The same for the merging of updates about one peer: all orders, with any repeats, lead to the same entry if and only if the set is agreeable |
| Gossip.AgreeableResult | internal/cluster/gossip.go:483-508 | In that case the entry is the one update of the highest incarnation |
| Gossip.DisagreeableOrders | internal/cluster/gossip.go:483-508 | Otherwise two orders of the same updates give different entries |
| Gossip.SameIncarnationDiffers | internal/cluster/gossip.go:487-505 | Two updates of one incarnation with different addresses leave the one that was heard first |
| Gossip.EventLightens | internal/cluster/gossip.go:452-456 | Every delivery or loss takes from the total weight in flight and pays for the copies sent |
| Gossip.FloodBound | internal/cluster/gossip.go:452-607 | From any messages in flight, the events and the further sends are bounded by the weight |
| Gossip.BroadcastBound | internal/cluster/gossip.go:247-607 | One broadcast causes at most Fanout + Fanout^2 + ... + Fanout^MaxTTL sends, and as many events; one to k seeds at most k times 1 + Fanout + ... + Fanout^(MaxTTL-1) |
| LamportClock.InvAlways | internal/cluster/raft_coordinator.go:123-148 | In every run of any processes and threads the invariant linking counters, calls and returned values holds |
| LamportClock.ClockCondition | internal/cluster/raft_coordinator.go:123-143 | An event that happens before another has a smaller value, where what the events observe is what their calls were given |
| LamportClock.EventsAsCalled | internal/cluster/raft_coordinator.go:123-143 | Every logged value was written by the last access of a call, on the clock the call was made for and observing the event the call was given, which it exceeds |
| LamportClock.ClockIncreases | internal/cluster/raft_coordinator.go:123-143 | The values of one clock are distinct and increase in the order of its updates |
| LamportClock.RuleAlways | internal/cluster/raft_coordinator.go:124-143 | Each returned value is one above the larger of the last value of the same clock and the value observed |
| LamportClock.RetryMeansUpdate | internal/cluster/raft_coordinator.go:130-143 | An observing call goes round its loop if and only if the clock was updated after it was loaded |
| TokenBucket.TokenBucketHTTP.constructor | internal/api/http.go:78-85 | The bucket starts full |
| TokenBucket.TokenBucketHTTP.Allow | internal/api/http.go:88-105 | One request is answered and charged as specified |
| TokenBucket.TokensBounded | internal/api/http.go:88-105 | Over any run tokens stay between zero and the maximum |
| TokenBucket.WindowBound | internal/api/http.go:88-105 | In any window of any run at most burst + rate * duration requests are allowed |
| TokenBucket.BurstExact | internal/api/http.go:88-105 | Of requests made at once exactly those are allowed that the tokens cover |
| TokenBucket.WaitingSuffices | internal/api/http.go:88-105 | A request that comes after one token has flowed in is allowed, whatever came before |
| TokenBucket.RejectedIsInvisible | internal/api/http.go:88-105 | Deleting a rejected request from a run changes no other answer |
| LogRotation.Logger.constructor | internal/log/logger.go:245-262 | The current file is opened for appending with its present size, 100 MB and ten backups |
| LogRotation.Logger.WriteEntry | internal/log/logger.go:295-317 | By the contents of the files alone: a current file of less than 100 MiB gets the line and nothing else changes; a larger one moves to backup 1, the others move up, and a new file holds the line |
| LogRotation.Logger.RotateLocked | internal/log/logger.go:325-360 | Every file moves up by one and a new one is begun; without a file below it the oldest backup stays |
| LogRotation.RotationReads | internal/log/logger.go:334-349 | A rotation drops the lines of the oldest backup when another takes its place, and nothing else |
| LogRotation.OldestBackupLost | internal/log/logger.go:334-349 | With backups 9 and 10 there, a rotation loses the lines of the oldest |
| LogRotation.HistoryKept | internal/log/logger.go:295-360 | Reading backups 10 down to 1 and then the current file always gives a suffix of what was there and everything written since |
| LogRotation.RotatedOutSize | internal/log/logger.go:303-316 | A file rotated out has reached the maximum, and is below the maximum and its last line together if and only if it was below the maximum without that line before the write |
| LogRotation.AllRotatedWithinBounds | internal/log/logger.go:245-316 | In every run, by the contents of the files: a write that does anything but append finds 100 MiB or more and moves that file to backup 1, and the file is below 100 MiB and its last line together, except one over that bound when the logger opened it, which the first write moves out |
| LogRotation.LogAll | internal/log/logger.go:245-360 | A logger used in any way passes through such a run and keeps a suffix of the history |
| LogRotation.OversizedAtStart | internal/log/logger.go:245-316 | A file over the bound at the start is rotated out over it |
| Compression.Compress | internal/compression/compression.go:59-134 | Filling the header in place and appending the payload gives the specified result, errors included |
| Compression.CompressByCases | internal/compression/compression.go:59-134 | What compression returns in each case of the configuration, with the bytes of the header written out |
| Compression.FieldByte | internal/compression/compression.go:127-127 | Byte i of the size field is the digit of weight 256^i |
| Compression.CountsAsCompressed | internal/compression/compression.go:242-283 | What counts as compressed, and the type reported, in bytes |
| Compression.ReadBack | internal/compression/compression.go:127-177 | Reading a size field back gives the value modulo 256^n |
| Compression.PackedComesBack | internal/compression/compression.go:118-238 | Packed data comes back whole if and only if it is at most 100 GiB; beyond that decoding fails |
| Compression.RoundTrip | internal/compression/compression.go:59-259 | With faithful codecs, any data of at most 100 GiB that is not itself a block comes back whole under any configuration |
| Compression.RoundTripExactly | internal/compression/compression.go:59-259 | For all data and all codecs that undo their encoding: packed data comes back if and only if it is at most 100 GiB; data left as it came comes back if it is no block, does not if it is a block whose header does not give the size of the block itself, and otherwise does if and only if its decoder reproduces the block |
| Compression.SelfBlockSurvives | internal/compression/compression.go:139-259 | A V2 block that its own snappy payload decodes to comes back |
| Compression.SelfBlockExists | internal/compression/compression.go:193-238 | Codecs that undo their encoding and have such a payload |
| Compression.RoundTripCounterexample | internal/compression/compression.go:60-259 | A concrete document that the round trip loses |
| Compression.OutputSize | internal/compression/compression.go:118-133 | The output exceeds the input by at most 13 bytes, and only if the payload saves less than the header |
| Compression.DecompressAuto | internal/compression/compression.go:242-272 | Decodes if and only if the data counts as compressed, and passes everything else through |
| Compression.ReportedType | internal/compression/compression.go:263-283 | The output counts as compressed if and only if it was packed or the input already did; packed output reports the algorithm that packed it, other output what the input reported |
| Compression.V1Dispatch | internal/compression/compression.go:138-150 | A V1 block with a payload reaches the V1 decoder if and only if its type byte is not 0x02 |
| Compression.V1ComesBackExactly | internal/compression/compression.go:138-238 | A V1 block gives its data back if and only if the data is not empty and the block was not made by brotli, or brotli stored the data verbatim in the one form that survives; with a payload no longer than the data, if and only if it was not made by brotli |
| Compression.V1BrotliMisread | internal/compression/compression.go:138-190 | How a V1 block made by brotli is read instead: one byte off |
| Compression.V1BrotliReadable | internal/compression/compression.go:138-238 | Such a block decodes to anything at all if and only if its payload is a zero byte and more, its size is at least 256, not over the limit and has a type code as its low byte, and that decoder turns the rest of the payload into a 256th of the size |
| Compression.V1BrotliCounterexample | internal/compression/compression.go:138-190 | A V1 block of five bytes made by brotli that is refused, whatever the codecs |
| BufferRing.BufferRing.constructor | internal/cluster/backpressure.go:64-72 | An empty ring of the given capacity, or 100 if it is not positive |
| BufferRing.BufferRing.Push | internal/cluster/backpressure.go:76-97 | The entry joins the history; the ring keeps representing its most recent entries, with head minus tail equal to count |
| BufferRing.BufferRing.GetAll | internal/cluster/backpressure.go:100-118 | The most recent entries of the history, in push order, at most the capacity |
| BufferRing.BufferRing.GetLastN | internal/cluster/backpressure.go:121-145 | The last n of them, for every n |
| BufferRing.BufferRing.Clear | internal/cluster/backpressure.go:158-167 | The history is empty again |
| BufferRing.RunThrough | internal/cluster/backpressure.go:64-167 | After any run of pushes and clears the readers give the most recent entries since the last clear |

## Left out

- Queue atomics: accesses are sequentially consistent, as Go promises for its atomics; the nil checks on head and tail are left out, since both are stored before the queue is shared; nodes are garbage collected, so none is reused; the queue is a state machine on values because its steps interleave.
- 64-bit counters: the size counter, clock values, indices, times and sizes are unbounded; only the byte average of the split key and the eight-byte size field are bounded arithmetic.
- Range shards under concurrency: the sets of shards being split or merged and the rebalancing flag, which refuse overlapping calls, and the locks; one reading of the clock per pass; nodes and leaders are copied but never looked at.
- Raft log store: string keys are modelled by the indices they contain; JSON encoding and its errors, the stable-store keys and the stored configuration are not modelled; `hashicorp/raft` itself is not part of this model.
- Saga: a step is a value with its two functions and status, not an object that may be shared between sagas; locks, sleeps between retries, log lines and panics of nil functions are not modelled.
- Access control: each operation is one step, although lookups and the cleanup loop delete from concurrent maps without the lock; passwords, hashes and random session identifiers are inputs; a user's unique identifier, the client address of a session and the listing getters are not modelled.
- Gossip: health, load, configuration and sync messages, the monitor that suspects and removes peers, load figures and the UDP transport; whether a seed address parses is a parameter; the fanout is not negative; a message in flight is delivered at most once.
- Token bucket: real numbers instead of floating point, and the map of limiters per client.
- Log rotation: errors of the file system, the formatter and the queue of entries; a line's length is that of its characters.
- Compression: the three codecs are parameters, and failures to create a zstd coder count as failures of that codec; the ratio helper is not modelled.
- History ring: the clock reading of an entry is part of the entry; the backpressure manager around the ring is not modelled.
- Write-ahead log, storage engine, transactions, plugins, REPL, HTTP handlers, TLS, metrics, multi-Raft groups, resharding, self-healing and cross-datacenter code: plumbing, stubs and wrappers around libraries.
