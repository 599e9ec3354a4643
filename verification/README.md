# Rocksplicator: models and proofs

Rocksplicator replicates RocksDB shards: a master commits client writes, slaves pull batches from
an upstream, a Helix participant promotes a slave when the master is lost, an admin tool places
and rebalances shards, and a router picks the hosts to talk to. This project models the parts of
it whose correctness depends on interleavings, on whole workflows or on arithmetic over
unbounded streams, and proves what they promise.

`dafny verify dfyconfig.toml` checks everything.

## How the models are built

* **Protocols** (`Replication`, `Durability`, `CondVar`, `Handover`, `MaxNumberBox`, `ObjectLock`,
  `SpeculativeFuture`, `CasLoop`) are step machines: `Step` lists the atomic actions, `Enabled` and
  `Apply` say what they do, `Executes` is any run. Theorems start from `Init` and hold in every
  state that a run reaches. `Progress` shows the other side: from every state slaves can catch up,
  and in every reachable state a waiting write can be acknowledged.
* **Procedures** that run while others go on (`Failover`, `Handover`, `CasLoop`) are methods with
  the loops of the source. Where the source waits, looks or calls out they call `Interfere`, of
  which a caller knows only that some run of the others happened. `Failover` and
  `Handover` also state that what the procedure does is a run of the protocol.
* **Objects updated in place** (`ReplicatedDb`, `MaxNumberBox.Box`, `HotKey.HotKeyDetector`,
  `Kafka.KafkaConsumer`, `SpeculativeFuture.Context`) are classes whose methods are proved against
  the pure functions or steps that the theorems speak of. `TaskList` and `ObjectLock.Bucket`, the
  linked lists under `CondVar` and `ObjectLock`, have contracts of their own: they say what a
  critical section does to the list and do not mention the steps.
* **The admin tool** (`Layout`, `InitialLayout`, `HostReplacement`, `Rebalance`) is methods with the
  tool's loops over dictionaries; every iteration order is a parameter. Exceptions are results, and
  every config that reaches ZooKeeper is part of the result.
* Clocks, sequence numbers reported by hosts, failing writes and RPCs, and the polls of external
  clients are parameters.

## Where code and documentation differ

* The hot key detector's comment says that a key with ten percent of the load should be in a
  bucket. `HotKey.HotKeyCanBeMissed` is a stream where a key with sixty percent is in none. What the
  code does guarantee is `HotKey.CaughtFromTwoThirdsOn`: a share of the load is enough, up to a
  constant, if and only if it is two thirds at least.
* `rocksdb_admin/tool/rocksdb_admin.py:333` calls `en(...)`, which does not exist; the model calls
  `len(...)`.
* The iterator cache stays in order only for requests that name a batch boundary. The server does
  not check this; `ReplicatedDb.PutBackInOrder` shows the equivalence, and log-prefix safety shows
  that slaves only send such requests.
* A role-change request may name any upstream; the server does not check it. Log-prefix safety then
  depends on the request. `Progress.NumbersAreNotEnough` is a run in which a request breaks it,
  though the new upstream shows the larger sequence number: the two replicas were masters at the
  same time. `Replication.NewUpstreamUnderOneMaster` says when a request does no harm: for replicas
  under one master, if and only if the new upstream does not show the smaller number.

## Model

| member | source | states |
|---|---|---|
| Replication.LogPrefixSafety | rocksdb_replicator/replicated_db.cpp:141-334 | in every reachable state a slave's log is a prefix of its upstream's, every reply to its outstanding request and every update still to apply are exactly the upstream's next batches, and no log ever shrinks; over lost, late and duplicated messages, partial applies, chopped replies, chained slaves and replicas that change roles and upstreams |
| Replication.ChainPrefixSafety | rocksdb_replicator/replicated_db.cpp:141-229 | along any chain of upstreams, however long, the logs are prefixes of one another |
| Replication.CachesAreInvisible | rocksdb_replicator/replicated_db.cpp:261-326 | in every reachable state a cached iterator filed under the requested number stands at that batch, and the reply read through it equals the reply of a fresh GetUpdatesSince on the same log |
| Replication.TaskReadsFromBoundary | rocksdb_replicator/replicated_db.cpp:248-306 | whatever iterator a task reads with and however far it sees, it reads from the batch after the slave's log and leaves the iterator at the batch it is filed under |
| Replication.StepKeepsInv | rocksdb_replicator/replicated_db.cpp:65-370 | every atomic step of write, pull, reply, finish, apply, cleanup and role change keeps the protocol invariant |
| Replication.ReplyNeverBlocks | rocksdb_replicator/replicated_db.cpp:253-306 | the guard of the reply step never blocks: every request can be answered with any iterator filed under its number or a fresh one, however far it sees |
| Replication.WaitHasOneWayOn | rocksdb_replicator/replicated_db.cpp:85-106 | a waiting write can be acknowledged exactly when its number has been posted, and given up exactly when it has not |
| Replication.ChangeRoleKeeps | rocksdb_admin/admin_handler.cpp:1155-1204 | changing a replica's role or upstream keeps the protocol invariant and every log when the new upstream is not behind; the replica's own chain, number and tasks start afresh, the tasks of others go on |
| Replication.NewUpstreamMustNotBeBehind | rocksdb_admin/admin_handler.cpp:1155-1204 | re-pointing a replica keeps the protocol invariant if and only if its log is a prefix of the new upstream's |
| Replication.NewUpstreamByNumber | cluster_management/src/main/java/com/pinterest/rocksplicator/MasterSlaveStateModelFactory.java:176-203 | of replicas whose logs are prefixes of one log, re-pointing keeps the protocol invariant if and only if the new upstream does not show the smaller sequence number |
| Replication.NewUpstreamUnderOneMaster | cluster_management/src/main/java/com/pinterest/rocksplicator/MasterSlaveStateModelFactory.java:176-203 | what a caller can check: for replicas whose chains of upstreams end at one master, however long, re-pointing keeps the protocol invariant if and only if the sequence numbers allow it |
| Progress.NumbersAreNotEnough | rocksdb_admin/admin_handler.cpp:1155-1204 | the handler can break log-prefix safety, in every mode: for all batches a and b, different and the first not larger, a run after which a replica that is not ahead by number, with no write at work, no longer follows its upstream once it is re-pointed |
| Replication.RunKeepsInv | rocksdb_replicator/replicated_db.cpp:65-370 | every run keeps the protocol invariant, and logs only grow |
| Serving.ServeFollowsBoundary | rocksdb_replicator/replicated_db.cpp:261-306 | a request at a batch boundary is served the run of batches that starts there, and the next number is the boundary where the run ends |
| Serving.CachedReplyEqualsFresh | rocksdb_replicator/replicated_db.cpp:261-282 | an iterator that stands at the requested batch gives the same reply as a fresh one, also when it was exhausted and is advanced again |
| Serving.AlwaysReads | rocksdb_replicator/replicated_db.cpp:261-306 | the iterator choice never fails to produce a readable cursor when the log reaches the number |
| Wal.LocateBoundary | rocksdb_replicator/replicated_db.cpp:276-282 | GetUpdatesSince at a batch's first number finds that batch, for every log |
| Wal.PrefixBySeqNo | rocksdb_replicator/replicated_db.cpp:79-83 | of two prefixes of one log the one with the smaller sequence number is a prefix of the other |
| Durability.AcknowledgedMeansReplicated | rocksdb_replicator/replicated_db.cpp:79-106 | mode 2: once Write has returned OK another replica's log holds the batch at its place, then and in every later state, whatever role changes and promotions come before or after the write |
| Durability.AcknowledgedMeansHandedOver | rocksdb_replicator/replicated_db.cpp:239-312 | mode 1: once Write has returned OK another replica's log holds the batch or a response that carries it was handed over, in all runs with role changes |
| Durability.CommittedWhateverTheOutcome | rocksdb_replicator/rocksdb_replicator.h:94-97 | whatever Write answers, WAIT_SLAVE_TIMEOUT included, the batch is and stays in the log of the replica that took it, also when it is a slave later |
| Durability.StepKeepsAckInv | rocksdb_replicator/replicated_db.cpp:79-106 | every step keeps the acknowledgement invariant: a posted number that a write may wait for was committed by another replica, or handed to one in mode 1, and no target lies beyond the log |
| ReplicatedDb.PutBackInOrder | rocksdb_replicator/replicated_db.cpp:309-326 | whatever iterator a task reads with and whatever number it is asked for, the iterator it puts back stands at the batch it is filed under if and only if the number is a batch boundary |
| ReplicatedDb.ReadUpdates | rocksdb_replicator/replicated_db.cpp:287-306 | the read loop returns the run of at most max_updates visible batches from the cursor, the next number and where the cursor stops |
| ReplicatedDb.RunReplicateTask | rocksdb_replicator/replicated_db.cpp:246-333 | the three exits of a task: SOURCE_NOT_FOUND exactly when the db is gone, a read error only when rocksdb gives no iterator, else the reply of the protocol |
| ReplicatedDb.ReplicatedDb.RunTask | rocksdb_replicator/replicated_db.cpp:258-327 | serves what the protocol's reply step serves; in mode 1 and in no other the acknowledgement number becomes the larger of itself and the last number handed over; one iterator leaves the cache and one enters it under the next number; a read error happens exactly when a fresh iterator is needed and cannot be had, and posts nothing |
| ReplicatedDb.ReplicatedDb.PostCommitted | rocksdb_replicator/replicated_db.cpp:239-243 | on arrival of a request the number becomes the larger of itself and the slave's, in modes 1 and 2 only |
| ReplicatedDb.ReplyHandsOver | rocksdb_replicator/replicated_db.cpp:261-308 | to the protocol's state a reply adds exactly the response and the unfinished task, takes exactly the iterator it reads with, and posts nothing |
| ReplicatedDb.FinishPosts | rocksdb_replicator/replicated_db.cpp:309-326 | to the protocol's state the end of a task posts the last number handed over in mode 1 only, and puts exactly its iterator back |
| ReplicatedDb.ArrivalIsDeliver | rocksdb_replicator/replicated_db.cpp:239-243 | to the protocol's state the arrival of a request posts the slave's number in modes 1 and 2, and nothing else |
| ReplicatedDb.NotIdleCounts | rocksdb_replicator/replicated_db.cpp:358-370 | the cleaner keeps an entry as often as it was there unless it was put there longer ago than the timeout |
| ReplicatedDb.ReplicatedDb.GetCachedIter | rocksdb_replicator/replicated_db.cpp:336-348 | takes exactly one entry filed under the number out of the cache, and reports none only when there is none |
| ReplicatedDb.ReplicatedDb.PutCachedIter | rocksdb_replicator/replicated_db.cpp:350-356 | adds exactly one entry to the cache, under the number and with the time of the call |
| ReplicatedDb.ReplicatedDb.CleanIdleCachedIters | rocksdb_replicator/replicated_db.cpp:358-370 | erases exactly the idle entries while iterating, and keeps the others in order |
| ReplicatedDb.ReplicatedDb.ApplyUpdates | rocksdb_replicator/replicated_db.cpp:180-203 | applies updates in order up to the first failing write, delays the next pull exactly then, and keeps every cached iterator right |
| ReplicatedDb.ReplicatedDb.Write | rocksdb_replicator/replicated_db.cpp:65-109 | the outcome of Write for every role, mode, commit and acknowledgement, and when the log grew |
| Progress.CanCatchUp | rocksdb_replicator/replicated_db.cpp:141-229 | from every state of the protocol a run in which only the slave and its upstream take part brings the slave's log up to its upstream's |
| Progress.CanBeAcknowledged | rocksdb_replicator/replicated_db.cpp:85-106 | in every reachable state of modes 1 and 2 a run acknowledges a given waiting write, as long as its master has a slave |
| Progress.HandedOverIsEnough | rocksdb_replicator/replicated_db.cpp:309-312 | in mode 1 a waiting write that a task has handed over is acknowledged by the end of that task, with no further step of a slave |
| Progress.NextPromotionCanSucceed | cluster_management/src/main/java/com/pinterest/rocksplicator/MasterSlaveStateModelFactory.java:198-222 | a replica that a promotion left pulling from the longest surviving log can get it all in a run of the survivors alone |
| Progress.SomeWriteIsAcknowledged | rocksdb_replicator/replicated_db.cpp:65-109 | a run from a fresh pair of replicas in which a write is acknowledged: the durability theorems are not empty |
| Progress.NewMasterCanBeLost | cluster_management/src/main/java/com/pinterest/rocksplicator/MasterSlaveStateModelFactory.java:150-256 | a second failover: a run in which a promoted master acknowledges a write and is lost, with the first master still listed, meets every hypothesis of FailOver |
| Progress.MasterCanBeLost | cluster_management/src/main/java/com/pinterest/rocksplicator/MasterSlaveStateModelFactory.java:150-172 | the failure that a promotion starts from can happen after an acknowledged write |
| Failover.OnBecomeMasterFromSlave | cluster_management/src/main/java/com/pinterest/rocksplicator/MasterSlaveStateModelFactory.java:150-256 | nothing happens while the view shows a master; a promotion that completes leaves a master whose log extends every survivor's, nobody ahead of it, and every survivor reached at the end pulling from it; one that throws promoted nobody, unless the reply to the promotion itself was lost, and then the log extends every survivor's too; when the view clears and the calls work it completes or leaves the replica pulling from a survivor with the longest log, and a replica with the longest log always completes; what it does is a run of the protocol, in which survivors go on replicating |
| Failover.FindHighestSeq | cluster_management/src/main/java/com/pinterest/rocksplicator/MasterSlaveStateModelFactory.java:176-196 | the search ends with the sequence number of the longest surviving log, in whatever order hosts are listed |
| Failover.CatchUp | cluster_management/src/main/java/com/pinterest/rocksplicator/MasterSlaveStateModelFactory.java:198-222 | from the call on the local replica pulls from the survivor with the longest log; catching up means that its log is the longest surviving log, and giving up that 600 looks saw a smaller number; a failed call ends it |
| Failover.RepointOthers | cluster_management/src/main/java/com/pinterest/rocksplicator/MasterSlaveStateModelFactory.java:229-247 | every reachable survivor ends up pulling from the new master, and the protocol invariant holds of the new topology |
| Failover.FailOver | cluster_management/src/main/java/com/pinterest/rocksplicator/MasterSlaveStateModelFactory.java:150-256 | end to end from the start of the system in mode 2: after any run, earlier failovers included, the death of the master that the survivors' chains of upstreams end at, and a promotion that completes, every acknowledged write that a survivor holds is in the new master's log at its place; that is every write the old master acknowledged when its direct slaves survive and only replicas chained to it hold the write; all acknowledged writes are held by another replica afterwards too |
| Failover.SurvivorHolds | cluster_management/src/main/java/com/pinterest/rocksplicator/MasterSlaveStateModelFactory.java:150-226 | when the direct slaves of the old master survive, every write it acknowledged in mode 2 and only its followers hold is held by a survivor, however deep slaves are chained |
| Failover.AwaitNoMaster | cluster_management/src/main/java/com/pinterest/rocksplicator/MasterSlaveStateModelFactory.java:157-172 | the promotion goes on exactly when one of sixty looks at the external view shows no master |
| Failover.Promote | cluster_management/src/main/java/com/pinterest/rocksplicator/MasterSlaveStateModelFactory.java:224-247 | the outcome of the promotion call decides: refused it changes nobody's role; done, or done with its reply lost, it makes a master that nobody is ahead of |
| Failover.ChainsFollowMaster | cluster_management/src/main/java/com/pinterest/rocksplicator/MasterSlaveStateModelFactory.java:150-226 | survivors whose upstream chains end at the dead master have logs that are prefixes of its log |
| Failover.TopOfSurvivors | cluster_management/src/main/java/com/pinterest/rocksplicator/MasterSlaveStateModelFactory.java:176-196 | some survivor's log extends every survivor's log |
| Failover.ReachableIsStopped | cluster_management/src/main/java/com/pinterest/rocksplicator/MasterSlaveStateModelFactory.java:150-172 | stopping the old master and draining its replies in any reachable state gives the state that the promotion starts from |
| CondVar.NoLostWakeup | rocksdb_replicator/non_blocking_condition_variable.h:85-139 | in every reachable state an unrun pending task whose predicate is true has its own recheck still to come, or some writer is between append and swap |
| CondVar.QuiescentMeansCaughtUp | rocksdb_replicator/non_blocking_condition_variable.h:85-139 | when nobody is in the middle of a submission or notification, every unrun task is pending with a false predicate: no replicate request lags behind the log |
| CondVar.ExactlyOnce | rocksdb_replicator/non_blocking_condition_variable.h:42-157 | a task never runs twice, has run once when nobody references it, and every task has run once when the destructor is through |
| CondVar.RunsWhenDue | rocksdb_replicator/non_blocking_condition_variable.h:85-139 | a task goes to the executor by the first step that has one of the four documented reasons (its predicate is true at the check or the recheck, its timer fires, it is next on the list of a notification or of the destructor), and by no other step |
| CondVar.TimedRequestsEnd | rocksdb_replicator/non_blocking_condition_variable.h:108-125 | in every reachable state the timer of a timed request that still waits is running, and when it fires the task runs |
| CondVar.ExactlyOneReply | rocksdb_replicator/replicated_db.cpp:246-333 | a replicate request never gets two replies, has exactly one once its task has left the condition variable and the executor, and the executor can always finish it, also after the db is removed |
| CondVar.OpenRequestsLearnOfRemoval | rocksdb_replicator/replicated_db.cpp:251-259 | a request that is open when the db is removed is answered SOURCE_NOT_FOUND or not yet, in every later run |
| CondVar.StepKeepsInv | rocksdb_replicator/non_blocking_condition_variable.h:85-157 | every step of check, enqueue, recheck, claim, timer, append, swap, walk, execute and destroy keeps the accounting of tasks and wakeups |
| CondVar.RaceHappens | rocksdb_replicator/non_blocking_condition_variable.h:85-106 | the race that the recheck is for exists: a run that leaves a pending task with a true predicate |
| TaskList.RunATaskList | rocksdb_replicator/non_blocking_condition_variable.h:149-157 | walking the linked list puts exactly the unrun tasks into the executor, in list order, and leaves none unrun |
| TaskList.Task.ShouldIRun | rocksdb_replicator/non_blocking_condition_variable.h:42-57 | answers true for the first caller only |
| TaskList.ConditionVariable.NotifyAll | rocksdb_replicator/non_blocking_condition_variable.h:129-139 | takes the whole pending list over, runs what has not run, and leaves the list empty |
| TaskList.ConditionVariable.Push | rocksdb_replicator/non_blocking_condition_variable.h:91-100 | puts a task at the front of the linked list |
| Handover.AtMostOneLive | rocksdb_replicator/rocksdb_replicator.cpp:95-140 | in every reachable state a rocksdb has at most one ReplicatedDB that anybody can still reach, hence one pull chain that can act |
| Handover.NoWriteAfterRemoval | rocksdb_replicator/rocksdb_replicator.cpp:121-140 | once removeDB has returned, and as soon as the weak pointer has expired, no pull callback of the removed ReplicatedDB can begin or write again in any later run |
| Handover.NoChainOnMaster | rocksdb_admin/admin_handler.cpp:1188-1201 | after removal nothing of the db is reachable, and once it is added as MASTER none of its pull chains can write |
| Handover.RawPointerIsGood | rocksdb_admin/application_db.cpp:44-68 | whoever holds an ApplicationDB can use its raw pointer: the ReplicatedDB is still registered and not expired |
| Handover.StepKeepsInv | rocksdb_admin/application_db_manager.cpp:40-96 | every step of getting, dropping, locking, pulling, erasing, unmapping, expiring and adding keeps the ownership invariant |
| Handover.RemoveDb | rocksdb_admin/application_db_manager.cpp:75-96 | what it does is a run; through: no ReplicatedDB of the db is reachable, and none can write to it in any later run; not through: somebody still holds one of the two objects |
| Handover.WaitOnApplicationDbRef | rocksdb_admin/application_db_manager.cpp:148-156 | the wait is a run of the others, and ends exactly when nobody else holds the erased ApplicationDB |
| Handover.RemoveFromReplicator | rocksdb_replicator/rocksdb_replicator.cpp:121-140 | what it does is a run; the wait ends exactly when the weak pointer has expired, and the ReplicatedDB is then gone for good |
| Handover.ChangeDbRoleAndUpstream | rocksdb_admin/admin_handler.cpp:1155-1204 | what it does is a run; afterwards the only reachable ReplicatedDB of the db is the new one, with the new role; as MASTER no pull chain of the db can write, as SLAVE with an upstream a pull callback can begin |
| Handover.RemovalHappens | rocksdb_admin/application_db_manager.cpp:75-96 | a run in which a pull callback can write while the removal waits, and in which the removal goes through and the chain is silent once the callback has ended |
| Handover.SlavesPull | rocksdb_replicator/rocksdb_replicator.cpp:95-119 | in every reachable state a registered slave pulls: a callback of its chain is at work or can begin |
| Handover.UsersAreWaitedFor | rocksdb_admin/application_db_manager.cpp:148-156 | whoever got an ApplicationDB can use it in every run until it lets go, and the removal cannot pass it |
| Handover.LockersAreWaitedFor | rocksdb_replicator/rocksdb_replicator.cpp:121-140 | whoever locked a ReplicatedDB keeps it from expiring in every run until it lets go, and the removal cannot pass it |
| Handover.CallbacksAreWaitedFor | rocksdb_replicator/rocksdb_replicator.cpp:121-140 | a pull callback that has begun can write in every run until it ends, and the removal cannot pass it |
| Handover.LastUserLetsGo | rocksdb_admin/application_db_manager.cpp:148-156 | when the last holder of the erased ApplicationDB lets go the removal can go on |
| Handover.LastLockerLetsGo | rocksdb_replicator/rocksdb_replicator.cpp:121-140 | when the last holder of the unmapped ReplicatedDB lets go the removal can go on |
| MaxNumberBox.BoxIsRight | rocksdb_replicator/max_number_box.cpp:27-102 | over all interleavings of post, wait, timeout and spurious wakeup: the number is the maximum of the initial one and all posts, the list is duplicate-free and exactly the blocked threads above it, and every satisfied waiter is on a notify list or was notified |
| MaxNumberBox.TimeoutCheckHolds | rocksdb_replicator/max_number_box.cpp:90-101 | on the timeout path of any reachable state the thread is on the list exactly once: the CHECK never fails |
| MaxNumberBox.WaitsForTheNumber | rocksdb_replicator/max_number_box.cpp:27-102 | a post raises the number to the larger one, a wait blocks exactly when the number has not been reached, a wakeup lets go exactly when it has, a timeout in any case |
| MaxNumberBox.Box.Post | rocksdb_replicator/max_number_box.cpp:27-61 | raises the number, releases exactly the waiters it satisfies and keeps the others in order |
| MaxNumberBox.Box.BeginWait | rocksdb_replicator/max_number_box.cpp:63-88 | returns at once exactly when the number is reached, else joins the list |
| MaxNumberBox.Box.TimedOut | rocksdb_replicator/max_number_box.cpp:90-102 | reports whether the number was reached meanwhile, else takes itself off the list |
| MaxNumberBox.PartitionOf | rocksdb_replicator/max_number_box.cpp:43-50 | every waiter is released or retained, by its number, never both |
| ObjectLock.MutualExclusion | common/object_lock.h:61-119 | over every run of any number of threads and objects at most one thread holds an object |
| ObjectLock.NodesAreCounted | common/object_lock.h:61-198 | over every run no assertion fails, no freed node is used, no mutex blocks inside a bucket, every node counts exactly its holder and waiters, pooled nodes are unlocked and unreferenced, and no node is left when all is returned |
| ObjectLock.NodesAreKept | common/object_lock.h:136-198 | over every run each node is in the pool or in a bucket, so none leaks, and the pool stays within its capacity |
| ObjectLock.ReleaseKeeps | common/object_lock.h:108-119 | the last one to give up an object gives its node back, to the pool or to the heap; otherwise table and pool stay |
| ObjectLock.LockWaits | common/object_lock.h:61-79 | the first part of Lock makes the thread wait for the object, and changes nothing else that clients see |
| ObjectLock.LockIsGranted | common/object_lock.h:61-79 | a waiting thread goes on exactly when nobody holds the object, and then holds it |
| ObjectLock.TryLockTakes | common/object_lock.h:83-105 | TryLock takes the object exactly when nobody holds it or waits for it |
| ObjectLock.UnlockReleases | common/object_lock.h:108-119 | Unlock gives up what the thread holds, and nothing else |
| ObjectLock.UnlockFindsNode | common/object_lock.h:108-112 | a thread that holds an object finds its referenced node: Unlock's assertion holds |
| ObjectLock.StepKeepsInv | common/object_lock.h:61-119 | every critical section and every acquisition keeps the invariant of buckets, nodes and pool |
| ObjectLock.Bucket.Find | common/object_lock.h:122-134 | finds the object's node, or reports that there is none |
| ObjectLock.Bucket.Enter | common/object_lock.h:62-79 | one more reference on the object's node, which is added when missing; nothing else changes |
| ObjectLock.Bucket.TryLock | common/object_lock.h:83-105 | succeeds exactly when the bucket is free and the object has no node, and then owns a fresh one; otherwise nothing changes |
| ObjectLock.Bucket.Unlock | common/object_lock.h:108-119 | one reference less, and the node leaves the list exactly when none is left |
| InitialLayout.BuildConfig | rocksdb_admin/tool/rocksdb_admin.py:318-388 | every host file with more than one zone and equal zone sizes yields a complete layout, for every shard count, zone order and shuffle, in which no host has two shards more than another of its zone; all others are refused |
| InitialLayout.OneLeadingZone | rocksdb_admin/tool/rocksdb_admin.py:345-352 | every shard is led by exactly one zone, for every number of shards and zones |
| InitialLayout.ZoneShare | rocksdb_admin/tool/rocksdb_admin.py:345-352 | a zone leads consecutive shards: one or none with no more shards than zones, otherwise its share rounded down, and the last zone what is left |
| InitialLayout.ZoneShards | rocksdb_admin/tool/rocksdb_admin.py:353-358 | a zone's list has every shard once, as master exactly in the zone's range |
| InitialLayout.ShuffleKeeps | rocksdb_admin/tool/rocksdb_admin.py:360 | a shuffled list has the same entries and still no shard twice |
| InitialLayout.DealZone | rocksdb_admin/tool/rocksdb_admin.py:361-365 | dealing gives the k-th entry to the host whose turn it is, every entry to one host only, no host two more than another, and touches no other host |
| HostReplacement.ReplaceHost | rocksdb_admin/tool/rocksdb_admin.py:413-567 | remove, promote, add in the same zone: from any complete layout to a complete layout, for all dictionary orders and sequence numbers, other zones untouched, every written config sound |
| HostReplacement.RemoveHost | rocksdb_admin/tool/rocksdb_admin.py:427-435 | drops exactly the host's replicas, and fails exactly for an unknown host |
| HostReplacement.Promote | rocksdb_admin/tool/rocksdb_admin.py:449-501 | every shard without master but with a slave gets the slave with the largest sequence number, nothing else changes; fails before any write exactly when some shard has two masters; no written config has two, and the last one written is the result |
| HostReplacement.CollectMasterless | rocksdb_admin/tool/rocksdb_admin.py:457-473 | the collected dictionary holds exactly the masterless shards with their slaves; the KeyError happens exactly when a shard has two masters |
| HostReplacement.PickNewMaster | rocksdb_admin/tool/rocksdb_admin.py:219-231 | picks the first slave with the largest sequence number |
| HostReplacement.AddHost | rocksdb_admin/tool/rocksdb_admin.py:504-567 | the host takes exactly the shards its zone lacks; fails exactly when the zone holds a shard twice or a missing shard has no master; a sound config stays sound at every write, and the last one written is the result |
| HostReplacement.RestoreShards | rocksdb_admin/tool/rocksdb_admin.py:547-561 | the host gains the listed shards as slave, one write each, until a shard has no master; sound configs stay sound |
| HostReplacement.MissingShards | rocksdb_admin/tool/rocksdb_admin.py:518-537 | the ascending shards the zone lacks; the ValueError happens exactly when the zone holds a shard twice |
| Layout.FindMaster | rocksdb_admin/tool/rocksdb_admin.py:263-272 | finds a master of the shard, and fails exactly when there is none |
| Layout.FindSlaves | rocksdb_admin/tool/rocksdb_admin.py:275-285 | the slaves of the shard in iteration order |
| Layout.SetRoleMembers | rocksdb_admin/tool/rocksdb_admin.py:489-490 | removing one entry and appending the other changes that replica's role and nothing else |
| Rebalance.RebalanceSegment | rocksdb_admin/tool/rocksdb_admin.py:570-639 | with n shards on h hosts: the bounds are n/h rounded down and up; a master moves exactly from a host that has its share without it to one that has no more than its share with it; a finished run visited every shard in order with good visits and ends with exactly one master per shard; every written config keeps all replicas and one master at most per shard; the failures and the endless wait are characterised |
| Rebalance.VisitShard | rocksdb_admin/tool/rocksdb_admin.py:587-634 | a shard is left alone only without slaves, with a master within the bound or with no underloaded slave; a move goes from an overloaded host to the least loaded slave, after the slave showed the demoted master's sequence number |
| Rebalance.BoundsByShare | rocksdb_admin/tool/rocksdb_admin.py:580-605 | a load is above the upper bound exactly when load - 1 is the fair share at least, and below the lower bound exactly when load + 1 is the fair share at most |
| Rebalance.LoadIs | rocksdb_admin/tool/rocksdb_admin.py:288-294 | the load of a host is the number of shards it leads |
| Rebalance.RunSettles | rocksdb_admin/tool/rocksdb_admin.py:577-634 | over a whole run overloaded hosts never fall below the upper bound, underloaded ones never rise above the lower bound, the others keep their load |
| Rebalance.RunEvens | rocksdb_admin/tool/rocksdb_admin.py:577-634 | the sum of squared loads drops by one at least with every move of the run |
| Rebalance.WrittenIsIntact | rocksdb_admin/tool/rocksdb_admin.py:607-625 | every config written in a run has the replicas of the start and one master at most per shard |
| Rebalance.RunKeepsMasters | rocksdb_admin/tool/rocksdb_admin.py:587-634 | visited shards have a master, the others have one exactly if they had one |
| Rebalance.LeastLoaded | rocksdb_admin/tool/rocksdb_admin.py:595-601 | the first of the least loaded slaves |
| Rebalance.CountMastersOf | rocksdb_admin/tool/rocksdb_admin.py:288-294 | counts the shards that a host leads |
| Rebalance.AwaitCatchUp | rocksdb_admin/tool/rocksdb_admin.py:613-619 | the wait ends only when the new master shows the old master's sequence number |
| Router.FilterAndRank | common/thrift_router.h:375-409 | split, rank, shrink, join and shrink again gives the best k of all matching hosts, as the shard lists them: masters before slaves when asked for, then by descending common prefix, then by ascending hash; for every role, flag and target |
| Router.RankAndShrinkTo | common/thrift_router.h:411-438 | partial sort with resize equals full sort and take, whatever order the partial sort leaves the rest in |
| Router.GetClientsFor | common/thrift_router.h:277-339 | every asked shard gets its answer and the call the last failure; an unknown shard ends the call and leaves the entries from there on |
| Router.GetClients | common/thrift_router.h:265-276 | an unknown segment changes nothing |
| Router.ClientsForShard | common/thrift_router.h:290-335 | the answer of one shard: codes, filtering and quantity |
| Router.FilterBadHosts | common/thrift_router.h:489-496 | keeps exactly the good hosts, in order |
| Router.PickClients | common/thrift_router.h:326-335 | takes the first one, two or all hosts |
| Router.NothingBetterLeftOut | common/thrift_router.h:375-438 | the considered hosts are ranked and no matching host that was left out precedes one of them |
| Router.FilledShard | common/thrift_router.h:300-335 | a filled shard has only good considered hosts, as many as wanted when there are that many, and with ALL every matching host |
| Router.ServedByPreference | common/thrift_router.h:277-438 | in prefixes, hashes and roles: the clients of a filled shard are good considered hosts, none is followed by one with a longer common prefix of its group, or an equal one and a smaller hash, nor by a master if it is a slave and masters come first, and no good considered host or unconsidered match that is left out would come before one; one, two or all of them, as wanted |
| Router.WhyNotFilled | common/thrift_router.h:290-325 | NOT_FOUND exactly when no host matches, BAD_HOST exactly when all considered hosts are bad or one is and all are wanted, else OK; a shard that is not filled gets no clients |
| Router.CandidatesAreListed | common/thrift_router.h:375-403 | a host is a candidate of a group as often as the shard lists it in the role that the call asks for |
| Router.ClientsAreBest | common/thrift_router.h:277-438 | the clients of a filled shard are ranked, good and considered; every good considered host left out comes after them, and so does every matching host not considered, in single-list and masters-first mode alike |
| Router.AnswersAreRanked | common/thrift_router.h:398-438 | with a single list the clients of every shard are in the order of the metric |
| Router.SameOrderInEveryShard | common/thrift_router.h:398-438 | with a single list two hosts keep the same relative order in every shard of a call |
| Router.LastFailureOk | common/thrift_router.h:280-338 | a call is OK exactly when every shard is, and else reports the failure after which all shards succeeded |
| Ranking.PartialSortPrefix | common/thrift_router.h:431-437 | the first part of any partial sort is the first part of the full sort |
| Ranking.RankedUnique | common/thrift_router.h:416-429 | under a strict total order two ranked lists of the same elements are equal |
| HotKey.AboveIsSound | common/hot_key_detector.h:128-144 | isAbove(k, p) implies 1200 * exact(k) > (13p - 100) * total, over every stream of records and decays |
| HotKey.KeysAboveAreFew | common/hot_key_detector.h:149-190 | n keys above p percent satisfy n * (13p - 100) < 1200 |
| HotKey.KeysAboveAreSound | common/hot_key_detector.h:149-161 | the reported keys are distinct and each takes the share |
| HotKey.QueriesAgree | common/hot_key_detector.h:128-161 | the two queries agree once fifty records are in, before that isAbove says no |
| HotKey.ExactForFewKeys | common/hot_key_detector.h:80-190 | with no more than twelve keys the detector is exact: after every stream a key is reported if and only if there are fifty records and 1200 * exact(k) > (13p - 100) * total |
| HotKey.MustSayYes | common/hot_key_detector.h:128-190 | with fifty records a key must be reported by both queries when 1200 * (3 * exact(k) - 2 * total - 3) > (13p - 100) * total, over every stream |
| HotKey.RecordsAreCounted | common/hot_key_detector.h:80-84 | the record counter is the number of records, halved with every decay |
| HotKey.DueInNanoseconds | common/hot_key_detector.h:164-170 | a decay is due when the whole number of seconds has passed to the nanosecond |
| HotKey.DominantKeyIsKept | common/hot_key_detector.h:37-49 | a key with more than two thirds of the equally decayed load and a constant is in a bucket, with a load that accounts for the excess |
| HotKey.HotKeyCanBeMissed | common/hot_key_detector.h:47-49 | a stream in which a key with at least sixty percent of the load is in no bucket |
| HotKey.TwoThirdsIsSharp | common/hot_key_detector.h:37-120 | for every n > 1 a stream in which a key with 2n - 1 of 3n + 21 is in no bucket |
| HotKey.CaughtFromTwoThirdsOn | common/hot_key_detector.h:37-49 | a share p/q of the load guarantees a bucket in every stream, up to some constant, if and only if p/q is two thirds at least |
| HotKey.RunKeepsInv | common/hot_key_detector.h:80-179 | over every stream only the first bucket of a key has load, no bucket exceeds its key's exact load, loads sum to the total at most, and what a key lost is bounded by the others' load |
| HotKey.HotKeyDetector.Record | common/hot_key_detector.h:80-120 | the object moves to the state of its stream of events, extended by a due decay and the record |
| HotKey.HotKeyDetector.AddToBucket | common/hot_key_detector.h:85-120 | updates the bucket arrays as the pure step does: matching, empty or round-robin bucket |
| HotKey.HotKeyDetector.DecayByTime | common/hot_key_detector.h:164-179 | halves all counters exactly when the decay time has passed |
| HotKey.HotKeyDetector.Above | common/hot_key_detector.h:128-144 | answers the pure query on the state of the stream |
| HotKey.HotKeyDetector.GetKeysAbove | common/hot_key_detector.h:149-161 | returns the pure query's keys in bucket order |
| Kafka.AfterSeek | common/kafka/kafka_consumer.cpp:255-413 | after a seek that stored a known offset and until the next seek, deliveries repeat only across a reset and grow by one otherwise, every offset from the seek point to the latest is delivered, and each reset redelivers one message at most |
| Kafka.DeliveriesAreSteady | common/kafka/kafka_consumer.cpp:359-413 | successive deliveries of a partition repeat exactly across a reset and grow by one otherwise |
| Kafka.AtLeastOnce | common/kafka/kafka_consumer.cpp:359-413 | every offset from the seek point to the latest delivered one has been delivered |
| Kafka.OneRepeatPerReset | common/kafka/kafka_consumer_holder.cpp:282-413 | deliveries exceed the covered offsets by the number of resets at most |
| Kafka.KafkaConsumer.SeekToOffsets | common/kafka/kafka_consumer.cpp:255-291 | seeks behind the given offsets one after the other, and succeeds exactly when every seek does |
| Kafka.KafkaConsumer.SeekToTime | common/kafka/kafka_consumer.cpp:293-357 | seeks the given partitions to the offsets found and stores them, up to the first that fails; it succeeds exactly when every lookup and seek does, and then every partition stands where its timestamp was found |
| Kafka.KafkaConsumer.SeekTopicToTime | common/kafka/kafka_consumer.cpp:206-232 | seeks the partitions of one topic, and fails for a topic that is not consumed |
| Kafka.KafkaConsumer.Consume | common/kafka/kafka_consumer.cpp:359-413 | resets while asked to before polling, repeats an empty or failed poll exactly when a reset was asked for, tracks exactly the delivered message; the requests to reset that were pending or came up are the resets that happened and the one pending afterwards |
| Kafka.KafkaConsumer.SeekToRelevantOffsets | common/kafka/kafka_consumer_holder.cpp:282-371 | places every partition at its known offset or where its timestamp is found, and fails exactly when one cannot be placed |
| Kafka.KafkaConsumer.ResetInstance | common/kafka/kafka_consumer_holder.cpp:373-413 | retries until an attempt assigns and places every partition; known offsets become the positions |
| CasLoop.RunsAreLinear | common/concurrent_rate_limiter.cpp:32-54 | between any two states of any interleaving the shared word changed by the sequential history of the swaps in between |
| CasLoop.Loop | common/concurrent_rate_limiter.cpp:32-54 | a thread commits its amount once or not at all, is refused only on a word that stood during the call, and spins without spurious failures only while others commit |
| RateLimiter.RateIsKept | common/concurrent_rate_limiter.cpp:27-55 | for any interleaving with stale clocks the tokens granted between two states are at most rate + (t2 - t1) * rate / n_seconds |
| RateLimiter.GetTokens | common/concurrent_rate_limiter.cpp:27-55 | zero tokens are allowed without any change; an allowed call took its tokens once, a denied one none, and a word stood during the call on which they did not suffice |
| RateLimiter.RefusedWhenShort | common/concurrent_rate_limiter.cpp:36-47 | tokens are refused exactly when what is there and what arrived since does not suffice, or more are asked for than the rate |
| RateLimiter.FullAgain | common/concurrent_rate_limiter.cpp:36-49 | a bucket that was not used for n_seconds grants exactly what does not exceed the rate, and has the rest left |
| RateLimiter.NothingAtOnce | common/concurrent_rate_limiter.cpp:36-49 | a clock that has not moved on brings no tokens |
| RateLimiter.GrantBound | common/concurrent_rate_limiter.cpp:36-49 | a grant keeps the tokens within range and time from going back |
| S3RateLimiter.BudgetIsKept | common/aws_s3_rate_limiter.cpp:28-54 | for any interleaving total cost plus budget never exceeds rate * (1 + elapsed) |
| S3RateLimiter.DelayRepays | common/aws_s3_rate_limiter.cpp:43-48 | the delay repays the debt to within one millisecond of rate |
| S3RateLimiter.DelayPaysTheDebt | common/aws_s3_rate_limiter.cpp:28-54 | whoever waits longer than the delay has paid: the next charge finds nothing of the debt left |
| S3RateLimiter.FullAgain | common/aws_s3_rate_limiter.cpp:28-42 | an account without debt is full again after a second |
| S3RateLimiter.NothingAtOnce | common/aws_s3_rate_limiter.cpp:28-42 | a clock that has not moved on pays nothing back |
| S3RateLimiter.ApplyCost | common/aws_s3_rate_limiter.cpp:28-54 | the cost is charged once and the delay is that of the account it left |
| SpeculativeFuture.FinalResult | common/future_util.h:70-126 | when the context is gone the promise has a value of a future that succeeded if one did, else the primary's exception after a failed backup |
| SpeculativeFuture.PromiseIsSetOnce | common/future_util.h:70-126 | over every ordering the promise is never set twice and is set when the context is gone |
| SpeculativeFuture.BackupFiresAtMostOnce | common/future_util.h:84-97 | the backup functor is called once at most, and only after a timeout or a failed primary |
| SpeculativeFuture.BackupIsFired | common/future_util.h:84-126 | once the timeout or a failed primary has been handled the backup has been fired, unless a value was there first |
| SpeculativeFuture.ValueIsPassedOn | common/future_util.h:90-118 | when a future has succeeded and the callbacks are done with it the promise has a value of one of the futures |
| SpeculativeFuture.NeverStuck | common/future_util.h:70-126 | as long as the context is there a callback can go on or the context can be destroyed |
| SpeculativeFuture.DestroyEnds | common/future_util.h:78-82 | the destructor ends it with the promise set |
| SpeculativeFuture.EarlyPrimaryAnswersAlone | common/future_util.h:36-46 | a primary that succeeds before the timeout is checked answers alone, without a backup |
| SpeculativeFuture.Context.OnPrimary | common/future_util.h:109-118 | the callback is a run of its atomic steps and fires the backup exactly on an exception with nothing fulfilled or fired |
| SpeculativeFuture.Context.OnTimeout | common/future_util.h:120-126 | fires the backup exactly when nothing is fulfilled or fired |
| SpeculativeFuture.Context.OnBackup | common/future_util.h:90-94 | fulfils the promise exactly with a value that comes first |
| SpeculativeFuture.Context.Destruct | common/future_util.h:78-82 | a promise that nobody fulfilled gets the primary's exception |

## Left out

- Thrift, folly, Helix, ZooKeeper, S3, HDFS, inotify and librdkafka themselves; only what the modelled code needs of them is assumed (a seek of an unassigned Kafka partition fails, a partition's log is contiguous, one admin request per db at a time, the partition lock keeps other role changes away).
- The rest of admin_handler.cpp (backup, restore, SST loading, message ingestion), the S3 and HDFS utilities, stats, file watchers, the status server and the example services: plumbing around external systems.
- WAL expiry and rebuilding a replica from a backup (onBecomeSlaveFromOffline); the model keeps all of the WAL.
- Batches without operations, and the timestamp record that the leader appends to each batch; sequence numbers count the operations of a batch.
- Instances of one host under several ports in onBecomeMasterFromSlave; survivors are the replicas that answer during the search.
- Who asks for a role change outside a promotion: in `Replication` it may come at any time, but not while a client write is in progress on the replica (removeDB waits for it), and to an upstream that is not behind. `Replication.NewUpstreamMustNotBeBehind` shows that this is exactly when log-prefix safety survives.
- Replication.StepKeepsInv: a request may be answered any number of times, which is more than happens; `CondVar.ExactlyOneReply` is the bound.
- Durability.AcknowledgedMeansHandedOver: a replica that is told to pull from itself counts as the one that a response is handed to.
- ReplicatedDb.ReplicatedDb.Write: the outcomes of the rocksdb write and of the wait for the acknowledgement are parameters; when the acknowledgement comes is the subject of `Durability` and `Progress`.
- Failover.FailOver: replies of dead replicas that are still on their way to a survivor when the promotion starts are taken to be lost or received; that the survivors' chains of upstreams end at the lost master is how Helix sets them up.
- Failover.CatchUp: says nothing about how fast a replica catches up; after 600 looks it gives up, as the code does.
- Handover.WaitOnApplicationDbRef: `patience` bounds the looks of a loop that looks forever; that every holder lets go in the end is not claimed.
- Handover.RemoveFromReplicator: `patience` bounds the looks in the same way.
- Handover.RemoveDb: reports that it is not through when a wait exceeds `patience`.
- Handover.ChangeDbRoleAndUpstream: reports that it is not done when a wait exceeds `patience`.
- Rebalance.AwaitCatchUp: `patience` bounds the polls of a loop that polls forever.
- Rebalance.RebalanceSegment: one segment at a time, and the RPCs that re-point the slaves are not modelled.
- HostReplacement.ReplaceHost: one segment at a time; RPCs, backup and restore and their failures are not modelled.
- HostReplacement.RemoveHost: one segment at a time; the test that the host is down is not modelled.
- HostReplacement.Promote: one segment at a time; the RPCs that promote and re-point, and their failures, are not modelled.
- HostReplacement.RestoreShards: backup and restore calls and their failures are not modelled.
- HostReplacement.AddHost: one segment at a time; backup and restore are not modelled.
- Config files that list one shard twice on one host or a shard out of range; the tool never writes them.
- Router.GetClientsFor: which clients are good is a parameter, per shard; creating and fixing clients, and the parser's host pointers, are not modelled, hosts are known by address.
- Router.FilterAndRank: assumes that the mixing hash is injective on hosts, as the 64-bit mixer is on pointers.
- HotKey.AboveIsSound: counters are unbounded; 64-bit overflow is not modelled.
- Kafka.AfterSeek: resets during a seek, positions known by timestamp only (offset -1) and gaps left by compaction are outside the guarantee.
- Kafka.KafkaConsumer.Consume: `patience` bounds the turns; sleeping between reset attempts is not modelled.
- Kafka.KafkaConsumer.ResetInstance: `patience` bounds the attempts of a loop that retries until it succeeds.
- RateLimiter.RateIsKept: tokens are reals; float rounding and the 32-bit clock are not modelled.
- RateLimiter.GetTokens: `patience` bounds the turns of the compare-and-swap loop.
- S3RateLimiter.ApplyCost: `patience` bounds the turns in the same way.
- S3RateLimiter.BudgetIsKept: fixed rate and costs that are not negative; SetRate is not modelled.
- CasLoop.Loop: `patience` bounds the turns of a loop that may spin for ever.
- The thread pool, timers and executor of the condition variable: a queued task is executed by a step that may come at any time; that the pool gets to it is not claimed.
