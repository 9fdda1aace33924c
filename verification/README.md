# Verified models of the bronx gateway's cores

This project models the hard cores of the gateway in Dafny and proves what they promise. Each
module follows one part of the program:

| modules | part of the program |
|---|---|
| `Rules`, `HubSpec`, `GuardSpec`, `SessionSpec` | the IP-ban control plane as values: rules, the hub's store and bounded change log, the gateway's copy, one function per critical section of a session |
| `Replication`, `ReplicationInv`, `ReplicationProof`, `ReplicationTheorems`, `ReplicationResults`, `ReplicationLimits` | rule replication as a labelled transition system: its steps, its invariant, the proof that every step keeps it, what follows for every run, and where the protocol falls short |
| `Engine`, `Guard`, `SessionObject`, `SyncClient` | the hub's engine, change log and expiry heap, the gateway's guard, the hub's session and the client as objects whose methods are proved against those values |
| `Db`, `Durability` | the persistent tables with their version guards, and write-behind persistence with flushing callers, pool threads, orphaned batches and crashes |
| `IpNet`, `Snap` | networks as bit prefixes, and the compiled decision index against a linear scan |
| `MpscRing`, `Pool`, `PartialList`, `Arc`, `Balancer`, `Breaker`, `Acquire` | the lock-free ring, the block allocator and its intrusive list, the replacement cache, load balancing, the circuit breaker, and acquiring a connection |
| `Buf`, `Body`, `ChunkedWire`, `Framing`, `Proto`, `Router`, `RouterCache` | the movable read buffer, streaming bodies, chunked messages on the wire, the framing decision, control-plane frames, routing, and cached routing over table swaps |
| `Arith` | division by a symbolic number, used by several proofs |

Time, socket cuts, database faults, scheduling and the choices of a balancer are parameters or steps,
so every result holds for all of them.

## Reading the protocol models

A step of `Replication` is one critical section of the source, one frame put on or taken from a
link, one edit, one notification, one redial, one restart of the hub or one local expiry. Steps of
all sessions interleave freely. What the model takes as given:

- Hub lives have distinct, non-zero epochs, and each connection is an uncorrupted FIFO.
- JSON is lossless: a parsed frame is the frame that was sent.
- The notify that follows a critical section, and the `failMsg` that follows a failed check, happen
  in that section's step.
- A notification lists the sessions when the engine fires. `unfired` counts changes not yet fired
  and `wakes` the `wake` calls still to come.
- A session that is registered before HELLO can be woken and push before READY, as the source allows;
  the client then refuses the connection. `ReplicationLimits` shows what the session loses.
- Deadlines are choices of the environment (`TimedOut`), and CLOSED and NEW sessions are outside.

In `Durability` the state splits into the hub's side (`Book`) and the disk's side (`Disk`). The
invariant says that the operations that reached the tables are always a prefix of everything queued,
because a batch starts at or before that prefix's end and the version guards make a repeated
operation harmless.

`MpscRing` interleaves single atomic accesses under sequential consistency. `Pool` covers one size
class; classes share nothing but the guard that drains a thread's bins at exit, which the step
`FillElsewhere` stands for.

## What turned out false, and when it holds

- The breaker's window counts the true history exactly when the bucket count divides the window or
  exceeds it (`Breaker.WindowExactIff`); otherwise it forgets outcomes that are still inside.
- A ring of capacity one, which the constructor accepts, loses values
  (`MpscRing.CapacityOneLosesValues`); from two up it does not (`MpscRing.RingRefinesQueue`).
- A lookup answers the linear scan, for every rule list, exactly when the clock did not go back since
  compiling (`Snap.OrderIsNeeded`); otherwise it answers for the rules that were live then.
- The route comparator follows its documented order exactly when compared priorities differ by no more
  than an int (`Router.CompareIsTieBreak`).
- The cache of routes is right for a set of queries exactly when no two of them differ by a bar between
  host and path alone (`RouterCache.CacheIsRightIff`). With the default key, the parsed path, none do
  (`RouterCache.BarsOnOneSideAreApart`): it takes a custom key extractor, which nothing in the gateway
  installs yet, and hosts and keys that both hold a bar.
- A chunked body ends with count zero although it is not complete exactly when its line of size zero was
  read and its trailer then breaks off, or is given up at an over-long line, within 32 lines; the error
  flag tells (`Body.EndsAtZeroIff`). Count zero without an error is a complete body.
- A line is read the same way whatever the buffering and fragmentation exactly when its end does not lie
  more than a byte past 8192 (`Body.LineIsFixedIff`); a longer one is read or refused as malformed.
- A Transfer-Encoding is taken for `chunked`, though it is not, exactly when it is a single element that
  holds a NUL and is `chunked` up to it (`Framing.OnlyANulDiffers`). Only responses can carry one: the
  request grammar admits no NUL in a field (`Framing.RequestsAreStrict`).
- A session behind the hub has nothing due exactly when marking HELLO took its push back: a push past the
  target had completed, nothing newer was due, the client claims exactly the target, and no wake-up has
  come since (`ReplicationResults.NoLostUpdate`). Every system with a gateway has a run that gets there
  (`ReplicationLimits.SomeRunForgets`); the client of such a session has left, or will refuse the
  connection.
- A draining or closing session goes back to SYNC when its send fiber records a prepared push, and by
  no other step (`ReplicationLimits.OnlyPushSyncUndoesAStop`, `ReplicationLimits.SomeRunForgetsAStop`).
- Tombstones, unlike rules and the last version, depend on the order of arrival exactly when some id has
  a deletion although its newest operation is a save (`Db.TombstonesConvergeIff`).
- A thread that exits takes blocks with it exactly when its bin holds some and it never entered
  `fill_alloc`, where the guard that drains the bins is made (`Pool.LostIff`).

## Model

| member | source | states |
|---|---|---|
| `ReplicationResults.ReplicationAgreement` | src/ipban/guard.cpp:49-100 | in every reachable state of every run, a guard that claims (epoch, version) holds exactly the rule set the hub had at that version of that life, minus only rules expired locally; the hub did have that version |
| `ReplicationResults.NothingIsRefused` | src/ipban/pull.cpp:224-328 | on an accepted connection the client applies every SNAP and DELTA, answers every PING and goes on until ERR or BYE, and no message it sends, PONG included, ends a session whose send fiber runs |
| `ReplicationResults.NoLostUpdate` | src/ipban/session.cpp:190-238 | on every connection, after READY and before any stop, with no notification pending and no send under way: a session behind the hub has neither its push nor its dirty flag set exactly when marking HELLO took its push back and no wake-up came since; otherwise one is set, and a sleeping send fiber has its wake-up posted |
| `ReplicationResults.SettledIsCurrent` | src/ipban/session.cpp:257-296 | when nothing is on its way any more, an accepted gateway holds the hub's current rules, minus those it expired itself |
| `ReplicationResults.VersionsAreOrdered` | src/ipban/session.cpp:298-330 | acknowledged ≤ applied ≤ hub version within one life, and at most one sync frame is on the wire |
| `ReplicationResults.HistIsThePast` | src/ipban/engine.cpp:190-196 | the recorded history is exactly what the hub was in the states passed: one rule set per (epoch, version), for all visits |
| `ReplicationTheorems.StepKept` | src/ipban/session.cpp:75-457 | every edit, notification, section, frame, redial, restart and local expiry keeps the protocol invariant |
| `ReplicationTheorems.RunKept` | src/ipban/session.cpp:75-457 | the protocol invariant holds in every state of every run |
| `ReplicationTheorems.SyncApplies` | src/ipban/guard.cpp:49-83 | a sync frame the session could send is accepted by the guard and lands it on a version of the hub's life |
| `ReplicationLimits.PushBeforeReadyLosesTheUpdate` | src/ipban/session.cpp:422-437 | from every reachable state with a current gateway that can redial, and for every change, a run goes on to a session that believes the client current and has nothing due |
| `ReplicationLimits.ForgotIff` | src/ipban/session.cpp:422-437 | a push counts as taken back exactly when some step so far marked HELLO at that guard and no wake-up has come since |
| `ReplicationLimits.SomeRunForgets` | src/ipban/session.cpp:422-437 | such a state is reached in some run of every system with a gateway, from its start, whatever the change |
| `ReplicationLimits.OnlyPushSyncUndoesAStop` | src/ipban/session.cpp:221-229 | a session leaves DRAIN or CLOSING for a working state by the section that records a push, and by no other step |
| `ReplicationLimits.StopDuringPushIsForgotten` | src/ipban/session.cpp:221-229 | a drain and a wake that arrive while a push is prepared leave the session in SYNC, behind the hub, with nothing due |
| `ReplicationLimits.SomeRunForgetsAStop` | src/ipban/session.cpp:221-229 | some run of every system with a gateway ends with a session told to drain that works on, asleep and behind the hub with nothing due |
| `HubSpec.DeltaReplays` | src/ipban/include/changelog.h:27-39 | the operations collected from the bounded log take the rule set of the client's version exactly to the current one |
| `HubSpec.EditFits` | src/ipban/engine.cpp:190-196 | every edit keeps log and history in step: consecutive versions, each entry turning one version's rules into the next's |
| `HubSpec.List` | src/ipban/include/store.h:37-42 | the listing holds each stored rule once and nothing else |
| `GuardSpec.FromListRebuilds` | src/ipban/guard.cpp:56-59 | inserting a full list in any order rebuilds the listed store |
| `GuardSpec.OpsKeepAgreement` | src/ipban/guard.cpp:76-79 | replaying the same changes on a copy from which expired rules were dropped keeps it in agreement |
| `Engine.ChangeLog.Append` | src/ipban/include/changelog.h:20-23 | the log afterwards is the old one and the entry, or, once it holds `cap`, all but its oldest and the entry |
| `Engine.ChangeLog.CollectRange` | src/ipban/include/changelog.h:35-39 | yields the operations of the asked versions, in order, as the specification collects them |
| `Engine.Expiry.PopDue` | src/ipban/include/expiry.h:30-37 | takes out exactly the nodes due, earliest first, and none that is not |
| `Engine.ReportNeverShortens` | src/ipban/judge.cpp:11-34 | a report from a source that the wire admits replaces a rule only by one with a later deadline |
| `Engine.PolicyEngine.Queue` | src/ipban/engine.cpp:59-92 | a change is queued as a save exactly when its rule is permanent, comes from ADMIN or EMERG, or lives at least the minimum; else as a deletion if the id was kept; else not at all |
| `Engine.PolicyEngine.Record` | src/ipban/engine.cpp:190-196 | one edit is one version, one log entry and at most one queued operation |
| `Engine.PolicyEngine.SeenBefore` | src/ipban/engine.cpp:198-215 | a report id taken within a minute is refused; ids still within the minute are forgotten only when there are too many, and never more than the cap are kept |
| `Engine.PolicyEngine.OnRisk` | src/ipban/engine.cpp:217-246 | accepted exactly when its id was not taken within a minute and its rule has a higher priority than the stored one, or the same and a later end; then the store holds under source name and address a DENY rule on that address, from that source, under the next version, permanent or ending when asked or at the largest time; refused, nothing changes; no report from the wire gives any stored rule an earlier deadline |
| `Engine.PolicyEngine.SetAdmin` | src/ipban/engine.cpp:248-296 | refused exactly when the lifetime passes 63 bits, a no-op when action, end and reason are those stored, otherwise the store holds exactly what was ordered, under the next version; durable exactly when the flush succeeds, else reported as not persisted |
| `Engine.PolicyEngine.Remove` | src/ipban/engine.cpp:298-324 | an unknown id changes nothing; a known one is one deletion under one version; durable exactly when the flush succeeds, else reported as not persisted |
| `Engine.PolicyEngine.TickExpiry` | src/ipban/engine.cpp:331-356 | afterwards exactly the rules whose deadline passed are gone, each once and under its own version; renewed rules stay |
| `Engine.PolicyEngine.NextPush` | src/ipban/engine.cpp:358-385 | nothing when up to date, a full list when the log cannot cover, otherwise exactly the missing suffix; the answer the replication results are proved over |
| `Engine.PolicyEngine.Restore` | src/ipban/engine.cpp:387-418 | the loaded rows are put into the store, all expirable ones are in the heap again, and versions do not go back |
| `Engine.TickEnds` | src/ipban/engine.cpp:340-353 | when no due node is left, no stored rule is expired and every rule that can expire still has a node of its own version |
| `SessionObject.HubSession.DoWake` | src/ipban/session.cpp:75-83 | before DRAIN a notification leaves a push due, and the session dirty when a sync is outstanding, and posts the wake-up; from DRAIN on it does nothing. It is the step the replication results are proved over |
| `SessionObject.HubSession.DoBeginStop` | src/ipban/session.cpp:85-101 | a drain asked for in SYNC or OPEN drains, any other stop closes, and the send fiber is woken |
| `SessionObject.HubSession.DoReadyDone` | src/ipban/session.cpp:177-186 | behind READY the session is OPEN when the client already has the target version, otherwise in SYNC with a push due |
| `SessionObject.HubSession.DoPushTake` | src/ipban/session.cpp:193-209 | with a sync outstanding a due push turns into dirty; otherwise a due or forced push asks the engine from the last version sent, or from nothing when forced |
| `SessionObject.HubSession.DoPushSync` | src/ipban/session.cpp:221-229 | the push is recorded as the one outstanding sync under a new number, and changes notified meanwhile make the session dirty |
| `SessionObject.HubSession.DoPingTake` | src/ipban/session.cpp:242-248 | a ping goes out only when due, with no ping and no sync outstanding, before DRAIN |
| `SessionObject.HubSession.DoByeTake` | src/ipban/session.cpp:280-287 | a drain ends in BYE once no sync is outstanding |
| `SessionObject.HubSession.DoHelloMark` | src/ipban/session.cpp:422-437 | the client is believed to have its version only if it names this life and a version not past the target |
| `SessionObject.HubSession.DoOnMsg` | src/ipban/session.cpp:298-363 | an ACK counts only for the outstanding sync, client, life and version, a resync request only in SYNC, a PONG only for the outstanding ping; anything else ends the session |
| `SessionObject.HubSession.DoOnTimeout` | src/ipban/session.cpp:365-395 | ends the session exactly when an outstanding ACK or PONG is late; otherwise a drain is looked at again, and a session with neither sync nor ping outstanding gets a ping due; nothing else changes |
| `SyncClient.Client.Read` | src/ipban/pull.cpp:205-328 | reading one frame, with the real guard behind it, is the client step of the protocol |
| `SyncClient.Client.ReadSync` | src/ipban/pull.cpp:224-328 | a sync of the stream is taken exactly when it is a newer list, or well-formed changes from just the version held, and then acknowledged with that version; otherwise the guard is as it was, and a full list is asked for, the second time in a row the client leaves |
| `Guard.Guard.ApplyRemote` | src/ipban/guard.cpp:49-64 | taken exactly when of another life or newer; then epoch, version and remote rules are those sent, and the snapshot is that of the rules held; otherwise nothing changes |
| `Guard.Guard.ApplyDelta` | src/ipban/guard.cpp:66-83 | applies exactly when epoch and version fit and every operation is well formed, and then all of it; otherwise nothing changes |
| `Guard.Guard.TickExpiry` | src/ipban/guard.cpp:85-100 | whether or not the stored next expiry let it skip, afterwards no static or remote rule is past its lifetime and nothing else is gone |
| `Guard.Guard.NextExpiry` | src/ipban/guard.cpp:114-123 | the least expiry that some rule has, or none |
| `Guard.Guard.Eval` | src/ipban/guard.cpp:14-20 | decides as a scan over all static and remote rules would, unless the clock went back since they were compiled |
| `Db.CommitReflects` | src/ipban/db.cpp:132-205 | whatever operation arrives, new, old or repeated, the tables go on reflecting the set of operations that arrived |
| `Db.PersistenceConverges` | src/ipban/db.cpp:132-205 | any order and repetition of the same operations gives one rules table, where a rule is present exactly when saving it is the highest-versioned operation on its id, and one last version, the maximum |
| `Db.TombstonesConvergeIff` | src/ipban/db.cpp:144-191 | every order and repetition of the same operations gives one tombstone table exactly when no id has a deletion although its newest operation is a save |
| `Db.SqliteDb.SaveRule` | src/ipban/db.cpp:132-173 | succeeds exactly for a storable rule without a fault, and then commits the last-writer-wins update; otherwise nothing changes |
| `Db.SqliteDb.DelRule` | src/ipban/db.cpp:175-205 | the same, for a deletion and its tombstone |
| `Db.SqliteDb.Load` | src/ipban/db.cpp:207-273 | drops what expired, and either reads every row once with the highest version or reports failure with nothing |
| `Durability.CrashDurability` | src/ipban/engine.cpp:99-187 | at every point of every run, orphaned batches running or not, the rules table holds an id exactly when the store at one version of this life, no older than what any successful flush covered, has there a rule that is permanent, from ADMIN or EMERG, or lives at least the minimum, and then that rule; a restart serves those less what expired, under a version above everything stored |
| `Durability.FlushGoesThrough` | src/ipban/engine.cpp:99-187 | from every state in which nobody flushes and every queued operation can be stored, a flush without faults goes on to a state in which every change recorded so far is durable |
| `Durability.FlushesEnd` | src/ipban/engine.cpp:99-187 | in every run a flush ends only because another is at work, because a batch was not written to its end, or with nothing left to write, and the flushing flag is up only while a caller is at work under it |
| `Durability.DurableForGood` | src/ipban/engine.cpp:99-187 | within a life, recorded stores stay recorded and what was durable stays durable |
| `Durability.WorkKept` | src/ipban/engine.cpp:149-157 | a pool thread's next operation, of a current or an orphaned batch, keeps the tables equal to a prefix of the queue |
| `Durability.FlushKept` | src/ipban/engine.cpp:99-187 | every step of every flushing caller keeps queue, batches and the flushing flag in order; at most one caller holds the flag |
| `Durability.PersistMirrors` | src/ipban/engine.cpp:59-92 | the queued operation changes the disk's projection exactly as the edit changes the store's |
| `Durability.TablesAreAStore` | src/ipban/include/engine.h:117-123 | the tables hold the projection of some store of this life from the durable version on |
| `Durability.BootFits` | src/ipban/engine.cpp:387-418 | restored tables are a consistent start of a new life |
| `IpNet.TestInNet` | src/ipban/ip.cpp:99-116 | true exactly when family and network bits agree |
| `IpNet.InNetIsBitPrefix` | src/ipban/ip.cpp:99-116 | byte-wise membership is agreement on each of the first `prefix` bits |
| `IpNet.MaskBytes` | src/ipban/ip.cpp:44-52 | host bits are cleared, network bits and other bytes are kept |
| `IpNet.MaskingKeepsMembers` | src/ipban/ip.cpp:43-97 | normalising a network does not change which addresses it holds |
| `IpNet.FullNetIsAddress` | src/ipban/snap.cpp:28-32 | for full prefixes, membership is equality, so a hash lookup finds what a scan would |
| `Snap.CompileSnap` | src/ipban/snap.cpp:20-49 | the index holds exactly the live rules, each where a lookup will see it, strongest first |
| `Snap.Eval` | src/ipban/snap.cpp:51-87 | the answer is that of a scan of the rules live when compiled, and of the whole list when the clock did not go back: the live matching rule of the highest priority, among those the one that ends last, among those a DENY; or the default |
| `Snap.ScanNets` | src/ipban/snap.cpp:64-72 | stopping at the first weaker priority loses nothing |
| `Snap.ActionIsDetermined` | src/ipban/snap.cpp:7-14 | all strongest rules share one action, so the unstable sort cannot change the outcome |
| `Snap.OrderIsNeeded` | src/ipban/snap.cpp:16-27 | the answers for the indexed rules are answers for the whole list, for every rule list, exactly when the lookup is not earlier than the compilation |
| `MpscRing.MaskIsRemainder` | src/bronx/env/include/mpsc_ring.h:39 | masking by a power of two less one is the remainder |
| `MpscRing.RingRefinesQueue` | src/bronx/env/include/mpsc_ring.h:36-68 | for any number of producers and capacity from two up, what was popped is a prefix of what was claimed, in order, and everything else claimed is still held |
| `MpscRing.GivingUpIsJustified` | src/bronx/env/include/mpsc_ring.h:49-67 | a push gives up only if every slot was claimed and not given back, a pop only if nothing was claimed or the oldest value not published |
| `MpscRing.CapacityOneLosesValues` | src/bronx/env/include/mpsc_ring.h:15-30 | with capacity one a second push overwrites the first value and the consumer finds nothing |
| `MpscRing.StepKept` | src/bronx/env/include/mpsc_ring.h:36-68 | every atomic access keeps the slots' invariant |
| `Pool.PoolSafety` | tools/pool.cpp:80-208 | in every reachable state each block of each mapped span is in exactly one place (its span, a bin, in use, or lost), each span counts what it is missing, and the slab links exactly the published spans with a free block |
| `Pool.OnlyUnguardedExitLoses` | tools/pool.cpp:80-208 | a step loses blocks exactly when a thread exits with some in its bin and never entered `fill_alloc`; then it loses all of those, for good |
| `Pool.LostIff` | tools/pool.cpp:80-81 | blocks are lost in a run exactly when it holds such an exit |
| `Pool.FreeingThreadLosesTheBlock` | tools/pool.cpp:80-81 | whenever a caller has a block, a new thread that frees it and exits loses it |
| `Pool.UnmapAndHandOutAreSafe` | tools/pool.cpp:143-176 | an unmapped span leaves no block in a bin or in use, and a block handed out was nobody's |
| `Pool.TakeUpToFits` | tools/pool.cpp:104-131 | a refill of any size keeps every block in one place |
| `Pool.GiveUpToFits` | tools/pool.cpp:151-175 | giving back any number of blocks does too, whichever spans become partial or whole |
| `Pool.BinsStayBounded` | tools/pool.cpp:84-176 | between calls no bin holds more than its maximum, which stays within 16 and 256; a refill brings a block while any span is linked, half the maximum unless the spans run out; a bin above its maximum gives half of it back |
| `Pool.WholeSpan` | tools/pool.cpp:164-171 | a span whose used count is zero has all its blocks on its own list |
| `PartialList.Slab.LinkPartial` | tools/pool.cpp:24-29 | the span comes to the front of the doubly linked list, and every other link stays right |
| `PartialList.Slab.UnlinkPartial` | tools/pool.cpp:32-37 | exactly that span leaves the list, wherever it stood, and its own links are cleared |
| `Arc.PutKept` | tools/arc.h:86-170 | every put keeps the four lists apart and within their bounds, keeps answers true, and makes its key the next hit |
| `Arc.GetKept` | tools/arc.h:54-83 | a get keeps all that; a hit is the last value put, a miss changes nothing |
| `Arc.ReplaceApart` | tools/arc.h:211-236 | replacing moves one key from a cache list to its ghost list and loses none |
| `Arc.ReplaceTakesOne` | tools/arc.h:211-236 | the value that leaves is the oldest of T1 when T1 is above its target, or at it for a key known to T2, or T2 is empty; otherwise the oldest of T2; it becomes the newest ghost of its list |
| `Arc.HitComesFirst` | tools/arc.h:54-83 | a hit comes to the front of T2, the others keep their order, and ghosts and target stay |
| `Arc.CachedPut` | tools/arc.h:94-111 | the same, with the new value, for a put of a cached key |
| `Arc.GhostOfT1Put` | tools/arc.h:113-124 | a put of a key lately dropped from T1 raises the target by the ratio of the ghost lists, at least one, up to the capacity; one value leaves by the rule; the key comes in at the front of T2 |
| `Arc.GhostOfT2Put` | tools/arc.h:126-138 | the same for T2, lowering the target down to zero |
| `Arc.NewPut` | tools/arc.h:139-170 | a new key comes in at the front of T1; nothing leaves while there is room; a full T1 drops its oldest for good; otherwise one value leaves by the rule, and a ghost where they would be too many |
| `Arc.CapsAddUp` | tools/arc.h:42-51 | shard capacities add up to the configured one and none is empty |
| `Arc.ArcShard.PutKey` | tools/arc.h:86-170 | the lists and their index maps end as the specification of the policy says |
| `Arc.ArcShard.GetKey` | tools/arc.h:54-83 | the same, for a lookup |
| `Arc.Arc.Get` | tools/arc.h:54-83 | over all shards: the answer is the lookup in the key's shard, a hit is the last value put under that key since the last clear, every other shard is as before, and every get counts once |
| `Arc.Arc.Put` | tools/arc.h:86-170 | over all shards: only the key's shard changes, as the policy says, and its next lookup finds the value |
| `Arc.Arc.Invalidate` | tools/arc.h:172-182 | no key is left anywhere |
| `Balancer.ExactlyFair` | src/gateway/ups_group.cpp:18-55 | after t picks no candidate is ahead of t·w/W by a whole pick; after W picks each was picked exactly its weight and the state is zero again |
| `Balancer.Balanced` | src/gateway/ups_group.cpp:42-54 | after any number of picks the current weights sum to zero and each exceeds -W |
| `Balancer.WeightedRr.Select` | src/gateway/ups_group.cpp:18-55 | one pick is one turn of the weights from the right start; with no weight the candidates go round |
| `Balancer.WeightLeast.Select` | src/gateway/include/lb.h:87-115 | the pick has the least load per weight, and those that tie take turns |
| `Balancer.LighterOrEqual` | src/gateway/include/lb.h:93-99 | comparing loads by cross multiplication is a consistent order |
| `Balancer.LighterIsLessPerWeight` | src/gateway/include/lb.h:93-99 | cross multiplication compares connections per weight as real numbers, a missing weight counting as one |
| `Breaker.BreakerConservation` | src/gateway/ronduan.cpp:30-143 | half-open pending is the number of outstanding permits of the current turn, within the maximum; only the four moves happen and they follow one another; after k failures in a row the wait is min(base·2^k, max) |
| `Breaker.StaleReportsAreIgnored` | src/gateway/ronduan.cpp:67-70 | a permit of an old turn is older than the current one, and its report changes nothing |
| `Breaker.BackoffDoubles` | src/gateway/ronduan.cpp:108-112 | doubling the capped wait is the capped doubled wait |
| `Breaker.WindowIsTrueInRuns` | src/gateway/ronduan.cpp:145-175 | in every run with a monotone clock, under the condition on the buckets, the window counts the true outcomes since the breaker last closed |
| `Breaker.WindowExactIff` | src/gateway/ronduan.cpp:145-165 | the window is exact for every history if and only if the buckets divide or outnumber it |
| `Breaker.OpensExactly` | src/gateway/ronduan.cpp:67-93 | in every run with a monotone clock, under the condition on the buckets, a result under the current turn opens a closed breaker exactly when the last `failureThreshold` results since it closed are failures, or of at least `minRequests` of them inside the window the share of failures, or of slow ones, reaches its rate |
| `Breaker.ClosesExactly` | src/gateway/ronduan.cpp:71-84 | in half-open a failure opens again, and a success closes exactly when it is the `halfOpenOk`-th under that turn |
| `Breaker.ConfigInForce` | src/gateway/ronduan.cpp:7-24 | zeros are raised to one, rates cut to a hundred, the longest wait is no shorter than the first, and the successes needed are no more than the probes allowed; other settings stay |
| `Breaker.CircuitBreaker.Allow` | src/gateway/ronduan.cpp:30-51 | closed gives a permit of the current turn; open refuses until its wait is over, or the clock went back, and then turns half-open; half-open gives permits up to its maximum |
| `Breaker.CircuitBreaker.Report` | src/gateway/ronduan.cpp:67-93 | a result of an old turn, or of an open breaker, changes nothing; in half-open a failure opens with the doubled wait up to the maximum and the last needed success closes; in closed a skip changes nothing |
| `Breaker.CircuitBreaker.Snapshot` | src/gateway/ronduan.cpp:155-165 | sums exactly the buckets inside the window |
| `Acquire.AcquisitionConservation` | src/gateway/ups_group.cpp:82-227 | under any interleaving, the active count is the number of fibers holding and respects the limit, and the breaker's pending permits are those of fibers that still owe a result |
| `Acquire.DropKept` | src/gateway/ups_group.cpp:92-96 | the drop loop never meets a zero counter, so every hold is given back exactly once |
| `Acquire.HoldsExactly` | src/gateway/ups_group.cpp:82-90 | a hold is refused exactly when the count it read, one the endpoint had at some point, has reached the limit; below it the hold is taken unless the count changed or the exchange failed spuriously, and then it is tried again |
| `Acquire.TryAcquire` | src/gateway/ups_group.cpp:106-210 | each endpoint is tried at most once; success is the last one tried; failure means the deadline passed or every healthy endpoint with a willing breaker was tried, and the reason is that of the last one |
| `Acquire.CanTryIsAllowed` | src/gateway/ronduan.cpp:53-65 | an endpoint passes the filter exactly when its breaker, asked then and there, would give a permit |
| `Buf.InBuf.EnsureWritable` | src/gateway/buf.cpp:36-65 | moving or growing keeps the readable bytes, makes the asked room, and fails only near the limit of sizes |
| `Buf.InBuf.Fill` | src/gateway/buf.cpp:74-80 | what leaves the socket arrives behind the readable bytes |
| `Buf.InBuf.Consume` | src/gateway/buf.cpp:82-85 | drops exactly the first bytes |
| `Buf.InBuf.Trim` | src/gateway/buf.cpp:87-129 | keeps the readable bytes, and shrinks exactly when memory can be had and the least power of two with the asked room saves three quarters or 64 KiB, to that size |
| `Buf.InBuf.FindHeaderEnd` | src/gateway/buf.cpp:131-140 | the place behind the first empty line, or zero exactly when there is none |
| `Buf.CeilPow2` | src/gateway/buf.cpp:13-22 | the least power of two that is large enough |
| `ChunkedWire.DecodeInvertsEncode` | src/gateway/body.cpp:14-34 | decoding encoded chunks gives their concatenation and leaves exactly the trailing bytes |
| `ChunkedWire.ReadBack` | src/gateway/body.cpp:171-259 | a reader over the buffer gives back the data of every well-formed message, whoever wrote it and with trailers, however the stream is split and cut, without error |
| `Body.Drain` | src/gateway/upstream.cpp:633-645 | for every stream, well formed or not, the pieces, the last count, the error and the bytes left are what the stream decodes to with some number of over-long lines read, with none where the bytes alone decide; count zero without an error is a complete body; the limit is never passed |
| `Body.BodyReader.ReadLine` | src/gateway/body.cpp:74-102 | yields the next line or the right error; which of the two an over-long line gives is a function of what was buffered and how the rest arrives |
| `Body.BodyReader.ReadChunk` | src/gateway/body.cpp:121-130 | each piece of a chunked body continues the decoding, or the answer is that of decoding, which `ChunkedWire.WireDecodes` and `ChunkedWire.FlawsAreTold` spell out; for the other framings the pieces are read off in order with the errors of each; bytes counted are bytes announced |
| `Body.BodyReader.ReadClen` | src/gateway/body.cpp:135-168 | pieces are read off the stream in order until the length is used up; the errors are the two possible ones |
| `Body.BodyReader.ReadUntilClose` | src/gateway/body.cpp:262-285 | pieces are read off the stream until it closes, and a broken stream is told from a closed one |
| `Body.BodyReader.AccountBytes` | src/gateway/body.cpp:111-119 | refused exactly when the total would pass the limit |
| `ChunkedWire.HexRoundTrip` | src/gateway/body.cpp:14-18 | the printed size reads back, and holds neither a separator nor a line end |
| `ChunkedWire.SizeIff` | src/gateway/body.cpp:186-194 | a size line is taken for n exactly when its text up to an extension is the hexadecimal text of n, in letters of either case, behind any zeros, and n has 64 bits |
| `ChunkedWire.WireDecodes` | src/gateway/body.cpp:171-259 | every well-formed message within the limit, with size lines in either case and with extensions, decodes to its data and leaves exactly the trailing bytes |
| `ChunkedWire.FlawsAreTold` | src/gateway/body.cpp:171-259 | behind any good chunks: a chunk past the limit is too large; a size line that spells no number, data with no line end behind it and a 33rd trailer line are malformed; data cut off is an I/O error; the good data, and what there is of the bad chunk, is delivered, never more than the limit |
| `Body.EndsAtZeroIff` | src/gateway/body.cpp:199-214 | count zero with error e comes exactly when the line of size zero was read and, behind at most 32 complete non-empty lines, stands the empty line (no error) or no line for the reason e |
| `Body.LineIsFixedIff` | src/gateway/body.cpp:74-102 | one result for every split between buffer and socket and every fragmentation, exactly for lines that end no later than byte 8193 |
| `Body.FixedIff` | src/gateway/body.cpp:171-259 | the bytes alone fix what a stream decodes to exactly when no over-long line is met |
| `Framing.DecisionsAreThese` | src/gateway/http_parse.cpp:205-236 | rejected exactly for an invalid length, two lengths, a coding that is not a single chunked, or length with chunked; otherwise framed as the fields ask, for requests and responses |
| `Framing.OrderDoesNotMatter` | src/gateway/http_parse.cpp:147-160 | acceptance, framing and length are the same for every order of the fields |
| `Framing.ParseTe` | src/gateway/http_parse.cpp:60-103 | the element-wise scan accepts exactly a single chunked |
| `Framing.LengthIff` | src/gateway/http_parse.cpp:14-36 | a length field gives n exactly when its value is the decimal text of n, of 64 bits, behind any zeros and between blanks |
| `Framing.WhollyChunkedIff` | src/gateway/http_parse.cpp:60-103 | the coding meant is `chunked`, each letter in either case, between blanks, with nothing behind it but a parameter, and no second element |
| `Framing.HttpParser.OnHttpField` | src/gateway/http_parse.cpp:317-349 | one field changes the parser as the specification says, for requests and responses |
| `Framing.HttpParser.BodyFramingOf` | src/gateway/http_parse.cpp:292-298 | the framing reported and the error flag are those of the decision |
| `Framing.OnlyANulDiffers` | src/gateway/http_parse.cpp:60-103 | the comparison differs from that of the whole text exactly on one element that is `chunked` up to a NUL |
| `Framing.RequestsAreStrict` | src/gateway/include/gw_parser/http11_parser.rl:226-239 | no field value that the request grammar admits tells them apart |
| `Framing.AfterANul` | src/gateway/include/gw_parser/httpclient_parser.rl:135 | field values that the response grammar admits do: `chunked`, a NUL and any text behind it |
| `Proto.HeadRoundTrip` | src/ipban/proto.cpp:56-77 | a packed head reads back |
| `Proto.PackHead` | src/ipban/proto.cpp:56-63 | the twenty bytes are the fields, big-endian, in order |
| `Proto.FrameBytes` | src/ipban/proto.cpp:56-63 | on the wire: BAN1, then version 2, kind, body length and message number, each with its highest byte first, then the body |
| `Proto.HeadErr` | src/ipban/proto.cpp:65-77 | reads the fields back and reports the first check that fails: magic, version, kind 1 to 15, body up to 8 MiB |
| `Proto.ReadExact` | src/ipban/proto.cpp:96-120 | exactly the asked bytes whatever the cuts, or all there was and how the stream ended |
| `Proto.RecvMsg` | src/ipban/proto.cpp:188-222 | the message, or the error, that the bytes mean |
| `Proto.SendMsg` | src/ipban/proto.cpp:154-186 | an unsendable message writes nothing; otherwise the whole frame goes out or the connection failed |
| `Proto.FramesParse` | src/ipban/proto.cpp:188-222 | whole frames parse to their messages, and what follows parses on its own |
| `Proto.CutFrameIsNoMessage` | src/ipban/proto.cpp:192-219 | a frame cut anywhere inside yields no message, with the error that names the place |
| `Proto.CutGivesAPrefix` | src/ipban/proto.cpp:188-222 | a stream cut anywhere yields exactly the messages whose frames came through whole |
| `Proto.StreamRoundTrip` | src/ipban/proto.cpp:154-222 | over every fragmentation, a receiver gets exactly the messages sent; cut inside the next frame, still only those |
| `Router.RouteTable.Match` | src/gateway/router.cpp:116-133 | the result is a matching rule better than every other matching rule, or nothing exactly when none matches |
| `Router.RouteTable.Build` | src/gateway/router.cpp:98-114 | every list of the index still holds exactly its rules, and is in order whenever compared priorities differ by no more than an int |
| `Router.RouteTable.AddRule` | src/gateway/router.cpp:87-96 | the rule is filed once, under its path or among the prefixes |
| `Router.CompareIsTieBreak` | src/gateway/router.cpp:73-85 | the comparator is the documented tie-break exactly when priorities are not compared or their difference fits an int |
| `Router.BetterIsAnOrder` | src/gateway/router.cpp:107-113 | the documented order is strict, transitive and decides between any two rules |
| `Router.AnswerIsUnique` | src/gateway/router.cpp:116-133 | a rule list gives each request one answer |
| `Router.PrefixIsOfSegments` | src/gateway/router.cpp:57-63 | a prefix rule takes exactly the paths that begin with its slash-separated segments; the rule for "/" all that begin with a slash |
| `Router.MethodsInAnyCase` | src/gateway/router.cpp:14-19 | a rule takes a method when it lists none, or one that reads the same in lower case |
| `Router.HostForms` | src/gateway/router.cpp:21-55 | between blanks and in any case, a host stands for its name: without its port, an IPv6 literal without its brackets, one without brackets whole |
| `RouterCache.CachedIsLookedUp` | src/gateway/router.cpp:197-238 | over any interleaving of lookups, swaps and evictions, a finished lookup has the answer of the table of the generation it captured, when no two of the queries differ by a bar alone |
| `RouterCache.KeysEqualIff` | src/gateway/router.cpp:216 | two queries share a key exactly when they are one query of one generation, or one is the other shifted by a bar from the path into the host |
| `RouterCache.KeyIsItsOwnIff` | src/gateway/router.cpp:216 | a query has its key to itself exactly when neither host nor path holds a bar |
| `RouterCache.BarsOnOneSideAreApart` | src/gateway/router.cpp:146-151 | no two queries differ by a bar alone when no path holds one, as with the default key, or no host does |
| `RouterCache.CacheIsRightIff` | src/gateway/router.cpp:197-238 | every run over a set of queries gives right answers exactly when no two of them differ by a bar alone |

## Left out

- Sockets, epoll, fibers, timers and threads: only the steps they take.
- SQLite itself, its files, pragmas and transaction healing: a committed transaction is one update.
- JSON, YAML and the generated HTTP parsers: their results are the input here.
- `SqliteDb` rows keep rule and columns together; a row whose columns disagree with its body is not modelled.
- Counters, metrics, logs, stop reasons and error codes that no decision reads.
- `Engine.PolicyEngine.Record`: the flush that follows an edit is modelled in `Durability`, not in the object.
- `Durability.CrashDurability`: the threshold and the attached database are fixed for all lives.
- `Replication.ConnNext`: a failed check and the `failMsg` after it are one step, though the source takes the lock twice.
- Addresses as text (`inet_pton`, `inet_ntop`, forwarded-for lists): ids use an abstract text of the address.
- Memory order: the ring's atomics are sequentially consistent here; positions do not wrap at 64 bits.
- `Pool.PoolSafety`: lists are sequences of names (the slab's linked list is `PartialList`), and a refill may find nothing, as in the source.
- The pool's destructor and the engine's detachment from the database at shutdown.
- `Buf.CeilPow2`: gives the value; the bit smearing that computes it is not modelled.
- `Body.BodyReader.ReadChunk`: the piece's length is not cut to an int.
- `Arc.ArcShard.PutKey`: a list iterator is the node with its key; spin locks make each call one step.
- `Balancer.WeightedRr.Select`: sums are unbounded; the source's 64-bit sums cannot overflow for its 32-bit weights.
- Round robin, plain least connections and the consistent-hash placeholder: easier forms of the balancers here.
- `Breaker.BreakerConservation`: calls with turn zero, which name no permit, are outside the permit count.
- `Acquire.TryAcquire`: what other fibers do during the search is part of each probe's result.
- `Framing.HttpParser.OnHttpField`: Connection and Upgrade fields, which do not bear on framing.
- `Proto.RecvMsg`: interrupted and timed-out reads; a read gives bytes, a close or an error.
- `Router.RouteTable.Build`: where compared priorities overflow, the library's sort is modelled as an insertion with the same comparator.
- `Router.RouteTable.Match`: the upstream registry and the key extractor; a result is the rule, a path is given.
- `RouterCache.CachedIsLookedUp`: generations do not wrap at 32 bits, and eviction may drop any entry at any time.
- Tokens, TLS, the firewall middleware, admin pages, tracing, configuration loading and command-line tools.
