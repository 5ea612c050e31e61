# Presence, gateway and push: a verified model

This project models, in Dafny, the parts of the messaging server that keep state across many
concurrent actors, and proves what they promise over every run. `dafny verify dfyconfig.toml`
checks it. Nothing here runs the server.

**The message gateway.** One event loop registers connections, unregisters them and obeys kicks from
other nodes, while further kicks come from outside the loop. It keeps a map from users to
connections and two counters, and applies the multi-terminal login policy.

* `Presence` is the map as a value, `UserMap` the object with its lists compacted inside shared
  arrays, each method proved equal to the value-level operation. `LoginPolicy` says who conflicts
  with whom. `Gateway` is the loop cut into small steps, so that kicks and status reports may fall
  between any two of them, and between any two readings of the login scan, which goes through a
  slice of the array that a kick compacts. `LoginRace` says exactly when that matters. `Server` is
  the object, `CrossNode` says what kicks from other nodes do, `Counters` are the two counters.
  `UnregisterChannel` gives the unregister channel its capacity and says exactly when the loop waits
  for itself.
* `StatusShards` and `StatusReporter` are the buffers of the status reporter, as values and as
  objects. `StatusPipeline` joins the map, the state queue, the renewal snapshots, the shards and the
  workers into one transition system, and proves that the last report is the truth;
  `StatusFreshness` proves how much may be dropped without spoiling it. `Renewal` adds the clock and
  proves the bound against expiry.
* `Subscriptions` and `SubscriptionIndex` are the index of subscribers, with the two phases of each
  operation interleaved.
* `FanIn` is the batch push with its counter, channel and cancellation.

**The online cache of the other services.** `OnlineSync` is the snapshot followed by the replay of a
log; `OnlineCache` is the object with its retry and cursor loops.

**Transfer and push.** `Messages` holds options and conversation IDs, `Categorize` the split of a
batch into four lists, `ReadReceipts` the fold of read receipts and their fragmentation upstream,
`Slicing` the batching loops. `OnlinePusher` decides which gateway calls an audience gets and gathers
the replies. `PushEnv`, `GroupPush` and `PushOutcome` are the push consumer: a path is a function
from the calls made so far to the calls made after it, where each reply may depend on all earlier
calls, so equality of paths means equality of effects in every environment. `Common` holds what
several modules share.

## How runs are modelled

A protocol is a transition system: a state, a set of events, an enabling condition and a next state.
A run is any sequence of enabled events from the initial state, and the main theorems speak of every
state of every run. Loops, maps and arrays that the program changes in place are methods of classes,
proved against the functions that the theorems are about.

## Where the code differs from its promise

* Policies 4 and 5 can be broken: the login scan reads the user's connections without the map's lock,
  and a kick from outside compacts the array under it. If the kicked connection has been read and the
  next to be read is not the last one, the scan never sees that next one; if it conflicts with the
  newcomer, both stay (`LoginRace.KickInScanBreaksPolicy` reaches such a state,
  `LoginRace.KickInScanDecides` gives the exact condition for one kick and `LoginRace.MissedDecides`
  for any number). Policy 1 copies the list under the lock and holds in every run.
* The event loop sends on the unregister channel that only it reads. If the victims it has to close do
  not all fit, or one of them already waits there, it never gets past them
  (`UnregisterChannel.StuckExactly`; `UnregisterChannel.LoopGetsStuck` reaches such a state).
* The high-priority branch for small groups (`internal/push/push_handler.go:155-165`) can never be
  taken, because only single chats are high priority (`GroupPush.HighPriorityGroupUnreachable`).
* The batch path calls the offline webhook for high-priority single chats, the single path does not
  (`GroupPush.SingleChatBatchAgreement` gives the exact condition).
* `GetConversationIDBySessionType` keeps only the first of two IDs for NotificationChat, unlike the
  other builders (`Messages.BySessionTypeAgrees`).
* A failing queue push for the last request of a batch closes the channel before it sends on it;
  failures of other requests are harmless (`FanIn.PanicsOnlyIfLastFails`).
* A kick from outside the loop, or from another node, discards the answer of the removal, so the user
  counter stays too high for good (`Counters.OutsideKickDrifts`); the connection counter is right.
* Seqs beyond the first 500 of a read receipt are not sent; this changes the folded read position
  exactly under the condition of `ReadReceipts.FragmentationPreservesReadState`.

## Model

| member | source | states |
|---|---|---|
| StatusPipeline.LastReportIsTruth | internal/msggateway/online.go:47-129 | In every run, for every user none of whose records was dropped: once that user has nothing left in the queue, in a renewal snapshot or in the shards, the last Online list delivered is its current platform list (empty if it is gone) and the status store holds exactly its current platforms |
| StatusPipeline.OvertakeEnds | internal/msggateway/online.go:121-128 | A renewal record that jumps ahead of older queued records of the same user changes neither the last list to arrive nor the final platform set |
| StatusPipeline.SnapshotKeeps | internal/msggateway/user_map.go:167-183 | Taking a renewal snapshot keeps "delivering all that is in flight ends with the truth" for every user |
| StatusPipeline.DrainKeeps | internal/msggateway/online.go:126-128 | So does moving one queued record to its shard |
| StatusPipeline.MapEventKeeps | internal/msggateway/user_map.go:66-165 | So does every change of the map (connection added, connections removed, change message corrected) |
| StatusPipeline.EmitKeeps | internal/msggateway/user_map.go:84-93 | A queued record that carries the new platform list and names every platform that vanished keeps the truth, for its user and for all others |
| StatusPipeline.RenewPushKeeps | internal/msggateway/online.go:121-125 | So does routing one record of a renewal snapshot |
| StatusPipeline.FlushEventKeeps | internal/msggateway/online.go:68-83 | So does flushing a shard |
| StatusPipeline.WorkEventKeeps | internal/msggateway/online.go:85-115 | So does a worker delivering any prefix of its first request, the rest being lost |
| StatusPipeline.DeliverPerUser | pkg/common/storage/cache/redis/online.go:96-102 | What a user is left with after a delivery depends on its own records only: the last Online list, and the fold of "remove the offline platforms, then add the online ones" |
| StatusPipeline.StepKeeps | internal/msggateway/online.go:117-129 | Every event keeps the invariant: shards hold only their own users, and the truth is at the end of what is in flight for every user that lost nothing |
| StatusPipeline.OneLogin | internal/msggateway/online.go:60-64 | A reachable state after one login, flushed: the report is right if the request was delivered and wrong if it was lost, so the exclusion of lost users is needed and can be met |
| StatusFreshness.LatestRecordDecides | internal/msggateway/online.go:47-129 | In every run, whatever was dropped before: if a step reports the user (a change accepted by the queue, or a renewal while the queue holds nothing of it) and after it no change of the user is refused and no record of it is dropped without a later one behind it, then once nothing of the user is under way the last Online list delivered is its current platform list |
| StatusFreshness.FreshStep | internal/msggateway/online.go:117-129 | One step makes or keeps the last of the user's records the true one, unless it refuses a change or drops that record |
| StatusShards.ShardConservation | internal/msggateway/online.go:29-83 | In every schedule of appends, flushes and worker takes: offered batches followed by the buffer are the records routed to the shard, in order; every batch has 1 to 100 entries; the buffer is below 100; accepted batches are those taken followed by those waiting, so only whole batches are lost |
| StatusShards.OneShardPerUser | internal/msggateway/online.go:48-51 | Every record routed to a shard is of a user that hashes to it |
| StatusShards.AppendConserves | internal/msggateway/online.go:52-64 | One append conserves and orders, hands the buffer over exactly when it becomes 100 long, and loses it exactly when 64 requests wait |
| StatusShards.FlushConserves | internal/msggateway/online.go:68-83 | One flush conserves and orders, leaves no buffer, and offers one batch exactly if there was one |
| StatusShards.RouteAllIsRun | internal/msggateway/online.go:47-66 | Pushing a list of records routes each of them, in order |
| StatusShards.FlushAllEmpties | internal/msggateway/online.go:68-83 | Flushing all shards leaves no buffer and offers one batch for each that was not empty |
| StatusReporter.Reporter.PushUserState | internal/msggateway/online.go:47-66 | The loop over the states is the routing of the list, one by one, in order |
| StatusReporter.Reporter.PushOne | internal/msggateway/online.go:49-64 | Append to the shard of the user and, at 100 entries, hand the buffer over or drop it whole |
| StatusReporter.Reporter.PushAllUserState | internal/msggateway/online.go:68-83 | Every non-empty buffer is handed over once, empty ones are left alone |
| StatusReporter.Reporter.TakeRequest | internal/msggateway/online.go:109-115 | A worker takes the first request of its shard, and only that |
| Renewal.ReportedAgainBeforeExpiry | internal/msggateway/online.go:25-27 | With ideal ticks every E/3, a user that stays connected is reported again less than 2E/3 after its previous report, in every run and even when queue pushes are dropped: any silence ends at the next step within that bound |
| Renewal.UnreportedUserIsDue | internal/msggateway/user_map.go:167-183 | A connected user that was never reported is reported by the very next tick, at most E/3 later |
| Renewal.StampFollowsReports | internal/msggateway/user_map.go:84-93 | The entry's time changes exactly when the user is reported, to the time of the report |
| UserMap.Users.DeleteClients | internal/msggateway/user_map.go:136-165 | The new map is the specified removal (order-preserving filter by address, emptied entry gone, one record with the removed platforms in order queued unless the queue is full); the result is true exactly when the entry went |
| UserMap.UserPlatform.Compact | internal/msggateway/user_map.go:146-155 | The compaction within the shared array leaves the filtered list at the front and the old tail behind it, and lists the removed platforms in order |
| Presence.SightKept | internal/msggateway/user_map.go:95-103 | A slice handed out by GetAll and read up to some position still shows, from there on, every survivor of a removal that takes nothing before that position (read from its start it shows every survivor) |
| UserMap.Users.DeleteFound | internal/msggateway/user_map.go:142-163 | Besides the new map: every slice of the user's array handed out earlier, of whatever length, shows the survivors written over its front and the old elements behind them |
| UserMap.Users.GetAll | internal/msggateway/user_map.go:95-103 | The entry's own array and length, not a copy |
| UserMap.Users.Set | internal/msggateway/user_map.go:121-134 | The new map is the specified insertion at the end, with its queued record |
| UserMap.Users.Get | internal/msggateway/user_map.go:105-119 | The connections on one platform in order, and both flags |
| UserMap.Users.RecvSubChange | internal/msggateway/user_map.go:66-82 | True exactly when the user is connected here on a platform that the change does not list; then, if there is room, the last record queued carries its present platforms, and otherwise the queue is unchanged |
| Presence.CorrectionIsExact | internal/msggateway/user_map.go:66-82 | A change that lists every platform of the user, or is about a user not connected here, changes nothing; any other queues exactly the present platforms |
| UserMap.Users.GetAllUserStatus | internal/msggateway/user_map.go:167-183 | Exactly one record, with current platforms, for each entry not reported after the deadline, in any order; exactly those entries are stamped |
| UserMap.Users.Push | internal/msggateway/user_map.go:84-93 | The record enters the queue and the entry is stamped, or neither happens |
| Presence.DeletePlatforms | internal/msggateway/user_map.go:136-165 | Every platform of the user before a removal is among those kept or those reported offline |
| Presence.GoneConcat | internal/msggateway/user_map.go:146-155 | The removed platforms are listed in the order of the connections |
| Presence.DeleteWellFormed | internal/msggateway/user_map.go:157-163 | Removal keeps every entry non-empty, so its result is true exactly when the user was mapped and no longer is |
| Presence.SetWellFormed | internal/msggateway/user_map.go:121-134 | Insertion keeps every entry non-empty and of one user |
| Presence.SetReports | internal/msggateway/user_map.go:121-134 | An insertion queues the new platform list of the user with no platform offline, and adds the platform at the end |
| Presence.DeleteReports | internal/msggateway/user_map.go:136-165 | A removal queues the platforms that stay and those that go |
| Gateway.NoForbiddenPair | internal/msggateway/ws_server.go:325-400 | Policy 1 leaves no two connections of a user on one platform, in every run, with stale cross-node kicks and kicks from outside falling between any two steps; policy 4 leaves no two of one class and policy 5 no two that are not PCs in every run in which no kick from outside makes a scan miss a connection |
| Gateway.MissesOnlyBehind | internal/msggateway/ws_server.go:386-397 | A kick from outside that removes nothing the scan has already read makes it miss nothing |
| LoginRace.MissesExactly | internal/msggateway/ws_server.go:351-359 | In every run with distinct addresses a kick from outside, its compaction in one step, makes the scan miss a connection if and only if it removes one already read while the next to be read is not the last of the list and conflicts with the newcomer |
| LoginRace.KickInScanDecides | internal/msggateway/ws_server.go:320-323 | In such a run, so far without a miss: if a kick from outside falls into the scan for a newcomer and nothing else does, the user ends with a pair the policy forbids if and only if that condition holds |
| LoginRace.MissedDecides | internal/msggateway/ws_server.go:325-400 | With any number of kicks in one scan, the newcomer joins a connection it conflicts with if and only if some kick took a connection out of sight of the scan that is still mapped when the newcomer is stored |
| LoginRace.KickInScanBreaksPolicy | internal/msggateway/ws_server.go:386-397 | Under policies 4 and 5, a reachable state with distinct addresses and two connections the policy forbids together |
| LoginRace.SkippedExactly | internal/msggateway/user_map.go:146-155 | A removal of position q in one step, under a slice read up to some position, takes exactly one connection out of sight, the next to be read, if q was read and the next is not the last; otherwise none |
| LoginRace.WriteByWrite | internal/msggateway/user_map.go:150-158 | However the single writes of a compaction interleave with the readings, a connection is missed exactly if its old place is read after it was written over and its new place before it was written, and then a removal in one step between these readings misses it too |
| Gateway.NoEmptyEntry | internal/msggateway/user_map.go:136-165 | In every reachable map each entry is non-empty, and a removal answers true exactly when the user leaves the map |
| Gateway.RegisterIsExact | internal/msggateway/ws_server.go:258-284 | With distinct addresses a registration removes exactly the conflicting connections (same platform, same class, both not PC, by policy), keeps the others in order with the newcomer last, and leaves every other user alone |
| Gateway.UninterruptedRegister | internal/msggateway/ws_server.go:170-183 | The loop's small steps with nothing in between, the readings of its scan and the closings of its victims one by one included, are one whole registration |
| CrossNode.RemoteLoginQueues | internal/msggateway/hub_server.go:270-287 | A login of a mapped user on another node queues one kick behind the others, with exactly the connections of the user on that platform at that moment; for an unmapped user nothing is queued |
| CrossNode.KickIsExact | internal/msggateway/ws_server.go:178-180 | With distinct addresses, a kick from another node that is not interfered with: under policies 4 and 5 (newcomer not a PC for 5) exactly the conflicting connections are gone and closed and the compatible ones stay in order; under policy 1 exactly the connections at an address of the snapshot are gone and those of the snapshot closed; otherwise nothing happens; no other user and no counter changes |
| Gateway.PolicyStep | internal/msggateway/ws_server.go:170-183 | Every step but a kick that makes a scan miss a connection keeps the policy and what the loop knows about the newcomer's conflicts |
| UnregisterChannel.StuckExactly | internal/msggateway/client.go:290-300 | With the channel's capacity and senders that wait: whatever the other goroutines do, the loop never gets past a removal if and only if the unregistration of some victim already waits for a place, or the victims still open do not all fit into the channel |
| UnregisterChannel.NeverStuck | internal/msggateway/ws_server.go:170-183 | In a run in which no removal is ever in that condition, the loop at every moment waits for an event or can take its own next step |
| UnregisterChannel.LoopGetsStuck | internal/msggateway/ws_server.go:119-121 | A reachable state in that condition, with distinct addresses and no more than the capacity in either channel: a newcomer replaces a connection while a thousand others have hung up |
| UnregisterChannel.BoundedIsRun | internal/msggateway/ws_server.go:155 | Every run the capacity allows is a run of module Gateway, so what is proved of those holds of it |
| LoginPolicy.VictimsAreConflicts | internal/msggateway/ws_server.go:345-400 | With a fresh snapshot the checker selects exactly the connections in conflict with the newcomer, under each policy |
| LoginPolicy.KeepCompatible | internal/msggateway/user_map.go:146-155 | With distinct addresses, filtering by the addresses of the conflicting connections keeps exactly the compatible ones |
| LoginPolicy.OnPlatformMembers | internal/msggateway/user_map.go:112-117 | The selection by platform finds exactly the listed connections on it |
| LoginPolicy.OnPlatformConcat | internal/msggateway/user_map.go:112-117 | The selection keeps the order of the list |
| Platforms.SameClassExactly | protocol/constant/platform_id_to_name.go:97-126 | Two platforms are of one class exactly if equal, both phones, both desktops, both tablets or both unknown; the desktops are the PCs |
| Counters.CountersInEveryRun | internal/msggateway/ws_server.go:258-284 | In every run the connection counter is the mapped connections plus the removed ones whose unregistration is still to come; the user counter is the mapped users plus a drift that is never negative |
| Counters.UserCountExactWithoutKicks | internal/msggateway/ws_server.go:402-411 | Without outside and cross-node kicks the user counter equals the mapped users whenever the loop is idle, under every policy |
| Counters.OutsideKickDrifts | internal/msggateway/ws_server.go:320-323 | A run in which one outside kick leaves the user counter at one with nobody connected and everything processed |
| Counters.StepKeeps | internal/msggateway/ws_server.go:170-183 | Every step keeps the life cycle of connections (closed once, unregistered once, after registration) and both counter equations |
| Counters.CloseAllKeeps | internal/msggateway/client.go:290-300 | Closing any list of connections, repeated or closed before, queues each connection for unregistration at most once |
| Server.WsServer.RegisterClient | internal/msggateway/ws_server.go:258-284 | The new state of map, counters, closed set and unregister channel is the specified registration |
| Server.WsServer.MultiTerminalLoginChecker | internal/msggateway/ws_server.go:325-400 | With nothing else running, the new state is that of removing and closing the policy's victims, read from the entry's own array |
| Server.WsServer.UnregisterClient | internal/msggateway/ws_server.go:402-408 | The new state is the specified unregistration, the user counted off only if its entry went |
| Server.WsServer.KickUserConn | internal/msggateway/ws_server.go:320-323 | The new state is that of removing and closing one connection, with no counter touched; every slice of the user's array shows the survivors written over its front, as the scan race assumes |
| Server.WsServer.KickAll | internal/msggateway/client.go:348-356 | Each listed connection is closed; only a first close queues an unregistration |
| Subscriptions.IndexesAgreeAtRest | internal/msggateway/subscription.go:63-151 | In every interleaving of the two phases by different clients, a client with nothing in flight is filed under exactly the users it subscribes to, and no entry is empty |
| Subscriptions.AddedWins | internal/msggateway/subscription.go:107-133 | A user both added and deleted in one call ends subscribed in both indexes, whatever falls between the phases |
| Subscriptions.SubIsExact | internal/msggateway/subscription.go:102-151 | One call, with its client at rest again, whatever other clients do in between: added users are subscribed, users deleted and not added are not, all others are as before, in both indexes |
| Subscriptions.DelIsExact | internal/msggateway/subscription.go:63-86 | After its removal a client at rest is subscribed to nobody and filed under nobody |
| Subscriptions.StepKeeps | internal/msggateway/subscription.go:63-151 | In flight: the pending deletions and additions, applied to the client's part of the reverse index, give its own set |
| Subscriptions.CommitPart | internal/msggateway/subscription.go:134-151 | A second phase changes only its own client's part of the reverse index, and there exactly as pending |
| SubscriptionIndex.Subscription.Sub | internal/msggateway/subscription.go:102-151 | Both indexes after the call are those of the two phases |
| SubscriptionIndex.Subscription.DelClient | internal/msggateway/subscription.go:63-86 | The client's set is empty and the reverse index loses exactly its addresses |
| SubscriptionIndex.Subscription.GetClient | internal/msggateway/subscription.go:88-100 | Exactly the subscribers of the user, each once |
| SubscriptionIndex.Client.BeginSub | internal/msggateway/subscription.go:103-129 | The two loops of the first phase give the new set and the two pending sets |
| FanIn.NoSendBlocks | internal/msggateway/hub_server.go:203-222 | In every schedule a pending send finds a free place in the channel |
| FanIn.ClosedOnceAfterLastSend | internal/msggateway/hub_server.go:208-222 | The channel is closed at most once, and once closed every request's result has been sent (but for a failing branch still at its send) |
| FanIn.PanicsOnlyIfLastFails | internal/msggateway/hub_server.go:214-221 | Some schedule sends on the closed channel if and only if queueing the last request fails |
| FanIn.CompleteAnswer | internal/msggateway/hub_server.go:226-246 | A normal return names the requested users with their multiplicity |
| FanIn.AnswerOnCancel | internal/msggateway/hub_server.go:228-240 | A return on cancellation keeps what was received and adds one failed result for each requested user without one |
| FanIn.CancelledRunAnswersAll | internal/msggateway/hub_server.go:228-240 | In every run that returns on cancellation, the answer built from what was received names every requested user and nobody else, each exactly once if the request is distinct |
| FanIn.ReceivedDistinct | internal/msggateway/hub_server.go:241-246 | At any point of a run the results received are for distinct requests |
| FanIn.StepKeeps | internal/msggateway/hub_server.go:203-222 | Every step keeps the protocol's invariant between counter, channel, sent and counted requests |
| OnlineSync.SnapshotPlusReplayConverges | pkg/rpccache/online.go:85-185 | After a successful snapshot and all messages applied the cache equals the source, although the source changed throughout |
| OnlineSync.MessagesRepairFailedSnapshot | pkg/rpccache/online.go:85-185 | Even without a successful snapshot, a user some applied message is about is cached truly |
| OnlineSync.PhasesInOrder | pkg/rpccache/online.go:138-185 | The phase never decreases and no message is applied before the snapshot ends |
| OnlineSync.StepKeeps | pkg/rpccache/online.go:85-185 | Every step keeps: the last message about a user is the truth, and a user with no message waiting is cached truly or was not listed yet |
| OnlineCache.Cache.InitUsersOnlineStatus | pkg/rpccache/online.go:85-136 | The loops with their five tries store what the scan of the answers stores, send the cursor of the last page in each call, and end the first phase on success and on failure |
| OnlineCache.SnapshotStoresEveryPage | pkg/rpccache/online.go:115-133 | The snapshot stores every page it is served, in order, and nothing else |
| OnlineCache.SnapshotEndsAtZeroCursor | pkg/rpccache/online.go:101-133 | It succeeds only on a page whose next cursor is zero, and no earlier page has a zero cursor |
| OnlineCache.SnapshotFailsAfterTries | pkg/rpccache/online.go:101-112 | It fails only after five failed calls in a row |
| OnlineCache.EachPageFetchedOnce | pkg/rpccache/online.go:114-133 | Against a server that answers by cursor, a snapshot that succeeds has fetched every page exactly once, in order, however many calls failed in between |
| OnlineCache.Cache.DrainReady | pkg/rpccache/online.go:169-180 | While messages keep arriving: it applies every message that arrives before the first poll that finds nothing waiting, in order, and moves to the last phase at that poll; in any other phase it changes nothing |
| OnlineCache.Cache.GetUsersOnline | pkg/rpccache/online.go:249-257 | The two answers are the request split, in order, by presence in the table |
| OnlineCache.SplitIsPartition | pkg/rpccache/online.go:249-257 | Every requested user is on exactly one side, as often as requested, online exactly when the table has it |
| OnlineCache.PresentConcat | pkg/rpccache/online.go:249-257 | Each side keeps the order of the request |
| Slicing.ChunksAreExact | internal/push/onlinepusher.go:182-196 | For every positive size: chunks concatenate to the input, none is empty or too long, only the last may be short, their number is the rounded-up quotient |
| Slicing.SliceByStride | internal/push/onlinepusher.go:284-298 | The stride loop produces those chunks |
| Slicing.SplitSeqsIntoBatches | pkg/notification/msg.go:447-467 | The counted loop fills an array of the computed length with those chunks, and answers nil for no seqs |
| Slicing.ChunkAt | pkg/notification/msg.go:456-464 | Chunk j is the slice from j times the size |
| ReadReceipts.DoSetReadSeq | internal/msgtransfer/online_history_msg_handler.go:162-213 | The loops compute the fold of the receipts and the conversation of the last receipt that parses |
| ReadReceipts.ConversationIsShared | internal/msgtransfer/online_history_msg_handler.go:180-181 | For receipts of one conversation the answer is that conversation |
| ReadReceipts.ReadMapIsMaximum | internal/msgtransfer/online_history_msg_handler.go:162-204 | The map holds exactly the users some non-negative receipt marks, each with the maximum over its receipts of the larger of HasReadSeq and the seqs |
| ReadReceipts.OrderDoesNotMatter | internal/msgtransfer/online_history_msg_handler.go:166-204 | The map is the same for every permutation of the batch |
| ReadReceipts.SameMessagesSameMap | internal/msgtransfer/online_history_msg_handler.go:166-203 | Repeating receipts does not change it either |
| ReadReceipts.ReadMapConcat | internal/msgtransfer/online_history_msg_handler.go:166-202 | The map of a concatenation is the pointwise maximum |
| ReadReceipts.SendWithFragmentation | pkg/notification/msg.go:327-444 | The branches and the split loop send exactly the specified messages |
| ReadReceipts.SentExactly | pkg/notification/msg.go:327-444 | For every content type and payload: nothing is sent exactly when the type is not forced and encoding fails; a payload within the limit is sent once, unchanged; any other that is no receipt with over 500 seqs once or twice, unchanged, twice exactly when its JSON is over 1000 long; such a receipt in the rounded-up number of messages, all with its user, conversation and position |
| ReadReceipts.FragmentationPreservesReadState | pkg/notification/msg.go:379-430 | Folding what is sent gives the map of the single receipt if and only if no seq beyond the first 500 is a new non-negative maximum |
| ReadReceipts.FragmentsInAnyBatch | pkg/notification/msg.go:379-431 | The same within any batch of other messages and in any arrival order |
| ReadReceipts.CommonReceiptsArePreserved | pkg/notification/msg.go:398-403 | Up to 500 seqs, or HasReadSeq at least every seq, meets the condition |
| Categorize.CategorizeMessageLists | internal/msgtransfer/online_history_msg_handler.go:234-275 | The loop over message objects fills the four lists with the very objects (or their clones) at the positions given by the flags, and leaves each original with its specified data |
| Categorize.CategorizingIsPartition | internal/msgtransfer/online_history_msg_handler.go:238-273 | Each input lands in exactly one list; exactly the deliverable notifications also have a clone in the chat list; the clone takes over the offline-push and unread flags and the original ends with both false and every other flag kept; sender, receiver, group, types, time and content stay the same in both |
| Categorize.PositionsAreExact | internal/msgtransfer/online_history_msg_handler.go:262-273 | A list has exactly the positions of its category |
| Categorize.ChatPositionsAreExact | internal/msgtransfer/online_history_msg_handler.go:240-272 | The stored chat list has exactly the stored chat messages and the clones |
| Categorize.TakeClone | internal/msgtransfer/online_history_msg_handler.go:242-259 | A fresh message with only the two flags, taken over from the original |
| Categorize.RoutingAgrees | internal/msgtransfer/online_history_msg_handler.go:151-159 | For a batch of one conversation, whatever ends in a chat list, clones included, has the batch's chat ID and whatever ends in a notification list its notification ID; a client push files each under the matching map |
| Categorize.BuildersAgree | pkg/msgprocessor/conversation.go:31-119 | Within a conversation the three builders agree: the ID of any message is the chat ID or the notification ID of any other, by its flag, and has the notification prefix exactly in the second case |
| Messages.PairIsUnordered | pkg/msgprocessor/conversation.go:31-47 | The joined pair does not depend on who sends |
| Messages.FlagsRead | pkg/msgprocessor/options.go:123-129 | A flag that was never set reads as true; one that was set reads as set and leaves the others |
| Messages.KeptFromChatsExactly | pkg/msgprocessor/conversation.go:153-197 | Kept from chats are the system messages in the range of notifications but for seven types |
| Messages.PairIsSorted | pkg/msgprocessor/conversation.go:31-47 | The joined pair is both IDs, the smaller first, with an underscore between |
| Messages.PairIsInjective | pkg/msgprocessor/conversation.go:31-47 | For IDs without underscores, equal joined pairs are equal unordered pairs |
| Messages.ChatIDsIdentify | pkg/msgprocessor/conversation.go:49-66 | For user IDs without underscores, two messages of any known session types have the same chat ID exactly when they are of the same conversation |
| Messages.NotificationIDsIdentify | pkg/msgprocessor/conversation.go:31-47 | With IDs without underscores the notification ID tells groups apart, pairs apart, and groups from pairs |
| Messages.BySessionTypeAgrees | pkg/msgprocessor/conversation.go:99-115 | The builder from a session type agrees with the chat builder if and only if the session type is not NotificationChat |
| Messages.BySessionTypeExactly | pkg/msgprocessor/conversation.go:99-115 | The prefix of the type and the one ID; with two IDs the pair for single chats and the smaller ID otherwise; nothing for other numbers of IDs and unknown types |
| GroupPush.BatchRefinesPerMessage | internal/push/push_handler.go:222-270 | The batch makes exactly the calls, in the same order, of handling the messages one by one, whatever the environment answers at any point |
| GroupPush.HighPriorityGroupUnreachable | internal/push/push_handler.go:155-167 | A group message is always pushed by Push2Group: the high-priority group branch is dead |
| GroupPush.MembersAtHand | internal/push/push_handler.go:274-300 | With members at hand and no side effects, push2GroupWithMembers and Push2Group, each written out to its end, make the same calls |
| GroupPush.SingleChatBatchAgreement | internal/push/push_handler.go:303-341 | For a message that is not for a group, batch and single path agree in every environment if and only if the message is not a high-priority one that may be pushed offline |
| GroupPush.UserBatchRefinesPerMessage | internal/push/push_handler.go:255-270 | A batch of such messages refines the single path when no offline webhook is configured or none of its high-priority messages may be pushed offline |
| GroupPush.RecipientsAccountedFor | internal/push/push_handler.go:557-583 | Whatever the cache and the gateways answer: a failed query or push ends the handling; otherwise the online users, if any, get the message marked as sent, and with the offline flag the filter is asked about exactly the recipients other than the sender that were not reached |
| GroupPush.EveryRecipientAccounted | internal/push/push_handler.go:557-605 | The full account of a group push in any environment: every recipient other than the sender was reported reached, or left out by the filter, or the message was enqueued for it (or for those the webhook named instead), or the handling ended at a failed call, or the message was not to be pushed offline |
| GroupPush.OfflinePushHappens | internal/push/push_handler.go:586-605 | Once the filter has answered with users, unless the webhook is asked and fails, the last call enqueues the message as sent for them or for those the webhook names |
| GroupPush.OfflinePushIsJustified | internal/push/push_handler.go:557-605 | An offline push of a group message goes only to recipients other than the sender, under the offline flag, after the query who is online and, if anybody is, the online push to them |
| GroupPush.UserOfflinePushIsJustified | internal/push/push_handler.go:402-471 | A single chat is pushed offline only under the offline flag, as the last call, after the query who is online and, if anybody is, an online push that answered and reached nobody but perhaps the sender, and only to the receiver unless the webhook names others |
| GroupPush.HighPriorityOfflinePushIsJustified | internal/push/push_handler.go:303-341 | A high-priority single chat likewise, right after the query or the online push, and only to the receiver |
| GroupPush.ReceiverAccounted | internal/push/push_handler.go:402-471 | The full account of a single chat, on both paths: somebody other than the sender was reported reached, or the last call pushes the message offline, or the handling ended at a failed call, or the message was not to be pushed offline |
| GroupPush.RecipientsExactly | internal/push/push_handler.go:168-176 | The receiver always, the sender as well exactly under the sync flag, nobody twice and nobody else |
| GroupPush.DepartedMembersAreNotified | internal/push/push_handler.go:513-653 | In a group push, in any environment: if the webhook is not asked or names nobody, members that quit or were kicked have their conversation cut at its present maximum before anything is pushed and are recipients of the notice with the members, or nobody is if the maximum cannot be read or set; if the webhook names recipients, those get it and nothing is cut; if it fails, nothing is done |
| GroupPush.GroupWebhookDecides | internal/push/push_handler.go:513-555 | In a group push without departed members: the webhook is asked first exactly when configured and the message is not about typing; if it fails nothing else happens; those it names get the message, and otherwise the members do, after the group is dismissed where the notice says so |
| GroupPush.OnlineWebhookDecides | internal/push/callback.go:71-100 | In a single chat, on both paths: the webhook is asked first exactly when configured and the message is not about typing, and if it fails nothing else happens |
| GroupPush.FailedUsersMembers | internal/push/onlinepusher.go:386-403 | Whatever order the list difference keeps, the failed users are exactly the requested ones that are neither the sender nor reached |
| PushOutcome.NoRecipientLost | internal/push/onlinepusher.go:386-403 | Every recipient but the sender is in exactly one of "some gateway reached it" and the offline candidates; the sender is no candidate |
| PushOutcome.MergeByUser | internal/push/push_log.go:9-22 | The loop marks exactly the users with a result, true exactly when some result reached them |
| PushOutcome.GetOnlinePushFailedUserIDs | internal/push/onlinepusher.go:386-403 | The loop collects the sender and those reached; with any list difference, exactly the requested users that are neither remain |
| PushOutcome.Consumer.PushToGroup | internal/push/push_handler.go:242-254 | The loop over a group batch makes the specified calls |
| PushOutcome.Consumer.DropStale | internal/push/push_handler.go:191-201 | The messages kept are those present and not stale, in order |
| GroupPush.KeptExactly | internal/push/push_handler.go:191-201 | Kept are exactly the messages present that are at most 30 seconds old, or text or an older kind, or signalling |
| GroupPush.KeptConcat | internal/push/push_handler.go:223-229 | The kept messages stay in order |
| OnlinePusher.OnlinePush | internal/push/onlinepusher.go:70-167 | An error only if connections cannot be discovered for a non-empty audience; otherwise exactly the results of the successful calls among those the path makes: batches by message kind and audience size, one fast call, or all connections |
| OnlinePusher.RunWorkers | internal/push/onlinepusher.go:208-267 | Workers finishing in any order gather exactly the results of the calls that succeeded |
| OnlinePusher.PushInBatches | internal/push/onlinepusher.go:270-384 | The results are exactly those of the batches whose call succeeded, and none without a connection |
| OnlinePusher.EveryRecipientAsked | internal/push/onlinepusher.go:70-167 | On every path over at least one connection the calls ask about exactly the recipients; batches of 1 to 300 ask about them in order, each as often as it was given |
| OnlinePusher.FailedCallFallsBack | internal/push/onlinepusher.go:100-164 | Outside the batches: fewer than 100 users are tried once, and if that fails, or there are more, every connection is called once |
| OnlinePusher.BatchesCounted | internal/push/onlinepusher.go:76-83 | Which audiences are cut into batches, and into how many: read receipts to over 100 members by 200, 250 or 300, other group messages to over 200 by 100, 150 or 200 |
| OnlinePusher.CandidatesAreUnreached | internal/push/onlinepusher.go:386-403 | Over the whole path, for any pattern of failed calls, a recipient other than the sender is an offline candidate if and only if no successful call reports it reached |
| OnlinePusher.ResultsCoverAnsweredCalls | internal/push/onlinepusher.go:70-167 | With gateways that answer about exactly the users asked, the results speak of exactly the users of some successful call, and a recipient whose every call failed is an offline candidate |
| OnlinePusher.FailedCallGoesOffline | internal/push/onlinepusher.go:169-267 | Every recipient of a failed batch call, other than the sender, is an offline candidate |
| PushOutcome.Consumer.GetConnsAndOnlinePush | internal/push/push_handler.go:487-511 | The calls made, the status change and the results with an empty one for every offline user |
| PushOutcome.Consumer.HandleBatch | internal/push/push_handler.go:222-271 | The batch entry makes the specified calls |

## Left out

- Transport, RPC, Kafka, Redis, Mongo, logging, metrics, token and webhook contents: replies are
  parameters, effects are entries of a trace. The login policies' effect on tokens, the login city
  check and the notice sent to a kicked client are not modelled.
- `sync.Pool` reuse of connections: each connection is a fresh value.
- Gateway.NoForbiddenPair: under policies 4 and 5 it speaks of runs in which no kick from outside
  makes a scan miss a connection, because otherwise it is false (LoginRace.KickInScanBreaksPolicy).
  It assumes that a connection's unregistration is processed after its registration; the program's
  select allows the other order. A reading of the shared array is one step, a compaction is one step.
- Gateway.PolicyStep: as Gateway.NoForbiddenPair. The list `unregisters` holds the channel and the
  sends waiting for room, and nothing waits: the runs include all those the capacity allows
  (UnregisterChannel.BoundedIsRun).
- LoginRace.MissesExactly: a compaction is one step, while the program writes element by element, so
  that one kick can hide several connections; LoginRace.WriteByWrite says of each of them alone that
  a compaction in one step hides it too.
- LoginRace.KickInScanDecides: as LoginRace.MissesExactly.
- LoginRace.SkippedExactly: as LoginRace.MissesExactly.
- LoginRace.WriteByWrite: one compaction, under a slice that shows just the list.
- UnregisterChannel.StuckExactly: other goroutines that wait for the channel or for a connection's lock
  are not followed further; the capacity of the register channel is not part of the model.
- Server.WsServer.MultiTerminalLoginChecker: without the token calls at its end; what other goroutines
  do meanwhile is in Gateway and LoginRace.
- Server.WsServer.UnregisterClient: without the subscription's DelClient, which is
  SubscriptionIndex.Subscription.DelClient.
- Counters.UserCountExactWithoutKicks: equality is claimed with the loop idle, since a removal for a
  newcomer is made good by the insertion that follows it. Insertion and its counter increments are
  one step.
- Counters.CountersInEveryRun: with kicks from outside or from other nodes the user counter is only
  bounded from below, because equality fails (Counters.OutsideKickDrifts).
- StatusPipeline.LastReportIsTruth: speaks of users none of whose records was dropped by a full
  channel or lost with a failing request; a lost record can leave a wrong report
  (StatusPipeline.OneLogin), and a platform whose removal was lost stays in the store until it
  expires. For the last Online list alone StatusFreshness.LatestRecordDecides allows earlier losses.
  The order of requests at the status service is that of each worker.
- StatusPipeline.DeliverPerUser: without the removal of expired platforms and the expiry of the key,
  which the store's script also does.
- StatusShards.OneShardPerUser: the MD5 sum and the random offset are one arbitrary hash function of
  the user, taken modulo 2^64.
- Renewal.ReportedAgainBeforeExpiry: assumes ideal ticks, and counts a report when its record is
  accepted by the queue or taken into a snapshot; the delay until it is flushed (a merge tick of one
  second) is not in the bound. It needs an expiry of at least three units of time, since the period
  is a third rounded down.
- UserMap.Users.GetAll: the map's lock is not modelled; each method is one step. The only reader of a
  slice outside the lock that the model follows is the login scan.
- Subscriptions.IndexesAgreeAtRest: assumes distinct addresses and one operation in flight per
  client; overlapping Sub and DelClient of one client are not protected by the program.
- OnlineCache.Cache.GetUsersOnline: only with the full cache; the other mode asks the user service.
- PushOutcome.GetOnlinePushFailedUserIDs: `datautil.SliceSub` is not part of the repository; it is a
  parameter, of which only membership is assumed.
- FanIn.PanicsOnlyIfLastFails: the branch of a failing queue push is modelled, although the program's
  guarantees are meant for pushes that succeed.
- OnlineSync.SnapshotPlusReplayConverges: assumes that the subscription begins before the first page
  is read, that messages carry absolute state in order without loss, that pages are true when read,
  and that no continuously online user is skipped. The condition-variable waits are not modelled, so
  nothing is said about liveness.
- GroupPush.BatchRefinesPerMessage: the clock and the group's membership are fixed; the batch's kept
  messages are group messages, the first one with a group ID.
- GroupPush.OfflinePushIsJustified: assumes that the offline filter answers with users it was asked
  about and that the offline webhook does not replace the recipients, which it may.
- OnlinePusher.FailedCallGoesOffline: assumes distinct recipients and gateways that answer about
  exactly the users they were asked about, which is what module FanIn proves of one gateway.
- OnlinePusher.RunWorkers: two calls with the same audience over the same connection, one fast and one
  in parallel, are told apart; time-outs are failed calls, and the limit on workers is not modelled.
- PushOutcome.Consumer.HandleBatch: the pushes of single messages inside it are functions of the
  call history, not methods.
- Categorize.CategorizeMessageLists: a missing options map counts as an empty one, and option keys
  the pipeline does not use are all kept alike.
- Messages.ChatIDsIdentify: for user IDs without underscores only; with them the joined IDs are not
  injective. IDs are compared character by character.
- Delivery to every gateway node, `K8sStaticConsistentHash`, delivery to one user's connections
  (`pushToUser`), the local cache's LRU, and the gzip, AES and gob codecs.
