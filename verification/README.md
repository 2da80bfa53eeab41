# Verification of the push system

The push system sends one message to every user of a uid range. A daemon cuts the range
into chunks of 4096 uids and hands them to producer processes; a producer reads its part of
a bitmap of eligible users from Redis, decodes it to uids and sends one message per uid to
the message broker; an update program rebuilds the bitmaps from MySQL. This project models
the daemon's scheduler, the bitmap pipeline and their composition in Dafny 4.11 and proves
who receives a push, and what the scheduler's shared state satisfies in every run.

Check everything with `dafny verify dfyconfig.toml`.

## How the model is built

- `Words`, `OrderedKeys`: integer widths; iteration order of `std::map` and `std::set`.
- `LoadBalance`, `Sampling`: score formula, rank map, `lower_bound`, the random draw.
- `Chunking`: the loop that cuts a request, in 64-bit arithmetic.
- `Scheduler`, `Daemon`: the mutex-guarded globals. `Daemon.DaemonState` updates them in
  place, one method per critical section; each method is proved equal to a function of
  `Scheduler` on the whole state.
- `PushSystem`, `FlowControl`, `Conservation`, `PushTheorems`: those functions as the events
  of a state machine with calls, loops and re-sends; the invariants; the theorems about all
  runs. A failing call has two critical sections (`Charge`, `GiveUp`) with any other events
  in between. `History`: what the model's own records have to do with the events of a run.
  `Fairness`: which scores a dispatch goes by. `Progress`: what ends a wait.
- `Bits`, `Redis`, `UserInfoUpdate`: bitmaps, the Redis commands, the update program. A
  command that reports failure may or may not have taken effect.
- `CacheProtocol`: the cached intersection shared by producers and update program, one
  Redis command per step.
- `Producer`, `SendSession`: one ProduceMsg request: cache, range read, decoding, the
  countdown and its callbacks.
- `Delivery`: daemon, cache and broker sessions side by side. `Reach`, `Recipients`: the
  end-to-end theorems. `LostCalls`, `Answers`: calls whose handler met a Redis error, and
  exactly which calls can still be answered. `Completion`: every push can still be finished.
  `SampleRun`, `SampleStall`: concrete runs.

Unsigned 32-bit and 64-bit wrap-around is written out wherever the source computes on such
a type (`sendingCount`, `curTaskCount`, `failCount`, `waitForSendCount`, `curUid`, ids).

## Premises

They are guards of the events in `PushSystem.Enabled` and `Delivery.Enabled`.

- Every registered process is a producer; `producer/main.cpp` is the only caller. What
  happens otherwise is `Scheduler.ForeignProcessHidesProducer`.
- Reported scores are positive, which `LoadBalance.ScoreRange` proves of the formula.
- At most (2^32 - 2) / 3 registrations, so that the 32-bit counters cannot wrap.
- A push range for which the loop ends (`Chunking.NoWrap`; by
  `Chunking.TerminatesIffNoWrap` it never ends for any other).
- A call reaches a producer's handler at most once, and a broker send that is accepted
  ends in exactly one callback.
- In `Delivery`: a range is read only inside the cached key, and the daemon receives a reply
  only if the producer sent it. The bitmaps may be republished at any time; what the theorems
  then need is that the handlers which read the bit in question agree on it
  (`Recipients.Agreed`). For bitmaps that stay fixed they need nothing more than
  `Recipients.FixedBetween`: no publishing during the push, and at its first handler a cached
  key that is absent or right.

No alignment of `start_uid` or `end_uid` is assumed. The theorems speak of the reach of a
request (`Reach.InReach`): the whole bytes from `start_uid / 8` through `end_uid / 8`, shifted
by `start_uid % 8`. For a start that is a multiple of 8 this is `start_uid` through the last
bit of `end_uid`'s byte, and each uid is decoded from its own bit.

Ids may come back while calls to their former owner are in flight; no freshness is assumed.
`PushTheorems.TaskCountExact` says for each producer exactly when its accounting is right.

## What the proofs brought to light

- A request is met literally, uid by uid, for every key that covers it, if and only if
  `start_uid` is 0 and `end_uid` is 7 modulo 8 (`Producer.ExactIffWholeBytes`). An unaligned
  start pushes to shifted uids (`Producer.ShiftedStart`), and every request that is not made of
  whole bytes can push to a uid beyond its end (`Producer.PastTheEnd`).
  `Recipients.ReachesBeyondEndIff` says when a whole push reaches somebody beyond its end.
- A push of several chunks that does not start on a byte boundary pushes to some uids twice
  without any re-send (`Reach.ChunksDisjointIffAligned`); `Recipients.TwiceIffShared` says to
  whom.
- A cache that an update leaves behind between RENAME and DEL is wrong about a uid if and only
  if the RENAME changed that uid in its table and both other tables hold it
  (`CacheProtocol.LeftCacheWrongIff`), and it stays wrong when the update is abandoned there
  (`CacheProtocol.AbandonedUpdateLeavesStale` is such a run).
- The cached key can vanish between the reply that it exists and the GETRANGE
  (`CacheProtocol.ReaderFindsNoKey`, `CacheProtocol.AReaderFindsNoKey`).
- A Redis error in ProduceMsg leaves the call object untouched, so no reply is ever sent for
  the call, and it stays in flight until the daemon is told that the connection failed
  (`LostCalls.LostCallNeedsFailure`). Given bitmaps and a cached key that are long enough,
  these are exactly the calls that cannot be answered any more
  (`Answers.AnswerableIffNotLost`; `SampleStall.AReplyIsLost` is a run with one).
- A waiting daemon can go on, without a connection failing and without a new producer, if and
  only if one of its open calls can still be answered (`Answers.GoesOnIff`). In the run
  `SampleStall.TheDaemonStalls` it cannot, although a producer is live and a chunk is left.
- The daemon's branch for an ERR reply never runs (`LostCalls.NeverRefused`): the reply holds
  ERR only until the countdown ends.
- Where the 64-bit cursor wraps, a request is sent whose end lies before its start
  (`Chunking.BackwardsIffWraps`), and the loop never ends (`Chunking.TerminatesIffNoWrap`).
- An update recorded in the same second as the one before it leaves a second row for its
  table (`UserInfoUpdate.RecordedRows`).
- A reused id can leave a producer with a task count of 2^32 - 1
  (`PushTheorems.IdReuseMiscounts`).

## Model

| member | source | states |
|---|---|---|
| `Recipients.DeliversExactly` | producer/producer.cpp:101-202 | once nothing of a push is left in the daemon, any uid on whose bit the handlers that read this bit agree has been confirmed by the broker if and only if it is in reach of the push and that bit is in all three bitmaps, through any failures, removals, re-sends and updates, also updates between the reads of different chunks; for a start that is a multiple of 8: if and only if it lies between the start and the last bit of the end's byte and is in all three |
| `Recipients.PushReachesTables` | userInfoUpdate/userInfoUpdate.cpp:61-116 | if at some state before the push's first handler the published bitmaps encode three user tables and the cached key is absent or right (as it is whenever no update is under way or abandoned), and nothing is published from there on, the recipients of a settled push are exactly the uids in its reach whose bits stand for users in all three tables |
| `Recipients.DeliversOnce` | daemonServer/daemonServer.cpp:216-277 | if no chunk of the push was sent twice, at any time at most one call and one position of its handler have confirmed a uid, unless two chunks share it, which needs a start that is not a multiple of 8 |
| `Recipients.TwiceIffShared` | daemonServer/daemonServer.cpp:216-277 | in a settled push without re-sends, a target on whose bit the handlers that read it agree is confirmed by two calls if and only if two chunks share it |
| `Recipients.ReachesBeyondEndIff` | producer/producer.cpp:151-178 | a settled push on whose bits its handlers agree has reached somebody beyond its end_uid if and only if one of the bits that fill up the last byte is in all three bitmaps; with an aligned start, some uid in (end_uid, last bit of its byte] |
| `Recipients.OnlyTargets` | producer/producer.cpp:167-178 | at any time, whoever has received the message is in reach of the push, and the bit it was decoded from is in all three bitmaps the handler read |
| `Recipients.SendsWhatWasAsked` | daemonServer/daemonServer.cpp:199-242 | every handler of a push sends the message its BeginPush event asked for, about a part of the range asked for |
| `Recipients.HandlersSee` | producer/producer.cpp:103-165 | if nothing is published from a state before a push's first handler on, and the cached key is absent or right at that state, every handler of the push reads the intersection of the bitmaps published then |
| `Recipients.QuietIsCurrent` | userInfoUpdate/userInfoUpdate.cpp:184-233 | whenever no update is under way or abandoned, the cached key is absent or right |
| `Delivery.InvHolds` | producer/producer.cpp:101-202 | in every run of daemon, cache and handlers together: the daemon's and the cache's invariants, every call carries a chunk of its push and is with at most one of a handler at work on the cache, a sending handler or a handler that gave up, every sending handler works on the bits of its call's chunk, and each acknowledged chunk has a finished handler |
| `SampleRun.APushArrives` | daemonServer/daemonServer.cpp:188-213 | a run in which a push settles and its one recipient has the message: the premises above can be met |
| `Reach.ChunkBytes` | daemonServer/daemonServer.cpp:218-227 | the reach of a push is the union of the reaches of its chunks, and a uid is in reach of two chunks if and only if the start is not a multiple of 8 and the uid is one of the first eight of a later chunk |
| `Reach.ChunksDisjointIffAligned` | producer/producer.cpp:151-178 | no uid is pushed to by two chunks of a push of several chunks, for every key that covers it, if and only if the push starts at a multiple of 8 |
| `LostCalls.LostCallNeedsFailure` | producer/producer.cpp:101-161 | a call whose handler returned on a Redis error never gets a handler that sends or a reply; it is in flight exactly until the daemon runs the two failure sections for it |
| `LostCalls.LostBecause` | producer/producer.cpp:103-161 | a call is lost only because its handler had a command fail or found the intersection empty |
| `LostCalls.EnteredStays` | producer/producer.cpp:101-202 | a call that has reached its handler is from then on with a handler at work on the cache, a sending one, or lost |
| `LostCalls.NeverRefused` | daemonServer/daemonServer.cpp:327-346 | no run takes the branch for an ERR reply, because the reply holds ERR until the countdown ends and SUCCESS when it is sent |
| `LostCalls.LostRepliesStall` | daemonServer/daemonServer.cpp:271-275 | a waiting daemon whose open calls are all lost or known to have failed goes on waiting, with the same calls open, until a failed call is given up or a producer registers |
| `Answers.AnswerableIffNotLost` | producer/producer.cpp:101-241 | the run can go on to a state in which the producer has answered a call if and only if the call is not lost; a handler that has still to read needs bitmaps, or a cached key, that reach its chunk's last byte |
| `Answers.GoesOnIff` | daemonServer/daemonServer.cpp:271-275 | a waiting daemon can get done with an open call, without a failed call being given up and without a registration, if and only if some open call is neither lost nor known to have failed |
| `SampleStall.AReplyIsLost` | producer/producer.cpp:103-112 | a run with a call in flight that can never be answered, although its producer is live |
| `SampleStall.TheDaemonStalls` | daemonServer/daemonServer.cpp:247-275 | a run after which a daemon with one live producer and a chunk left to send waits and cannot go on |
| `Completion.CanSettle` | daemonServer/daemonServer.cpp:216-391 | from every reachable state of the whole system with a live producer, lost calls among the open ones, and with published bitmaps that reach the last byte of every push, the run can go on to a state in which every push received so far has settled |
| `PushTheorems.InvHolds` | daemonServer/daemonServer.cpp:216-391 | registry coherence, flow bound, accounting and chunk conservation hold in every state of every run |
| `PushTheorems.NoChunkLost` | daemonServer/daemonServer.cpp:216-391 | in every reachable state each chunk of each push is in exactly one of: undispatched, awaiting re-send, in flight, acknowledged; nothing else is in any of them |
| `PushTheorems.SettledMeansAcked` | daemonServer/daemonServer.cpp:327-346 | when no loop, re-send or call of a push is left, each of its chunks has been acknowledged exactly once |
| `PushTheorems.RegistryAgrees` | daemonServer/daemonServer.cpp:53-76 | in every reachable state server registry, producer table and rank values name the same ids, idle is a subset, fail counts are within the limit, and a dispatch never dereferences a missing rank entry or picks a removed producer |
| `PushTheorems.FlowBound` | daemonServer/daemonServer.cpp:230-252 | sendingCount equals the calls whose decrease has not run, and with the idle producers it stays within three per registration plus one, though idle dispatches check no limit |
| `PushTheorems.FlowBoundWithoutRemovals` | daemonServer/daemonServer.cpp:230-252 | in a run without removals the bound is three per current producer plus one |
| `PushTheorems.TaskCountExact` | daemonServer/daemonServer.cpp:377-391 | a live producer's task count equals the calls carrying its id if and only if none carried it at registration; then it is idle exactly when it has no call and the decrement cannot underflow |
| `PushTheorems.SendingCountSplits` | daemonServer/daemonServer.cpp:377-391 | with fresh ids sendingCount is the sum of the live task counts plus the calls orphaned by removals |
| `PushTheorems.WorkConserving` | daemonServer/daemonServer.cpp:229-270 | with fresh ids a producer gets a further chunk only when every live producer has a call |
| `PushTheorems.NeverStuck` | daemonServer/daemonServer.cpp:229-275 | the daemon waits only without producers or with more than three calls in flight per producer |
| `Progress.WaitPersists` | daemonServer/daemonServer.cpp:229-275 | a waiting daemon goes on waiting with the same open calls until one of them is done with or a producer registers; removals do not help |
| `PushTheorems.FailCountIsCharged` | daemonServer/daemonServer.cpp:350-366 | failCount is the number of failures charged to the id since its registration or the last sweep |
| `PushTheorems.InfoIsLatest` | daemonServer/daemonServer.cpp:117-169 | a live producer's timestamp and score are those of its latest registration or heartbeat and its latest score report |
| `PushTheorems.RemovalCauses` | daemonServer/daemonServer.cpp:348-366 | a producer is removed only by a sweep more than 10 seconds after its latest sign of life, or by the 51st failure of its registration and sweep period |
| `History.RemovedIff` | daemonServer/daemonServer.cpp:348-478 | an event removes a live producer if and only if it is such a sweep or such a failure |
| `History.SendFollowsChoice` | daemonServer/daemonServer.cpp:218-276 | a pass in any run changes nothing if the choice is to wait, and otherwise starts one call, to the server chosen, with the first part, at most 4096 uids, of what its handler has left |
| `History.PushIsAsked` | daemonServer/daemonServer.cpp:199-203 | in every state after a BeginPush event the push is the message and the range that were asked for |
| `History.CallWasAsked` | daemonServer/daemonServer.cpp:199-242 | every call ever started sends the message, and a part of the range, of one BeginPush event |
| `History.AckedIsReplied` | daemonServer/daemonServer.cpp:327-337 | a chunk is acknowledged as often as a SUCCESS reply to a call with it arrived, which is at most once |
| `History.FlowBoundByEvents` | daemonServer/daemonServer.cpp:230-252 | the flow bound with the number of registration events; every id is at most 2^31 - 1 plus that number |
| `History.CountExactIffFreshId` | daemonServer/daemonServer.cpp:40-76 | a live producer's task count equals the calls with its id if and only if no open call had the id when it last registered, and then it is idle exactly without calls |
| `History.WhatCanHappen` | daemonServer/daemonServer.cpp:216-391 | in every reachable state heartbeats, positive scores, sweeps, the timer and new pushes whose loop ends are possible, registrations while the 32-bit counters suffice, a pass of every handler that has something to send with any of the 10001 draws, and a reply, refusal or failure of exactly the open calls without a completion |
| `PushTheorems.IdReuseMiscounts` | daemonServer/daemonServer.cpp:40-50 | a run in which a redrawn id leaves a producer without calls with task count 2^32 - 1 |
| `Conservation.PlacesStep` | daemonServer/daemonServer.cpp:327-375 | every event keeps the equation between the chunks of all pushes and the chunks in the four places |
| `FlowControl.AccountStep` | daemonServer/daemonServer.cpp:231-266 | every event keeps the accounting law of every producer, in 32-bit arithmetic and without assuming fresh ids |
| `FlowControl.FlowStep` | daemonServer/daemonServer.cpp:230-252 | every event keeps the flow-control bound |
| `Scheduler.RegisterCoherent` | daemonServer/daemonServer.cpp:40-76 | registration adds one idle producer with zero counts and score 10 under an id nobody holds, the random one in an empty registry and otherwise one more than the largest, and keeps the containers coherent |
| `Scheduler.SweepIsRestriction` | daemonServer/daemonServer.cpp:438-478 | after the erasing sweep the registry is exactly the old entries still alive, the other containers are restricted to match, and failure counts are zero |
| `Scheduler.ChoiceIsLive` | daemonServer/daemonServer.cpp:231-266 | in a coherent state the choice is defined and names a live producer, the idle one with the smallest id if any is idle, and it is to wait exactly if nobody is idle and there is no producer or sendingCount is above three per producer |
| `Scheduler.ForeignProcessHidesProducer` | daemonServer/daemonServer.cpp:492-511 | at the next rebalance a process that is not a producer takes over the rank key of the last producer, which is then named nowhere in the map, and enters the producer table |
| `Daemon.DaemonState.ClientRegister` | daemonServer/daemonServer.cpp:40-76 | the registration section changes the shared state exactly as `Scheduler.Registered` says |
| `Daemon.DaemonState.LoadBalance` | daemonServer/daemonServer.cpp:117-127 | a score update stores the score of a known id, reports an error for an unknown one and changes nothing else |
| `Daemon.DaemonState.HeartBeat` | daemonServer/daemonServer.cpp:157-169 | a heartbeat renews the timestamp of a known id and reports an error for an unknown one |
| `Daemon.DaemonState.SendPass` | daemonServer/daemonServer.cpp:218-276 | one pass of the loop sends the chunk at the cursor to the chosen producer and advances, or waits and changes nothing |
| `Daemon.DaemonState.SelectProducerAndSend` | daemonServer/daemonServer.cpp:216-277 | the loop keeps the state coherent; what it has sent followed by the chunks of the rest is the split of the request; every chunk goes where the choice for its draw says in the state the chunk before it left; and it stops with something left only if its draws are used up or it has to wait |
| `Daemon.DaemonState.DrawServer` | daemonServer/daemonServer.cpp:251-258 | the weighted draw returns the entry of the smallest rank key not below the random rank |
| `Daemon.DaemonState.CountFailure` | daemonServer/daemonServer.cpp:350-366 | the failure section counts, and past the limit removes the producer everywhere and rebalances |
| `Daemon.DaemonState.DecreaseProducerTask` | daemonServer/daemonServer.cpp:377-391 | both counters drop by one, and a producer that reaches zero becomes idle |
| `Daemon.DaemonState.CheckProcAlive` | daemonServer/daemonServer.cpp:438-478 | the loop that erases while iterating computes `Scheduler.Swept` |
| `Daemon.DaemonState.Rebalance` | daemonServer/daemonServer.cpp:492-511 | the loop builds the rank map of the scores in id order, with the entries `operator[]` inserts |
| `Chunking.SplitLoop` | daemonServer/daemonServer.cpp:216-277 | the loop sends exactly the chunks of `Chunking.Split`, in order |
| `Chunking.SplitShape` | daemonServer/daemonServer.cpp:218-227 | the number of chunks is the rounded-up quotient; chunk i starts 4096 * i after the start, is non-empty and at most 4096 long |
| `Chunking.SplitCoversOnce` | daemonServer/daemonServer.cpp:218-227 | every uid of the range is in exactly one chunk, no other uid in any |
| `Chunking.Resplit` | daemonServer/daemonServer.cpp:340-345 | splitting a sent chunk again gives that chunk alone, so a re-send repeats the request |
| `Chunking.TerminatesIffNoWrap` | daemonServer/daemonServer.cpp:218-227 | the loop ends if and only if the 64-bit cursor does not wrap before passing the end |
| `Chunking.BackwardsIffWraps` | daemonServer/daemonServer.cpp:222-227 | a chunk ends before it starts exactly where the 64-bit sum wraps |
| `LoadBalance.ScoreRange` | common/common.cpp:28-31 | every reported score is in (0, 10] |
| `LoadBalance.ScoreOrder` | producer/producer.cpp:294-305 | an idle producer reports 10, one that has tasks and completed nothing 0.0001, and among those that completed something (up to 10^8 messages per interval) more messages give a higher score, all above 0.0001 |
| `LoadBalance.ScoreMeaning` | common/rocketmq.h:94-102 | the average time is the interval of 10000 ms divided by its messages, and the score times the average time plus 7 is 70 |
| `LoadBalance.RankMapIsPrefixSums` | daemonServer/daemonServer.cpp:492-511 | with positive scores the keys are exactly the running sums and each names the server that completes it |
| `LoadBalance.SelectsInterval` | daemonServer/daemonServer.cpp:255-258 | lower_bound finds server i if and only if the rank lies in the interval of length score i between the sums before and through i |
| `LoadBalance.RanksNameOnce` | daemonServer/daemonServer.cpp:492-511 | with positive scores the rank map names every registered server exactly once |
| `LoadBalance.AllNamedIffPositive` | daemonServer/daemonServer.cpp:503-509 | with non-negative scores every server stays selectable if and only if none but the first has score zero |
| `Sampling.DrawShare` | daemonServer/daemonServer.cpp:251-258 | of the 10001 draws a server gets its share of 10000 to within 1, the first one a surplus in (0, 1] |
| `Sampling.DrawsPartition` | daemonServer/daemonServer.cpp:251-258 | the counts of all servers add up to 10001 |
| `Sampling.FairAfterRebalance` | daemonServer/daemonServer.cpp:480-511 | after any rebalance of a coherent state these shares are those of the registered scores |
| `Fairness.RankIsLatest` | daemonServer/daemonServer.cpp:480-511 | in every reachable state the rank map is that of the scores at the latest rebalance, made for the servers registered now |
| `Fairness.DispatchIsFair` | daemonServer/daemonServer.cpp:247-266 | every weighted dispatch of every run gives each live producer its share of the draws by the scores of the latest rebalance, to within 1, the first one a surplus in (0, 1] |
| `Bits.WithUidAdds` | userInfoUpdate/userInfoUpdate.cpp:98-99 | the `or` assignment adds one uid to the bitmap and changes no other bit |
| `Bits.AndIntersects` | producer/producer.cpp:117-121 | BITOP AND of three strings of any lengths holds exactly the uids in all three |
| `Bits.PopCountIsSize` | userInfoUpdate/userInfoUpdate.cpp:155-165 | BITCOUNT is the number of uids the bitmap holds |
| `Bits.DiffCount` | userInfoUpdate/userInfoUpdate.cpp:143-165 | the count of the XOR is the size of the symmetric difference of the two uid sets |
| `Redis.OverwrittenBytes` | userInfoUpdate/userInfoUpdate.cpp:104-109 | SETRANGE leaves the new bytes, the old ones around them and zero bytes in a gap |
| `UserInfoUpdate.EncodeWindow` | userInfoUpdate/userInfoUpdate.cpp:85-100 | for rows in any order, with duplicates, bit o of the sub-bitmap is set if and only if uid begin + o was returned; every write is in bounds |
| `UserInfoUpdate.AppendWindow` | userInfoUpdate/userInfoUpdate.cpp:104-109 | writing the next sub-bitmap behind the TEMP string extends the encoding by that window |
| `UserInfoUpdate.BuildTemp` | userInfoUpdate/userInfoUpdate.cpp:52-116 | if the window loop completes, TEMP encodes all END / W + 1 windows; otherwise only TEMP has changed |
| `UserInfoUpdate.WindowsTile` | userInfoUpdate/userInfoUpdate.cpp:238-249 | each uid can be returned for exactly one window |
| `UserInfoUpdate.EncodingIsTable` | userInfoUpdate/userInfoUpdate.cpp:238-249 | if each window returned the table's uids, the bitmap is the table cut off after the last window |
| `UserInfoUpdate.CheckDiff` | userInfoUpdate/userInfoUpdate.cpp:118-180 | the check accepts if and only if nothing was published or the count of differing bits, taken modulo 2^32, is below END_UID; it gives no answer only if a command failed, and leaves no DIFF key unless one did |
| `UserInfoUpdate.AcceptsIffFewer` | userInfoUpdate/userInfoUpdate.cpp:165-174 | a difference percentage below 100 means fewer than END_UID differing bits |
| `UserInfoUpdate.UpdateUserInfo` | userInfoUpdate/userInfoUpdate.cpp:47-236 | whichever command fails, even after taking effect, RELEASE is the old value or the complete new encoding, replaced only if it was absent or the count of differing bits, taken modulo 2^32, is below END_UID; the update stops early only if something failed; once it has published, the time is recorded, TEMP is gone and so is the cached key unless its DEL failed; otherwise the cached key is untouched; no other key but TEMP and DIFF changes |
| `UserInfoUpdate.RecordedRows` | userInfoUpdate/userInfoUpdate.cpp:196-224 | after a complete recording all rows of the table hold the new time, there is at least one, and one was added only if none held another time |
| `CacheProtocol.InvHolds` | producer/producer.cpp:103-165 | in every interleaving the cache shows one of the listed releases, at most two while no update was abandoned |
| `CacheProtocol.FlagsMean` | userInfoUpdate/userInfoUpdate.cpp:184-233 | an update is under way from its RENAME until its DEL or early return; one abandoned counts as such until the cached key is next deleted, expired or rebuilt |
| `CacheProtocol.PlaceFollowsReplies` | producer/producer.cpp:103-165 | in every run a handler builds because EXISTS found no key, sets the expiry because its BITOP left one, and reads because EXISTS or EXPIRE found one |
| `CacheProtocol.CacheCoherent` | userInfoUpdate/userInfoUpdate.cpp:184-233 | an existing cache is the AND of the three current bitmaps unless the updater is between RENAME and DEL or abandoned an update there |
| `CacheProtocol.CacheIsAsBuilt` | producer/producer.cpp:113-130 | in every run an existing cache is the intersection of the bitmaps published when the last BITOP ran, and nothing has deleted it since |
| `CacheProtocol.StaleByAtMostOne` | userInfoUpdate/userInfoUpdate.cpp:184-233 | while no update was abandoned, an existing cache is the current intersection or, between RENAME and DEL, that of the bitmaps in the state just before the latest RENAME of the run |
| `CacheProtocol.LeftCacheWrongIff` | userInfoUpdate/userInfoUpdate.cpp:184-233 | from a RENAME until the cached key is next deleted, expired, rebuilt or published over, a cache that was right before is wrong about u if and only if the RENAME changed u in its table and both other bitmaps hold u |
| `CacheProtocol.AbandonedUpdateLeavesStale` | userInfoUpdate/userInfoUpdate.cpp:203-208 | a run in which an update that stops after its RENAME leaves a stale cache |
| `CacheProtocol.ReaderFindsNoKey` | producer/producer.cpp:132-165 | a handler told that the key is there finds none at its GETRANGE if and only if the key was deleted, expired or emptied since and not built again |
| `CacheProtocol.AReaderFindsNoKey` | producer/producer.cpp:132-165 | a run in which the key expires between EXPIRE and GETRANGE |
| `Producer.DecodeUids` | producer/producer.cpp:167-178 | the nested loop computes `Producer.Decode` |
| `Producer.PushedExactly` | producer/producer.cpp:151-178 | for any start and end inside the key the uids are strictly increasing and are the set bits of the whole-byte range, shifted by start modulo 8 |
| `Producer.AlignedInverts` | producer/producer.cpp:151-178 | for a start that is a multiple of 8 the uids are exactly the encoded ones from start through the last bit of the end's byte |
| `Producer.InvertsIffAligned` | producer/producer.cpp:151-178 | decoding inverts encoding on the whole bytes of a request, for every key that covers it, if and only if the start is a multiple of 8 |
| `Producer.ExactIffWholeBytes` | producer/producer.cpp:151-178 | a request pushes to exactly the uids of the key from start_uid through end_uid, for every key that covers it, if and only if start_uid is 0 and end_uid is 7 modulo 8 |
| `Producer.ShiftedStart` | producer/producer.cpp:167-178 | for every unaligned start, a key and a uid that is pushed to without being in it |
| `Producer.PastTheEnd` | producer/producer.cpp:151-163 | for every request that does not start at 0 and end at 7 modulo 8, a key and a uid beyond the end that is pushed to |
| `Producer.ProduceMsgCallData.NotifyOne` | producer/producer.cpp:84-99 | a confirmation counts down in 32 bits, and at zero puts SUCCESS into the reply and finishes |
| `Producer.WithCacheIntersects` | producer/producer.cpp:113-130 | building a missing key makes it hold exactly the uids of all three RELEASE values, leaves none if all are empty, and changes nothing else |
| `Producer.ProduceMsgCallData.EnsureCache` | producer/producer.cpp:103-149 | unless a command fails, it succeeds exactly if the key was there or the intersection of the RELEASE values is not empty, and builds only a missing key; when one fails it does not succeed, and the key is unchanged or built; no other key changes |
| `Producer.ProduceMsgCallData.ProduceMsg` | producer/producer.cpp:101-202 | unless a command fails, it succeeds exactly if the key is there or can be built; on success the uids are decoded from a copy of the requested byte range, which is the cached key's own range if the key reaches that far and undefined behind its end otherwise, and the countdown is set to their number, finished at once if there are none; on error nothing is sent and no reply state changes |
| `SendSession.RepliesOnce` | producer/producer.cpp:84-99 | under any interleaving of sends, callbacks and retries the countdown equals the unconfirmed uids, and Finish has been called once, with SUCCESS, if all are confirmed and never otherwise |
| `SendSession.CallbacksMatchSends` | producer/producer.cpp:205-241 | for every uid each accepted send has had one callback but for one outstanding; a uid is confirmed by exactly one success, and after a refusal it has to be sent again first |
| `SendSession.ActiveUntilReply` | producer/producer.cpp:205-241 | before the reply some send or callback is possible, after it none |

## Left out

- gRPC stubs, completion queues, threads, sleeps and object deletion: only critical sections and call, reply and failure events are kept.
- Server address, group id, printed output and string formatting of keys, SQL and scores: they do not influence the modelled state.
- The retry loops of the Redis and MySQL wrappers: a command either reports success after taking effect or reports failure, having taken effect or not.
- IEEE rounding: scores, ranks and percentages are exact reals.
- A push whose handler reads a missing or too short cached key: the source then copies bytes from behind the reply. `Producer.ProduceMsgCallData.ProduceMsg` states what is left to say of such a call, and `CacheProtocol.ReaderFindsNoKey` when the key can be missing; `Delivery` has no event for it.
- Delivery.Enabled: the redisMtx of a producer process is not modelled, so handlers of one process interleave more freely than they do.
- The producer's own `taskCount`: it is only an input of the reported score.
- The calendar test in `CheckAndUpdateUserInfo`, `consumer`, `startPush`, `genUserInfo` and the daemon client.
- Daemon.DaemonState.SelectProducerAndSend: the loop is given finitely many draws and runs alone; how the passes of several handlers interleave is in `PushSystem`, not in a method.
- Producer.ProduceMsgCallData.ProduceMsg: assumes that no other process writes the cached key meanwhile; the concurrent case is `CacheProtocol` and `Delivery`.
- UserInfoUpdate.UpdateUserInfo: the database is seen as changed by this program alone, which holds for TEMP, DIFF and RELEASE; the cached key under concurrency is in `CacheProtocol`.
