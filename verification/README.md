# Verification model of the sharded game server

A Dafny model of the server's ownership, fencing and exactly-once layer, of the slot engine and
its round protocol, of the counters that carry guarantees over whole runs, and of the account
binding tables. `dafny verify dfyconfig.toml` checks everything.

| component | modules |
|---|---|
| Redis keys, scripts and the clients that pack their arguments | `Keyspace`, `Scripts`, `Effects`, `RedisServer` |
| claims, leases, epochs, delayed writes | `Cluster`, `Claimer`, `Rebalance`, `Handoffs`, `SortedHandoffs` |
| cross-shard transfers, memory against store | `Bags`, `Transfer`, `TransferCopies`, `TransferOnce`, `TransferConservation`, `TransferExamples`, `TransferProgress` |
| the shard actor, dirty marks, flushing | `Actor`, `Dirty`, `Flush` |
| random source, slot engine, rounds, strips | `Rng`, `Slots`, `Rounds`, `Strips` |
| gacha, limits, ledger, battle rooms, identifiers, bindings | `Gacha`, `TenPulls`, `Odds`, `Limits`, `Ledgers`, `Rooms`, `Snowflake`, `Accounts` |
| sums over finite sets | `Sums` |

Protocols are step systems (`State`, `Step`, `Enabled`, `Apply`) whose theorems hold for every
run: any interleaving, with deliveries that are delayed, repeated and reordered without bound.
Code that changes objects in place is a class or a method with loops, proved against a
specification function; the promises are then lemmas about that function or invariants every
method keeps.

## Assumptions

- Every Lua script is one atomic step, and a script error means that the script did not run.
- Keys do not expire and ledgers are not trimmed.
- Callbacks are delivered to the actor and handlers do not panic.
- The clock and the random generator are arbitrary: a generator is any function of its seed and
  of the bounds drawn so far, so only the order of draws matters.
- Redis keys are constructors instead of formatted strings, except in `Accounts`, where the
  string form matters. Serialised values stand for what they encode.
- Integers are unbounded, except the 32-bit round and pity counters, which wrap around.
- Reading a player's modules is one step, and so is each command of the requeue pipeline.
- Writes of the transfer runs are begins, claims and commits: every claimed transfer was begun by
  its sender, so deliveries of system jobs, which have no sender, are not part of a run, and
  neither are write-through requests (those are in `Scripts` and `RedisServer`).

## What turned out not to hold

The code is modelled as it is. These promises hold only under a condition, which is proved
exact:

- A line does not pay the best symbol when the wild symbol is also the scatter and the reels can
  show a paying run that starts with it; start-up validation accepts such a machine
  (`Slots.ShownLinesFollowTheRuleExactly`).
- The high pity of a pool fails when its top rarity is below its high rarity and an entry lies in
  between, except for one combination of limits (`Gacha.HighGuaranteeExactly`). A ten-pull of such a
  pool can miss the high rarity too, unless top pity can never be due on its tenth draw
  (`TenPulls.TenPullGuaranteeExactly`, with a request in `TenPulls.TenPullMisses`).
- A delivery to a full bag creates the items it mails, since the transfer stays unclaimed
  (`TransferConservation.WorldIsKeptExactly`, with a run in `TransferExamples.FullBagExample`).
- A begun, uncredited transfer is not always in the pending index: it leaves exactly with the first
  command of a requeue that takes out its only member, until the second command puts it back
  (`TransferOnce.LeavesIndexExactly`, with a run in `TransferExamples.RequeueEmptiesTheIndex`;
  `TransferOnce.UnclaimedIsFindable` says where it is meanwhile).
- A module can end up clean with an older version stored, exactly when it is flushed while another
  version of it still waits to be written and no failure is pending that will mark it again (`Flush.LostExactlyWhenStale`, `Flush.SubmitIsSafeExactly`,
  with a run in `Flush.ReorderedBatchesLoseAVersion`).
- A clock that returns to an earlier day clears the daily totals, so the day's bets and losses can
  reach twice the limit; either limit holds exactly when no day of a paid request comes back after a
  paid request of another day (`Limits.DayLimitHoldsExactly`, `Limits.LossLimitHoldsExactly`, with a
  run in `Limits.ClockGoesBack`).
- A handoff that the donor completes and the receiver fails to claim is not counted against the
  donor, which can then be drained below its share. It keeps the share in every round exactly when
  its lost handoffs and the completed ones that can still be counted do not exceed its excess; what
  heavier nodes give first is subtracted from what can be counted
  (`SortedHandoffs.ShareIsKeptExactlyInOrder`, and `Handoffs.ShareIsKeptExactly` for arbitrary orders
  of the candidates). When every handoff is lost, one round empties every donor
  (`Handoffs.AllLostEmptiesDonors`, with a run in `Handoffs.LostHandoffsEmptyDonor`).
- A battle reward would overdraw an empty wallet exactly for a score below minus one hundred
  (`Ledgers.RewardIsSafeExactly`). No room sends one: scores start at zero and only grow
  (internal/room/handlers.go:155), so battles settled by rooms keep balances non-negative
  (`Rooms.Room.Settle`).
- Item entries, written under currency zero with balance zero, break the chain of that currency
  unless its balance is zero (`Ledgers.NoteIsALinkExactly`).
- Spreading a strip of a length divisible by seven loses symbols (`Strips.SpreadKeepsCountsExactly`).
- Channel names that contain a colon can share accounts (`Accounts.KeysCollideExactly`), and
  opening an account with a used uid can break the tables (`Accounts.ResolveKeepsConsistentExactly`).

## Model

| member | source | states |
|---|---|---|
| `Scripts.UnappliedChangesNothing` | pkg/store/fencing.go:25-126 | a refused, duplicate or skipped script leaves the whole database as it was |
| `Scripts.StaleIsRefused` | pkg/store/fencing.go:44-46 | a request below its shard's epoch is never applied, whichever script it is |
| `Scripts.EpochsOnlyRise` | pkg/store/fencing.go:25-33 | no script lowers an epoch, and only a raise to exactly that epoch moves one |
| `Scripts.UntouchedDataIsKept` | pkg/store/fencing.go:43-51 | a script changes no data key it does not name |
| `Scripts.OrderKeyIsKept` | pkg/store/fencing.go:93-111 | an idempotency key keeps its first payload under every later script |
| `Scripts.FirstUseStoresPayload` | pkg/store/fencing.go:332-359 | the first applied use stores and returns its own payload |
| `Scripts.LaterUsesRepeat` | pkg/store/fencing.go:334-338 | once a key holds a payload, every later use anywhere in a run answers with it |
| `Scripts.TakesEffectOnce` | pkg/store/fencing.go:332-359 | over any run of scripts each idempotency key takes effect at most once and repeats return the first payload |
| `Effects.CommitAnswers` | pkg/store/fencing.go:332-359 | which of invalid, duplicate, fenced and applied a commit answers, from its key, epoch and ledger |
| `Effects.CommitWritesExactly` | pkg/store/fencing.go:341-359 | an applied commit appends exactly its entries to its ledger, every pair reads back, its key holds its payload and nothing else changed |
| `Effects.LedgerHoldsAppliedEntries` | pkg/store/fencing.go:348-354 | over any run of scripts a player's ledger grows by exactly the entries of the commits answered as applied, in order |
| `Effects.ModulesWriteExactly` | pkg/store/fencing.go:43-51 | every pair reads back and every other key is as it was, applied exactly at or above the epoch |
| `Effects.HashWritesExactly` | pkg/store/fencing.go:60-76 | the hash gains exactly the fields and every other one is as it was |
| `Effects.ThroughWritesExactly` | pkg/store/fencing.go:93-111 | pairs and payload read back, a used key answers with its payload, nothing else changes |
| `Effects.DeleteRemovesExactly` | pkg/store/fencing.go:118-126 | the keys are gone from every kind of storage and every other key is as it was |
| `Effects.RaiseWritesExactly` | pkg/store/fencing.go:25-33 | the epoch is raised exactly when it is higher, and only that key changes |
| `Effects.BeginWritesExactly` | pkg/xtx/xtx.go:67-85 | record, index member and debited player are written, nothing else, exactly for a new id at a current epoch |
| `Effects.ClaimWritesExactly` | pkg/xtx/xtx.go:97-109 | done marker and credited player are written, nothing else, exactly for an unclaimed id at a current epoch |
| `Effects.CompleteWritesExactly` | pkg/xtx/xtx.go:117-125 | the caller's and the stored record leave the index and no other member does; the record reads back as completed |
| `Effects.RequeueWritesExactly` | pkg/xtx/xtx.go:296-317 | the member and the record are replaced by ones with one more retry and the new time, nothing else changes |
| `RedisServer.PackKv` | pkg/store/fencing.go:411-414 | pairs appended in any map order line up position by position and cover the map exactly |
| `RedisServer.Redis.SetAll` | pkg/store/fencing.go:355-357 | the positional loop sets exactly the given pairs, for every size |
| `RedisServer.Redis.RaiseEpoch` | pkg/store/fencing.go:148-164 | the client and script perform the specified transition |
| `RedisServer.Redis.WriteModules` | pkg/store/fencing.go:176-197 | packing plus script: afterwards exactly the given modules read back, or nothing changed below the epoch |
| `RedisServer.Redis.WriteThrough` | pkg/store/fencing.go:226-260 | packing plus script: duplicate before epoch check before write; payload and pairs read back |
| `RedisServer.Redis.Delete` | pkg/store/fencing.go:263-277 | deletes exactly the given keys, whatever their type, or nothing below the epoch |
| `RedisServer.Redis.AppendAll` | pkg/store/fencing.go:348-354 | the loop appends exactly the entries, in order |
| `RedisServer.Redis.EvalCommit` | pkg/store/fencing.go:332-359 | the raw script appends exactly the entries in order and sets exactly the pairs |
| `RedisServer.Redis.PackCommit` | pkg/store/fencing.go:403-414 | three fixed keys, five fixed arguments, the entries and the pairs, each at its position |
| `RedisServer.Redis.Commit` | pkg/store/fencing.go:387-438 | place-holder keys, entry count and offsets together give the specified commit for every request size: the ledger grows by the entries, the pairs and the payload read back, no other key changes |
| `RedisServer.Redis.Begin` | pkg/xtx/xtx.go:152-193 | an empty transaction id is refused, a blank state and time are filled in, then record, pending index and debited player are written together, once |
| `RedisServer.Redis.Claim` | pkg/xtx/xtx.go:196-221 | done marker and credited player are written together, and the marker is withdrawn when fenced |
| `RedisServer.Redis.Complete` | pkg/xtx/xtx.go:226-245 | both index members are removed and the record replaced |
| `Cluster.RunKeepsInv` | pkg/shard/claim.go:492-539 | claims, beliefs, records, raised epochs and senders stay consistent in every run |
| `Cluster.AcceptedWritesCarryHighestEpoch` | pkg/store/fencing.go:25-126 | in every run an accepted fenced write carries exactly the highest epoch ever raised for its shard |
| `Cluster.LateWritesChangeNothing` | pkg/shardsvc/service.go:144-177 | once an epoch is raised, no request of an earlier owner changes the shard's data, however late it arrives |
| `Cluster.BeliefsNeverShareAnEpoch` | pkg/shard/claim.go:602-639 | nodes that believe in the same shard hold different epochs and at most one matches the record, even after unconditional deletes |
| `Cluster.RecordEpochsIncrease` | pkg/shard/claim.go:508-523 | successive records of a shard have strictly increasing epochs |
| `Cluster.TakeoverSucceeds` | pkg/shard/claim.go:492-539 | after any run a node that finds a shard free can claim it, its epoch is accepted and its write is stored and nothing else changes: fencing never shuts out the newest owner |
| `Claimer.Owner.Claim` | pkg/shard/claim.go:492-539 | takes only a free shard under a new revision; a failed start rolls both tables back |
| `Claimer.Owner.Reconcile` | pkg/shard/claim.go:454-473 | keeps exactly the beliefs the snapshot confirms by node and epoch |
| `Claimer.Owner.DropLocal` | pkg/shard/claim.go:624-639 | forgets the shard locally only |
| `Claimer.Owner.Release` | pkg/shard/claim.go:602-621 | drops an owned shard and whatever record is there; nothing for a shard not owned |
| `Claimer.Owner.Fence` | pkg/shard/claim.go:660-668 | drops the belief and leaves etcd alone |
| `Claimer.ReconciledNodesShareNothing` | pkg/shard/claim.go:454-473 | two nodes reconciled with the same records own disjoint shards |
| `Rebalance.MoveLowersExcess` | pkg/shard/claim.go:402-424 | a handoff from above to below the share lowers the total excess by exactly one |
| `Rebalance.Candidates` | pkg/shard/claim.go:380-388 | exactly the shards of other nodes above the share, each once, those of the heaviest nodes first |
| `Rebalance.RequestRebalance` | pkg/shard/claim.go:367-434 | with refused, completed and lost handoffs: the round over some heaviest-first order of the candidates; donors stay at or above the share but for lost shards, the receiver at or below, the excess falls by the number taken when none is lost, and a round without refusals ends full or with nobody above |
| `Rebalance.ClaimedByOther` | pkg/shard/claim.go:421-428 | when another node has taken a lost shard, its count is one higher and the excess at most one higher |
| `Handoffs.StepDrainsExactly` | pkg/shard/claim.go:406-428 | a request that passes the guard brings the donor below its share exactly when its lost shards make up for what the guard sees above the share |
| `Handoffs.AtLeastLeft` | pkg/shard/claim.go:402-428 | no order of the candidates takes more from a donor than its lost handoffs and what its completed ones, its excess and the wanted number allow |
| `Handoffs.FewestLeft` | pkg/shard/claim.go:402-428 | some order of the candidates takes exactly that much |
| `Handoffs.ShareIsKeptExactly` | pkg/shard/claim.go:402-428 | over all orders of the candidates a donor stays at or above its share exactly when that most is within its excess |
| `Handoffs.AllLostEmptiesDonors` | pkg/shard/claim.go:402-428 | a round whose handoffs are all lost empties every donor and gains nothing, whatever the order |
| `Handoffs.LostHandoffsEmptyDonor` | pkg/shard/claim.go:402-428 | a round of the method that leaves a donor of three shards with none |
| `SortedHandoffs.GotFromHeavier` | pkg/shard/claim.go:390-428 | when a donor's turn comes the round has what all heavier nodes can give, up to what it wants |
| `SortedHandoffs.FewestLeftInOrder` | pkg/shard/claim.go:390-428 | some heaviest-first order takes from a donor exactly the most that any such order can |
| `SortedHandoffs.ShareIsKeptExactlyInOrder` | pkg/shard/claim.go:390-428 | over all heaviest-first orders any donor stays at or above its share exactly when that most is within its excess |
| `Rebalance.SomeoneIsBelow` | pkg/shard/claim.go:476-489 | while a node exceeds the rounded-up share, another is below it |
| `Rebalance.TargetIsLeast` | pkg/shard/claim.go:476-489 | the share is the least with which the nodes can hold all shards |
| `Rebalance.Balance` | pkg/shard/claim.go:340-344 | rounds terminate, within the initial excess, with every node at or below the share |
| `Bags.PlayerBag.CountItem` | internal/lobby/player.go:248-256 | the loop counts all stacks of the template |
| `Bags.PlayerBag.AddItem` | internal/lobby/player.go:261-284 | stacks onto the first stack or opens a slot, refused exactly when neither is possible |
| `Bags.PlayerBag.RemoveItemByTpl` | internal/lobby/player.go:287-307 | takes from the stacks in order and drops empty ones, or changes nothing |
| `Bags.PlayerBag.Compact` | internal/lobby/player.go:321-330 | keeps exactly the non-empty stacks, in order |
| `Bags.RemovedCounts` | internal/lobby/player.go:287-307 | removal succeeds exactly when enough is held, takes exactly the count and touches no other template |
| `Bags.TakenInOrder` | internal/lobby/player.go:292-304 | stacks are used up in order, each giving what the ones before it left to take |
| `Bags.CompactedInOrder` | internal/lobby/player.go:321-330 | compacting keeps the non-empty stacks in order |
| `Bags.AddedCounts` | internal/lobby/player.go:261-284 | adding raises the template by the count and touches no other |
| `Bags.DebitSucceedsExactlyWhenCovered` | internal/lobby/handlers.go:701-711 | a transfer is accepted exactly when all counts are positive, the bag covers each template's total and the wallet covers the currency |
| `Bags.DebitTakesCarried` | internal/lobby/handlers.go:697-711 | the sender loses exactly what the record carries |
| `Bags.CreditGivesCarried` | internal/lobby/handlers.go:827-868 | the receiver gains exactly what the record carries |
| `TransferCopies.WrittenPlayerReadsBack` | internal/lobby/player.go:94-133 | a written player loads back equal and nobody else changes |
| `TransferCopies.MemoryEqualsStoreWhenIdle` | internal/lobby/shard.go:581-634 | in every run of commits and transfers a live owner's copy of an idle player equals the stored one |
| `TransferCopies.OneWriteInFlight` | internal/lobby/shard.go:600-632 | in every run an owner never has two writes in flight for one player |
| `TransferOnce.CreditedAtMostOnce` | pkg/xtx/xtx.go:97-109 | under any interleaving each transaction is credited at most once, and only if begun |
| `TransferOnce.UnclaimedIsFindable` | pkg/xtx/xtx.go:296-317 | a begun, uncredited transfer is in its sender's pending index or in the hands of a running requeue |
| `TransferOnce.LeavesIndexExactly` | pkg/xtx/xtx.go:296-317 | in every reachable state a step takes an uncredited transfer out of its pending index exactly when it is the first requeue command on its only member |
| `TransferProgress.FreshWriteGoesThrough` | internal/lobby/shard.go:581-634 | after any run a fresh transfer, delivery or commit that a live owner may issue for an idle player can be carried out, and memory and store both hold its result |
| `TransferProgress.LostJobComesBack` | internal/lobby/service.go:389-418 | after any run a begun transfer in the pending index can be found by a scan and offered to its receiver again, unchanged |
| `TransferConservation.StepConserves` | internal/lobby/handlers.go:685-801 | every step keeps players plus transit, up to what an applied commit grants |
| `TransferConservation.PlayersPlusTransitIsConserved` | internal/lobby/handlers.go:685-918 | in every run and for every item and currency, players plus uncredited transfers change only by what commits grant |
| `TransferConservation.FullBagDuplicatesItems` | internal/lobby/handlers.go:838-842 | with mailboxes counted, a delivery to a full bag creates exactly its items and no other step creates any |
| `TransferConservation.WorldIsKeptExactly` | internal/lobby/service.go:347-366 | over a run without grants the world total is kept exactly when no delivery of that item finds a full bag |
| `TransferExamples.FullBagExample` | internal/lobby/handlers.go:838-842 | a run from the initial state in which a delivery to a full bag adds its three items to the world |
| `TransferExamples.RequeueEmptiesTheIndex` | pkg/xtx/xtx.go:296-317 | a run in which a begun, uncredited transfer is in no index between the two requeue commands |
| `Actor.Shard.Handle` | internal/lobby/shard.go:214-241 | runs the request at once exactly when resident, idle and nobody waits; otherwise queues, rejects at 256, and starts at most one load |
| `Actor.Shard.Enqueue` | internal/lobby/shard.go:233-241 | appends to the queue, or rejects at the limit |
| `Actor.Shard.DrainWaiters` | internal/lobby/shard.go:301-316 | every request that leaves the queue is dispatched, in order, until the queue is empty or the player busy; other players are left alone |
| `Actor.Shard.FailWaiters` | internal/lobby/shard.go:318-323 | answers and removes the whole queue |
| `Actor.Shard.OnLoaded` | internal/lobby/shard.go:263-298 | a successful load installs the player and dispatches its queue in order, a failed one empties the queue without running anything |
| `Actor.Shard.OnCommitted` | internal/lobby/shard.go:621-632 | frees the player and dispatches its queue in order, or closes the shard without running anything when fenced; a busy player has exactly one write in flight and nobody else any |
| `Actor.Shard.Close` | internal/lobby/shard.go:521-556 | answers everything accepted and forgets the players |
| `Actor.Shard.Unload` | internal/lobby/shard.go:438-485 | only a player idle for long enough, without waiters or a write in flight, leaves memory, once its dirty modules are accepted for writing |
| `Actor.ReasonsElsewhere` | internal/lobby/shard.go:301-316 | a task that settles one player leaves every other player's reason to wait |
| `Actor.SettleInOrder` | internal/lobby/shard.go:301-316 | taking the head of a queue keeps the accepted requests of every player in arrival order |
| `Dirty.ModuleLevel` | pkg/store/flush.go:47-60 | which modules are flushed often and which seldom |
| `Dirty.DirtySet.Mark` | pkg/store/dirty.go:20-29 | marks the module and keeps an earlier mark |
| `Dirty.DirtySet.Take` | pkg/store/dirty.go:59-88 | takes exactly the level's modules of distinct entities with their earliest time, at most limit, and leaves all else |
| `Dirty.DirtySet.TakeAll` | pkg/store/dirty.go:91-109 | takes every mark and leaves none |
| `Dirty.DirtySet.TakeOne` | pkg/store/dirty.go:112-127 | takes every mark of the entity and of no other |
| `Dirty.DirtySet.ReMark` | pkg/store/dirty.go:130-151 | marks every module of every item at the earlier of the two times |
| `Dirty.ReMarkedIsEarliest` | pkg/store/dirty.go:130-151 | after marking again exactly the marked modules and those of the items are dirty, each since the earliest of its times |
| `Dirty.TakeThenReMarkRestores` | pkg/store/dirty.go:59-151 | taking and marking again restores every mark, none later than it was |
| `Flush.Judge` | pkg/store/flush.go:316-354 | the loop reports exactly the entities with a reply other than 1, and fencing exactly on a reply of 0 |
| `Flush.FailedExactly` | pkg/store/flush.go:320-354 | an entity counts as written only if every script of it answered 1 |
| `Flush.EveryChangeIsRemembered` | internal/lobby/shard.go:365-433 | in every run a change since the last confirmed write is marked or in an unanswered batch |
| `Flush.CleanMeansStored` | internal/lobby/shard.go:365-433 | over runs that never flush a module while another version of it waits to be written, a clean module is stored at its latest version |
| `Flush.SubmitIsSafeExactly` | internal/lobby/shard.go:365-378 | a flush makes a module stale exactly when another version waits to be written and no failure is pending |
| `Flush.LostExactlyWhenStale` | pkg/store/flush.go:203-230 | from any state, some order of the outstanding writes and answers loses the latest version exactly when the module is stale |
| `Flush.ReorderedBatchesLoseAVersion` | pkg/store/flush.go:203-230 | a run in which reordered batches leave the older version stored and everything clean |
| `Rng.Source.IntN` | pkg/rng/rng.go:79-82 | the draw is determined by the stream and advances it by one |
| `Rng.Source.Chance` | pkg/rng/rng.go:105-113 | certain outcomes draw nothing, others draw once |
| `Rng.ChanceIsExact` | pkg/rng/rng.go:105-113 | exactly num of the den rolls hit, and certain outcomes draw nothing |
| `Rng.Source.WeightedPick` | pkg/rng/rng.go:116-137 | the two loops compute the specified pick from one draw, or none when no weight is positive |
| `Rng.EachIndexGetsItsWeight` | pkg/rng/rng.go:116-137 | exactly max(0, weight) of the rolls below the total pick an index |
| `Rng.FallbackIsUnreachable` | pkg/rng/rng.go:136-136 | the value returned after the loop is never used |
| `Rng.PickedIsPositive` | pkg/rng/rng.go:123-136 | a pick has positive weight, and there is none exactly when no weight is positive |
| `Slots.EvalLine` | internal/slots/engine.go:111-137 | in any map order the line's payout is the best over the candidates, with a symbol and count that justify it |
| `Slots.EvalLines` | internal/slots/engine.go:107-139 | the total and the list of wins are those of the paying lines, in order |
| `Slots.CandidateSymbols` | internal/slots/engine.go:142-158 | the set of symbols tried, independent of map order |
| `Slots.CandidatesSuffice` | internal/slots/engine.go:107-158 | trying only the candidates finds the maximum over all non-scatter symbols with wild substitution |
| `Slots.ShownLinesFollowTheRuleExactly` | internal/slots/engine.go:142-158 | over everything a machine can show, lines pay the maximum exactly when the wild is not the scatter or no paying run that starts with a wild fits the reels |
| `Slots.AnyLineCanShow` | internal/slots/engine.go:75-86 | every choice of one symbol per reel is shown on any payline by some stops |
| `Slots.ShownLineMispays` | internal/slots/engine.go:143-145 | stops that show a line that should pay and pays nothing, for every machine outside that condition |
| `Slots.LineWinIsBounded` | internal/slots/engine.go:90-91 | the total line win is between zero and the bet times the largest paytable factor |
| `Slots.EvalScatter` | internal/slots/engine.go:172-189 | counts every scatter of the grid and pays the tier of the count, the last tier beyond the table |
| `Slots.SpinReels` | internal/slots/engine.go:75-86 | stops drawn in reel order and the grid they show |
| `Slots.Spin` | internal/slots/engine.go:63-100 | the grid is what the reels show at the stops, every scatter cell counts, scatter win and free spins are their table entries, the multiplier applies to both wins, a free spin has no jackpot; the reported lines add up to the line win and each line wins what its symbols earn; no draw for a bet that is not positive |
| `Slots.SpinIsWorth` | internal/slots/engine.go:75-99 | the same relations between the fields for every stream |
| `Slots.SpinDraws` | internal/slots/engine.go:60-99 | the draws in their fixed order: one per reel out of its strip's length, then one for the jackpot unless its outcome is certain |
| `Slots.RulePaysTheBest` | internal/slots/engine.go:160-169 | the rule pays the largest paytable entry of a symbol that leads the line, wilds included, times the line bet, or nothing |
| `Slots.ReportsSettle` | internal/slots/engine.go:107-139 | reported wins are earned by their own lines, add up to the total, name no line twice, and whatever a line earns it wins at least as much |
| `Slots.ScatterCountIsCells` | internal/slots/engine.go:172-180 | the count is the number of cells that show the scatter |
| `Rounds.ForwardIsReplay` | internal/lobby/slots.go:340-362 | the fast-forward reaches exactly the replay's stream, free spins and multiplier after any number of spins |
| `Rounds.Replay` | internal/slots/engine.go:209-241 | the audit loop returns the specified results, or an error for a bet that is not positive |
| `Rounds.ReplayIsSpins` | internal/slots/engine.go:220-238 | each replayed result is the machine's spin at that point of the seed's stream |
| `Rounds.ReplayIsWorth` | internal/slots/engine.go:220-238 | every replayed result is worth what its symbols pay, free spins at the machine's multiplier and paid ones at one, and free spins are counted down |
| `Rounds.ReplayMovesOn` | internal/slots/engine.go:220-238 | each spin continues the stream where the one before stopped |
| `Rounds.AdvanceFollows` | internal/lobby/slots.go:143-171 | a committed spin keeps the round equal to the replay of its seed |
| `Rounds.AdvanceCounts` | internal/lobby/slots.go:159-171 | spin index, total win, free spins left and total keep counting the spins played, modulo 32 bits |
| `Rounds.LeftIsTotalLessPlayed` | internal/lobby/slots.go:159-171 | without overflow the free spins left are the total less the free spins played |
| `Rounds.Player.FastForward` | internal/lobby/slots.go:340-362 | the loop leaves the source where the fast-forward specification says |
| `Rounds.Player.HandleSpin` | internal/lobby/slots.go:59-171 | over every sequence of paid, free, failed and repeated spins and reloads, the committed results of a round are the replay of its seed and a stored open round has free spins left; each result is worth what its symbols pay, free spins at the machine's multiplier, and the round's total grows by it |
| `Rounds.Player.Reload` | internal/lobby/player.go:146-155 | reloading restores exactly the open round |
| `Strips.Interleave` | pkg/gameconf/default.go:71-84 | reads the strip in strides of seven, a permutation when seven does not divide the length |
| `Strips.SpreadKeepsCountsExactly` | pkg/gameconf/default.go:71-84 | every strip of a length keeps its symbol counts exactly when seven does not divide the length |
| `Strips.SpreadLosesACell` | pkg/gameconf/default.go:71-84 | a strip that loses a symbol, for every length divisible by seven and every offset |
| `Gacha.PickByRarity` | internal/lobby/gacha.go:228-245 | a weighted pick among exactly the entries of the rarity |
| `Gacha.PickedAmongDrops` | internal/lobby/gacha.go:228-245 | it drops an entry of the rarity exactly when one has positive weight |
| `Odds.PickIsWeighted` | internal/lobby/gacha.go:228-245 | a pick rolls once out of the total weight of the entries of at least the rarity, and each of them gets exactly its weight of the rolls, any other none |
| `Odds.DrawIsWeighted` | internal/lobby/gacha.go:184-225 | whatever the counters, exactly an entry's weight of the rolls out of the weight at or above the draw's bar give it; without pity that is the whole pool |
| `Odds.DrawRollsOnce` | internal/lobby/gacha.go:184-225 | a draw takes one roll, out of that weight |
| `TenPulls.ChoiceIsPick` | internal/lobby/gacha.go:184-225 | a draw is a pick at the bar its counters set, and is by pity exactly when a due pity or the forced draw finds an entry |
| `Gacha.Pity.DrawOne` | internal/lobby/gacha.go:184-225 | the draw follows the pity order, and the counters are cleared by the rarity that dropped |
| `Gacha.ChoiceIsAllowed` | internal/lobby/gacha.go:184-225 | whatever the stream, a due pity gives its rarity and a forced draw gives a high entry |
| `Gacha.AllowedCanDrop` | internal/lobby/gacha.go:184-225 | every entry the counters allow is drawn for some seed |
| `Gacha.DrawnIsProduced` | internal/lobby/gacha.go:184-225 | the histories of the guarantees are exactly those that draws with some seeds produce |
| `Gacha.Collection.Pull` | internal/lobby/gacha.go:41-116 | a request succeeds exactly when it asks for at most ten and the bag takes them; its drops are those the stream gives, the last of ten forced; the counters are the draws since the last drop they count; a ten-pull contains a high drop exactly when an ordered pool has one, and misses it in another pool only through top pity on the tenth draw |
| `TenPulls.FollowsIsGiven` | internal/lobby/gacha.go:84-116 | the draws that the pity rules let follow a history in one request are exactly those that some seed gives |
| `TenPulls.TenPullGuaranteeExactly` | internal/lobby/gacha.go:84-116 | the exact condition, for every valid pool with the guarantee on, under which every ten-pull after every history contains a high drop |
| `TenPulls.TenPullMisses` | internal/lobby/gacha.go:84-116 | a ten-pull from a pool with a high entry that drops none |
| `Gacha.CountersAreExact` | internal/lobby/gacha.go:184-225 | with the entries present, the 32-bit counters are the exact numbers of draws since the last top and high drop |
| `Gacha.TopGuaranteeExactly` | internal/lobby/gacha.go:190-196 | any PityTop draws in a row contain a top drop exactly when the pool has a top entry of positive weight |
| `Gacha.HighGuaranteeExactly` | internal/lobby/gacha.go:198-206 | the exact condition, for every valid pool, under which any PityHigh draws in a row contain a high drop |
| `Limits.DaysPartitionTime` | pkg/rg/rg.go:41-46 | every moment lies in exactly one day, which starts at midnight of the offset's zone, and days follow time |
| `Limits.EffectiveIsStrictest` | pkg/rg/rg.go:63-68 | the effective limit is the stricter of the positive ones |
| `Limits.CheckDecides` | pkg/rg/rg.go:71-110 | when each answer is given: self-exclusion before the bet limit before the loss limit before the session limit, and allowed exactly when none applies |
| `Limits.OnlyAllowedBetsAreCommitted` | internal/lobby/slots.go:86-98 | over any run and any clock a paid spin is committed only outside the exclusion period and within the session limit, and it is the one asked for |
| `Limits.Account.Rollover` | pkg/rg/rg.go:50-59 | clears the totals exactly when the day changed |
| `Limits.Account.HandlePaid` | internal/lobby/slots.go:86-98 | the check rolls the memory copy over and decides in that order; a written allowed spin adds its bet and win to the day's totals of both copies and to the history, any other changes no total but the rollover |
| `Limits.Account.HandleFree` | internal/lobby/slots.go:210-215 | a free spin bets nothing and its win is added to the day's total and the history |
| `Limits.Account.LoadAgain` | internal/lobby/player.go:156-163 | reloading forgets a rollover that was never committed |
| `Limits.TotalsStayWithinCaps` | pkg/rg/rg.go:71-103 | whatever the clock does, bet and loss totals of both copies stay within the effective limits |
| `Limits.RunTracesBets` | internal/lobby/slots.go:86-98 | while no paid day comes back, the bet total is the sum of the day's committed bets and no day exceeds the limit, over paid, free, failed and reloaded requests |
| `Limits.RunTracesWins` | internal/lobby/slots.go:210-215 | the same for the win total |
| `Limits.DayLimitHoldsExactly` | pkg/rg/rg.go:50-59 | for given times of paid requests every day stays within the limit, whatever is bet, won, committed or reloaded, exactly when no day comes back after another |
| `Limits.LossLimitHoldsExactly` | pkg/rg/rg.go:71-103 | the same for the day's bets less its wins and the loss limit |
| `Limits.WinsAreCommitted` | internal/lobby/slots.go:210-215 | whatever the clock does, no win total exceeds the committed wins of its day |
| `Limits.ReturningDayTakesTwice` | pkg/rg/rg.go:50-59 | a day that comes back takes, and loses, twice the cap, for every cap and all such times |
| `Limits.SteadyClockNeverReturns` | pkg/rg/rg.go:41-46 | a clock that does not go back never returns to a day |
| `Limits.ClockGoesBack` | pkg/rg/rg.go:50-59 | three requests through the handler after which a day with a limit of ten holds bets of twenty |
| `Ledgers.PostedKeepsBooks` | internal/lobby/slots.go:173-208 | whatever is posted, sums explain balances and every real currency stays a chain ending in its balance |
| `Ledgers.Wallet.Commit` | internal/lobby/shard.go:581-634 | entries and balances are swapped in together, once per key, or nothing changes |
| `Ledgers.Wallet.HandleSpin` | internal/lobby/slots.go:173-208 | once per key the balance changes by the win less the bet and no other balance does, with the bet, win and contribution entries and their balances in order; refused when short; balances stay non-negative |
| `Ledgers.SpinPosted` | internal/lobby/slots.go:181-208 | the bet is taken, the win is paid on top of what is left, the contribution only notes the balance |
| `Ledgers.Wallet.HandleGacha` | internal/lobby/gacha.go:48-116 | once per key the price times the draws is taken, with one cost entry and one note per drop, refused when short or when the bag is full |
| `Ledgers.Wallet.HandlePurchase` | internal/lobby/handlers.go:541-566 | one entry of the product's amount |
| `Ledgers.Wallet.HandleBattleSettle` | internal/lobby/handlers.go:616-653 | once per key one hundred plus the score, doubled for a winner, is paid in gold with one entry; a score of at least minus one hundred keeps the balances non-negative |
| `Ledgers.RewardIsSafeExactly` | internal/lobby/handlers.go:616-627 | a score keeps every non-negative wallet non-negative exactly from minus one hundred upwards |
| `Ledgers.LowScoreOverdraws` | internal/lobby/handlers.go:616-627 | below that an empty wallet goes into debt |
| `Rooms.Room.HandleScore` | internal/room/handlers.go:144-155 | only a member in a battle scores, by the length of the payload plus one, so no score is negative |
| `Rooms.Room.Result` | internal/room/room.go:112-131 | the winners are exactly the members with the highest score, in order, and no score is negative |
| `Rooms.Room.Settle` | internal/lobby/handlers.go:608-653 | a battle settled by its room pays one hundred plus the score, doubled for the highest, and never overdraws a wallet |
| `Ledgers.Wallet.HandleGrant` | internal/lobby/gm.go:41-70 | once per key the amount is added, with one money entry, unless it would overdraw, then one note per item |
| `Ledgers.Wallet.HandleApplyJackpot` | internal/lobby/slots.go:418-441 | one entry of a positive amount, refused otherwise |
| `Ledgers.Balance` | pkg/ledger/ledger.go:182-202 | the newest-first loop returns the sum and the last balance of the currency |
| `Ledgers.Wallet.Reconcile` | pkg/ledger/ledger.go:177-202 | the recomputation over the untrimmed ledger of any run returns the balance less the opening one and, as soon as the currency has an entry, the balance itself |
| `Ledgers.NoteIsALinkExactly` | internal/lobby/gacha.go:113-115 | an item entry continues the chain of currency zero exactly when that balance is zero |
| `Snowflake.Generator.Next` | pkg/idgen/snowflake.go:74-135 | for every clock, issued identifiers are strictly increasing, numbered on within a millisecond and from zero in a new one; when it halts, recovers, waits or fails |
| `Snowflake.Generator.CatchUp` | pkg/idgen/snowflake.go:91-108 | after a small step back the last moment is waited for before going on |
| `Snowflake.Generator.Step` | pkg/idgen/snowflake.go:111-121 | the sequence number advances, and a used-up millisecond is waited out |
| `Snowflake.Generator.Stamp` | pkg/idgen/snowflake.go:121-134 | the identifier of the moment, or an error outside the 41 bits |
| `Snowflake.WaitFor` | pkg/idgen/snowflake.go:167-173 | returns the first reading that reaches the target |
| `Snowflake.ParseRecoversParts` | pkg/idgen/snowflake.go:184-195 | parsing recovers timestamp, worker, service, node and sequence; no identifier is zero |
| `Snowflake.IdentitiesNeverCollide` | pkg/ident/ident.go:89-104 | identifiers of different (service, node) identities differ whatever the clocks show |
| `Snowflake.ShiftsPack` | pkg/idgen/snowflake.go:132-132 | the shifts and masks on 64 bits are the model's arithmetic |
| `Accounts.KeysCollideExactly` | pkg/account/account.go:59-61 | two channels can share a forward key exactly when one continues the other after a colon |
| `Accounts.ValueKeepsOpenid` | pkg/account/account.go:84-87 | the openid is recovered from the joined value, colons included |
| `Accounts.ValueKeepsTime` | pkg/account/account.go:215-230 | the time of a binding is recovered from the joined value |
| `Accounts.ResolveKeepsConsistentExactly` | pkg/account/account.go:79-87 | opening keeps the tables consistent exactly when the account is known or the candidate has nothing on the channel |
| `Accounts.ColonChannelsShareAccounts` | pkg/account/account.go:59-61 | a login on one channel that reaches another channel's account |
| `Accounts.Store.Resolve` | pkg/account/account.go:137-156 | returns the bound uid and changes nothing, or opens the candidate with exactly one binding on both sides; the tables stay consistent |
| `Accounts.Store.Bind` | pkg/account/account.go:100-112 | when it binds, is taken, is already bound or is invalid, and exactly what binding adds; the tables stay consistent |
| `Accounts.Store.ReadOpenid` | pkg/account/account.go:184-194 | the read of an unbind, a step of its own |
| `Accounts.Store.Unbind` | pkg/account/account.go:123-131 | with any earlier read, when it answers not bound, raced or last binding, and otherwise removes exactly both sides; every uid given out keeps a binding |
| `Accounts.UnbindKeepsConsistent` | pkg/account/account.go:123-131 | compare-and-set unbinding keeps forward and reverse tables equal |

## Left out

- NATS, JetStream, Redis and etcd clients, encodings, metrics, logging, configuration loading and start-up: plumbing around the modelled steps.
- Authentication, payment channels, gateway sockets, chat, world boss, profile and rank: thin or foreign code.
- `scriptWriteHash`: part of `Scripts.Exec`, without a client method, since its fields are passed through unpacked.
- RedisServer.Redis.Commit: key expiry and ledger trimming are not modelled.
- RedisServer.Redis.Begin: the transaction id zero stands for the empty one; key expiry is not modelled.
- Rebalance.RequestRebalance: a lost shard belongs to nobody at the end of the round (`Rebalance.ClaimedByOther` says what changes when another node has claimed it); rounds on stale snapshots and a round cut short by its context are not modelled.
- Claimer.Owner.Claim: the steps of other nodes between the transaction and a rollback are in `Cluster`, not in this class.
- TransferCopies.MemoryEqualsStoreWhenIdle: runs contain commits and transfers but no flush batches, because a queued older batch can land after a commit.
- TransferProgress.LostJobComesBack: a scan reads the whole index; its age and number limits are not modelled.
- Flush.EveryChangeIsRemembered: entities stay resident; unloading drops the object before its flush is confirmed.
- Actor.Shard.OnCommitted: a fenced write closes the shard at once; whether the fencing call returns is not modelled.
- Actor.Shard.Close: the full flush of a graceful release is not modelled here.
- Actor.Shard.Unload: what the flush before unloading writes is not modelled here.
- Rounds.Player.HandleSpin: balance and limit checks are in `Ledgers` and `Limits`, requests name the round's game, the machine stays the same during a round, and nothing is claimed once the 32-bit spin index has wrapped around.
- Slots.EvalLines: which of several equally good symbols is reported depends on map order and is left open.
- Gacha.Collection.Pull: the cost is in `Ledgers`; the total draw counter and the created items are left out; the pool stays the same.
- Ledgers.Wallet.HandleSpin: the kind, round and reference of an entry are left out, and whether a contribution is due is an input.
- Ledgers.Wallet.HandleBattleSettle: the experience loop is left out.
- Ledgers.Wallet.Reconcile: transfers and direct currency additions write no entry in the commit and are not part of a wallet's run; the latest balance of currency zero is not claimed.
- Rooms.Room.HandleScore: joining, leaving and snapshots are left out; leaving only removes a score.
- Jackpot pools: the payout of overlapping claims is recorded from an earlier read.
- Snowflake.Generator.Next: a call that waits for ever is shown as waiting with the lock held.
- Limits.Account.HandlePaid: notices and the start of sessions are left out.
